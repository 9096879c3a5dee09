/** The discount-demand feature helpers (src/services/feature_engineering.py):
    the two text parsers for campaign item lists and discount descriptions,
    the hour-to-daypart partition, the clamped price multiplier, the
    campaign-window rule that decides which order lines count towards a
    campaign's label, and the chronological 70/15/15 split.

    Raw cells arrive as `Option<string>`: `None` is a NaN cell, a present cell
    is the text `str()` gives for it. */
module DiscountFeatures {

  import opened Wrappers
  import opened Seqs
  import opened Text
  import Sorting

  // ---------------------------------------------------------------------
  // parse_item_ids
  // ---------------------------------------------------------------------

  /** The text left after stripping whitespace, then double quotes, then
      single quotes from both ends. */
  function CleanIds(s: string): string {
    StripChar(StripChar(StripSpace(s), '"'), '\'')
  }

  /** The item id a comma-separated part contributes: the integer of its
      first run of digits, none when it has no digit. */
  function PartId(p: string): (r: Option<nat>)
    ensures r.None? <==> NoDigits(p)
  {
    match FirstDigitRun(StripSpace(p))
    case None =>
      assert NoDigits(p) by { StrippedDigits(p); }
      None
    case Some(run) =>
      assert !NoDigits(p) by { StrippedDigits(p); }
      Some(DigitsToInt(run))
  }

  /** Stripping whitespace never removes a digit. */
  lemma StrippedDigits(p: string)
    ensures NoDigits(StripSpace(p)) <==> NoDigits(p)
  {
    var l := TrimLeft(p, IsSpace);
    TrimmedDigits(p, l, |p| - |l|);
    var r := TrimRight(l, IsSpace);
    assert StripSpace(p) == r;
    TrimmedDigits(l, r, 0);
    assert NoDigits(r) <==> NoDigits(l);
  }

  /** Cutting whitespace off either end of `s` to leave the slice `r`
      starting at `k` keeps every digit. */
  lemma TrimmedDigits(s: string, r: string, k: nat)
    requires k + |r| <= |s| && r == s[k..k + |r|]
    requires forall i :: 0 <= i < k ==> IsSpace(s[i])
    requires forall i :: k + |r| <= i < |s| ==> IsSpace(s[i])
    ensures NoDigits(r) <==> NoDigits(s)
  {
    if NoDigits(r) {
      forall i | 0 <= i < |s|
        ensures !IsAsciiDigit(s[i])
      {
        if k <= i < k + |r| {
          assert s[i] == r[i - k];
        }
      }
    }
  }

  /** The values present in `xs`, in order. */
  function Somes<T>(xs: seq<Option<T>>): (out: seq<T>)
    ensures |out| <= |xs|
    decreases |xs|
  {
    if |xs| == 0 then []
    else
      var init := Somes(xs[..|xs| - 1]);
      match xs[|xs| - 1]
      case None => init
      case Some(v) => init + [v]
  }

  /** A value is kept exactly when some entry holds it. */
  lemma {:induction false} SomesMembers<T>(xs: seq<Option<T>>, v: T)
    ensures v in Somes(xs) <==> exists i :: 0 <= i < |xs| && xs[i] == Some(v)
    decreases |xs|
  {
    if |xs| > 0 {
      var init := xs[..|xs| - 1];
      SomesMembers(init, v);
      assert forall i :: 0 <= i < |init| ==> init[i] == xs[i];
      if v in Somes(xs) && v !in Somes(init) {
        assert xs[|xs| - 1] == Some(v);
      }
    }
  }

  /** When every entry holds a value, all of them are kept. */
  lemma {:induction false} SomesOfPresent<T>(xs: seq<Option<T>>, vs: seq<T>)
    requires |xs| == |vs| && forall i :: 0 <= i < |xs| ==> xs[i] == Some(vs[i])
    ensures Somes(xs) == vs
    decreases |xs|
  {
    if |xs| > 0 {
      SomesOfPresent(xs[..|xs| - 1], vs[..|vs| - 1]);
      assert vs == vs[..|vs| - 1] + [vs[|vs| - 1]];
    }
  }

  /** The id each part contributes, position by position. */
  function PartIdList(parts: seq<string>): (r: seq<Option<nat>>)
    ensures |r| == |parts|
    ensures forall i :: 0 <= i < |parts| ==> r[i] == PartId(parts[i])
  {
    seq(|parts|, i requires 0 <= i < |parts| => PartId(parts[i]))
  }

  /** The ids of the parts, in order, skipping parts without digits. */
  function PartIds(parts: seq<string>): (out: seq<nat>)
    ensures |out| <= |parts|
  {
    Somes(PartIdList(parts))
  }

  /** An id is among the parts' ids exactly when some part contributes it. */
  lemma PartIdsMembers(parts: seq<string>, v: nat)
    ensures v in PartIds(parts) <==> exists i :: 0 <= i < |parts| && PartId(parts[i]) == Some(v)
  {
    var xs := PartIdList(parts);
    SomesMembers(xs, v);
    if v in PartIds(parts) {
      var i :| 0 <= i < |xs| && xs[i] == Some(v);
      assert PartId(parts[i]) == Some(v);
    } else {
      forall i | 0 <= i < |parts|
        ensures PartId(parts[i]) != Some(v)
      {
        assert xs[i] != Some(v);
      }
    }
  }

  /** `parse_item_ids`: no ids for NaN, for an empty text or for "nan" in
      any case; otherwise the first digit run of every comma-separated part,
      each id kept once, at its first occurrence. */
  function ParseItemIds(raw: Option<string>): (ids: seq<nat>)
    ensures raw.None? ==> ids == []
    ensures NoDuplicates(ids)
    ensures raw.Some? && (CleanIds(raw.value) == [] || Lower(CleanIds(raw.value)) == "nan") ==> ids == []
  {
    match raw
    case None => []
    case Some(text) =>
      var s := CleanIds(text);
      if s == [] || Lower(s) == "nan" then []
      else Dedup(PartIds(Split(s, ',')))
  }

  /** For a live text: at most one id per part, exactly the ids some part
      contributes, listed in the order of their first contribution. */
  lemma ParseItemIdsContents(text: string)
    requires CleanIds(text) != [] && Lower(CleanIds(text)) != "nan"
    ensures var parts := Split(CleanIds(text), ',');
      var ids := ParseItemIds(Some(text));
      && |ids| <= |parts|
      && (forall v :: v in ids <==> exists i :: 0 <= i < |parts| && PartId(parts[i]) == Some(v))
      && (forall i, j :: 0 <= i < j < |ids| ==> FirstIndex(PartIds(parts), ids[i]) < FirstIndex(PartIds(parts), ids[j]))
  {
    LiveItemIds(text);
    IdsOfParts(Split(CleanIds(text), ','));
  }

  /** The de-duplicated ids of some parts: at most one per part, exactly
      the ids some part contributes, in the order of first contribution. */
  lemma IdsOfParts(parts: seq<string>)
    ensures var ids := Dedup(PartIds(parts));
      && |ids| <= |parts|
      && (forall v :: v in ids <==> exists i :: 0 <= i < |parts| && PartId(parts[i]) == Some(v))
      && (forall i, j :: 0 <= i < j < |ids| ==> FirstIndex(PartIds(parts), ids[i]) < FirstIndex(PartIds(parts), ids[j]))
  {
    forall v: nat {
      PartIdsMembers(parts, v);
    }
  }

  /** A live text is parsed part by part, then de-duplicated. */
  lemma LiveItemIds(text: string)
    requires CleanIds(text) != [] && Lower(CleanIds(text)) != "nan"
    ensures ParseItemIds(Some(text)) == Dedup(PartIds(Split(CleanIds(text), ',')))
  {
  }

  /** The texts of ids, as `str()` writes them. */
  function IdTexts(ids: seq<nat>): (ts: seq<string>)
    ensures |ts| == |ids|
    ensures forall i :: 0 <= i < |ids| ==> ts[i] == NatText(ids[i])
  {
    seq(|ids|, i requires 0 <= i < |ids| => NatText(ids[i]))
  }

  /** A list of distinct ids written out comma-separated parses back to
      itself. */
  lemma ItemIdsRoundTrip(ids: seq<nat>)
    requires |ids| >= 1 && NoDuplicates(ids)
    ensures ParseItemIds(Some(Join(IdTexts(ids), ','))) == ids
  {
    var ts := IdTexts(ids);
    var s := Join(ts, ',');
    forall i | 0 <= i < |ts|
      ensures ',' !in ts[i] && |ts[i]| > 0 && AllDigits(ts[i])
    {
      DigitsExclude(ts[i], ',');
    }
    JoinEnds(ts, ',');
    CleanKeepsDigitEnds(s);
    ParseOfClean(s);
    SplitJoin(ts, ',');
    PartIdsOfTexts(ids);
    DedupOfDistinct(ids);
  }

  /** Cleaning leaves a text alone that starts and ends with a digit. */
  lemma CleanKeepsDigitEnds(s: string)
    requires |s| > 0 && IsAsciiDigit(s[0]) && IsAsciiDigit(s[|s| - 1])
    ensures CleanIds(s) == s
  {
    StripKeeps(s, IsSpace);
    StripCharKeeps(s, '"');
    StripCharKeeps(s, '\'');
  }

  /** A clean text starting with a digit is split and parsed part by part. */
  lemma ParseOfClean(s: string)
    requires CleanIds(s) == s && |s| > 0 && IsAsciiDigit(s[0])
    ensures ParseItemIds(Some(s)) == Dedup(PartIds(Split(s, ',')))
  {
    assert Lower(s)[0] == s[0];
    LiveItemIds(s);
  }

  /** A digit run holds no character that is not a digit. */
  lemma DigitsExclude(t: string, c: char)
    requires AllDigits(t) && !IsAsciiDigit(c)
    ensures c !in t
  {
  }

  /** A join of non-empty parts starts with the first part's first
      character and ends with the last part's last character. */
  lemma {:induction false} JoinEnds(parts: seq<string>, sep: char)
    requires |parts| >= 1 && forall i :: 0 <= i < |parts| ==> |parts[i]| > 0
    ensures var s := Join(parts, sep);
      |s| > 0 && s[0] == parts[0][0] && s[|s| - 1] == parts[|parts| - 1][|parts[|parts| - 1]| - 1]
    decreases |parts|
  {
    if |parts| > 1 {
      JoinEnds(parts[1..], sep);
    }
  }

  /** Splitting a join of separator-free parts gives the parts back. */
  lemma {:induction false} SplitJoin(parts: seq<string>, sep: char)
    requires |parts| >= 1 && forall i :: 0 <= i < |parts| ==> sep !in parts[i]
    ensures Split(Join(parts, sep), sep) == parts
    decreases |parts|
  {
    var s := Join(parts, sep);
    if |parts| == 1 {
      assert IndexOf(s, sep).None?;
    } else {
      var p := parts[0];
      var rest := Join(parts[1..], sep);
      assert s == p + [sep] + rest;
      assert s[..|p|] == p && s[|p|] == sep;
      assert IndexOf(s, sep) == Some(|p|);
      assert s[|p| + 1..] == rest;
      SplitJoin(parts[1..], sep);
      assert parts == [p] + parts[1..];
    }
  }

  /** Stripping leaves a text alone whose end characters are kept. */
  lemma StripKeeps(s: string, drop: char -> bool)
    requires |s| > 0 && !drop(s[0]) && !drop(s[|s| - 1])
    ensures Strip(s, drop) == s
  {
    assert TrimLeft(s, drop) == s;
  }

  lemma StripCharKeeps(s: string, c: char)
    requires |s| > 0 && s[0] != c && s[|s| - 1] != c
    ensures StripChar(s, c) == s
  {
    assert TrimLeft(s, x => x == c) == s;
  }

  /** The leading digits of a digit run are the whole run. */
  lemma {:induction false} LeadingDigitsOfRun(t: string)
    requires AllDigits(t)
    ensures LeadingDigits(t) == t
    decreases |t|
  {
    if |t| > 0 {
      LeadingDigitsOfRun(t[1..]);
      assert t == [t[0]] + t[1..];
    }
  }

  /** The id of a number's text is the number. */
  lemma PartIdOfText(n: nat)
    ensures PartId(NatText(n)) == Some(n)
  {
    var t := NatText(n);
    StripKeeps(t, IsSpace);
    assert FirstDigitIndex(t) == Some(0);
    assert t[0..] == t;
    LeadingDigitsOfRun(t);
    NatTextRoundTrip(n);
  }

  lemma PartIdsOfTexts(ids: seq<nat>)
    ensures PartIds(IdTexts(ids)) == ids
  {
    var xs := PartIdList(IdTexts(ids));
    forall i | 0 <= i < |ids|
      ensures xs[i] == Some(ids[i])
    {
      PartIdOfText(ids[i]);
    }
    SomesOfPresent(xs, ids);
  }

  /** Deduplicating a list without repeats changes nothing. */
  lemma {:induction false} DedupOfDistinct<T(!new)>(xs: seq<T>)
    requires NoDuplicates(xs)
    ensures Dedup(xs) == xs
    decreases |xs|
  {
    if |xs| > 0 {
      var init := xs[..|xs| - 1];
      DistinctInit(xs);
      DedupOfDistinct(init);
      assert Dedup(xs) == init + [xs[|xs| - 1]];
    }
  }

  /** Dropping the last element of a list without repeats leaves one
      without repeats that does not hold that element. */
  lemma DistinctInit<T>(xs: seq<T>)
    requires |xs| > 0 && NoDuplicates(xs)
    ensures NoDuplicates(xs[..|xs| - 1]) && xs[|xs| - 1] !in xs[..|xs| - 1]
  {
    var init := xs[..|xs| - 1];
    forall i, j | 0 <= i < j < |init|
      ensures init[i] != init[j]
    {
      assert init[i] == xs[i] && init[j] == xs[j];
    }
    forall k | 0 <= k < |init|
      ensures init[k] != xs[|xs| - 1]
    {
      assert init[k] == xs[k];
    }
  }

  // ---------------------------------------------------------------------
  // parse_discount
  // ---------------------------------------------------------------------

  /** A parsed discount: a fraction off, "X for Y", "buy X get Y", buy one
      get one, or not understood. */
  datatype Discount =
    | Pct(pct: real)
    | XForY(buyQty: nat, payQty: nat)
    | BuyXGetY(buyQty: nat, getQty: nat)
    | Bogo
    | UnknownDiscount
  {
    function Kind(): string {
      match this
      case Pct(_) => "pct"
      case XForY(_, _) => "x_for_y"
      case BuyXGetY(_, _) => "buy_x_get_y"
      case Bogo => "bogo"
      case UnknownDiscount => "unknown"
    }

    /** The five-tuple fields `discount_pct`, `buy_qty`, `pay_qty` and
        `get_qty`, NaN where the kind has none; buy one get one reads as
        buy 2, pay 1, get 1. */
    function PctField(): Option<real> {
      if Pct? then Some(pct) else None
    }

    function BuyField(): Option<real> {
      if XForY? || BuyXGetY? then Some(buyQty as real)
      else if Bogo? then Some(2.0)
      else None
    }

    function PayField(): Option<real> {
      if XForY? then Some(payQty as real)
      else if Bogo? then Some(1.0)
      else None
    }

    function GetField(): Option<real> {
      if BuyXGetY? then Some(getQty as real)
      else if Bogo? then Some(1.0)
      else None
    }
  }

  /** `n` shifted `k` decimal places to the right: n / 10^k. */
  function Shifted(n: nat, k: nat): (r: real)
    ensures 0.0 <= r <= n as real
  {
    if k == 0 then n as real else Shifted(n, k - 1) / 10.0
  }

  /** The value of a decimal numeral with integer digits `a` and fraction
      digits `f`. */
  function Decimal(a: string, f: string): (v: real)
    requires AllDigits(a) && AllDigits(f)
    ensures DigitsToInt(a) as real <= v
  {
    DigitsToInt(a) as real + Shifted(DigitsToInt(f), |f|)
  }

  /** Whether `t` matches `\s*%?\s*$`. */
  predicate PercentTail(t: string) {
    var u := TrimLeft(t, IsSpace);
    |u| == 0 || (u[0] == '%' && |TrimLeft(u[1..], IsSpace)| == 0)
  }

  /** A match of `^\s*(\d+(\.\d+)?)\s*%?\s*$`: the number it captures. Both
      digit runs are greedy, and giving a digit back could only leave a
      digit where the pattern needs a dot, a space, '%' or the end, so the
      longest runs decide the match. */
  function PercentNumber(s: string): Option<real> {
    var t := TrimLeft(s, IsSpace);
    var a := LeadingDigits(t);
    if |a| == 0 then None
    else
      var rest := t[|a|..];
      if |rest| >= 2 && rest[0] == '.' && IsAsciiDigit(rest[1]) then
        var f := LeadingDigits(rest[1..]);
        if PercentTail(rest[1 + |f|..]) then Some(Decimal(a, f)) else None
      else if PercentTail(rest) then Some(Decimal(a, []))
      else None
  }

  /** Whether `t` starts with `w`. */
  predicate StartsWith(t: string, w: string) {
    |w| <= |t| && t[..|w|] == w
  }

  /** A match of `pre\s*(\d+)\s*mid\s*(\d+)` starting at `i`, or of
      `(\d+)\s*mid\s*(\d+)` when `pre` is empty: the two numbers captured.
      As for the percentage, the greedy runs decide the match. */
  function PairAt(s: string, i: nat, pre: string, mid: string): Option<(nat, nat)>
    requires i <= |s|
  {
    if !StartsWith(s[i..], pre) then None
    else
      var t := s[i + |pre|..];
      var t1 := if |pre| > 0 then TrimLeft(t, IsSpace) else t;
      var a := LeadingDigits(t1);
      var t2 := TrimLeft(t1[|a|..], IsSpace);
      if |a| == 0 || !StartsWith(t2, mid) then None
      else
        var b := LeadingDigits(TrimLeft(t2[|mid|..], IsSpace));
        if |b| == 0 then None else Some((DigitsToInt(a), DigitsToInt(b)))
  }

  /** The first match of `m` at a position in [from, last]. */
  function FirstMatch(m: nat -> Option<(nat, nat)>, last: nat, from: nat): Option<(nat, nat)>
    decreases last + 1 - from
  {
    if from > last then None
    else if m(from).Some? then m(from)
    else FirstMatch(m, last, from + 1)
  }

  /** Nothing is found exactly when no position in [from, last] matches,
      and otherwise the match at the first position that does. */
  lemma {:induction false} FirstMatchLeftmost(m: nat -> Option<(nat, nat)>, last: nat, from: nat)
    ensures var r := FirstMatch(m, last, from);
      && (r.None? <==> forall i :: from <= i <= last ==> m(i).None?)
      && (r.Some? ==> exists i :: from <= i <= last && m(i) == r && forall j :: from <= j < i ==> m(j).None?)
    decreases last + 1 - from
  {
    if from <= last && m(from).None? {
      FirstMatchLeftmost(m, last, from + 1);
      var r := FirstMatch(m, last, from);
      if r.Some? {
        var i: nat :| from + 1 <= i <= last && m(i) == r && forall j :: from + 1 <= j < i ==> m(j).None?;
        assert forall j :: from <= j < i ==> m(j).None?;
      }
    }
  }

  /** The pair pattern's matches, position by position. */
  function PairsIn(s: string, pre: string, mid: string): nat -> Option<(nat, nat)> {
    (i: nat) => if i <= |s| then PairAt(s, i, pre, mid) else None
  }

  /** `re.search` with the pair pattern: the match at the leftmost position. */
  function SearchPair(s: string, pre: string, mid: string): Option<(nat, nat)> {
    FirstMatch(PairsIn(s, pre, mid), |s|, 0)
  }

  /** The search finds nothing exactly when no position matches, and
      otherwise the match at the first position that does. */
  lemma SearchPairLeftmost(s: string, pre: string, mid: string)
    ensures var r := SearchPair(s, pre, mid);
      var m := PairsIn(s, pre, mid);
      && (r.None? <==> forall i :: 0 <= i <= |s| ==> m(i).None?)
      && (r.Some? ==> exists i :: 0 <= i <= |s| && m(i) == r && forall j :: 0 <= j < i ==> m(j).None?)
  {
    FirstMatchLeftmost(PairsIn(s, pre, mid), |s|, 0);
  }

  /** A match at the start is the one the search reports. */
  lemma SearchAtStart(s: string, pre: string, mid: string)
    requires PairAt(s, 0, pre, mid).Some?
    ensures SearchPair(s, pre, mid) == PairAt(s, 0, pre, mid)
  {
    assert PairsIn(s, pre, mid)(0) == PairAt(s, 0, pre, mid);
  }

  /** The lower-cased, stripped text `parse_discount` matches against. */
  function DiscountText(raw: string): string {
    Lower(StripSpace(raw))
  }

  /** The decision of `parse_discount` on the normalised text `s`: a bare
      number with an optional '%' is that many percent; else "X for Y"; else
      "buy X get Y"; else any mention of "bogo", "buy one get one" or "2x1"
      is buy one get one; else unknown. */
  function Classify(s: string): Discount {
    match PercentNumber(s)
    case Some(n) => Pct(n / 100.0)
    case None =>
      match SearchPair(s, "", "for")
      case Some(xy) => XForY(xy.0, xy.1)
      case None =>
        match SearchPair(s, "buy", "get")
        case Some(xy) => BuyXGetY(xy.0, xy.1)
        case None =>
          if Contains(s, "bogo") || Contains(s, "buy one get one") || Contains(s, "2x1") then Bogo
          else UnknownDiscount
  }

  /** Which pattern wins: a percentage before "X for Y" before "buy X get
      Y" before the buy-one-get-one words; unknown only when none is present. */
  lemma ClassifyPrecedence(s: string)
    ensures var d := Classify(s);
      && (d.Pct? <==> PercentNumber(s).Some?)
      && (d.XForY? <==> PercentNumber(s).None? && SearchPair(s, "", "for").Some?)
      && (d.BuyXGetY? <==> PercentNumber(s).None? && SearchPair(s, "", "for").None? && SearchPair(s, "buy", "get").Some?)
      && (d.Bogo? ==> PercentNumber(s).None? && SearchPair(s, "", "for").None? && SearchPair(s, "buy", "get").None?)
      && (d.UnknownDiscount? <==>
            (PercentNumber(s).None? && SearchPair(s, "", "for").None? && SearchPair(s, "buy", "get").None?
             && !Contains(s, "bogo") && !Contains(s, "buy one get one") && !Contains(s, "2x1")))
  {
  }

  /** `parse_discount`: unknown for a NaN cell, otherwise the decision on
      the stripped, lower-cased text. */
  function ParseDiscount(raw: Option<string>): (d: Discount)
    ensures raw.None? ==> d == UnknownDiscount
  {
    match raw
    case None => UnknownDiscount
    case Some(text) => Classify(DiscountText(text))
  }

  /** `parse_discount_any`: the `discount_raw` cell when it is not NaN,
      otherwise the `type` cell, an absent one read as the empty text. */
  function ParseDiscountAny(discountRaw: Option<string>, typeCell: Option<string>): (d: Discount)
    ensures discountRaw.Some? ==> d == ParseDiscount(discountRaw)
    ensures discountRaw.None? && typeCell.Some? ==> d == ParseDiscount(typeCell)
  {
    if discountRaw.Some? then ParseDiscount(discountRaw) else ParseDiscount(typeCell)
  }

  // Round trips of the parser on the texts it is meant for. Each step is
  // stated for any digit run; the round trips instantiate it with the text
  // `str()` gives for a number.

  /** A text that is its own normalised form is classified as it stands. */
  lemma ParseOfNormal(t: string)
    requires DiscountText(t) == t
    ensures ParseDiscount(Some(t)) == Classify(t)
  {
  }

  lemma ClassifyPct(s: string, v: real)
    requires PercentNumber(s) == Some(v)
    ensures Classify(s) == Pct(v / 100.0)
  {
  }

  lemma ClassifyFor(s: string, x: nat, y: nat)
    requires PercentNumber(s).None? && SearchPair(s, "", "for") == Some((x, y))
    ensures Classify(s) == XForY(x, y)
  {
  }

  lemma ClassifyBuyGet(s: string, x: nat, y: nat)
    requires PercentNumber(s).None? && SearchPair(s, "", "for").None?
    requires SearchPair(s, "buy", "get") == Some((x, y))
    ensures Classify(s) == BuyXGetY(x, y)
  {
  }

  /** A text with no upper-case letter and no space at either end is its
      own normalised form. */
  lemma DiscountTextKeeps(s: string)
    requires |s| > 0 && !IsSpace(s[0]) && !IsSpace(s[|s| - 1])
    requires forall i :: 0 <= i < |s| ==> !('A' <= s[i] <= 'Z')
    ensures DiscountText(s) == s
  {
    StripKeeps(s, IsSpace);
  }

  /** The leading digits of a run followed by a non-digit are the run. */
  lemma {:induction false} LeadingDigitsBefore(a: string, rest: string)
    requires AllDigits(a) && (|rest| > 0 ==> !IsAsciiDigit(rest[0]))
    ensures LeadingDigits(a + rest) == a
    decreases |a|
  {
    if |a| == 0 {
      assert a + rest == rest;
    } else {
      LeadingDigitsBefore(a[1..], rest);
      assert (a + rest)[1..] == a[1..] + rest;
      assert a == [a[0]] + a[1..];
    }
  }

  /** Trimming leaves a text alone that does not start with a space. */
  lemma TrimKeeps(t: string)
    requires |t| > 0 && !IsSpace(t[0])
    ensures TrimLeft(t, IsSpace) == t
  {
  }

  /** One space before a text that does not start with one is trimmed away. */
  lemma TrimOneSpace(t: string)
    requires |t| > 0 && !IsSpace(t[0])
    ensures TrimLeft(" " + t, IsSpace) == t
  {
    assert (" " + t)[1..] == t;
  }

  /** A lone '%' is an accepted percentage tail. */
  lemma PercentSignTail()
    ensures PercentTail("%")
  {
    TrimKeeps("%");
    assert TrimLeft("%"[1..], IsSpace) == [];
  }

  /** A numeral without fraction digits is its integer. */
  lemma DecimalWhole(a: string)
    requires AllDigits(a)
    ensures Decimal(a, []) == DigitsToInt(a) as real
  {
  }

  /** The percentage pattern reads a digit run followed by '%' as its number. */
  lemma PercentOfRun(a: string)
    requires |a| > 0 && AllDigits(a)
    ensures PercentNumber(a + "%") == Some(DigitsToInt(a) as real)
  {
    var s := a + "%";
    assert IsAsciiDigit(s[0]);
    TrimKeeps(s);
    LeadingDigitsBefore(a, "%");
    assert s[|a|..] == "%";
    PercentSignTail();
    DecimalWhole(a);
  }

  /** A digit run followed by '%' is its own normalised form. */
  lemma PercentTextKeeps(a: string)
    requires |a| > 0 && AllDigits(a)
    ensures DiscountText(a + "%") == a + "%"
  {
    var s := a + "%";
    assert IsAsciiDigit(s[0]) && s[|s| - 1] == '%';
    DiscountTextKeeps(s);
  }

  /** A normalised text the percentage pattern reads as `v` is `v` percent. */
  lemma PercentParsed(s: string, v: real)
    requires DiscountText(s) == s && PercentNumber(s) == Some(v)
    ensures ParseDiscount(Some(s)) == Pct(v / 100.0)
  {
    ParseOfNormal(s);
    ClassifyPct(s, v);
  }

  /** The percentage pattern reads "N%" as N. */
  lemma PercentOfNat(n: nat)
    ensures PercentNumber(NatText(n) + "%") == Some(n as real)
  {
    PercentOfRun(NatText(n));
    NatTextRoundTrip(n);
  }

  /** "N%" is N percent. */
  lemma PercentRoundTrip(n: nat)
    ensures ParseDiscount(Some(NatText(n) + "%")) == Pct(n as real / 100.0)
  {
    PercentTextKeeps(NatText(n));
    PercentOfNat(n);
    PercentParsed(NatText(n) + "%", n as real);
  }

  /** Whether `u` is a suffix of `s`, as every TrimLeft result is. */
  predicate IsSuffix(u: string, s: string) {
    |u| <= |s| && u == s[|s| - |u|..]
  }

  lemma SuffixTrans(u: string, v: string, w: string)
    requires IsSuffix(u, v) && IsSuffix(v, w)
    ensures IsSuffix(u, w)
  {
    assert w[|w| - |v|..][|v| - |u|..] == w[|w| - |u|..];
  }

  lemma TrimSuffix(t: string)
    ensures IsSuffix(TrimLeft(t, IsSpace), t)
  {
  }

  lemma DropSuffix(t: string, k: nat)
    requires k <= |t|
    ensures IsSuffix(t[k..], t)
  {
  }

  /** The text after the digits of a pair match, trimmed, is a suffix of the
      searched text. */
  lemma PairAtSuffix(s: string, i: nat, pre: string)
    requires i + |pre| <= |s|
    ensures var t := s[i + |pre|..];
      var t1 := if |pre| > 0 then TrimLeft(t, IsSpace) else t;
      var a := LeadingDigits(t1);
      IsSuffix(TrimLeft(t1[|a|..], IsSpace), s)
  {
    var t := s[i + |pre|..];
    var t1 := if |pre| > 0 then TrimLeft(t, IsSpace) else t;
    var a := LeadingDigits(t1);
    var t3 := t1[|a|..];
    DropSuffix(s, i + |pre|);
    if |pre| > 0 {
      TrimSuffix(t);
      SuffixTrans(t1, t, s);
    }
    DropSuffix(t1, |a|);
    SuffixTrans(t3, t1, s);
    TrimSuffix(t3);
    SuffixTrans(TrimLeft(t3, IsSpace), t3, s);
  }

  /** A match needs the middle word's first letter inside the text. */
  lemma PairAtHasMid(s: string, i: nat, pre: string, mid: string)
    requires i <= |s| && |mid| > 0 && PairAt(s, i, pre, mid).Some?
    ensures mid[0] in s
  {
    PairAtSuffix(s, i, pre);
    var t := s[i + |pre|..];
    var t1 := if |pre| > 0 then TrimLeft(t, IsSpace) else t;
    var t2 := TrimLeft(t1[|LeadingDigits(t1)|..], IsSpace);
    assert t2[0] == mid[0];
    assert t2[0] == s[|s| - |t2|];
  }

  /** A text in which 'f' never appears has no "X for Y" match. */
  lemma NoForWithoutF(s: string)
    requires 'f' !in s
    ensures SearchPair(s, "", "for").None?
  {
    var m := PairsIn(s, "", "for");
    forall i | 0 <= i <= |s|
      ensures m(i).None?
    {
      if PairAt(s, i, "", "for").Some? {
        PairAtHasMid(s, i, "", "for");
      }
    }
    SearchPairLeftmost(s, "", "for");
  }

  /** The text " mid" followed by " b" trims to a text starting with `mid`. */
  lemma MidHead(mid: string, b: string)
    requires |mid| > 0 && !IsSpace(mid[0])
    ensures TrimLeft(" " + mid + " " + b, IsSpace) == mid + " " + b
    ensures StartsWith(mid + " " + b, mid)
  {
    var u := mid + " " + b;
    assert " " + mid + " " + b == " " + u;
    TrimOneSpace(u);
    assert u[..|mid|] == mid;
  }

  /** After `mid`, the digit run `b` is read back whole. */
  lemma MidAfter(mid: string, b: string)
    requires |b| > 0 && AllDigits(b)
    ensures LeadingDigits(TrimLeft((mid + " " + b)[|mid|..], IsSpace)) == b
  {
    assert (mid + " " + b)[|mid|..] == " " + b;
    assert IsAsciiDigit(b[0]);
    TrimOneSpace(b);
    LeadingDigitsOfRun(b);
  }

  /** The first digit run `a` followed by " mid b" is read back whole. */
  lemma RunBeforeMid(a: string, mid: string, b: string)
    requires |a| > 0 && AllDigits(a) && |mid| > 0 && !IsAsciiDigit(' ')
    ensures LeadingDigits(a + (" " + mid + " " + b)) == a
    ensures (a + (" " + mid + " " + b))[|a|..] == " " + mid + " " + b
  {
    LeadingDigitsBefore(a, " " + mid + " " + b);
  }

  /** A text that, after `pre` and the spaces following a non-empty
      `pre`, reads "a mid b" matches the pair pattern at its start. */
  lemma PairAtOfBody(s: string, pre: string, mid: string, a: string, b: string)
    requires StartsWith(s, pre)
    requires |a| > 0 && AllDigits(a) && |mid| > 0 && !IsSpace(mid[0]) && |b| > 0 && AllDigits(b)
    requires (if |pre| > 0 then TrimLeft(s[|pre|..], IsSpace) else s[|pre|..]) == a + (" " + mid + " " + b)
    ensures PairAt(s, 0, pre, mid) == Some((DigitsToInt(a), DigitsToInt(b)))
  {
    assert s[0..] == s;
    RunBeforeMid(a, mid, b);
    MidHead(mid, b);
    MidAfter(mid, b);
  }

  /** "a for b" matches the pair pattern at its start. */
  lemma ForPairAt(a: string, b: string)
    requires |a| > 0 && AllDigits(a) && |b| > 0 && AllDigits(b)
    ensures PairAt(a + " for " + b, 0, "", "for") == Some((DigitsToInt(a), DigitsToInt(b)))
  {
    var s := a + " for " + b;
    assert " " + "for" + " " == " for ";
    assert s == a + (" for " + b);
    assert s[0..] == s;
    PairAtOfBody(s, "", "for", a, b);
  }

  /** After "buy" and its space, "buy a get b" reads "a get b". */
  lemma BuyGetBody(a: string, b: string)
    requires |a| > 0 && AllDigits(a)
    ensures StartsWith("buy " + a + " get " + b, "buy")
    ensures TrimLeft(("buy " + a + " get " + b)[|"buy"|..], IsSpace) == a + (" " + "get" + " " + b)
  {
    var body := a + (" " + "get" + " " + b);
    var s := "buy " + a + " get " + b;
    assert s == "buy" + (" " + body);
    assert s[..3] == "buy" && s[3..] == " " + body;
    assert IsAsciiDigit(body[0]);
    TrimOneSpace(body);
  }

  /** "buy a get b" matches the pair pattern at its start. */
  lemma BuyGetPairAt(a: string, b: string)
    requires |a| > 0 && AllDigits(a) && |b| > 0 && AllDigits(b)
    ensures PairAt("buy " + a + " get " + b, 0, "buy", "get") == Some((DigitsToInt(a), DigitsToInt(b)))
  {
    BuyGetBody(a, b);
    PairAtOfBody("buy " + a + " get " + b, "buy", "get", a, b);
  }

  /** A digit run followed by " for b" is no percentage. */
  lemma ForNotPercent(a: string, b: string)
    requires |a| > 0 && AllDigits(a)
    ensures PercentNumber(a + " for " + b).None?
  {
    var tail := " " + "for" + " " + b;
    var s := a + tail;
    assert a + " for " + b == s;
    assert IsAsciiDigit(s[0]);
    TrimKeeps(s);
    RunBeforeMid(a, "for", b);
    MidHead("for", b);
  }

  /** Two digit runs around " for " parse as X for Y. */
  lemma ForOfRunsParsed(a: string, b: string)
    requires |a| > 0 && AllDigits(a) && |b| > 0 && AllDigits(b)
    ensures ParseDiscount(Some(a + " for " + b)) == XForY(DigitsToInt(a), DigitsToInt(b))
  {
    var s := a + " for " + b;
    assert s[0] == a[0] && s[|s| - 1] == b[|b| - 1];
    assert IsAsciiDigit(s[0]) && IsAsciiDigit(s[|s| - 1]);
    DiscountTextKeeps(s);
    ParseOfNormal(s);
    ForNotPercent(a, b);
    ForPairAt(a, b);
    SearchAtStart(s, "", "for");
    ClassifyFor(s, DigitsToInt(a), DigitsToInt(b));
  }

  /** "X for Y" is X for Y. */
  lemma ForRoundTrip(x: nat, y: nat)
    ensures ParseDiscount(Some(NatText(x) + " for " + NatText(y))) == XForY(x, y)
  {
    ForOfRunsParsed(NatText(x), NatText(y));
    NatTextRoundTrip(x);
    NatTextRoundTrip(y);
  }

  /** "buy a get b" holds no 'f' and is no percentage. */
  lemma BuyGetNeither(a: string, b: string)
    requires AllDigits(a) && AllDigits(b)
    ensures 'f' !in "buy " + a + " get " + b
    ensures PercentNumber("buy " + a + " get " + b).None?
  {
    var s := "buy " + a + " get " + b;
    forall k | 0 <= k < |s|
      ensures s[k] != 'f'
    {
      if 4 <= k < 4 + |a| {
        assert s[k] == a[k - 4];
      } else if 4 + |a| + 5 <= k {
        assert s[k] == b[k - 4 - |a| - 5];
      }
    }
    TrimKeeps(s);
  }

  /** Two digit runs in "buy a get b" parse as buy X get Y. */
  lemma BuyGetOfRunsParsed(a: string, b: string)
    requires |a| > 0 && AllDigits(a) && |b| > 0 && AllDigits(b)
    ensures ParseDiscount(Some("buy " + a + " get " + b)) == BuyXGetY(DigitsToInt(a), DigitsToInt(b))
  {
    var s := "buy " + a + " get " + b;
    assert s[0] == 'b' && s[|s| - 1] == b[|b| - 1];
    assert IsAsciiDigit(s[|s| - 1]);
    DiscountTextKeeps(s);
    ParseOfNormal(s);
    BuyGetNeither(a, b);
    NoForWithoutF(s);
    BuyGetPairAt(a, b);
    SearchAtStart(s, "buy", "get");
    ClassifyBuyGet(s, DigitsToInt(a), DigitsToInt(b));
  }

  /** "buy X get Y" is buy X get Y. */
  lemma BuyGetRoundTrip(x: nat, y: nat)
    ensures ParseDiscount(Some("buy " + NatText(x) + " get " + NatText(y))) == BuyXGetY(x, y)
  {
    BuyGetOfRunsParsed(NatText(x), NatText(y));
    NatTextRoundTrip(x);
    NatTextRoundTrip(y);
  }

  // ---------------------------------------------------------------------
  // make_daypart
  // ---------------------------------------------------------------------

  /** `make_daypart`: unknown for a negative hour; otherwise by the hour's
      integer part, 5-10 morning, 11-15 afternoon, 16-20 evening, every
      other value night. */
  function Daypart(hour: real): (p: string)
    ensures p == "unknown" <==> hour < 0.0
    ensures p == "morning" <==> 5.0 <= hour < 11.0
    ensures p == "afternoon" <==> 11.0 <= hour < 16.0
    ensures p == "evening" <==> 16.0 <= hour < 21.0
    ensures p == "night" <==> (0.0 <= hour < 5.0 || 21.0 <= hour)
  {
    if hour < 0.0 then "unknown"
    else
      var h := Trunc(hour);
      assert h == hour.Floor;
      if 5 <= h <= 10 then "morning"
      else if 11 <= h <= 15 then "afternoon"
      else if 16 <= h <= 20 then "evening"
      else "night"
  }

  // ---------------------------------------------------------------------
  // effective_multiplier_from_parsed
  // ---------------------------------------------------------------------

  const MinMultiplier: real := 0.05

  /** `effective_multiplier_from_parsed`: the price paid per unit of list
      price, clipped to [0.05, 1]; a missing (NaN) field disables its
      formula and anything not understood pays full price. */
  function Multiplier(kind: string, pct: Option<real>, buy: Option<real>, pay: Option<real>, get: Option<real>): (m: real)
    ensures MinMultiplier <= m <= 1.0
    ensures kind == "bogo" ==> m == 0.5
    ensures kind !in ["pct", "x_for_y", "buy_x_get_y", "bogo"] ==> m == 1.0
    ensures kind == "pct" && pct.Some? && 0.0 <= pct.value <= 0.95 ==> m == 1.0 - pct.value
  {
    if kind == "pct" && pct.Some? then Clip(1.0 - pct.value, MinMultiplier, 1.0)
    else if kind == "x_for_y" && buy.Some? && pay.Some? && buy.value > 0.0 then
      Clip(pay.value / buy.value, MinMultiplier, 1.0)
    else if kind == "buy_x_get_y" && buy.Some? && get.Some? && buy.value + get.value > 0.0 then
      Clip(buy.value / (buy.value + get.value), MinMultiplier, 1.0)
    else if kind == "bogo" then 0.5
    else 1.0
  }

  /** The multiplier of a parsed discount. */
  function MultiplierOf(d: Discount): real {
    Multiplier(d.Kind(), d.PctField(), d.BuyField(), d.PayField(), d.GetField())
  }

  /** The discount depth: one minus the multiplier, clipped to [0, 0.95]. */
  function Depth(m: real): (r: real)
    ensures 0.0 <= r <= 0.95
    ensures MinMultiplier <= m <= 1.0 ==> r == 1.0 - m
  {
    Clip(1.0 - m, 0.0, 0.95)
  }

  /** What each parsed discount costs the buyer: paying Y for X is Y/X,
      getting Y free with X is X/(X+Y), buy one get one is one half. */
  lemma MultiplierOfParsed(d: Discount)
    ensures d.XForY? && d.buyQty > 0 && d.payQty <= d.buyQty && 20 * d.payQty >= d.buyQty ==>
      MultiplierOf(d) == d.payQty as real / d.buyQty as real
    ensures d.BuyXGetY? && d.buyQty > 0 && 19 * d.buyQty >= d.getQty ==>
      MultiplierOf(d) == d.buyQty as real / (d.buyQty + d.getQty) as real
    ensures d.Bogo? ==> MultiplierOf(d) == 0.5
    ensures d.UnknownDiscount? ==> MultiplierOf(d) == 1.0
  {
    if d.XForY? && d.buyQty > 0 && d.payQty <= d.buyQty && 20 * d.payQty >= d.buyQty {
      RatioWithin(d.payQty as real, d.buyQty as real);
    }
    if d.BuyXGetY? && d.buyQty > 0 && 19 * d.buyQty >= d.getQty {
      RatioWithin(d.buyQty as real, (d.buyQty + d.getQty) as real);
    }
  }

  /** p/q lies in [0.05, 1] when q > 0 and q/20 <= p <= q. */
  lemma RatioWithin(p: real, q: real)
    requires q > 0.0 && p <= q && 20.0 * p >= q
    ensures MinMultiplier <= p / q <= 1.0
  {
    assert 0.05 * q <= p;
    assert p / q >= 0.05 * q / q;
  }

  /** The kind used downstream: an unknown kind with a percentage becomes
      a percentage discount. */
  function FinalKind(kind: string, pctFinal: Option<real>): (k: string)
    ensures kind != "unknown" ==> k == kind
    ensures kind == "unknown" ==> (k == "pct" <==> pctFinal.Some?)
  {
    if kind == "unknown" && pctFinal.Some? then "pct" else kind
  }

  /** The percentage used downstream: the parsed one, else the observed
      one of the item (item discounts) or of the campaign (others). */
  function FinalPct(pct: Option<real>, segment: string, itemObserved: Option<real>, campaignObserved: Option<real>): (r: Option<real>)
    ensures pct.Some? ==> r == pct
    ensures pct.None? && segment == "item_discount" ==> r == itemObserved
    ensures pct.None? && segment != "item_discount" ==> r == campaignObserved
  {
    if pct.Some? then pct else if segment == "item_discount" then itemObserved else campaignObserved
  }

  /** The observed discount share of discounted gross sales, in [0, 0.95];
      NaN without positive gross. */
  function ObservedPct(discountTotal: real, discountGross: real): (r: Option<real>)
    ensures r.Some? <==> discountGross > 0.0
    ensures r.Some? ==> 0.0 <= r.value <= 0.95
  {
    if discountGross > 0.0 then Some(Clip(discountTotal / discountGross, 0.0, 0.95)) else None
  }

  // ---------------------------------------------------------------------
  // Campaign windows and labels
  // ---------------------------------------------------------------------

  /** An order line with its campaign and item (NaN when not numeric),
      creation time and quantity. */
  datatype OrderLine = OrderLine(campaignId: Option<int>, itemId: Option<int>, created: Option<real>, quantity: real)

  /** A campaign's start and end times, NaN when unknown. */
  datatype Window = Window(start: Option<real>, end: Option<real>)

  /** A line counts for its campaign when its time and both ends of the
      window are known and the time lies within the window, ends included. */
  predicate InWindow(created: Option<real>, w: Window) {
    created.Some? && w.start.Some? && w.end.Some? && w.start.value <= created.value <= w.end.value
  }

  /** The window a line's campaign id joins to; an id with no campaign gets
      an unknown window. */
  function WindowOf(windows: map<int, Window>, cid: int): Window {
    if cid in windows then windows[cid] else Window(None, None)
  }

  /** A line of campaign `cid` inside that campaign's window. */
  predicate CountsFor(l: OrderLine, windows: map<int, Window>, cid: int) {
    l.campaignId == Some(cid) && InWindow(l.created, WindowOf(windows, cid))
  }

  /** The summed quantity of the lines counting for `cid`, restricted to
      `item` when one is given. */
  function Units(lines: seq<OrderLine>, windows: map<int, Window>, cid: int, item: Option<int>): real
    decreases |lines|
  {
    if |lines| == 0 then 0.0
    else
      var l := lines[|lines| - 1];
      Units(lines[..|lines| - 1], windows, cid, item)
        + if CountsFor(l, windows, cid) && (item.None? || l.itemId == item) then l.quantity else 0.0
  }

  /** A line outside its campaign's window adds nothing to any total, and
      one inside adds its quantity to its campaign's total. */
  lemma UnitsAppend(lines: seq<OrderLine>, l: OrderLine, windows: map<int, Window>, cid: int, item: Option<int>)
    ensures !CountsFor(l, windows, cid) ==> Units(lines + [l], windows, cid, item) == Units(lines, windows, cid, item)
    ensures CountsFor(l, windows, cid) ==>
      Units(lines + [l], windows, cid, None) == Units(lines, windows, cid, None) + l.quantity
  {
    assert (lines + [l])[..|lines|] == lines;
  }

  /** With non-negative quantities an item never sells more units than its
      whole campaign. */
  lemma {:induction false} ItemUnitsWithinCampaign(lines: seq<OrderLine>, windows: map<int, Window>, cid: int, item: int)
    requires forall i :: 0 <= i < |lines| ==> lines[i].quantity >= 0.0
    ensures 0.0 <= Units(lines, windows, cid, Some(item)) <= Units(lines, windows, cid, None)
    decreases |lines|
  {
    if |lines| > 0 {
      ItemUnitsWithinCampaign(lines[..|lines| - 1], windows, cid, item);
    }
  }

  /** The label of a feature row: an item's own units for an item discount
      with a real item, otherwise the units of the whole campaign. */
  function Label(segment: string, itemId: int, unitsSold: real, campaignUnits: real): (y: real)
    ensures segment == "item_discount" && itemId != -2 ==> y == unitsSold
    ensures segment != "item_discount" || itemId == -2 ==> y == campaignUnits
  {
    if segment == "item_discount" && itemId != -2 then unitsSold else campaignUnits
  }

  /** Labels never exceed the campaign's units. */
  lemma LabelWithinCampaign(lines: seq<OrderLine>, windows: map<int, Window>, segment: string, cid: int, item: int)
    requires forall i :: 0 <= i < |lines| ==> lines[i].quantity >= 0.0
    ensures var y := Label(segment, item, Units(lines, windows, cid, Some(item)), Units(lines, windows, cid, None));
      0.0 <= y <= Units(lines, windows, cid, None)
  {
    ItemUnitsWithinCampaign(lines, windows, cid, item);
  }

  // ---------------------------------------------------------------------
  // Chronological split
  // ---------------------------------------------------------------------

  /** A feature row, reduced to what the split looks at. */
  datatype FeatureRow = FeatureRow(campaignId: int, itemId: int, startTs: Option<real>, labelUnits: real)

  /** `sort_values("start_ts")` order: by start time, unknown times last. */
  predicate StartLe(a: FeatureRow, b: FeatureRow) {
    if b.startTs.None? then true
    else a.startTs.Some? && a.startTs.value <= b.startTs.value
  }

  lemma StartLeIsTotalPreorder()
    ensures Sorting.TotalPreorder(StartLe)
  {
  }

  /** Where the split cuts `n` rows: `int(n * 0.70)` and `int(n * 0.85)`. */
  function SplitPoints(n: nat): (cuts: (nat, nat))
    ensures cuts.0 <= cuts.1 <= n
    ensures 10 * cuts.0 <= 7 * n < 10 * cuts.0 + 10
    ensures 100 * cuts.1 <= 85 * n < 100 * cuts.1 + 100
  {
    ((7 * n) / 10, (85 * n) / 100)
  }

  datatype Partition = Partition(train: seq<FeatureRow>, valid: seq<FeatureRow>, test: seq<FeatureRow>)

  /** The rows sorted by start time and cut into contiguous train,
      validation and test parts: every row lands in exactly one part and
      no training row starts after a validation or test row. */
  function SplitRows(rows: seq<FeatureRow>): (s: Partition)
    ensures multiset(s.train + s.valid + s.test) == multiset(rows)
    ensures Sorting.SortedBy(s.train + s.valid + s.test, StartLe)
    ensures |s.train| == SplitPoints(|rows|).0
    ensures |s.train| + |s.valid| == SplitPoints(|rows|).1
    ensures forall i, j :: 0 <= i < |s.train| && 0 <= j < |s.valid| ==> StartLe(s.train[i], s.valid[j])
    ensures forall i, j :: 0 <= i < |s.valid| && 0 <= j < |s.test| ==> StartLe(s.valid[i], s.test[j])
  {
    StartLeIsTotalPreorder();
    var sorted := Sorting.Sort(rows, StartLe);
    Cut(sorted, SplitPoints(|sorted|).0, SplitPoints(|sorted|).1)
  }

  /** A sorted sequence cut at `a` and `b`. */
  function Cut(sorted: seq<FeatureRow>, a: nat, b: nat): (s: Partition)
    requires a <= b <= |sorted| && Sorting.SortedBy(sorted, StartLe)
    ensures s.train + s.valid + s.test == sorted
    ensures |s.train| == a && |s.train| + |s.valid| == b
    ensures forall i, j :: 0 <= i < |s.train| && 0 <= j < |s.valid| ==> StartLe(s.train[i], s.valid[j])
    ensures forall i, j :: 0 <= i < |s.valid| && 0 <= j < |s.test| ==> StartLe(s.valid[i], s.test[j])
  {
    assert sorted[..a] + sorted[a..b] + sorted[b..] == sorted;
    PartsOrdered(sorted, a, b);
    Partition(sorted[..a], sorted[a..b], sorted[b..])
  }

  /** Consecutive cuts of a sorted sequence are ordered part against part. */
  lemma PartsOrdered(sorted: seq<FeatureRow>, a: nat, b: nat)
    requires a <= b <= |sorted| && Sorting.SortedBy(sorted, StartLe)
    ensures forall i, j :: 0 <= i < |sorted[..a]| && 0 <= j < |sorted[a..b]| ==> StartLe(sorted[..a][i], sorted[a..b][j])
    ensures forall i, j :: 0 <= i < |sorted[a..b]| && 0 <= j < |sorted[b..]| ==> StartLe(sorted[a..b][i], sorted[b..][j])
  {
    forall i, j | 0 <= i < |sorted[..a]| && 0 <= j < |sorted[a..b]|
      ensures StartLe(sorted[..a][i], sorted[a..b][j])
    {
      assert sorted[..a][i] == sorted[i] && sorted[a..b][j] == sorted[a + j];
    }
    forall i, j | 0 <= i < |sorted[a..b]| && 0 <= j < |sorted[b..]|
      ensures StartLe(sorted[a..b][i], sorted[b..][j])
    {
      assert sorted[a..b][i] == sorted[a + i] && sorted[b..][j] == sorted[b + j];
    }
  }
}
