/** The bookkeeping of the model trainer: which columns become features and
    in what order, how text columns are label-encoded and gaps filled, how
    rows are cut into a chronological train/validation split, which
    regressors are fitted, and how feature importances are ranked. The
    regressors, the scaler and the error metric are opaque: a fitted model
    is a token recording what it was fitted on, and scores come in as
    function parameters. */
module Training {

  import opened Wrappers
  import opened Seqs
  import opened Text
  import Sorting
  import Rows

  /** A call that may raise; the error is the exception's message. */
  type Attempt<T> = Result<T, string>

  // ---------------------------------------------------------------------
  // Frames
  // ---------------------------------------------------------------------

  /** A column's cells: numeric (NaN is `None`), text (`object` dtype, NaN
      is `None`), or any other dtype (datetimes, booleans), which the
      trainer never selects. */
  datatype Cells = Numbers(nums: seq<Option<real>>) | Texts(texts: seq<Option<string>>) | Others

  datatype Column = Column(name: string, cells: Cells)

  /** A DataFrame as its columns in frame order. */
  type Frame = seq<Column>

  /** Columns never used as features. */
  const Excluded: seq<string> := ["date", "item_id", "place_id", "target", "demand", "item_place_interaction"]

  /** A numeric or text column that is not excluded. */
  predicate IsFeature(c: Column) {
    c.name !in Excluded && !c.cells.Others?
  }

  /** The first column with the given name. */
  function Lookup(df: Frame, name: string): (r: Option<Column>)
    ensures r.Some? ==> r.value in df && r.value.name == name
    ensures r.None? ==> forall i :: 0 <= i < |df| ==> df[i].name != name
    decreases |df|
  {
    if |df| == 0 then None
    else if df[0].name == name then Some(df[0])
    else Lookup(df[1..], name)
  }

  function Names(cols: seq<Column>): (r: seq<string>)
    ensures |r| == |cols|
    ensures forall i :: 0 <= i < |cols| ==> r[i] == cols[i].name
  {
    seq(|cols|, i requires 0 <= i < |cols| => cols[i].name)
  }

  lemma StrLeIsTotalPreorder()
    ensures Sorting.TotalPreorder(StrLe)
  {
    forall a, b
      ensures StrLe(a, b) || StrLe(b, a)
    {
      StrLeTotal(a, b);
    }
    forall a, b, c | StrLe(a, b) && StrLe(b, c)
      ensures StrLe(a, c)
    {
      StrLeTransitive(a, b, c);
    }
  }

  /** `sorted(numeric_cols + categorical_cols)`. */
  function FeatureNames(df: Frame): (r: seq<string>)
    ensures Sorting.SortedBy(r, StrLe)
    ensures multiset(r) == multiset(Names(Filter(df, IsFeature)))
  {
    StrLeIsTotalPreorder();
    Sorting.Sort(Names(Filter(df, IsFeature)), StrLe)
  }

  /** The feature names are exactly the names of the numeric and text
      columns outside the exclusion list, in ascending order. */
  lemma FeatureNamesSpec(df: Frame)
    ensures Sorting.SortedBy(FeatureNames(df), StrLe)
    ensures forall n :: n in FeatureNames(df) <==>
      exists i :: 0 <= i < |df| && df[i].name == n && IsFeature(df[i])
    ensures forall n :: n in Excluded ==> n !in FeatureNames(df)
  {
    var r := FeatureNames(df);
    forall n
      ensures n in r <==> exists i :: 0 <= i < |df| && df[i].name == n && IsFeature(df[i])
    {
      assert n in r <==> n in multiset(Names(Filter(df, IsFeature)));
      FeatureNameMembers(df, n);
    }
  }

  /** The names of the feature columns are those of the columns that are features. */
  lemma FeatureNameMembers(df: Frame, n: string)
    ensures n in Names(Filter(df, IsFeature)) <==> exists i :: 0 <= i < |df| && df[i].name == n && IsFeature(df[i])
  {
    var fs := Filter(df, IsFeature);
    if n in Names(fs) {
      var c := MemberOfName(fs, n);
      assert c in df && IsFeature(c);
      var i :| 0 <= i < |df| && df[i] == c;
    }
    if exists i :: 0 <= i < |df| && df[i].name == n && IsFeature(df[i]) {
      var i :| 0 <= i < |df| && df[i].name == n && IsFeature(df[i]);
      assert df[i] in fs;
      NameOfMember(fs, df[i]);
    }
  }

  lemma NameOfMember(cols: seq<Column>, c: Column)
    requires c in cols
    ensures c.name in Names(cols)
  {
    var k :| 0 <= k < |cols| && cols[k] == c;
    assert Names(cols)[k] == c.name;
  }

  lemma MemberOfName(cols: seq<Column>, n: string) returns (c: Column)
    requires n in Names(cols)
    ensures c in cols && c.name == n
  {
    var k :| 0 <= k < |cols| && Names(cols)[k] == n;
    c := cols[k];
  }

  // ---------------------------------------------------------------------
  // Label encoding
  // ---------------------------------------------------------------------

  /** A fitted label encoder: its classes, ascending and without repeats. */
  datatype Encoder = Encoder(classes: seq<string>)

  /** `astype(str)`: a missing text cell becomes the string "nan", so the
      later `fillna('unknown')` never has anything to fill. */
  function AsText(v: Option<string>): (s: string)
    ensures v.Some? ==> s == v.value
  {
    match v
    case Some(t) => t
    case None => "nan"
  }

  function Labels(cells: seq<Option<string>>): (r: seq<string>)
    ensures |r| == |cells|
    ensures forall i :: 0 <= i < |cells| ==> r[i] == AsText(cells[i])
  {
    seq(|cells|, i requires 0 <= i < |cells| => AsText(cells[i]))
  }

  /** `LabelEncoder().fit(labels)`: the distinct labels, sorted. */
  function Fit(labels: seq<string>): (e: Encoder)
    ensures Sorting.SortedBy(e.classes, StrLe)
    ensures forall s :: s in e.classes <==> s in labels
    ensures NoDuplicates(e.classes)
  {
    StrLeIsTotalPreorder();
    var sorted := Sorting.Sort(labels, StrLe);
    var c := Dedup(sorted);
    DedupOfSorted(sorted, c);
    forall s
      ensures s in c <==> s in labels
    {
      assert s in sorted <==> s in multiset(labels);
    }
    Encoder(c)
  }

  /** Removing repeats from a sorted sequence keeps it sorted. */
  lemma DedupOfSorted(sorted: seq<string>, c: seq<string>)
    requires Sorting.SortedBy(sorted, StrLe)
    requires c == Dedup(sorted)
    ensures Sorting.SortedBy(c, StrLe)
  {
    forall i, j | 0 <= i < j < |c|
      ensures StrLe(c[i], c[j])
    {
      assert c[i] in sorted && c[j] in sorted;
      var a, b := FirstIndex(sorted, c[i]), FirstIndex(sorted, c[j]);
      assert a < b;
      assert StrLe(sorted[a], sorted[b]);
    }
  }

  /** `transform`: each label's position among the classes; an unseen
      label is an error. */
  function Transform(e: Encoder, labels: seq<string>): (r: Attempt<seq<real>>)
    ensures r.Success? <==> forall i :: 0 <= i < |labels| ==> labels[i] in e.classes
    ensures r.Success? ==> |r.value| == |labels|
    ensures r.Success? ==> forall i :: 0 <= i < |labels| ==>
      r.value[i] == FirstIndex(e.classes, labels[i]) as real
  {
    if forall i :: 0 <= i < |labels| ==> labels[i] in e.classes then
      Success(seq(|labels|, i requires 0 <= i < |labels| && labels[i] in e.classes =>
        FirstIndex(e.classes, labels[i]) as real))
    else Failure("y contains previously unseen labels")
  }

  /** Decoding a code gives back the label, so distinct labels get distinct codes. */
  lemma EncodingRoundTrip(e: Encoder, labels: seq<string>, i: nat, j: nat)
    requires Transform(e, labels).Success?
    requires i < |labels| && j < |labels|
    ensures e.classes[Transform(e, labels).value[i].Floor] == labels[i]
    ensures labels[i] != labels[j] ==> Transform(e, labels).value[i] != Transform(e, labels).value[j]
  {
  }

  /** Encodes one text column: a column seen for the first time gets a new
      encoder fitted on its labels, a known column reuses its encoder. */
  function EncodeColumn(encoders: map<string, Encoder>, c: Column): (r: (map<string, Encoder>, Attempt<seq<real>>))
    requires c.cells.Texts?
    ensures c.name !in encoders ==> r.0 == encoders[c.name := Fit(Labels(c.cells.texts))]
    ensures c.name !in encoders ==> r.1.Success?
    ensures c.name in encoders ==> r.0 == encoders
    ensures c.name in encoders ==> r.1 == Transform(encoders[c.name], Labels(c.cells.texts))
    ensures c.name in r.0 && r.1 == Transform(r.0[c.name], Labels(c.cells.texts))
  {
    var labels := Labels(c.cells.texts);
    if c.name !in encoders then
      var e := Fit(labels);
      assert forall i :: 0 <= i < |labels| ==> labels[i] in e.classes;
      (encoders[c.name := e], Transform(e, labels))
    else (encoders, Transform(encoders[c.name], labels))
  }

  predicate IsCategorical(c: Column) {
    c.name !in Excluded && c.cells.Texts?
  }

  /** The encoding loop over the categorical columns in frame order. It
      stops at the first column holding an unseen label; the encoders
      created before that point are kept. */
  function EncodeAll(encoders: map<string, Encoder>, cols: seq<Column>): (r: (map<string, Encoder>, Attempt<seq<Column>>))
    requires forall i :: 0 <= i < |cols| ==> cols[i].cells.Texts?
    ensures r.1.Success? ==> |r.1.value| == |cols|
    ensures r.1.Success? ==> forall i :: 0 <= i < |cols| ==>
      r.1.value[i].name == cols[i].name && r.1.value[i].cells.Numbers?
    decreases |cols|
  {
    if |cols| == 0 then (encoders, Success([]))
    else
      var (e1, codes) := EncodeColumn(encoders, cols[0]);
      match codes
      case Failure(msg) => (e1, Failure(msg))
      case Success(vs) =>
        var (e2, rest) := EncodeAll(e1, cols[1..]);
        match rest
        case Failure(msg) => (e2, Failure(msg))
        case Success(cs) => (e2, Success([CodedColumn(cols[0].name, vs)] + cs))
  }

  /** A numeric column holding the codes. */
  function CodedColumn(name: string, codes: seq<real>): (c: Column)
    ensures c.name == name && c.cells.Numbers? && |c.cells.nums| == |codes|
    ensures forall i :: 0 <= i < |codes| ==> c.cells.nums[i] == Some(codes[i])
  {
    Column(name, Numbers(seq(|codes|, i requires 0 <= i < |codes| => Some(codes[i]))))
  }

  /** Encoders are created once: every existing encoder survives unchanged. */
  lemma {:induction false} EncodersKept(encoders: map<string, Encoder>, cols: seq<Column>, n: string)
    requires forall i :: 0 <= i < |cols| ==> cols[i].cells.Texts?
    requires n in encoders
    ensures n in EncodeAll(encoders, cols).0 && EncodeAll(encoders, cols).0[n] == encoders[n]
    decreases |cols|
  {
    if |cols| > 0 {
      var e1 := EncodeColumn(encoders, cols[0]).0;
      if EncodeColumn(encoders, cols[0]).1.Success? {
        EncodersKept(e1, cols[1..], n);
      }
    }
  }

  /** New encoders appear only for the columns being encoded. */
  lemma {:induction false} EncodersOnlyNew(encoders: map<string, Encoder>, cols: seq<Column>, n: string)
    requires forall i :: 0 <= i < |cols| ==> cols[i].cells.Texts?
    requires n in EncodeAll(encoders, cols).0 && n !in encoders
    ensures exists i :: 0 <= i < |cols| && cols[i].name == n
    decreases |cols|
  {
    var (e1, codes) := EncodeColumn(encoders, cols[0]);
    if n != cols[0].name {
      assert n !in e1;
      if codes.Success? {
        EncodersOnlyNew(e1, cols[1..], n);
        var i :| 0 <= i < |cols[1..]| && cols[1..][i].name == n;
        assert cols[i + 1].name == n;
      }
    }
  }

  /** A successful encoding run is the first column's encoding followed by
      a successful run over the rest. */
  lemma EncodeAllStep(encoders: map<string, Encoder>, cols: seq<Column>)
    requires forall i :: 0 <= i < |cols| ==> cols[i].cells.Texts?
    requires |cols| > 0 && EncodeAll(encoders, cols).1.Success?
    ensures var e1 := EncodeColumn(encoders, cols[0]).0;
            && EncodeColumn(encoders, cols[0]).1.Success?
            && EncodeAll(e1, cols[1..]).1.Success?
            && EncodeAll(encoders, cols).0 == EncodeAll(e1, cols[1..]).0
  {
  }

  /** When encoding succeeds, every encoded column has an encoder. */
  lemma EncodersComplete(encoders: map<string, Encoder>, cols: seq<Column>, n: string)
    requires forall i :: 0 <= i < |cols| ==> cols[i].cells.Texts?
    requires EncodeAll(encoders, cols).1.Success? && n in Names(cols)
    ensures n in EncodeAll(encoders, cols).0
  {
    var i :| 0 <= i < |cols| && Names(cols)[i] == n;
    EncoderAt(encoders, cols, i);
  }

  lemma {:induction false} EncoderAt(encoders: map<string, Encoder>, cols: seq<Column>, i: nat)
    requires forall i :: 0 <= i < |cols| ==> cols[i].cells.Texts?
    requires EncodeAll(encoders, cols).1.Success? && i < |cols|
    ensures cols[i].name in EncodeAll(encoders, cols).0
    decreases |cols|
  {
    var e1 := EncodeColumn(encoders, cols[0]).0;
    EncodeAllStep(encoders, cols);
    if i == 0 {
      EncodersKept(e1, cols[1..], cols[0].name);
    } else {
      EncoderAt(e1, cols[1..], i - 1);
    }
  }

  // ---------------------------------------------------------------------
  // Median fill
  // ---------------------------------------------------------------------

  predicate RealLe(a: real, b: real) {
    a <= b
  }

  /** pandas `median()` of the present values. */
  function Median(xs: seq<real>): (m: real)
    requires |xs| > 0
  {
    Middle(Sorting.Sort(xs, RealLe))
  }

  /** The middle element of a sorted sequence, or the mean of the two middle ones. */
  function Middle(s: seq<real>): real
    requires |s| > 0
  {
    var n := |s|;
    if n % 2 == 1 then s[n / 2] else (s[n / 2 - 1] + s[n / 2]) / 2.0
  }

  lemma MiddleWithin(s: seq<real>, lo: real, hi: real)
    requires |s| > 0 && forall k :: 0 <= k < |s| ==> lo <= s[k] <= hi
    ensures lo <= Middle(s) <= hi
  {
  }

  /** The median lies between the smallest and the largest value. */
  lemma MedianWithin(xs: seq<real>)
    requires |xs| > 0
    ensures MinOf(xs) <= Median(xs) <= MaxOf(xs)
  {
    var s := Sorting.Sort(xs, RealLe);
    SortedWithin(xs, s);
    MiddleWithin(s, MinOf(xs), MaxOf(xs));
  }

  /** A reordering of `xs` stays within its extremes. */
  lemma SortedWithin(xs: seq<real>, s: seq<real>)
    requires |xs| > 0 && multiset(s) == multiset(xs)
    ensures forall k :: 0 <= k < |s| ==> MinOf(xs) <= s[k] <= MaxOf(xs)
  {
    forall k | 0 <= k < |s|
      ensures MinOf(xs) <= s[k] <= MaxOf(xs)
    {
      assert s[k] in multiset(xs);
      var j :| 0 <= j < |xs| && xs[j] == s[k];
    }
  }

  /** The value gaps in a column are filled with: the median of the present
      values, or 0 when there are none. */
  function FillValue(col: seq<Option<real>>): real {
    var p := Rows.Present(col);
    if |p| > 0 then Median(p) else 0.0
  }

  /** Fills the gaps of a column, keeping its present values. */
  function FillMedian(col: seq<Option<real>>): (r: seq<real>)
    ensures |r| == |col|
  {
    seq(|col|, i requires 0 <= i < |col| => if col[i].Some? then col[i].value else FillValue(col))
  }

  /** Present values are kept, and every gap gets one value, which lies
      within the range of the present values (or is 0 when there are none). */
  lemma FillMedianSpec(col: seq<Option<real>>, i: nat)
    requires i < |col|
    ensures col[i].Some? ==> FillMedian(col)[i] == col[i].value
    ensures col[i].None? ==> FillMedian(col)[i] == FillValue(col)
    ensures (forall j :: 0 <= j < |col| ==> col[j].None?) ==> FillValue(col) == 0.0
    ensures (exists j :: 0 <= j < |col| && col[j].Some?) ==>
      MinOf(Rows.Present(col)) <= FillValue(col) <= MaxOf(Rows.Present(col))
  {
    var p := Rows.Present(col);
    if exists j :: 0 <= j < |col| && col[j].Some? {
      var j :| 0 <= j < |col| && col[j].Some?;
      assert col[j] in col;
      assert col[j].value in p;
      MedianWithin(p);
    }
  }

  // ---------------------------------------------------------------------
  // The trainer
  // ---------------------------------------------------------------------

  /** A fitted regressor of the given kind, fitted on the first `trainRows`
      rows of the scaled feature matrix. */
  datatype Model = Model(kind: string, trainRows: nat)

  /** The standard scaler, unfitted or fitted on the first `rows` rows. */
  datatype Scaler = Unfitted | FittedOn(rows: nat)

  /** An ordered dictionary as its entries in insertion order. */
  type Entries<V> = seq<(string, V)>

  function Get<V>(d: Entries<V>, k: string): (r: Option<V>)
    ensures r.Some? <==> exists i :: 0 <= i < |d| && d[i].0 == k
    ensures r.Some? ==> exists i :: 0 <= i < |d| && d[i] == (k, r.value)
    decreases |d|
  {
    if |d| == 0 then None
    else if d[0].0 == k then Some(d[0].1)
    else
      var r := Get(d[1..], k);
      assert forall i :: 0 <= i < |d| - 1 ==> d[1..][i] == d[i + 1];
      r
  }

  function Keys<V>(d: Entries<V>): (r: seq<string>)
    ensures |r| == |d|
    ensures forall i :: 0 <= i < |d| ==> r[i] == d[i].0
  {
    seq(|d|, i requires 0 <= i < |d| => d[i].0)
  }

  predicate HasKey<V>(d: Entries<V>, k: string) {
    exists i :: 0 <= i < |d| && d[i].0 == k
  }

  /** `d[k] = v`: an existing key keeps its position, a new key goes last. */
  function Put<V>(d: Entries<V>, k: string, v: V): (r: Entries<V>)
    ensures |r| == if HasKey(d, k) then |d| else |d| + 1
    ensures forall i :: 0 <= i < |d| ==> r[i].0 == d[i].0
    ensures !HasKey(d, k) ==> r == d + [(k, v)]
    decreases |d|
  {
    if |d| == 0 then [(k, v)]
    else if d[0].0 == k then [(k, v)] + d[1..]
    else
      var rest := Put(d[1..], k, v);
      assert HasKey(d, k) <==> HasKey(d[1..], k) by {
        if HasKey(d, k) {
          var i :| 0 <= i < |d| && d[i].0 == k;
          assert d[1..][i - 1].0 == k;
        }
        if HasKey(d[1..], k) {
          var i :| 0 <= i < |d| - 1 && d[1..][i].0 == k;
          assert d[i + 1].0 == k;
        }
      }
      [d[0]] + rest
  }

  /** After `d[k] = v` the key reads back `v` and every other key reads as before. */
  lemma {:induction false} PutGet<V>(d: Entries<V>, k: string, v: V, other: string)
    ensures Get(Put(d, k, v), k) == Some(v)
    ensures other != k ==> Get(Put(d, k, v), other) == Get(d, other)
    decreases |d|
  {
    if |d| > 0 && d[0].0 != k {
      PutGet(d[1..], k, v, other);
      assert Put(d, k, v)[1..] == Put(d[1..], k, v);
    }
  }

  datatype Trainer = Trainer(
    modelType: string,
    models: Entries<Model>,
    scaler: Scaler,
    encoders: map<string, Encoder>,
    featureNames: seq<string>,
    isTrained: bool,
    metrics: Entries<real>)

  /** A fresh trainer: no models, no encoders, no features, untrained. */
  function NewTrainer(modelType: string): (t: Trainer)
    ensures t.modelType == modelType && !t.isTrained
    ensures t.models == [] && t.metrics == [] && t.encoders == map[] && t.featureNames == []
    ensures t.scaler == Unfitted
  {
    Trainer(modelType, [], Unfitted, map[], [], false, [])
  }

  /** The prepared training data: the feature columns in `names` order, with
      text columns encoded and gaps filled, and the target column. */
  datatype Prepared = Prepared(x: seq<(string, seq<real>)>, y: Cells, names: seq<string>)

  /** The numeric cells of a column after encoding. */
  function NumericCells(c: Option<Column>): seq<Option<real>> {
    if c.Some? && c.value.cells.Numbers? then c.value.cells.nums else []
  }

  /** The frame with its categorical columns replaced by their codes. */
  function Replace(df: Frame, encoded: seq<Column>): (r: Frame)
    ensures |r| == |df|
  {
    seq(|df|, i requires 0 <= i < |df| =>
      var e := Lookup(encoded, df[i].name);
      if IsCategorical(df[i]) && e.Some? then e.value else df[i])
  }

  /** `prepare_features`: encodes the categorical columns, selects the
      feature columns in sorted-name order, fills their gaps with the
      median, and reads the target. The trainer keeps the encoders it
      created even when a later step fails; the feature names are recorded
      only on success. */
  function PrepareFeatures(t: Trainer, df: Frame): (r: (Trainer, Attempt<Prepared>))
    ensures r.0.modelType == t.modelType && r.0.models == t.models && r.0.isTrained == t.isTrained
    ensures r.0.scaler == t.scaler && r.0.metrics == t.metrics
    ensures forall n :: n in t.encoders ==> n in r.0.encoders && r.0.encoders[n] == t.encoders[n]
    ensures r.1.Success? <==> Lookup(df, "target").Some? && EncodeAll(t.encoders, Filter(df, IsCategorical)).1.Success?
    ensures r.1.Success? ==> r.1.value.names == FeatureNames(df) && r.0.featureNames == FeatureNames(df)
    ensures r.1.Success? ==> |r.1.value.x| == |r.1.value.names|
    ensures r.1.Success? ==> forall i :: 0 <= i < |r.1.value.x| ==> r.1.value.x[i].0 == r.1.value.names[i]
    ensures r.1.Success? ==> r.1.value.y == Lookup(df, "target").value.cells
    ensures r.1.Success? ==> forall i :: 0 <= i < |r.1.value.x| ==>
      r.1.value.x[i].1 == FillMedian(NumericCells(Lookup(Replace(df, EncodeAll(t.encoders, Filter(df, IsCategorical)).1.value), r.1.value.names[i])))
    ensures r.1.Failure? ==> r.0.featureNames == t.featureNames
  {
    var cats := Filter(df, IsCategorical);
    var (encs, encoded) := EncodeAll(t.encoders, cats);
    forall n | n in t.encoders
      ensures n in encs && encs[n] == t.encoders[n]
    {
      EncodersKept(t.encoders, cats, n);
    }
    var t1 := t.(encoders := encs);
    match encoded
    case Failure(msg) => (t1, Failure(msg))
    case Success(cols) =>
      var target := Lookup(df, "target");
      if target.None? then (t1, Failure("KeyError: 'target'"))
      else
        var frame := Replace(df, cols);
        var names := FeatureNames(df);
        var x := seq(|names|, i requires 0 <= i < |names| => (names[i], FillMedian(NumericCells(Lookup(frame, names[i])))));
        (t1.(featureNames := names), Success(Prepared(x, target.value.cells, names)))
  }

  /** Preparing with encoders already fitted for every text column reuses
      them all and leaves the encoder map as it was. */
  lemma ReusedEncoders(t: Trainer, df: Frame)
    requires forall i :: 0 <= i < |df| && IsCategorical(df[i]) ==> df[i].name in t.encoders
    ensures PrepareFeatures(t, df).0.encoders == t.encoders
  {
    var cats := Filter(df, IsCategorical);
    forall i | 0 <= i < |cats|
      ensures cats[i].name in t.encoders
    {
      assert cats[i] in df;
    }
    EncodeAllKnown(t.encoders, cats);
  }

  /** Each prepared column is its frame column: a numeric feature keeps its
      values with the gaps filled by the median, and a text feature becomes
      exactly the recorded encoder's codes for its labels. */
  lemma PreparedColumns(t: Trainer, df: Frame, i: nat)
    requires PrepareFeatures(t, df).1.Success?
    requires i < |PrepareFeatures(t, df).1.value.names|
    ensures var t1 := PrepareFeatures(t, df).0;
      var p := PrepareFeatures(t, df).1.value;
      var n := p.names[i];
      && Lookup(df, n).Some?
      && (Lookup(df, n).value.cells.Numbers? ==> p.x[i].1 == FillMedian(Lookup(df, n).value.cells.nums))
      && (Lookup(df, n).value.cells.Texts? ==>
            n in t1.encoders && Transform(t1.encoders[n], Labels(Lookup(df, n).value.cells.texts)) == Success(p.x[i].1))
  {
    var r := PrepareFeatures(t, df);
    var p := r.1.value;
    var n := p.names[i];
    FeatureNamesSpec(df);
    assert n in FeatureNames(df);
    var cats := Filter(df, IsCategorical);
    var run := EncodeAll(t.encoders, cats);
    assert r.0.encoders == run.0;
    var enc := run.1.value;
    LookupReplace(df, enc, n);
    var c := Lookup(df, n).value;
    if c.cells.Texts? {
      assert n !in Excluded;
      EncodedColumn(df, t.encoders, n);
    }
  }

  /** A text column outside the exclusion list reads, after the encoding
      run, as the codes of the encoder the run ends with for its name. */
  lemma EncodedColumn(df: Frame, encoders: map<string, Encoder>, n: string)
    requires Lookup(df, n).Some? && IsCategorical(Lookup(df, n).value)
    requires EncodeAll(encoders, Filter(df, IsCategorical)).1.Success?
    ensures var run := EncodeAll(encoders, Filter(df, IsCategorical));
      var c := Lookup(df, n).value;
      && Lookup(run.1.value, n).Some?
      && n in run.0
      && Transform(run.0[n], Labels(c.cells.texts)).Success?
      && FillMedian(NumericCells(Lookup(run.1.value, n))) == Transform(run.0[n], Labels(c.cells.texts)).value
  {
    var cats := Filter(df, IsCategorical);
    var run := EncodeAll(encoders, cats);
    var enc := run.1.value;
    FilterLookup(df, n);
    var j := LookupFirst(cats, n);
    LookupAt(enc, n, j);
    EncodeAllCodes(encoders, cats, j);
  }

  /** The first column with a name is the one `Lookup` finds. */
  lemma {:induction false} LookupAt(df: Frame, n: string, j: nat)
    requires j < |df| && df[j].name == n
    requires forall k :: 0 <= k < j ==> df[k].name != n
    ensures Lookup(df, n) == Some(df[j])
    decreases j
  {
    if j > 0 {
      LookupAt(df[1..], n, j - 1);
    }
  }

  /** The position of the column `Lookup` finds. */
  lemma {:induction false} LookupFirst(df: Frame, n: string) returns (j: nat)
    requires Lookup(df, n).Some?
    ensures j < |df| && df[j] == Lookup(df, n).value
    ensures forall k :: 0 <= k < j ==> df[k].name != n
    decreases |df|
  {
    if df[0].name == n {
      j := 0;
    } else {
      var j1 := LookupFirst(df[1..], n);
      j := j1 + 1;
    }
  }

  /** The first column of a name, when categorical, is also the first
      categorical column of that name. */
  lemma {:induction false} FilterLookup(df: Frame, n: string)
    requires Lookup(df, n).Some? && IsCategorical(Lookup(df, n).value)
    ensures Lookup(Filter(df, IsCategorical), n) == Lookup(df, n)
    decreases |df|
  {
    if df[0].name != n {
      FilterLookup(df[1..], n);
    }
  }

  /** Looking a name up after replacing the categorical columns finds the
      replacement of the column found before. */
  lemma {:induction false} LookupReplace(df: Frame, encoded: seq<Column>, n: string)
    ensures Lookup(Replace(df, encoded), n) ==
      match Lookup(df, n)
      case None => None
      case Some(c) => Some(if IsCategorical(c) && Lookup(encoded, c.name).Some? then Lookup(encoded, c.name).value else c)
    decreases |df|
  {
    if |df| > 0 {
      var r := Replace(df, encoded);
      assert r[0].name == df[0].name by {
        var e := Lookup(encoded, df[0].name);
      }
      assert r[1..] == Replace(df[1..], encoded);
      LookupReplace(df[1..], encoded, n);
    }
  }

  /** Column `j` of a successful encoding run holds the codes of the encoder
      the run ends with for that column's name. */
  lemma {:induction false} EncodeAllCodes(encoders: map<string, Encoder>, cols: seq<Column>, j: nat)
    requires forall i :: 0 <= i < |cols| ==> cols[i].cells.Texts?
    requires EncodeAll(encoders, cols).1.Success? && j < |cols|
    ensures var r := EncodeAll(encoders, cols);
      && cols[j].name in r.0
      && Transform(r.0[cols[j].name], Labels(cols[j].cells.texts)).Success?
      && r.1.value[j] == CodedColumn(cols[j].name, Transform(r.0[cols[j].name], Labels(cols[j].cells.texts)).value)
    decreases |cols|
  {
    var e1 := EncodeColumn(encoders, cols[0]).0;
    var vs := EncodeColumn(encoders, cols[0]).1.value;
    EncodeAllStep(encoders, cols);
    var rest := EncodeAll(e1, cols[1..]);
    assert EncodeAll(encoders, cols).1.value == [CodedColumn(cols[0].name, vs)] + rest.1.value;
    if j == 0 {
      EncodersKept(e1, cols[1..], cols[0].name);
    } else {
      EncodeAllCodes(e1, cols[1..], j - 1);
      assert cols[j] == cols[1..][j - 1];
    }
  }

  /** Encoding only columns that already have encoders changes no encoder. */
  lemma {:induction false} EncodeAllKnown(encoders: map<string, Encoder>, cols: seq<Column>)
    requires forall i :: 0 <= i < |cols| ==> cols[i].cells.Texts? && cols[i].name in encoders
    ensures EncodeAll(encoders, cols).0 == encoders
    decreases |cols|
  {
    if |cols| > 0 && EncodeColumn(encoders, cols[0]).1.Success? {
      EncodeAllKnown(encoders, cols[1..]);
    }
  }

  // ---------------------------------------------------------------------
  // Chronological split
  // ---------------------------------------------------------------------

  /** `max(2, int(1 / validation_split))`; a zero split divides by zero. */
  function SplitCount(v: real): (r: Attempt<nat>)
    ensures r.Success? <==> v != 0.0
    ensures r.Success? ==> r.value >= 2
    ensures r.Success? && v > 0.0 && Trunc(1.0 / v) >= 2 ==> r.value == Trunc(1.0 / v)
  {
    if v == 0.0 then Failure("ZeroDivisionError: float division by zero")
    else
      var k := Trunc(1.0 / v);
      Success(if k > 2 then k else 2)
  }

  /** The number of leading rows the split puts into training; the rest is
      the validation set. With time-series splitting this is the last fold
      of a `TimeSeriesSplit(n_splits)`: the validation set is the final
      `n / (n_splits + 1)` rows. Otherwise it is `int(n * (1 - v))`,
      clamped like a Python slice bound. */
  function SplitPoint(n: nat, v: real, useTimeSeriesSplit: bool): (r: Attempt<nat>)
    ensures r.Success? ==> r.value <= n
    ensures useTimeSeriesSplit ==> (r.Success? <==> SplitCount(v).Success? && SplitCount(v).value + 1 <= n)
    ensures useTimeSeriesSplit && r.Success? ==>
      r.value == n - n / (SplitCount(v).value + 1) && 0 < r.value < n
    ensures !useTimeSeriesSplit ==> r == Success(SliceBound(PlainCut(n, v), n))
  {
    if useTimeSeriesSplit then
      match SplitCount(v)
      case Failure(e) => Failure(e)
      case Success(k) =>
        if k + 1 > n then Failure("Cannot have number of folds greater than the number of samples")
        else
          TestSizeBounds(n, k);
          var cut: nat := n - n / (k + 1);
          Success(cut)
    else Success(SliceBound(PlainCut(n, v), n))
  }

  /** `int(len(X) * (1 - validation_split))`. */
  function PlainCut(n: nat, v: real): int {
    Trunc((n as real) * (1.0 - v))
  }

  lemma TestSizeBounds(n: nat, k: nat)
    requires k >= 2 && k + 1 <= n
    ensures 1 <= n / (k + 1) < n
  {
  }

  /** The split is an order-preserving partition: training rows are a
      prefix, validation rows the remaining suffix. */
  lemma SplitPartition<T>(rows: seq<T>, v: real, useTimeSeriesSplit: bool)
    requires SplitPoint(|rows|, v, useTimeSeriesSplit).Success?
    ensures var c := SplitPoint(|rows|, v, useTimeSeriesSplit).value;
      rows[..c] + rows[c..] == rows
    ensures !useTimeSeriesSplit ==> var c := SplitPoint(|rows|, v, useTimeSeriesSplit).value;
      rows[..c] == PyHead(rows, PlainCut(|rows|, v))
      && rows[c..] == PyDrop(rows, PlainCut(|rows|, v))
  {
  }

  /** With `0 <= v <= 1` the plain split leaves at least `n * v` rows, and
      fewer than `n * v + 1`, for validation. */
  lemma ValidationShare(n: nat, v: real)
    requires 0.0 <= v <= 1.0
    ensures var c := SplitPoint(n, v, false).value;
      (n as real) * v <= (n - c) as real < (n as real) * v + 1.0
  {
    var x := (n as real) * (1.0 - v);
    assert 0.0 <= x <= n as real by {
      assert (n as real) * (1.0 - v) + (n as real) * v == n as real;
      ProductNonNegative(n as real, v);
      ProductNonNegative(n as real, 1.0 - v);
    }
    assert Trunc(x) == x.Floor;
  }

  lemma ProductNonNegative(a: real, b: real)
    requires a >= 0.0 && b >= 0.0
    ensures a * b >= 0.0
  {
  }

  // ---------------------------------------------------------------------
  // Training
  // ---------------------------------------------------------------------

  /** The regressors `train` fits, in fitting order: XGBoost and LightGBM
      when the model type names them (or is `ensemble`) and the library is
      installed, then always a random forest. */
  function TrainedKinds(modelType: string, xgboostAvailable: bool, lightgbmAvailable: bool): (r: seq<string>)
    ensures |r| >= 1 && r[|r| - 1] == "random_forest"
    ensures "xgboost" in r <==> (modelType == "xgboost" || modelType == "ensemble") && xgboostAvailable
    ensures "lightgbm" in r <==> (modelType == "lightgbm" || modelType == "ensemble") && lightgbmAvailable
    ensures forall k :: k in r ==> k in ["xgboost", "lightgbm", "random_forest"]
    ensures NoDuplicates(r)
  {
    (if modelType in ["xgboost", "ensemble"] && xgboostAvailable then ["xgboost"] else [])
    + (if modelType in ["lightgbm", "ensemble"] && lightgbmAvailable then ["lightgbm"] else [])
    + ["random_forest"]
  }

  /** Fits the listed kinds in order, storing each model and recording its
      validation MAE. */
  function FitAll(models: Entries<Model>, kinds: seq<string>, cut: nat, mae: (string, nat) -> real): (r: (Entries<Model>, Entries<real>))
    ensures Keys(r.1) == kinds
    ensures forall i :: 0 <= i < |kinds| ==> r.1[i].1 == mae(kinds[i], cut)
    decreases |kinds|
  {
    if |kinds| == 0 then (models, [])
    else
      var (ms, scores) := FitAll(Put(models, kinds[0], Model(kinds[0], cut)), kinds[1..], cut, mae);
      (ms, [(kinds[0], mae(kinds[0], cut))] + scores)
  }

  /** Every fitted kind holds its new model; every other key keeps its old one. */
  lemma {:induction false} FitAllModels(models: Entries<Model>, kinds: seq<string>, cut: nat, mae: (string, nat) -> real, k: string)
    ensures k in kinds ==> Get(FitAll(models, kinds, cut, mae).0, k) == Some(Model(k, cut))
    ensures k !in kinds ==> Get(FitAll(models, kinds, cut, mae).0, k) == Get(models, k)
    decreases |kinds|
  {
    if |kinds| > 0 {
      var m1 := Put(models, kinds[0], Model(kinds[0], cut));
      FitAllModels(m1, kinds[1..], cut, mae, k);
      PutGet(models, kinds[0], Model(kinds[0], cut), k);
      assert k in kinds <==> k == kinds[0] || k in kinds[1..];
    }
  }

  /** `train` on `n` prepared rows. `mae(kind, c)` is the validation MAE of
      a model of that kind fitted on the first `c` rows. Fitting the scaler
      on no rows or no feature columns, or transforming no validation rows,
      is an error. Models
      of kinds not trained this time are kept; the metrics are replaced. */
  function Train(t: Trainer, n: nat, v: real, useTimeSeriesSplit: bool,
                 xgboostAvailable: bool, lightgbmAvailable: bool, mae: (string, nat) -> real): (r: Attempt<Trainer>)
    ensures r.Success? <==> (SplitPoint(n, v, useTimeSeriesSplit).Success?
      && 0 < SplitPoint(n, v, useTimeSeriesSplit).value < n && |t.featureNames| > 0)
    ensures r.Success? ==> r.value.isTrained
    ensures r.Success? ==> r.value.scaler == FittedOn(SplitPoint(n, v, useTimeSeriesSplit).value)
    ensures r.Success? ==> Keys(r.value.metrics) == TrainedKinds(t.modelType, xgboostAvailable, lightgbmAvailable)
    ensures r.Success? ==> (r.value.modelType == t.modelType && r.value.encoders == t.encoders
      && r.value.featureNames == t.featureNames)
  {
    match SplitPoint(n, v, useTimeSeriesSplit)
    case Failure(e) => Failure(e)
    case Success(cut) =>
      if cut == 0 then Failure("Found array with 0 sample(s)")
      else if |t.featureNames| == 0 then Failure("Found array with 0 feature(s)")
      else if cut == n then Failure("Found array with 0 sample(s)")
      else
        var kinds := TrainedKinds(t.modelType, xgboostAvailable, lightgbmAvailable);
        var (ms, scores) := FitAll(t.models, kinds, cut, mae);
        Success(t.(models := ms, scaler := FittedOn(cut), isTrained := true, metrics := scores))
  }

  /** After training, each fitted kind holds a model fitted on the training
      rows, the random forest always among them, and any model of another
      kind from an earlier call is still there. */
  lemma TrainedModels(t: Trainer, n: nat, v: real, useTimeSeriesSplit: bool,
                      xa: bool, la: bool, mae: (string, nat) -> real, k: string)
    requires Train(t, n, v, useTimeSeriesSplit, xa, la, mae).Success?
    ensures var cut := SplitPoint(n, v, useTimeSeriesSplit).value;
      Get(Train(t, n, v, useTimeSeriesSplit, xa, la, mae).value.models, "random_forest") == Some(Model("random_forest", cut))
    ensures var cut := SplitPoint(n, v, useTimeSeriesSplit).value;
      k in TrainedKinds(t.modelType, xa, la) ==>
      Get(Train(t, n, v, useTimeSeriesSplit, xa, la, mae).value.models, k) == Some(Model(k, cut))
    ensures k !in TrainedKinds(t.modelType, xa, la) ==>
      Get(Train(t, n, v, useTimeSeriesSplit, xa, la, mae).value.models, k) == Get(t.models, k)
  {
    var cut := SplitPoint(n, v, useTimeSeriesSplit).value;
    var kinds := TrainedKinds(t.modelType, xa, la);
    FitAllModels(t.models, kinds, cut, mae, k);
    FitAllModels(t.models, kinds, cut, mae, "random_forest");
  }

  /** A time-series split never leaves either side empty, so it trains
      whenever the split itself succeeds. */
  lemma TimeSeriesTrainSucceeds(t: Trainer, n: nat, v: real, xa: bool, la: bool, mae: (string, nat) -> real)
    ensures Train(t, n, v, true, xa, la, mae).Success?
        <==> v != 0.0 && SplitCount(v).value + 1 <= n && |t.featureNames| > 0
  {
  }

  // ---------------------------------------------------------------------
  // Feature importance
  // ---------------------------------------------------------------------

  /** Index of the first entry with the smallest score, as `min` with a key
      function returns. */
  function FirstMinIndex(scores: Entries<real>): (k: nat)
    requires |scores| > 0
    ensures k < |scores|
    ensures forall i :: 0 <= i < |scores| ==> scores[k].1 <= scores[i].1
    ensures forall i :: 0 <= i < k ==> scores[i].1 > scores[k].1
    decreases |scores|
  {
    if |scores| == 1 then 0
    else
      var j := FirstMinIndex(scores[1..]);
      if scores[0].1 <= scores[j + 1].1 then 0 else j + 1
  }

  /** The best model's name: the first with the smallest validation MAE.
      `min` over no metrics is an error (a trainer restored from disk has
      none). */
  function BestModel(metrics: Entries<real>): (r: Attempt<string>)
    ensures r.Success? <==> |metrics| > 0
    ensures r.Success? ==> r.value == metrics[FirstMinIndex(metrics)].0
  {
    if |metrics| == 0 then Failure("min() arg is an empty sequence")
    else Success(metrics[FirstMinIndex(metrics)].0)
  }

  predicate ImportanceGe(a: (string, real), b: (string, real)) {
    a.1 >= b.1
  }

  lemma ImportanceGeIsTotalPreorder()
    ensures Sorting.TotalPreorder(ImportanceGe)
  {
  }

  function Zip(names: seq<string>, scores: seq<real>): (r: seq<(string, real)>)
    requires |names| == |scores|
    ensures |r| == |names|
    ensures forall i :: 0 <= i < |r| ==> r[i] == (names[i], scores[i])
  {
    seq(|names|, i requires 0 <= i < |names| => (names[i], scores[i]))
  }

  /** The model `get_feature_importance` looks at: the named one, else the
      best by validation MAE. */
  function Chosen(t: Trainer, modelName: Option<string>): (r: Attempt<string>)
    ensures modelName.Some? ==> r == Success(modelName.value)
    ensures modelName.None? ==> r == BestModel(t.metrics)
  {
    if modelName.Some? then Success(modelName.value) else BestModel(t.metrics)
  }

  /** `get_feature_importance`: the chosen model's importances paired with
      the feature names, most important first. `importances(m)` is the
      fitted model's `feature_importances_`. It fails when the trainer is
      untrained, when there is no best model to pick, when the model is
      unknown, or when the importances do not match the feature names. */
  function FeatureImportance(t: Trainer, modelName: Option<string>, importances: Model -> seq<real>): (r: Attempt<seq<(string, real)>>)
    ensures r.Success? <==> (t.isTrained && Chosen(t, modelName).Success?
      && Get(t.models, Chosen(t, modelName).value).Some?
      && |importances(Get(t.models, Chosen(t, modelName).value).value)| == |t.featureNames|)
    ensures r.Success? ==> Sorting.SortedBy(r.value, ImportanceGe)
    ensures r.Success? ==> (multiset(r.value) ==
      multiset(Zip(t.featureNames, importances(Get(t.models, Chosen(t, modelName).value).value))))
  {
    if !t.isTrained then Failure("Model must be trained first")
    else
      match Chosen(t, modelName)
      case Failure(e) => Failure(e)
      case Success(n) =>
        match Get(t.models, n)
        case None => Failure("Model not found")
        case Some(m) =>
          if |importances(m)| != |t.featureNames| then Failure("All arrays must be of the same length")
          else
            ImportanceGeIsTotalPreorder();
            Success(Sorting.Sort(Zip(t.featureNames, importances(m)), ImportanceGe))
  }

  /** `select_top_features(n)`: the names of the first `n` entries of the
      ranking (`head(n)`, so a negative `n` drops entries from the end). */
  function SelectTopFeatures(t: Trainer, n: int, importances: Model -> seq<real>): (r: Attempt<seq<string>>)
    ensures r.Success? <==> FeatureImportance(t, None, importances).Success?
    ensures r.Success? ==> |r.value| == SliceBound(n, |FeatureImportance(t, None, importances).value|)
    ensures r.Success? && n >= 0 ==> |r.value| <= n
    ensures r.Success? ==> forall i :: 0 <= i < |r.value| ==> r.value[i] in t.featureNames
    ensures r.Success? ==> forall i, j :: 0 <= i < j < |r.value| ==>
      FeatureImportance(t, None, importances).value[i].1 >= FeatureImportance(t, None, importances).value[j].1
    ensures r.Success? ==> forall i :: 0 <= i < |r.value| ==>
      r.value[i] == FeatureImportance(t, None, importances).value[i].0
  {
    match FeatureImportance(t, None, importances)
    case Failure(e) => Failure(e)
    case Success(ranked) =>
      RankedNamesKnown(t, importances);
      Success(FirstsOf(PyHead(ranked, n)))
  }

  /** The names of a ranking. */
  function FirstsOf(ranked: seq<(string, real)>): (r: seq<string>)
    ensures |r| == |ranked|
    ensures forall i :: 0 <= i < |r| ==> r[i] == ranked[i].0
  {
    seq(|ranked|, i requires 0 <= i < |ranked| => ranked[i].0)
  }

  /** Every ranked name is a feature name. */
  lemma RankedNamesKnown(t: Trainer, importances: Model -> seq<real>)
    requires FeatureImportance(t, None, importances).Success?
    ensures forall i :: 0 <= i < |FeatureImportance(t, None, importances).value| ==>
      FeatureImportance(t, None, importances).value[i].0 in t.featureNames
  {
    var ranked := FeatureImportance(t, None, importances).value;
    var names := t.featureNames;
    var m := Get(t.models, Chosen(t, None).value).value;
    forall i | 0 <= i < |ranked|
      ensures ranked[i].0 in names
    {
      assert ranked[i] in multiset(Zip(names, importances(m)));
      var k :| 0 <= k < |names| && Zip(names, importances(m))[k] == ranked[i];
    }
  }
}
