/** The per-group sequence transforms of the training-time feature
    engineer, on the demand values of one (item, place) group in date order:
    positional lags (`shift(k)`), trailing rolling means with
    `min_periods=1` (the window includes the current row), the exponential
    moving average with `adjust=False`, the next-row target (`shift(-1)`)
    and the forward fill used for missing values. */
module Series {

  import opened Wrappers
  import opened Seqs

  /** `shift(k)` for `k >= 1`: the value `k` rows earlier, missing for the
      first `k` rows. */
  function Lag(xs: seq<real>, k: nat): (r: seq<Option<real>>)
    requires k >= 1
    ensures |r| == |xs|
    ensures forall i :: 0 <= i < |xs| ==> (r[i].Some? <==> i >= k)
    ensures forall i :: k <= i < |xs| ==> r[i] == Some(xs[i - k])
  {
    seq(|xs|, i requires 0 <= i < |xs| => if i >= k then Some(xs[i - k]) else None)
  }

  /** `shift(-1)`: the next row's value, missing for the last row. */
  function Next(xs: seq<real>): (r: seq<Option<real>>)
    ensures |r| == |xs|
    ensures forall i :: 0 <= i < |xs| ==> (r[i].Some? <==> i + 1 < |xs|)
    ensures forall i :: 0 <= i < |xs| - 1 ==> r[i] == Some(xs[i + 1])
  {
    seq(|xs|, i requires 0 <= i < |xs| => if i + 1 < |xs| then Some(xs[i + 1]) else None)
  }

  /** First index of the trailing window of width `w` ending at `i`. */
  function WindowStart(i: nat, w: nat): (s: nat)
    requires w >= 1
    ensures s <= i
    ensures i + 1 - s == Min(w, i + 1)
  {
    if i + 1 >= w then i + 1 - w else 0
  }

  /** `rolling(window=w, min_periods=1).mean()`: the mean of the last
      `min(w, i + 1)` values up to and including row `i`. */
  function RollingMean(xs: seq<real>, w: nat): (r: seq<real>)
    requires w >= 1
    ensures |r| == |xs|
  {
    seq(|xs|, i requires 0 <= i < |xs| => Mean(xs[WindowStart(i, w)..i + 1]))
  }

  /** The window a rolling mean averages: non-empty, ending at the current row. */
  function Window(xs: seq<real>, w: nat, i: nat): (ys: seq<real>)
    requires w >= 1 && i < |xs|
    ensures |ys| == Min(w, i + 1) && |ys| > 0
    ensures ys[|ys| - 1] == xs[i]
    ensures forall j :: 0 <= j < |ys| ==> ys[j] == xs[i + 1 - |ys| + j]
  {
    xs[WindowStart(i, w)..i + 1]
  }

  lemma {:induction false} SumAtLeast(ys: seq<real>, c: real)
    requires forall j :: 0 <= j < |ys| ==> ys[j] >= c
    ensures Sum(ys) >= (|ys| as real) * c
    decreases |ys|
  {
    if |ys| > 0 {
      SumAtLeast(ys[1..], c);
      assert (|ys| as real) * c == c + ((|ys| - 1) as real) * c;
    }
  }

  lemma {:induction false} SumAtMost(ys: seq<real>, c: real)
    requires forall j :: 0 <= j < |ys| ==> ys[j] <= c
    ensures Sum(ys) <= (|ys| as real) * c
    decreases |ys|
  {
    if |ys| > 0 {
      SumAtMost(ys[1..], c);
      assert (|ys| as real) * c == c + ((|ys| - 1) as real) * c;
    }
  }

  lemma DivideBounds(s: real, n: real, lo: real, hi: real)
    requires n > 0.0 && n * lo <= s <= n * hi
    ensures lo <= s / n <= hi
  {
    var q := s / n;
    assert (q - lo) * n == s - n * lo;
    assert (hi - q) * n == n * hi - s;
    FactorSign(q - lo, n);
    FactorSign(hi - q, n);
  }

  lemma FactorSign(a: real, n: real)
    requires n > 0.0 && a * n >= 0.0
    ensures a >= 0.0
  {
  }

  /** A mean lies between any bounds of its values. */
  lemma MeanWithin(ys: seq<real>, lo: real, hi: real)
    requires |ys| > 0
    requires forall j :: 0 <= j < |ys| ==> lo <= ys[j] <= hi
    ensures lo <= Mean(ys) <= hi
  {
    SumAtLeast(ys, lo);
    SumAtMost(ys, hi);
    DivideBounds(Sum(ys), |ys| as real, lo, hi);
  }

  /** Every rolling mean lies between the smallest and largest value of its
      window, and a width-1 window reproduces the series. */
  lemma RollingMeanWithinWindow(xs: seq<real>, w: nat, i: nat)
    requires w >= 1 && i < |xs|
    ensures MinOf(Window(xs, w, i)) <= RollingMean(xs, w)[i] <= MaxOf(Window(xs, w, i))
    ensures w == 1 ==> RollingMean(xs, w)[i] == xs[i]
  {
    var ys := Window(xs, w, i);
    assert RollingMean(xs, w)[i] == Mean(ys);
    MeanWithin(ys, MinOf(ys), MaxOf(ys));
    if w == 1 {
      MeanOfConstant(ys, xs[i]);
    }
  }

  /** `ewm(alpha, adjust=False).mean()`: starts at the first value, then
      moves a fraction `alpha` of the way towards each new value. */
  function Ema(xs: seq<real>, alpha: real): (r: seq<real>)
    ensures |r| == |xs|
    ensures |xs| > 0 ==> r[0] == xs[0]
    decreases |xs|
  {
    if |xs| <= 1 then xs
    else
      var prev := Ema(xs[..|xs| - 1], alpha);
      prev + [alpha * xs[|xs| - 1] + (1.0 - alpha) * prev[|xs| - 2]]
  }

  /** The recurrence e[i] = alpha * x[i] + (1 - alpha) * e[i - 1], at every position. */
  lemma {:induction false} EmaRecurrence(xs: seq<real>, alpha: real, i: nat)
    requires 1 <= i < |xs|
    ensures Ema(xs, alpha)[i] == alpha * xs[i] + (1.0 - alpha) * Ema(xs, alpha)[i - 1]
    decreases |xs|
  {
    var init := xs[..|xs| - 1];
    if i < |xs| - 1 {
      EmaRecurrence(init, alpha, i);
      assert Ema(xs, alpha)[i] == Ema(init, alpha)[i];
      assert Ema(xs, alpha)[i - 1] == Ema(init, alpha)[i - 1];
    }
  }

  /** An EMA value is a prefix's value: extending the series does not change it. */
  lemma {:induction false} EmaPrefix(xs: seq<real>, alpha: real, n: nat)
    requires n <= |xs|
    ensures Ema(xs[..n], alpha) == Ema(xs, alpha)[..n]
    decreases |xs|
  {
    if n < |xs| {
      var init := xs[..|xs| - 1];
      EmaPrefix(init, alpha, n);
      assert init[..n] == xs[..n];
    } else {
      assert xs[..n] == xs;
    }
  }

  lemma ConvexWithin(a: real, x: real, e: real, lo: real, hi: real)
    requires 0.0 <= a <= 1.0
    requires lo <= x <= hi && lo <= e <= hi
    ensures lo <= a * x + (1.0 - a) * e <= hi
  {
    ProductSign(a, x - lo);
    ProductSign(1.0 - a, e - lo);
    ProductSign(a, hi - x);
    ProductSign(1.0 - a, hi - e);
    assert a * x + (1.0 - a) * e - lo == a * (x - lo) + (1.0 - a) * (e - lo);
    assert hi - (a * x + (1.0 - a) * e) == a * (hi - x) + (1.0 - a) * (hi - e);
  }

  lemma ProductSign(a: real, b: real)
    requires a >= 0.0 && b >= 0.0
    ensures a * b >= 0.0
  {
  }

  /** With `0 <= alpha <= 1` every EMA value stays within any bounds of the series. */
  lemma {:induction false} EmaWithin(xs: seq<real>, alpha: real, lo: real, hi: real)
    requires 0.0 <= alpha <= 1.0
    requires forall j :: 0 <= j < |xs| ==> lo <= xs[j] <= hi
    ensures forall j :: 0 <= j < |xs| ==> lo <= Ema(xs, alpha)[j] <= hi
    decreases |xs|
  {
    if |xs| > 1 {
      var init := xs[..|xs| - 1];
      EmaWithin(init, alpha, lo, hi);
      var prev := Ema(init, alpha);
      ConvexWithin(alpha, xs[|xs| - 1], prev[|xs| - 2], lo, hi);
    }
  }

  /** `ffill()` followed by `fillna(0)`: a missing value takes the latest
      earlier present value, or 0 when there is none. */
  function FillForwardThenZero(xs: seq<Option<real>>): (r: seq<real>)
    ensures |r| == |xs|
    decreases |xs|
  {
    if |xs| == 0 then []
    else
      var prev := FillForwardThenZero(xs[..|xs| - 1]);
      var v := match xs[|xs| - 1]
        case Some(x) => x
        case None => if |prev| == 0 then 0.0 else LastFilled(xs[..|xs| - 1], prev);
      prev + [v]
  }

  /** The value a forward fill carries into the next row. */
  function LastFilled(xs: seq<Option<real>>, filled: seq<real>): real
    requires |filled| == |xs| > 0
  {
    if xs[|xs| - 1].Some? || LatestPresent(xs).Some? then filled[|filled| - 1] else 0.0
  }

  /** Index of the latest present value, if any. */
  function LatestPresent(xs: seq<Option<real>>): (k: Option<nat>)
    ensures k.Some? ==> k.value < |xs| && xs[k.value].Some?
    ensures k.Some? ==> forall j :: k.value < j < |xs| ==> xs[j].None?
    ensures k.None? ==> forall j :: 0 <= j < |xs| ==> xs[j].None?
    decreases |xs|
  {
    if |xs| == 0 then None
    else if xs[|xs| - 1].Some? then Some(|xs| - 1)
    else LatestPresent(xs[..|xs| - 1])
  }

  /** Each filled value is the latest present value at or before it, or 0. */
  lemma {:induction false} FillForwardSpec(xs: seq<Option<real>>, i: nat)
    requires i < |xs|
    ensures FillForwardThenZero(xs)[i] ==
      match LatestPresent(xs[..i + 1])
      case Some(j) => xs[j].value
      case None => 0.0
    decreases |xs|
  {
    var init := xs[..|xs| - 1];
    if i < |xs| - 1 {
      FillForwardSpec(init, i);
      assert init[..i + 1] == xs[..i + 1];
    } else {
      assert xs[..i + 1] == xs;
      if xs[i].None? && i > 0 {
        FillForwardSpec(init, i - 1);
        assert init[..i] == init;
      }
    }
  }

  /** A lag column has nothing to carry forward: filling turns its missing
      leading rows into 0 and keeps every other value. */
  lemma LagFilled(xs: seq<real>, k: nat, i: nat)
    requires k >= 1 && i < |xs|
    ensures FillForwardThenZero(Lag(xs, k))[i] == if i >= k then xs[i - k] else 0.0
  {
    var l := Lag(xs, k);
    FillForwardSpec(l, i);
    if i < k {
      var p := l[..i + 1];
      assert forall j :: 0 <= j < |p| ==> p[j].None?;
      assert LatestPresent(p).None?;
    } else {
      assert l[..i + 1][i].Some?;
      assert LatestPresent(l[..i + 1]) == Some(i);
    }
  }

  /** A column without gaps is left unchanged by the fill. */
  lemma NoGapsUnchanged(xs: seq<Option<real>>, i: nat)
    requires i < |xs|
    requires xs[i].Some?
    ensures FillForwardThenZero(xs)[i] == xs[i].value
  {
    FillForwardSpec(xs, i);
    assert LatestPresent(xs[..i + 1]) == Some(i);
  }

  /** A gap after the first row repeats the previous filled value. */
  lemma FillCarries(xs: seq<Option<real>>, i: nat)
    requires 0 < i < |xs| && xs[i].None?
    ensures FillForwardThenZero(xs)[i] == FillForwardThenZero(xs)[i - 1]
  {
    FillForwardSpec(xs, i);
    FillForwardSpec(xs, i - 1);
    assert xs[..i + 1][..i] == xs[..i];
  }

  /** A gap in the first row becomes 0. */
  lemma FillStartsAtZero(xs: seq<Option<real>>)
    requires |xs| > 0 && xs[0].None?
    ensures FillForwardThenZero(xs)[0] == 0.0
  {
    FillForwardSpec(xs, 0);
    assert LatestPresent(xs[..1]).None?;
  }
}
