/** Sequence arithmetic shared by the feature and decision code: sums, means,
    Python slicing with negative bounds, pandas `tail`/`head`, and the
    order-keeping de-duplication that the item-id parser performs. */
module Seqs {

  function Sum(xs: seq<real>): real
    decreases |xs|
  {
    if |xs| == 0 then 0.0 else xs[0] + Sum(xs[1..])
  }

  lemma {:induction false} SumAppend(a: seq<real>, b: seq<real>)
    ensures Sum(a + b) == Sum(a) + Sum(b)
    decreases |a|
  {
    if |a| == 0 {
      assert a + b == b;
    } else {
      assert (a + b)[1..] == a[1..] + b;
      SumAppend(a[1..], b);
    }
  }

  /** `numpy.mean` / pandas `Series.mean()` of a non-empty sequence. */
  function Mean(xs: seq<real>): real
    requires |xs| > 0
  {
    Sum(xs) / (|xs| as real)
  }

  lemma {:induction false} SumOfConstant(xs: seq<real>, c: real)
    requires forall i :: 0 <= i < |xs| ==> xs[i] == c
    ensures Sum(xs) == (|xs| as real) * c
    decreases |xs|
  {
    if |xs| > 0 {
      SumOfConstant(xs[1..], c);
    }
  }

  /** The mean of a constant sequence is that constant. */
  lemma MeanOfConstant(xs: seq<real>, c: real)
    requires |xs| > 0
    requires forall i :: 0 <= i < |xs| ==> xs[i] == c
    ensures Mean(xs) == c
  {
    SumOfConstant(xs, c);
  }

  lemma {:induction false} SumNonNegative(xs: seq<real>)
    requires forall i :: 0 <= i < |xs| ==> xs[i] >= 0.0
    ensures Sum(xs) >= 0.0
    decreases |xs|
  {
    if |xs| > 0 {
      SumNonNegative(xs[1..]);
    }
  }

  function Min(a: int, b: int): int {
    if a <= b then a else b
  }

  function MaxReal(a: real, b: real): real {
    if a >= b then a else b
  }

  function MinReal(a: real, b: real): real {
    if a <= b then a else b
  }

  /** `numpy.clip(x, lo, hi)` for `lo <= hi`. */
  function Clip(x: real, lo: real, hi: real): (r: real)
    requires lo <= hi
    ensures lo <= r <= hi
    ensures lo <= x <= hi ==> r == x
  {
    if x < lo then lo else if x > hi then hi else x
  }

  /** pandas `tail(k)` / numpy `xs[-k:]` for `k >= 1`: the last `min(k, |xs|)` elements. */
  function TakeLast<T>(xs: seq<T>, k: nat): (r: seq<T>)
    ensures |r| == Min(k, |xs|)
    ensures r == xs[|xs| - |r|..]
  {
    if k >= |xs| then xs else xs[|xs| - k..]
  }

  /** Normalises a Python slice bound `k` against a length `n`: negative bounds
      count from the end and everything is clamped into `0 .. n`. */
  function SliceBound(k: int, n: nat): (b: nat)
    ensures b <= n
    ensures 0 <= k <= n ==> b == k
    ensures k > n ==> b == n
    ensures k < 0 ==> b == if k + n >= 0 then k + n else 0
  {
    if k < 0 then (if k + n >= 0 then k + n else 0) else if k > n then n else k
  }

  /** Python `xs[:k]`, also pandas `head(k)` and `iloc[:k]`. */
  function PyHead<T>(xs: seq<T>, k: int): seq<T> {
    xs[..SliceBound(k, |xs|)]
  }

  /** Python `xs[k:]`, also pandas `iloc[k:]`. */
  function PyDrop<T>(xs: seq<T>, k: int): seq<T> {
    xs[SliceBound(k, |xs|)..]
  }

  /** Python `xs[a:b]`, also pandas `iloc[a:b]` (empty when `a` lies past `b`). */
  function PySlice<T>(xs: seq<T>, a: int, b: int): seq<T> {
    var lo := SliceBound(a, |xs|);
    var hi := SliceBound(b, |xs|);
    if lo <= hi then xs[lo..hi] else []
  }

  /** Python `int(x)` on a float: truncation toward zero. */
  function Trunc(x: real): int {
    if x >= 0.0 then x.Floor else -((-x).Floor)
  }

  /** Python `math.ceil`. */
  function Ceil(x: real): (c: int)
    ensures c as real >= x && (c as real) - 1.0 < x
  {
    if x.Floor as real == x then x.Floor else x.Floor + 1
  }

  /** Index of the first occurrence of `v` in `xs`. */
  function FirstIndex<T(==)>(xs: seq<T>, v: T): (k: nat)
    requires v in xs
    ensures k < |xs| && xs[k] == v && v !in xs[..k]
  {
    if xs[0] == v then 0
    else
      var k := FirstIndex(xs[1..], v);
      assert xs[..k + 1] == [xs[0]] + xs[1..][..k];
      k + 1
  }

  lemma FirstIndexUnique<T>(xs: seq<T>, v: T, k: nat)
    requires k < |xs| && xs[k] == v && v !in xs[..k]
    ensures FirstIndex(xs, v) == k
  {
  }

  predicate NoDuplicates<T(==)>(xs: seq<T>) {
    forall i, j :: 0 <= i < j < |xs| ==> xs[i] != xs[j]
  }

  /** Keeps the first occurrence of every value, in order of first occurrence. */
  function Dedup<T(==,!new)>(xs: seq<T>): (r: seq<T>)
    ensures NoDuplicates(r)
    ensures forall v :: v in r <==> v in xs
    ensures forall i, j :: 0 <= i < j < |r| ==> FirstIndex(xs, r[i]) < FirstIndex(xs, r[j])
    ensures |r| <= |xs|
    decreases |xs|
  {
    if |xs| == 0 then []
    else
      var init := xs[..|xs| - 1];
      var last := xs[|xs| - 1];
      var r := Dedup(init);
      assert xs == init + [last];
      forall v | v in init
        ensures FirstIndex(xs, v) == FirstIndex(init, v)
      {
        var k := FirstIndex(init, v);
        assert xs[..k] == init[..k];
        FirstIndexUnique(xs, v, k);
      }
      if last in r then r
      else
        assert last !in xs[..|xs| - 1];
        FirstIndexUnique(xs, last, |xs| - 1);
        r + [last]
  }

  /** Number of elements satisfying `p` (pandas `(mask).sum()`). */
  function Count<T>(xs: seq<T>, p: T -> bool): (n: nat)
    ensures n <= |xs|
    ensures n == 0 <==> forall i :: 0 <= i < |xs| ==> !p(xs[i])
    decreases |xs|
  {
    if |xs| == 0 then 0
    else (if p(xs[0]) then 1 else 0) + Count(xs[1..], p)
  }

  /** Smallest element of a non-empty sequence. */
  function MinOf(xs: seq<real>): (m: real)
    requires |xs| > 0
    ensures m in xs
    ensures forall i :: 0 <= i < |xs| ==> m <= xs[i]
    decreases |xs|
  {
    if |xs| == 1 then xs[0] else MinReal(xs[0], MinOf(xs[1..]))
  }

  /** Largest element of a non-empty sequence. */
  function MaxOf(xs: seq<real>): (m: real)
    requires |xs| > 0
    ensures m in xs
    ensures forall i :: 0 <= i < |xs| ==> xs[i] <= m
    decreases |xs|
  {
    if |xs| == 1 then xs[0] else MaxReal(xs[0], MaxOf(xs[1..]))
  }

  /** The elements satisfying `p`, in their original order (a boolean mask). */
  function Filter<T(!new)>(xs: seq<T>, p: T -> bool): (r: seq<T>)
    ensures |r| == Count(xs, p)
    ensures forall i :: 0 <= i < |r| ==> p(r[i])
    ensures forall x :: x in r <==> x in xs && p(x)
    decreases |xs|
  {
    if |xs| == 0 then []
    else
      assert xs == [xs[0]] + xs[1..];
      if p(xs[0]) then [xs[0]] + Filter(xs[1..], p) else Filter(xs[1..], p)
  }
}
