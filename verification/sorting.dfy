/** A functional insertion sort over any total preorder. It stands in for
    pandas `sort_values` and Python `sorted`; callers only rely on the
    result being ordered and being a permutation of the input. */
module Sorting {

  ghost predicate TotalPreorder<T(!new)>(le: (T, T) -> bool) {
    && (forall x, y :: le(x, y) || le(y, x))
    && (forall x, y, z :: le(x, y) && le(y, z) ==> le(x, z))
  }

  predicate SortedBy<T>(xs: seq<T>, le: (T, T) -> bool) {
    forall i, j :: 0 <= i < j < |xs| ==> le(xs[i], xs[j])
  }

  /** Inserts `x` before the first element it does not exceed. */
  function Insert<T(!new)>(x: T, xs: seq<T>, le: (T, T) -> bool): (r: seq<T>)
    requires TotalPreorder(le)
    requires SortedBy(xs, le)
    ensures SortedBy(r, le)
    ensures multiset(r) == multiset(xs) + multiset{x}
    decreases |xs|
  {
    if |xs| == 0 then [x]
    else if le(x, xs[0]) then [x] + xs
    else
      var tail := Insert(x, xs[1..], le);
      assert xs == [xs[0]] + xs[1..];
      HeadBelowAll(xs[0], xs[1..], x, tail, le);
      [xs[0]] + tail
  }

  /** An element below every member of `rest` and below `x` stays below
      everything in a permutation of `rest + [x]`. */
  lemma HeadBelowAll<T(!new)>(h: T, rest: seq<T>, x: T, tail: seq<T>, le: (T, T) -> bool)
    requires TotalPreorder(le)
    requires forall i :: 0 <= i < |rest| ==> le(h, rest[i])
    requires !le(x, h)
    requires multiset(tail) == multiset(rest) + multiset{x}
    ensures forall i :: 0 <= i < |tail| ==> le(h, tail[i])
  {
    forall i | 0 <= i < |tail|
      ensures le(h, tail[i])
    {
      assert tail[i] in multiset(tail);
      if tail[i] != x {
        assert tail[i] in multiset(rest);
        var j :| 0 <= j < |rest| && rest[j] == tail[i];
      }
    }
  }

  /** The input, reordered so that `le` holds between every earlier and later element. */
  function Sort<T(!new)>(xs: seq<T>, le: (T, T) -> bool): (r: seq<T>)
    requires TotalPreorder(le)
    ensures SortedBy(r, le)
    ensures multiset(r) == multiset(xs)
    ensures |r| == |xs|
    decreases |xs|
  {
    if |xs| == 0 then []
    else
      assert xs == [xs[0]] + xs[1..];
      Insert(xs[0], Sort(xs[1..], le), le)
  }
}
