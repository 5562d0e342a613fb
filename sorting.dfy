/**
  Python's sorted(xs, key=...) on a total preorder: a stable insertion sort.
  `le(a, b)` is "the key of a is not greater than the key of b".
*/
module Sorting {

  /** Every pair is comparable one way or the other. */
  ghost predicate Total<T(!new)>(le: (T, T) -> bool) {
    forall a, b :: le(a, b) || le(b, a)
  }

  /** Neighbours are in order. */
  ghost predicate SortedBy<T>(le: (T, T) -> bool, xs: seq<T>) {
    forall i :: 0 <= i < |xs| - 1 ==> le(xs[i], xs[i + 1])
  }

  /** Places x in front of the first element it does not exceed. */
  function InsertBy<T>(le: (T, T) -> bool, x: T, xs: seq<T>): (r: seq<T>)
    ensures |r| == |xs| + 1
    ensures multiset(r) == multiset(xs) + multiset{x}
  {
    if xs == [] || le(x, xs[0]) then [x] + xs
    else
      assert xs == [xs[0]] + xs[1..];
      [xs[0]] + InsertBy(le, x, xs[1..])
  }

  function SortBy<T>(le: (T, T) -> bool, xs: seq<T>): (r: seq<T>)
    ensures |r| == |xs|
    ensures multiset(r) == multiset(xs)
  {
    if xs == [] then []
    else
      assert xs == [xs[0]] + xs[1..];
      InsertBy(le, xs[0], SortBy(le, xs[1..]))
  }

  lemma {:induction false} InsertBySorted<T(!new)>(le: (T, T) -> bool, x: T, xs: seq<T>)
    requires Total(le) && SortedBy(le, xs)
    ensures SortedBy(le, InsertBy(le, x, xs))
    ensures xs != [] ==> InsertBy(le, x, xs)[0] == x || InsertBy(le, x, xs)[0] == xs[0]
  {
    if xs != [] && !le(x, xs[0]) {
      var tail := xs[1..];
      assert SortedBy(le, tail);
      InsertBySorted(le, x, tail);
      var r := InsertBy(le, x, xs);
      assert r == [xs[0]] + InsertBy(le, x, tail);
      assert le(xs[0], x);
      forall i | 0 <= i < |r| - 1
        ensures le(r[i], r[i + 1])
      {
        if i > 0 {
          assert r[i] == InsertBy(le, x, tail)[i - 1];
        } else if tail != [] {
          assert le(xs[0], tail[0]);
        }
      }
    }
  }

  /** The result is ordered and, by SortBy's contract, a permutation of the input. */
  lemma {:induction false} SortBySorted<T(!new)>(le: (T, T) -> bool, xs: seq<T>)
    requires Total(le)
    ensures SortedBy(le, SortBy(le, xs))
  {
    if xs != [] {
      SortBySorted(le, xs[1..]);
      InsertBySorted(le, xs[0], SortBy(le, xs[1..]));
    }
  }
}
