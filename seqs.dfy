/** Generic list combinators in the shape the source's Ramda pipelines use them. */
module Seqs {

  /** R.filter: keeps, in order, the elements satisfying p. */
  function Filter<T(==)>(p: T -> bool, xs: seq<T>): (r: seq<T>)
    ensures |r| <= |xs|
    ensures forall i :: 0 <= i < |r| ==> r[i] in xs && p(r[i])
    ensures forall i :: 0 <= i < |xs| && p(xs[i]) ==> xs[i] in r
  {
    if xs == [] then []
    else if p(xs[0]) then [xs[0]] + Filter(p, xs[1..])
    else Filter(p, xs[1..])
  }

  /** r's elements occur in xs in r's order, possibly with others between (matched greedily). */
  predicate Subsequence<T(==)>(r: seq<T>, xs: seq<T>)
    decreases |xs|
  {
    if r == [] then true
    else if xs == [] then false
    else if r[0] == xs[0] then Subsequence(r[1..], xs[1..])
    else Subsequence(r, xs[1..])
  }

  /** R.filter keeps its elements in their order. */
  lemma {:induction false} FilterSubsequence<T>(p: T -> bool, xs: seq<T>)
    ensures Subsequence(Filter(p, xs), xs)
  {
    if xs != [] {
      FilterSubsequence(p, xs[1..]);
      var r := Filter(p, xs);
      if p(xs[0]) {
        assert r[1..] == Filter(p, xs[1..]);
      } else if r != [] {
        assert p(r[0]);
      }
    }
  }

  /** R.filter keeps each passing element as often as it occurs, and no other. */
  lemma {:induction false} FilterCount<T>(p: T -> bool, xs: seq<T>)
    ensures forall x :: multiset(Filter(p, xs))[x] == if p(x) then multiset(xs)[x] else 0
  {
    if xs != [] {
      FilterCount(p, xs[1..]);
      assert xs == [xs[0]] + xs[1..];
      assert multiset(xs) == multiset{xs[0]} + multiset(xs[1..]);
    }
  }

  /** A subsequence holds no more of any element than the sequence it is drawn from. */
  lemma {:induction false} SubsequenceCount<T>(r: seq<T>, xs: seq<T>)
    requires Subsequence(r, xs)
    ensures multiset(r) <= multiset(xs)
    decreases |xs|
  {
    if r != [] {
      assert xs == [xs[0]] + xs[1..];
      assert multiset(xs) == multiset{xs[0]} + multiset(xs[1..]);
      if r[0] == xs[0] {
        SubsequenceCount(r[1..], xs[1..]);
        assert r == [r[0]] + r[1..];
        assert multiset(r) == multiset{r[0]} + multiset(r[1..]);
      } else {
        SubsequenceCount(r, xs[1..]);
      }
    }
  }

  /**
    The two properties above pin R.filter down: any subsequence of xs holding
    exactly the passing elements, each as often as in xs, is Filter(p, xs).
  */
  lemma {:induction false} FilterUnique<T>(p: T -> bool, xs: seq<T>, r: seq<T>)
    requires Subsequence(r, xs)
    requires forall x :: multiset(r)[x] == if p(x) then multiset(xs)[x] else 0
    ensures r == Filter(p, xs)
    decreases |xs|
  {
    if xs == [] {
      assert r == [];
    } else {
      var x0, rest := xs[0], xs[1..];
      assert xs == [x0] + rest;
      assert multiset(xs) == multiset{x0} + multiset(rest);
      if r != [] && r[0] == x0 {
        assert r == [x0] + r[1..];
        assert multiset(r) == multiset{x0} + multiset(r[1..]);
        assert p(x0);
        FilterUnique(p, rest, r[1..]);
      } else {
        SubsequenceCount(r, rest);
        assert multiset(r)[x0] <= multiset(rest)[x0] < multiset(xs)[x0];
        FilterUnique(p, rest, r);
      }
    }
  }

  /** Filtering the concatenation is concatenating the filtered parts. */
  lemma {:induction false} FilterAppend<T>(p: T -> bool, xs: seq<T>, ys: seq<T>)
    ensures Filter(p, xs + ys) == Filter(p, xs) + Filter(p, ys)
  {
    if xs == [] {
      assert xs + ys == ys;
    } else {
      assert (xs + ys)[1..] == xs[1..] + ys;
      FilterAppend(p, xs[1..], ys);
    }
  }

  /** A filter whose predicate holds everywhere returns its input. */
  lemma {:induction false} FilterAll<T>(p: T -> bool, xs: seq<T>)
    requires forall i :: 0 <= i < |xs| ==> p(xs[i])
    ensures Filter(p, xs) == xs
  {
    if xs != [] {
      FilterAll(p, xs[1..]);
    }
  }

  /** Applying the same filter twice is applying it once. */
  lemma FilterIdempotent<T>(p: T -> bool, xs: seq<T>)
    ensures Filter(p, Filter(p, xs)) == Filter(p, xs)
  {
    FilterAll(p, Filter(p, xs));
  }

  /** R.map */
  function Map<T, U>(f: T -> U, xs: seq<T>): (r: seq<U>)
    ensures |r| == |xs|
    ensures forall i :: 0 <= i < |xs| ==> r[i] == f(xs[i])
  {
    if xs == [] then [] else [f(xs[0])] + Map(f, xs[1..])
  }

  /** A non-empty sequence is its prefix followed by its last element. */
  lemma Snoc<T>(xs: seq<T>)
    requires xs != []
    ensures xs[..|xs| - 1] + [xs[|xs| - 1]] == xs
  {
  }

  /** A sequence is what lies before position k, the element at k and what lies after it. */
  lemma Around<T>(xs: seq<T>, k: nat)
    requires k < |xs|
    ensures xs == xs[..k] + [xs[k]] + xs[k + 1..]
  {
  }

  /** Mapping a list with one more element at the end. */
  lemma MapSnoc<T, U>(f: T -> U, xs: seq<T>)
    requires xs != []
    ensures Map(f, xs) == Map(f, xs[..|xs| - 1]) + [f(xs[|xs| - 1])]
  {
    var n := |xs| - 1;
    MapAppend(f, xs[..n], [xs[n]]);
    assert xs == xs[..n] + [xs[n]];
    assert Map(f, [xs[n]]) == [f(xs[n])];
  }

  lemma MapAppend<T, U>(f: T -> U, xs: seq<T>, ys: seq<T>)
    ensures Map(f, xs + ys) == Map(f, xs) + Map(f, ys)
  {
    var a, b := Map(f, xs + ys), Map(f, xs) + Map(f, ys);
    assert |a| == |b|;
    forall i | 0 <= i < |a|
      ensures a[i] == b[i]
    {
      if i < |xs| {
        assert (xs + ys)[i] == xs[i];
      } else {
        assert (xs + ys)[i] == ys[i - |xs|];
      }
    }
  }

  /** R.range(lo, hi): the integers lo, lo + 1, ..., hi - 1. */
  function Range(lo: int, hi: int): (r: seq<int>)
    decreases hi - lo
    ensures |r| == if lo <= hi then hi - lo else 0
    ensures forall i :: 0 <= i < |r| ==> r[i] == lo + i
  {
    if lo >= hi then [] else [lo] + Range(lo + 1, hi)
  }

  /** R.zipWith: pairs the two lists up to the shorter length. */
  function ZipWith<A, B, C>(f: (A, B) -> C, xs: seq<A>, ys: seq<B>): (r: seq<C>)
    ensures |r| == if |xs| <= |ys| then |xs| else |ys|
    ensures forall i :: 0 <= i < |r| ==> r[i] == f(xs[i], ys[i])
  {
    if xs == [] || ys == [] then [] else [f(xs[0], ys[0])] + ZipWith(f, xs[1..], ys[1..])
  }

  /** R.uniq: the distinct elements, in order of first occurrence. */
  function Uniq<T(==)>(xs: seq<T>): (r: seq<T>)
    ensures forall i :: 0 <= i < |r| ==> r[i] in xs
    ensures forall i :: 0 <= i < |xs| ==> xs[i] in r
    ensures forall i, j :: 0 <= i < j < |r| ==> r[i] != r[j]
  {
    if xs == [] then []
    else
      var rest := Uniq(xs[..|xs| - 1]);
      if xs[|xs| - 1] in rest then rest else rest + [xs[|xs| - 1]]
  }

  /** More than one distinct element exactly when two positions hold different values. */
  lemma UniqMoreThanOne<T>(xs: seq<T>)
    ensures |Uniq(xs)| > 1 <==> exists i, j :: 0 <= i < |xs| && 0 <= j < |xs| && xs[i] != xs[j]
  {
    var u := Uniq(xs);
    if |u| > 1 {
      assert u[0] in xs && u[1] in xs;
      var i :| 0 <= i < |xs| && xs[i] == u[0];
      var j :| 0 <= j < |xs| && xs[j] == u[1];
      assert xs[i] != xs[j];
    }
    if exists i, j :: 0 <= i < |xs| && 0 <= j < |xs| && xs[i] != xs[j] {
      var i, j :| 0 <= i < |xs| && 0 <= j < |xs| && xs[i] != xs[j];
      assert xs[i] in u && xs[j] in u;
    }
  }

  /** Python's reversed(xs). */
  function Reverse<T>(xs: seq<T>): (r: seq<T>)
    ensures |r| == |xs|
    ensures forall i :: 0 <= i < |xs| ==> r[i] == xs[|xs| - 1 - i]
  {
    if xs == [] then [] else Reverse(xs[1..]) + [xs[0]]
  }

  /** The last element, the counterpart of Python's xs[-1] and R.last. */
  function Last<T>(xs: seq<T>): T
    requires |xs| > 0
  {
    xs[|xs| - 1]
  }

  /** Python's list.insert(i, x) for 0 <= i <= len(list). */
  function InsertAt<T>(xs: seq<T>, i: nat, x: T): (r: seq<T>)
    requires i <= |xs|
    ensures |r| == |xs| + 1 && r[i] == x
    ensures r[..i] == xs[..i] && r[i + 1..] == xs[i..]
  {
    xs[..i] + [x] + xs[i..]
  }

  /** Concatenation of a list of lists. */
  function Flatten<T>(xss: seq<seq<T>>): (r: seq<T>)
  {
    if xss == [] then [] else xss[0] + Flatten(xss[1..])
  }

  lemma {:induction false} FlattenAppend<T>(xss: seq<seq<T>>, yss: seq<seq<T>>)
    ensures Flatten(xss + yss) == Flatten(xss) + Flatten(yss)
  {
    if xss == [] {
      assert xss + yss == yss;
    } else {
      assert (xss + yss)[1..] == xss[1..] + yss;
      FlattenAppend(xss[1..], yss);
    }
  }
}
