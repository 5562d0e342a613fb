/**
  Association lists kept in strictly ascending key order.  They model the
  JavaScript objects that the analyzer builds with mergeWith and then turns
  into sorted [key, value] pairs with toPairs and sortBy: as lists they are
  that sorted output, and through Lookup they are the object itself.
*/
module Assoc {
  import opened Wrappers

  /** A strict total order on keys. */
  ghost predicate StrictOrder<K(!new)>(less: (K, K) -> bool) {
    (forall a :: !less(a, a))
    && (forall a, b, c :: less(a, b) && less(b, c) ==> less(a, c))
    && (forall a, b :: a == b || less(a, b) || less(b, a))
  }

  /** Keys strictly ascending. */
  ghost predicate Sorted<K, V>(less: (K, K) -> bool, xs: seq<(K, V)>) {
    forall i, j :: 0 <= i < j < |xs| ==> less(xs[i].0, xs[j].0)
  }

  /** The value stored under k, the object's xs[k]. */
  function Lookup<K(==), V>(xs: seq<(K, V)>, k: K): (r: Option<V>)
    ensures r.None? <==> forall i :: 0 <= i < |xs| ==> xs[i].0 != k
    ensures r.Some? ==> exists i :: 0 <= i < |xs| && xs[i] == (k, r.value)
  {
    if xs == [] then None
    else if xs[0].0 == k then Some(xs[0].1)
    else
      var r := Lookup(xs[1..], k);
      if r.Some? then
        ghost var i :| 0 <= i < |xs[1..]| && xs[1..][i] == (k, r.value);
        assert xs[i + 1] == (k, r.value);
        r
      else r
  }

  /** In a sorted list every entry is the one Lookup finds. */
  lemma LookupEntry<K(!new), V>(less: (K, K) -> bool, xs: seq<(K, V)>, i: nat)
    requires StrictOrder(less) && Sorted(less, xs) && i < |xs|
    ensures Lookup(xs, xs[i].0) == Some(xs[i].1)
  {
    if i > 0 {
      assert less(xs[0].0, xs[i].0);
      assert Sorted(less, xs[1..]) by {
        forall a, b | 0 <= a < b < |xs[1..]| ensures less(xs[1..][a].0, xs[1..][b].0) {
          assert xs[1..][a] == xs[a + 1] && xs[1..][b] == xs[b + 1];
        }
      }
      LookupEntry(less, xs[1..], i - 1);
    }
  }

  /** Ramda's assoc/mergeWith on one key: insert k with v, or combine an existing value old into f(old, v). */
  function Upsert<K(==), V>(less: (K, K) -> bool, xs: seq<(K, V)>, k: K, v: V, f: (V, V) -> V): (r: seq<(K, V)>)
    ensures |r| == |xs| || |r| == |xs| + 1
    ensures forall i :: 0 <= i < |r| ==> r[i].0 == k || exists j :: 0 <= j < |xs| && xs[j].0 == r[i].0
  {
    if xs == [] then [(k, v)]
    else if xs[0].0 == k then [(k, f(xs[0].1, v))] + xs[1..]
    else if less(k, xs[0].0) then [(k, v)] + xs
    else
      var rest := Upsert(less, xs[1..], k, v, f);
      assert forall i :: 0 <= i < |rest| ==> rest[i].0 == k || exists j :: 0 <= j < |xs| && xs[j].0 == rest[i].0 by {
        forall i | 0 <= i < |rest| && rest[i].0 != k
          ensures exists j :: 0 <= j < |xs| && xs[j].0 == rest[i].0
        {
          var j :| 0 <= j < |xs[1..]| && xs[1..][j].0 == rest[i].0;
          assert xs[j + 1].0 == rest[i].0;
        }
      }
      [xs[0]] + rest
  }

  /** Combination of the values under one key, as mergeWith(f, l, r) does it. */
  function Combine<V>(l: Option<V>, r: Option<V>, f: (V, V) -> V): Option<V> {
    match (l, r)
    case (Some(a), Some(b)) => Some(f(a, b))
    case (Some(a), None) => Some(a)
    case (None, _) => r
  }

  lemma SortedTail<K, V>(less: (K, K) -> bool, xs: seq<(K, V)>)
    requires Sorted(less, xs) && xs != []
    ensures Sorted(less, xs[1..])
  {
    forall a, b | 0 <= a < b < |xs[1..]| ensures less(xs[1..][a].0, xs[1..][b].0) {
      assert xs[1..][a] == xs[a + 1] && xs[1..][b] == xs[b + 1];
    }
  }

  /** Putting a key below every key of a sorted list keeps it sorted. */
  lemma SortedCons<K, V>(less: (K, K) -> bool, x: (K, V), rest: seq<(K, V)>)
    requires Sorted(less, rest)
    requires forall i :: 0 <= i < |rest| ==> less(x.0, rest[i].0)
    ensures Sorted(less, [x] + rest)
  {
    var r := [x] + rest;
    forall a, b | 0 <= a < b < |r| ensures less(r[a].0, r[b].0) {
      assert r[b] == rest[b - 1];
      if a > 0 {
        assert r[a] == rest[a - 1];
      }
    }
  }

  /** Upsert keeps the list sorted. */
  lemma {:induction false} UpsertSorted<K(!new), V>(less: (K, K) -> bool, xs: seq<(K, V)>, k: K, v: V, f: (V, V) -> V)
    requires StrictOrder(less) && Sorted(less, xs)
    ensures Sorted(less, Upsert(less, xs, k, v, f))
  {
    if xs == [] {
    } else {
      var tail := xs[1..];
      SortedTail(less, xs);
      assert forall i :: 0 <= i < |tail| ==> less(xs[0].0, tail[i].0) by {
        forall i | 0 <= i < |tail| ensures less(xs[0].0, tail[i].0) {
          assert tail[i] == xs[i + 1];
        }
      }
      if xs[0].0 == k {
        SortedCons(less, (k, f(xs[0].1, v)), tail);
      } else if less(k, xs[0].0) {
        assert xs == [xs[0]] + tail;
        SortedCons(less, xs[0], tail);
        SortedCons(less, (k, v), xs);
      } else {
        var rest := Upsert(less, tail, k, v, f);
        UpsertSorted(less, tail, k, v, f);
        forall i | 0 <= i < |rest| ensures less(xs[0].0, rest[i].0) {
          if rest[i].0 != k {
            var j :| 0 <= j < |tail| && tail[j].0 == rest[i].0;
          }
        }
        SortedCons(less, xs[0], rest);
      }
    }
  }

  /** Upsert changes the entry under k only: it combines the old value with v, or inserts v. */
  lemma {:induction false} UpsertLookup<K(!new), V>(less: (K, K) -> bool, xs: seq<(K, V)>, k: K, v: V, f: (V, V) -> V)
    requires StrictOrder(less) && Sorted(less, xs)
    ensures forall j :: Lookup(Upsert(less, xs, k, v, f), j)
                        == if j == k then Combine(Lookup(xs, k), Some(v), f) else Lookup(xs, j)
  {
    var r := Upsert(less, xs, k, v, f);
    if xs == [] {
    } else if xs[0].0 == k {
      assert r[1..] == xs[1..];
    } else if less(k, xs[0].0) {
      assert r[1..] == xs;
      forall i | 0 <= i < |xs| ensures xs[i].0 != k {
        assert i == 0 || less(xs[0].0, xs[i].0);
      }
    } else {
      SortedTail(less, xs);
      UpsertLookup(less, xs[1..], k, v, f);
      assert r[1..] == Upsert(less, xs[1..], k, v, f);
    }
  }

  /**
    mergeWith(f, xs, ys): every key of either list, values under keys of both
    combined as f(xs value, ys value).  ys is folded into xs entry by entry.
  */
  function MergeWith<K(==), V>(less: (K, K) -> bool, xs: seq<(K, V)>, ys: seq<(K, V)>, f: (V, V) -> V): seq<(K, V)>
    decreases |ys|
  {
    if ys == [] then xs
    else Upsert(less, MergeWith(less, xs, ys[..|ys| - 1], f), ys[|ys| - 1].0, ys[|ys| - 1].1, f)
  }

  lemma {:induction false} MergeWithSpec<K(!new), V>(less: (K, K) -> bool, xs: seq<(K, V)>, ys: seq<(K, V)>, f: (V, V) -> V)
    requires StrictOrder(less) && Sorted(less, xs) && Sorted(less, ys)
    ensures Sorted(less, MergeWith(less, xs, ys, f))
    ensures forall j :: Lookup(MergeWith(less, xs, ys, f), j) == Combine(Lookup(xs, j), Lookup(ys, j), f)
    decreases |ys|
  {
    if ys != [] {
      var init := ys[..|ys| - 1];
      var (k, v) := ys[|ys| - 1];
      assert Sorted(less, init);
      MergeWithSpec(less, xs, init, f);
      var m := MergeWith(less, xs, init, f);
      UpsertSorted(less, m, k, v, f);
      UpsertLookup(less, m, k, v, f);
      forall j ensures Lookup(MergeWith(less, xs, ys, f), j) == Combine(Lookup(xs, j), Lookup(ys, j), f) {
        LookupSnoc(init, ys[|ys| - 1], j);
        assert ys == init + [ys[|ys| - 1]];
        if j == k {
          forall i | 0 <= i < |init| ensures init[i].0 != k {
            assert less(ys[i].0, ys[|ys| - 1].0);
          }
        }
      }
    }
  }

  /** Looking up in a list extended at the end. */
  lemma {:induction false} LookupSnoc<K, V>(xs: seq<(K, V)>, e: (K, V), j: K)
    ensures Lookup(xs + [e], j) == if Lookup(xs, j).Some? then Lookup(xs, j) else if e.0 == j then Some(e.1) else None
  {
    if xs != [] {
      assert (xs + [e])[1..] == xs[1..] + [e];
      LookupSnoc(xs[1..], e, j);
    }
  }

  /** R.filter over the entries: keep those satisfying p. */
  function FilterEntries<K, V>(p: (K, V) -> bool, xs: seq<(K, V)>): (r: seq<(K, V)>)
    ensures |r| <= |xs|
    ensures forall i :: 0 <= i < |r| ==> p(r[i].0, r[i].1)
  {
    if xs == [] then []
    else if p(xs[0].0, xs[0].1) then [xs[0]] + FilterEntries(p, xs[1..])
    else FilterEntries(p, xs[1..])
  }

  lemma {:induction false} FilterEntriesSpec<K(!new), V>(less: (K, K) -> bool, p: (K, V) -> bool, xs: seq<(K, V)>)
    requires StrictOrder(less) && Sorted(less, xs)
    ensures Sorted(less, FilterEntries(p, xs))
    ensures forall j :: Lookup(FilterEntries(p, xs), j)
                        == if Lookup(xs, j).Some? && p(j, Lookup(xs, j).value) then Lookup(xs, j) else None
  {
    if xs != [] {
      SortedTail(less, xs);
      FilterEntriesSpec(less, p, xs[1..]);
      var rest := FilterEntries(p, xs[1..]);
      if p(xs[0].0, xs[0].1) {
        var r := [xs[0]] + rest;
        forall a, b | 0 <= a < b < |r| ensures less(r[a].0, r[b].0) {
          if a > 0 {
            assert r[a] == rest[a - 1] && r[b] == rest[b - 1];
          } else {
            assert r[b] == rest[b - 1];
            var key := rest[b - 1].0;
            assert Lookup(rest, key).Some?;
            var c :| 0 <= c < |xs[1..]| && xs[1..][c] == (key, Lookup(xs[1..], key).value);
            assert less(xs[0].0, xs[c + 1].0);
          }
        }
        assert r[1..] == rest;
      }
      forall j | j == xs[0].0 ensures Lookup(xs[1..], j).None? {
        forall i | 0 <= i < |xs[1..]| ensures xs[1..][i].0 != j {
          assert less(xs[0].0, xs[i + 1].0);
        }
      }
    }
  }
}
