/**
  Association lists in insertion order, the way a JavaScript object keeps its
  string keys.  Ramda's mergeWith, assoc, filter, keys, values and toPairs all
  keep that order, so the older analyzer's maps are lists of this kind, read
  through Assoc.Lookup.
*/
module Entries {
  import opened Wrappers
  import opened Assoc

  /** No key occurs twice. */
  predicate Distinct<K(==), V>(xs: seq<(K, V)>) {
    forall i, j :: 0 <= i < j < |xs| ==> xs[i].0 != xs[j].0
  }

  /** R.values */
  function Values<K, V>(xs: seq<(K, V)>): (r: seq<V>)
    ensures |r| == |xs| && forall i :: 0 <= i < |xs| ==> r[i] == xs[i].1
  {
    if xs == [] then [] else [xs[0].1] + Values(xs[1..])
  }

  /** Without repeated keys, every entry is the one Lookup finds. */
  lemma {:induction false} LookupDistinct<K, V>(xs: seq<(K, V)>, i: nat)
    requires Distinct(xs) && i < |xs|
    ensures Lookup(xs, xs[i].0) == Some(xs[i].1)
  {
    if i > 0 {
      DistinctTail(xs);
      assert xs[1..][i - 1] == xs[i];
      LookupDistinct(xs[1..], i - 1);
    }
  }

  /** Lookup in a concatenation reads the left part first. */
  lemma {:induction false} LookupAppend<K, V>(xs: seq<(K, V)>, ys: seq<(K, V)>, k: K)
    ensures Lookup(xs + ys, k) == if Lookup(xs, k).Some? then Lookup(xs, k) else Lookup(ys, k)
  {
    if xs == [] {
      assert xs + ys == ys;
    } else {
      assert (xs + ys)[1..] == xs[1..] + ys;
      LookupAppend(xs[1..], ys, k);
    }
  }

  lemma DistinctTail<K, V>(xs: seq<(K, V)>)
    requires Distinct(xs) && xs != []
    ensures Distinct(xs[1..])
    ensures forall i :: 0 <= i < |xs[1..]| ==> xs[1..][i].0 != xs[0].0
  {
    forall a, b | 0 <= a < b < |xs[1..]| ensures xs[1..][a].0 != xs[1..][b].0 {
      assert xs[1..][a] == xs[a + 1] && xs[1..][b] == xs[b + 1];
    }
    forall i | 0 <= i < |xs[1..]| ensures xs[1..][i].0 != xs[0].0 {
      assert xs[1..][i] == xs[i + 1];
    }
  }

  /** A key not among the keys of a list is put in front of it without a clash. */
  lemma DistinctCons<K, V>(x: (K, V), rest: seq<(K, V)>)
    requires Distinct(rest) && Lookup(rest, x.0).None?
    ensures Distinct([x] + rest)
  {
    var r := [x] + rest;
    forall a, b | 0 <= a < b < |r| ensures r[a].0 != r[b].0 {
      assert r[b] == rest[b - 1];
      if a > 0 {
        assert r[a] == rest[a - 1];
      }
    }
  }

  /** Every entry a filter keeps is an entry of its input. */
  lemma {:induction false} FilterEntriesFrom<K, V>(p: (K, V) -> bool, xs: seq<(K, V)>)
    ensures forall i :: 0 <= i < |FilterEntries(p, xs)| ==> FilterEntries(p, xs)[i] in xs
  {
    if xs != [] {
      FilterEntriesFrom(p, xs[1..]);
      var rest := FilterEntries(p, xs[1..]);
      forall i | 0 <= i < |rest| ensures rest[i] in xs {
        assert rest[i] in xs[1..];
      }
    }
  }

  /** A filter keeps any pairwise relation between the keys, in particular distinctness and order. */
  lemma {:induction false} FilterEntriesSorted<K, V>(less: (K, K) -> bool, p: (K, V) -> bool, xs: seq<(K, V)>)
    requires Sorted(less, xs)
    ensures Sorted(less, FilterEntries(p, xs))
  {
    if xs != [] {
      SortedTail(less, xs);
      FilterEntriesSorted(less, p, xs[1..]);
      var rest := FilterEntries(p, xs[1..]);
      FilterEntriesFrom(p, xs[1..]);
      if p(xs[0].0, xs[0].1) {
        forall i | 0 <= i < |rest| ensures less(xs[0].0, rest[i].0) {
          var j :| 0 <= j < |xs[1..]| && xs[1..][j] == rest[i];
          assert xs[j + 1] == rest[i];
        }
        SortedCons(less, xs[0], rest);
      }
    }
  }

  lemma {:induction false} FilterEntriesAppend<K, V>(p: (K, V) -> bool, xs: seq<(K, V)>, ys: seq<(K, V)>)
    ensures FilterEntries(p, xs + ys) == FilterEntries(p, xs) + FilterEntries(p, ys)
  {
    if xs == [] {
      assert xs + ys == ys;
    } else {
      assert (xs + ys)[1..] == xs[1..] + ys;
      FilterEntriesAppend(p, xs[1..], ys);
    }
  }

  /** A filter every entry passes returns its input. */
  lemma {:induction false} FilterEntriesAll<K, V>(p: (K, V) -> bool, xs: seq<(K, V)>)
    requires forall i :: 0 <= i < |xs| ==> p(xs[i].0, xs[i].1)
    ensures FilterEntries(p, xs) == xs
  {
    if xs != [] {
      FilterEntriesAll(p, xs[1..]);
    }
  }

  /** A filter keeps the keys distinct. */
  lemma {:induction false} FilterEntriesDistinct<K, V>(p: (K, V) -> bool, xs: seq<(K, V)>)
    requires Distinct(xs)
    ensures Distinct(FilterEntries(p, xs))
  {
    if xs != [] {
      DistinctTail(xs);
      FilterEntriesDistinct(p, xs[1..]);
      var rest := FilterEntries(p, xs[1..]);
      if p(xs[0].0, xs[0].1) {
        FilterEntriesFrom(p, xs[1..]);
        forall i | 0 <= i < |rest| ensures rest[i].0 != xs[0].0 {
          var j :| 0 <= j < |xs[1..]| && xs[1..][j] == rest[i];
        }
        assert Lookup(rest, xs[0].0).None?;
        DistinctCons(xs[0], rest);
      }
    }
  }

  /** In a list without repeated keys, a filter keeps exactly the entries that pass. */
  lemma {:induction false} FilterEntriesLookup<K, V>(p: (K, V) -> bool, xs: seq<(K, V)>, k: K)
    requires Distinct(xs)
    ensures Lookup(FilterEntries(p, xs), k)
            == if Lookup(xs, k).Some? && p(k, Lookup(xs, k).value) then Lookup(xs, k) else None
  {
    if xs != [] {
      DistinctTail(xs);
      FilterEntriesLookup(p, xs[1..], k);
      if xs[0].0 == k {
        assert Lookup(xs[1..], k).None?;
      }
    }
  }

  /** The left half of Ramda's mergeWith(f, l, r): l's entries, each combined with r's value under the same key. */
  function MergeLeft<K(==), V>(l: seq<(K, V)>, r: seq<(K, V)>, f: (V, V) -> V): (m: seq<(K, V)>)
    ensures |m| == |l| && forall i :: 0 <= i < |l| ==> m[i].0 == l[i].0
  {
    if l == [] then []
    else
      var k := l[0].0;
      [(k, if Lookup(r, k).Some? then f(l[0].1, Lookup(r, k).value) else l[0].1)] + MergeLeft(l[1..], r, f)
  }

  /**
    Ramda's mergeWith(f, l, r) on objects: l's keys first and in l's order,
    with f(l value, r value) under a key of both, then the keys only r has,
    in r's order.
  */
  function MergeWithJs<K(==), V>(l: seq<(K, V)>, r: seq<(K, V)>, f: (V, V) -> V): seq<(K, V)> {
    MergeLeft(l, r, f) + FilterEntries((k: K, v: V) => Lookup(l, k).None?, r)
  }

  lemma {:induction false} MergeLeftLookup<K, V>(l: seq<(K, V)>, r: seq<(K, V)>, f: (V, V) -> V, k: K)
    ensures Lookup(MergeLeft(l, r, f), k) == if Lookup(l, k).Some? then Combine(Lookup(l, k), Lookup(r, k), f) else None
  {
    if l != [] {
      MergeLeftLookup(l[1..], r, f, k);
    }
  }

  /** Keys equal position by position: the same lookups fail. */
  lemma {:induction false} SameKeysNone<K, V>(xs: seq<(K, V)>, ys: seq<(K, V)>, k: K)
    requires |xs| == |ys| && forall i :: 0 <= i < |xs| ==> xs[i].0 == ys[i].0
    ensures Lookup(xs, k).None? <==> Lookup(ys, k).None?
  {
    if xs != [] {
      SameKeysNone(xs[1..], ys[1..], k);
    }
  }

  lemma SameKeysDistinct<K, V>(xs: seq<(K, V)>, ys: seq<(K, V)>)
    requires Distinct(xs) && |xs| == |ys| && forall i :: 0 <= i < |xs| ==> xs[i].0 == ys[i].0
    ensures Distinct(ys)
  {
  }

  /** Two key-distinct lists with no key in common concatenate to a key-distinct list. */
  lemma DistinctAppend<K, V>(xs: seq<(K, V)>, ys: seq<(K, V)>)
    requires Distinct(xs) && Distinct(ys)
    requires forall i :: 0 <= i < |ys| ==> Lookup(xs, ys[i].0).None?
    ensures Distinct(xs + ys)
  {
    var r := xs + ys;
    forall a, b | 0 <= a < b < |r| ensures r[a].0 != r[b].0 {
      if b >= |xs| {
        assert r[b] == ys[b - |xs|];
        if a < |xs| {
          assert r[a] == xs[a];
        } else {
          assert r[a] == ys[a - |xs|];
        }
      }
    }
  }

  /** mergeWith combines the values of shared keys with f and keeps every other entry; no key repeats. */
  lemma MergeWithJsSpec<K, V>(l: seq<(K, V)>, r: seq<(K, V)>, f: (V, V) -> V)
    requires Distinct(l) && Distinct(r)
    ensures Distinct(MergeWithJs(l, r, f))
    ensures forall k :: Lookup(MergeWithJs(l, r, f), k) == Combine(Lookup(l, k), Lookup(r, k), f)
  {
    var left := MergeLeft(l, r, f);
    var p := (k: K, v: V) => Lookup(l, k).None?;
    var right := FilterEntries(p, r);
    SameKeysDistinct(l, left);
    FilterEntriesDistinct(p, r);
    forall i | 0 <= i < |right| ensures Lookup(left, right[i].0).None? {
      SameKeysNone(l, left, right[i].0);
    }
    DistinctAppend(left, right);
    forall k ensures Lookup(left + right, k) == Combine(Lookup(l, k), Lookup(r, k), f) {
      LookupAppend(left, right, k);
      MergeLeftLookup(l, r, f, k);
      FilterEntriesLookup(p, r, k);
    }
  }

  /** The left operand's keys lead the merge, in their order. */
  lemma MergeWithJsFront<K, V>(l: seq<(K, V)>, r: seq<(K, V)>, f: (V, V) -> V)
    ensures |MergeWithJs(l, r, f)| >= |l|
    ensures forall i :: 0 <= i < |l| ==> MergeWithJs(l, r, f)[i].0 == l[i].0
  {
  }

  /** R.assoc(k, v, xs): an existing key keeps its place and gets v; a new key goes last. */
  function AssocKey<K(==), V>(xs: seq<(K, V)>, k: K, v: V): seq<(K, V)> {
    if xs == [] then [(k, v)]
    else if xs[0].0 == k then [(k, v)] + xs[1..]
    else [xs[0]] + AssocKey(xs[1..], k, v)
  }

  /** Assigning an existing key replaces exactly its entry. */
  lemma {:induction false} AssocKeyAt<K, V>(xs: seq<(K, V)>, i: nat, v: V)
    requires Distinct(xs) && i < |xs|
    ensures AssocKey(xs, xs[i].0, v) == xs[..i] + [(xs[i].0, v)] + xs[i + 1..]
  {
    if i > 0 {
      var t, e := xs[1..], (xs[i].0, v);
      DistinctTail(xs);
      assert t[i - 1] == xs[i];
      AssocKeyAt(t, i - 1, v);
      assert AssocKey(xs, xs[i].0, v) == [xs[0]] + (t[..i - 1] + [e] + t[i..]);
      ConsSlices(xs, i, e);
    }
  }

  lemma ConsSlices<T>(xs: seq<T>, i: nat, e: T)
    requires 0 < i < |xs|
    ensures [xs[0]] + (xs[1..][..i - 1] + [e] + xs[1..][i..]) == xs[..i] + [e] + xs[i + 1..]
  {
    assert xs[..i] == [xs[0]] + xs[1..][..i - 1];
    assert xs[i + 1..] == xs[1..][i..];
  }

  /** After assigning, k reads v and every other key reads as before. */
  lemma {:induction false} AssocKeyLookup<K, V>(xs: seq<(K, V)>, k: K, v: V, j: K)
    ensures Lookup(AssocKey(xs, k, v), j) == if j == k then Some(v) else Lookup(xs, j)
  {
    if xs != [] && xs[0].0 != k {
      AssocKeyLookup(xs[1..], k, v, j);
    }
  }
}
