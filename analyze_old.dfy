/**
  The older balancing engine (js/src/analyze.js).  A transaction's postings are
  first merged into an account -> {commodity -> quantity} object; the one
  account whose object is empty is then given the negated sum of all the
  others.  Objects keep their keys in insertion order, so they are modelled as
  Entries lists.
*/
module AnalyzeOld {
  import opened Wrappers
  import opened Decimal
  import opened Assoc
  import opened Entries
  import opened Seqs
  import Analyze

  type Amounts = Analyze.Amounts

  /** account -> {commodity -> quantity}, in key order */
  type AccountMap = seq<(string, Amounts)>

  // ---- commodity maps ------------------------------------------------------------

  /** invertValues: every quantity negated. */
  function Invert(a: Amounts): (r: Amounts)
    ensures r.Keys == a.Keys && forall c :: c in a ==> r[c] == Neg(a[c])
  {
    map c | c in a :: Neg(a[c])
  }

  /** R.reduce(mergeAmounts, {}) over a list of commodity maps. */
  function MergeAll(vs: seq<Amounts>): Amounts {
    if vs == [] then map[] else Analyze.MergeAmounts(MergeAll(vs[..|vs| - 1]), vs[|vs| - 1])
  }

  /** The quantities a list of commodity maps holds under c, in order. */
  function Column(vs: seq<Amounts>, c: string): seq<Quantity> {
    if vs == [] then []
    else (if c in vs[0] then [vs[0][c]] else []) + Column(vs[1..], c)
  }

  lemma {:induction false} ColumnAppend(xs: seq<Amounts>, ys: seq<Amounts>, c: string)
    ensures Column(xs + ys, c) == Column(xs, c) + Column(ys, c)
  {
    if xs == [] {
      assert xs + ys == ys;
    } else {
      var h := if c in xs[0] then [xs[0][c]] else [];
      assert (xs + ys)[0] == xs[0] && (xs + ys)[1..] == xs[1..] + ys;
      assert Column(xs + ys, c) == h + Column(xs[1..] + ys, c);
      ColumnAppend(xs[1..], ys, c);
      assert h + (Column(xs[1..], c) + Column(ys, c)) == h + Column(xs[1..], c) + Column(ys, c);
    }
  }

  /** Merging all the maps adds, commodity by commodity, every quantity held under it. */
  lemma {:induction false} MergeAllSpec(vs: seq<Amounts>)
    ensures forall c :: c in MergeAll(vs) <==> Column(vs, c) != []
    ensures forall c :: c in MergeAll(vs) ==> MergeAll(vs)[c] == Sum(Column(vs, c))
  {
    if vs != [] {
      var init, v := vs[..|vs| - 1], vs[|vs| - 1];
      MergeAllSpec(init);
      assert vs == init + [v];
      forall c ensures Column(vs, c) == Column(init, c) + (if c in v then [v[c]] else []) {
        ColumnAppend(init, [v], c);
        assert Column([v], c) == (if c in v then [v[c]] else []) + Column([], c);
      }
      forall c | c in MergeAll(vs) ensures MergeAll(vs)[c] == Sum(Column(vs, c)) {
        var col := Column(init, c);
        if c in v {
          var full := col + [v[c]];
          assert full[..|full| - 1] == col;
          if col == [] {
            AddZero(v[c]);
          }
        } else {
          assert Column(vs, c) == col;
        }
      }
    }
  }

  /** Negating every map negates every column. */
  lemma {:induction false} ColumnInvert(vs: seq<Amounts>, c: string)
    ensures Column(Map(Invert, vs), c) == Map(Neg, Column(vs, c))
  {
    if vs != [] {
      ColumnInvert(vs[1..], c);
      assert Map(Invert, vs)[1..] == Map(Invert, vs[1..]);
      var head := if c in vs[0] then [vs[0][c]] else [];
      assert Map(Neg, head + Column(vs[1..], c)) == Map(Neg, head) + Map(Neg, Column(vs[1..], c));
    }
  }

  /** The sum of the negations is the negated sum. */
  lemma {:induction false} SumNeg(qs: seq<Quantity>)
    ensures Sum(Map(Neg, qs)) == Neg(Sum(qs))
  {
    if qs != [] {
      var init := qs[..|qs| - 1];
      SumNeg(init);
      assert Map(Neg, qs)[..|qs| - 1] == Map(Neg, init);
    }
  }

  /** A column in which every quantity is known sums to a known value. */
  lemma {:induction false} ColumnKnown(vs: seq<Amounts>, c: string)
    requires forall i :: 0 <= i < |vs| && c in vs[i] ==> vs[i][c].Known?
    ensures Sum(Column(vs, c)).Known?
  {
    if vs != [] {
      ColumnKnown(vs[1..], c);
      SumUnknown(Column(vs[1..], c));
      SumUnknown(Column(vs, c));
    }
  }

  // ---- one transaction's account map ------------------------------------------------

  /** reducePosting: mergeWith(mergeAmounts, {account: amount(p)}, acc); the account moves to the front. */
  function ReducePosting(acc: AccountMap, p: Analyze.Posting): AccountMap {
    MergeWithJs([(p.account, Analyze.AmountOf(p.amount))], acc, Analyze.MergeAmounts)
  }

  /** R.reduce(reducePosting, {}) over a transaction's postings. */
  function PostingMap(ps: seq<Analyze.Posting>): AccountMap {
    if ps == [] then [] else ReducePosting(PostingMap(ps[..|ps| - 1]), ps[|ps| - 1])
  }

  /** The index of the last posting to account a, or -1. */
  function LastTouch(ps: seq<Analyze.Posting>, a: string): (r: int)
    ensures -1 <= r < |ps|
    ensures r >= 0 ==> ps[r].account == a
    ensures forall j :: r < j < |ps| ==> ps[j].account != a
    ensures r == -1 <==> !Analyze.Touches(ps, a)
  {
    if ps == [] then -1
    else if ps[|ps| - 1].account == a then |ps| - 1
    else
      var r := LastTouch(ps[..|ps| - 1], a);
      assert Analyze.Touches(ps, a) ==> Analyze.Touches(ps[..|ps| - 1], a) by {
        if Analyze.Touches(ps, a) {
          var i :| 0 <= i < |ps| && ps[i].account == a;
          assert ps[..|ps| - 1][i] == ps[i];
        }
      }
      r
  }

  /** Keys in order of their last posting, the latest first. */
  function MoreRecent(ps: seq<Analyze.Posting>): (string, string) -> bool {
    (a: string, b: string) => LastTouch(ps, a) > LastTouch(ps, b)
  }

  /** The entry test that drops account a. */
  function Other(a: string): (string, Amounts) -> bool {
    (k: string, v: Amounts) => k != a
  }

  /** One step of the fold: the posted account first with the merged amount, the rest as before. */
  lemma PostingStep(m: AccountMap, p: Analyze.Posting)
    requires Distinct(m)
    ensures var r := ReducePosting(m, p);
            && Distinct(r)
            && r != [] && r[0].0 == p.account
            && r[1..] == FilterEntries(Other(p.account), m)
            && Lookup(r, p.account) == Combine(Some(Analyze.AmountOf(p.amount)), Lookup(m, p.account), Analyze.MergeAmounts)
            && forall a :: a != p.account ==> Lookup(r, a) == Lookup(m, a)
  {
    var one := [(p.account, Analyze.AmountOf(p.amount))];
    MergeWithJsSpec(one, m, Analyze.MergeAmounts);
    var p1 := (k: string, v: Amounts) => Lookup(one, k).None?;
    assert FilterEntries(p1, m) == FilterEntries(Other(p.account), m) by {
      FilterSame(p1, Other(p.account), m);
    }
  }

  lemma {:induction false} FilterSame<K, V>(p: (K, V) -> bool, q: (K, V) -> bool, xs: seq<(K, V)>)
    requires forall k, v :: p(k, v) == q(k, v)
    ensures FilterEntries(p, xs) == FilterEntries(q, xs)
  {
    if xs != [] {
      FilterSame(p, q, xs[1..]);
    }
  }

  /**
    A transaction's account map has one entry per account posted to, holding
    the merged amounts of its postings, and lists the accounts by their last
    posting, the latest first.
  */
  lemma {:induction false} PostingMapSpec(ps: seq<Analyze.Posting>)
    ensures Distinct(PostingMap(ps))
    ensures forall a :: Lookup(PostingMap(ps), a)
                        == if Analyze.Touches(ps, a) then Some(Analyze.PostingTotal(ps, a)) else None
    ensures Sorted(MoreRecent(ps), PostingMap(ps))
  {
    if ps != [] {
      var init, p := ps[..|ps| - 1], ps[|ps| - 1];
      var m := PostingMap(init);
      PostingMapSpec(init);
      PostingStep(m, p);
      PostingLookupStep(ps, m);
      PostingMapOrder(ps, m);
    }
  }

  /** The lookup part of PostingMapSpec, for one step. */
  lemma PostingLookupStep(ps: seq<Analyze.Posting>, m: AccountMap)
    requires ps != [] && m == PostingMap(ps[..|ps| - 1]) && Distinct(m)
    requires forall a :: Lookup(m, a) == if Analyze.Touches(ps[..|ps| - 1], a) then Some(Analyze.PostingTotal(ps[..|ps| - 1], a)) else None
    ensures forall a :: Lookup(PostingMap(ps), a) == if Analyze.Touches(ps, a) then Some(Analyze.PostingTotal(ps, a)) else None
  {
    PostingStep(m, ps[|ps| - 1]);
    forall a ensures Lookup(PostingMap(ps), a) == if Analyze.Touches(ps, a) then Some(Analyze.PostingTotal(ps, a)) else None {
      PostingLookupAt(ps, m, a);
    }
  }

  /** PostingLookupStep for one account. */
  lemma PostingLookupAt(ps: seq<Analyze.Posting>, m: AccountMap, a: string)
    requires ps != [] && m == PostingMap(ps[..|ps| - 1])
    requires Lookup(m, a) == if Analyze.Touches(ps[..|ps| - 1], a) then Some(Analyze.PostingTotal(ps[..|ps| - 1], a)) else None
    requires var p := ps[|ps| - 1];
             Lookup(PostingMap(ps), p.account) == Combine(Some(Analyze.AmountOf(p.amount)), Lookup(m, p.account), Analyze.MergeAmounts)
    requires a != ps[|ps| - 1].account ==> Lookup(PostingMap(ps), a) == Lookup(m, a)
    ensures Lookup(PostingMap(ps), a) == if Analyze.Touches(ps, a) then Some(Analyze.PostingTotal(ps, a)) else None
  {
    var init, p := ps[..|ps| - 1], ps[|ps| - 1];
    TouchesSnoc(ps, a);
    if a == p.account {
      assert ps == init + [p];
      PostedAccount(init, p, Lookup(m, a));
    }
  }

  /** The posted account's entry: its earlier total, if any, merged with the new amount. */
  lemma PostedAccount(init: seq<Analyze.Posting>, p: Analyze.Posting, before: Option<Amounts>)
    requires before == if Analyze.Touches(init, p.account) then Some(Analyze.PostingTotal(init, p.account)) else None
    ensures Combine(Some(Analyze.AmountOf(p.amount)), before, Analyze.MergeAmounts)
            == Some(Analyze.PostingTotal(init + [p], p.account))
  {
    var ps := init + [p];
    assert ps[..|ps| - 1] == init;
    if Analyze.Touches(init, p.account) {
      Analyze.MergeAmountsCommutes(Analyze.AmountOf(p.amount), Analyze.PostingTotal(init, p.account));
    } else {
      Analyze.PostingTotalUntouched(init, p.account);
      Analyze.MergeAmountsEmpty(Analyze.AmountOf(p.amount));
    }
  }

  lemma TouchesSnoc(ps: seq<Analyze.Posting>, a: string)
    requires ps != []
    ensures Analyze.Touches(ps, a) <==> Analyze.Touches(ps[..|ps| - 1], a) || ps[|ps| - 1].account == a
  {
    var init := ps[..|ps| - 1];
    if Analyze.Touches(init, a) {
      var i :| 0 <= i < |init| && init[i].account == a;
      assert ps[i] == init[i];
    }
  }

  /** The order part of PostingMapSpec, for one step. */
  lemma PostingMapOrder(ps: seq<Analyze.Posting>, m: AccountMap)
    requires ps != [] && m == PostingMap(ps[..|ps| - 1]) && Distinct(m)
    requires Sorted(MoreRecent(ps[..|ps| - 1]), m)
    ensures Sorted(MoreRecent(ps), PostingMap(ps))
  {
    var p := ps[|ps| - 1];
    PostingStep(m, p);
    var r := PostingMap(ps);
    var rest := FilterEntries(Other(p.account), m);
    FilterEntriesSorted(MoreRecent(ps[..|ps| - 1]), Other(p.account), m);
    RecentWithout(ps, rest);
    assert r == [r[0]] + rest;
    SortedCons(MoreRecent(ps), r[0], rest);
  }

  /** Entries of other accounts keep their order when a posting to p's account is added. */
  lemma RecentWithout(ps: seq<Analyze.Posting>, rest: AccountMap)
    requires ps != [] && Sorted(MoreRecent(ps[..|ps| - 1]), rest)
    requires forall i :: 0 <= i < |rest| ==> rest[i].0 != ps[|ps| - 1].account
    ensures Sorted(MoreRecent(ps), rest)
    ensures forall i :: 0 <= i < |rest| ==> MoreRecent(ps)(ps[|ps| - 1].account, rest[i].0)
  {
    var init := ps[..|ps| - 1];
    forall a, b | 0 <= a < b < |rest| ensures MoreRecent(ps)(rest[a].0, rest[b].0) {
      assert MoreRecent(init)(rest[a].0, rest[b].0);
    }
  }

  // ---- the elided account -------------------------------------------------------------

  /** The index of the first entry whose commodity map is empty. */
  function FirstEmpty(m: AccountMap): (r: Option<nat>)
    ensures r.None? <==> forall i :: 0 <= i < |m| ==> m[i].1 != map[]
    ensures r.Some? ==> r.value < |m| && m[r.value].1 == map[] && forall j :: 0 <= j < r.value ==> m[j].1 != map[]
  {
    if m == [] then None
    else if m[0].1 == map[] then Some(0)
    else match FirstEmpty(m[1..])
      case None => None
      case Some(i) => Some(i + 1)
  }

  /** emptyKey: the first key whose commodity map is empty, undefined when there is none. */
  function EmptyKey(m: AccountMap): (r: Option<string>)
    ensures r.None? <==> forall i :: 0 <= i < |m| ==> m[i].1 != map[]
    ensures r.Some? ==> exists i :: 0 <= i < |m| && m[i] == (r.value, map[]) && forall j :: 0 <= j < i ==> m[j].1 != map[]
  {
    match FirstEmpty(m)
    case None => None
    case Some(i) => Some(m[i].0)
  }

  /**
    In a transaction's account map, emptyKey finds an account posted to whose
    merged amounts are empty, and of all such accounts the one posted to last;
    it finds none exactly when every account posted to has a non-empty total.
  */
  lemma EmptyKeyOfPostings(ps: seq<Analyze.Posting>)
    ensures var k := EmptyKey(PostingMap(ps));
            && (k.None? <==> forall a :: Analyze.Touches(ps, a) ==> Analyze.PostingTotal(ps, a) != map[])
            && (k.Some? ==> Analyze.Touches(ps, k.value) && Analyze.PostingTotal(ps, k.value) == map[])
            && (k.Some? ==> forall b :: Analyze.Touches(ps, b) && Analyze.PostingTotal(ps, b) == map[] ==>
                                        LastTouch(ps, b) <= LastTouch(ps, k.value))
  {
    var m := PostingMap(ps);
    PostingMapSpec(ps);
    EmptyKeyLookup(m);
    if EmptyKey(m).Some? {
      LatestEmpty(ps, m);
    }
    forall a | Analyze.Touches(ps, a) ensures Lookup(m, a) == Some(Analyze.PostingTotal(ps, a)) {
    }
  }

  /** In a map with distinct keys, emptyKey names an empty entry, and finds none exactly when there is none. */
  lemma EmptyKeyLookup(m: AccountMap)
    requires Distinct(m)
    ensures EmptyKey(m).None? <==> forall a :: Lookup(m, a) != Some(map[])
    ensures EmptyKey(m).Some? ==> Lookup(m, EmptyKey(m).value) == Some(map[])
  {
    if EmptyKey(m).Some? {
      LookupDistinct(m, FirstEmpty(m).value);
    }
  }

  /** In a map ordered by last posting, the first empty entry is the most recently posted one. */
  lemma LatestEmpty(ps: seq<Analyze.Posting>, m: AccountMap)
    requires Distinct(m) && Sorted(MoreRecent(ps), m) && EmptyKey(m).Some?
    ensures forall b :: Lookup(m, b) == Some(map[]) ==> LastTouch(ps, b) <= LastTouch(ps, EmptyKey(m).value)
  {
    var i := FirstEmpty(m).value;
    forall b | Lookup(m, b) == Some(map[]) ensures LastTouch(ps, b) <= LastTouch(ps, m[i].0) {
      var j :| 0 <= j < |m| && m[j] == (b, map[]);
      LaterEmpty(ps, m, i, j);
    }
  }

  /** An empty entry at j is not posted to after the first empty entry at i. */
  lemma LaterEmpty(ps: seq<Analyze.Posting>, m: AccountMap, i: nat, j: nat)
    requires Sorted(MoreRecent(ps), m) && i < |m| && j < |m| && m[j].1 == map[]
    requires forall k :: 0 <= k < i ==> m[k].1 != map[]
    ensures LastTouch(ps, m[j].0) <= LastTouch(ps, m[i].0)
  {
    if j > i {
      assert MoreRecent(ps)(m[i].0, m[j].0);
    }
  }

  /** The entries whose commodity map is not empty. */
  function NonEmpty(m: AccountMap): AccountMap {
    FilterEntries((a: string, v: Amounts) => v != map[], m)
  }

  /** balancedAmount: merge the negations of every non-empty map. */
  function BalancedAmount(m: AccountMap): Amounts {
    MergeAll(Map(Invert, Values(NonEmpty(m))))
  }

  /** Empty maps add nothing to any column. */
  lemma {:induction false} ColumnNonEmpty(m: AccountMap, c: string)
    ensures Column(Values(NonEmpty(m)), c) == Column(Values(m), c)
  {
    if m != [] {
      ColumnNonEmpty(m[1..], c);
      assert Values(m)[1..] == Values(m[1..]);
      if m[0].1 != map[] {
        assert Values(NonEmpty(m))[1..] == Values(NonEmpty(m[1..]));
      }
    }
  }

  /**
    The balancing amount holds every commodity some account holds, under it
    minus the sum of all quantities of that commodity.
  */
  lemma BalancedAmountSpec(m: AccountMap)
    ensures forall c :: c in BalancedAmount(m) <==> Column(Values(m), c) != []
    ensures forall c :: c in BalancedAmount(m) ==> BalancedAmount(m)[c] == Neg(Sum(Column(Values(m), c)))
  {
    var vs := Values(NonEmpty(m));
    MergeAllSpec(Map(Invert, vs));
    forall c ensures Column(Map(Invert, vs), c) == Map(Neg, Column(Values(m), c)) {
      ColumnInvert(vs, c);
      ColumnNonEmpty(m, c);
    }
    forall c | Column(Values(m), c) != [] ensures Sum(Map(Neg, Column(Values(m), c))) == Neg(Sum(Column(Values(m), c))) {
      SumNeg(Column(Values(m), c));
    }
  }

  /** balancePostingsOld: the empty account gets the balancing amount; with none, nothing changes. */
  function BalancePostingsOld(m: AccountMap): AccountMap {
    match EmptyKey(m)
    case None => m
    case Some(k) => AssocKey(m, k, BalancedAmount(m))
  }

  /** Only the first empty entry changes, and it takes the balancing amount. */
  lemma BalancePostingsOldShape(m: AccountMap)
    requires Distinct(m)
    ensures FirstEmpty(m).None? ==> BalancePostingsOld(m) == m
    ensures FirstEmpty(m).Some? ==>
              var i := FirstEmpty(m).value;
              BalancePostingsOld(m) == m[..i] + [(m[i].0, BalancedAmount(m))] + m[i + 1..]
    ensures Distinct(BalancePostingsOld(m))
  {
    if FirstEmpty(m).Some? {
      var i := FirstEmpty(m).value;
      AssocKeyAt(m, i, BalancedAmount(m));
      var r := m[..i] + [(m[i].0, BalancedAmount(m))] + m[i + 1..];
      ReplaceKeys(m, i, BalancedAmount(m));
      SameKeysDistinct(m, r);
    }
  }

  /** Replacing one value leaves every key in place. */
  lemma ReplaceKeys(m: AccountMap, i: nat, v: Amounts)
    requires i < |m|
    ensures var r := m[..i] + [(m[i].0, v)] + m[i + 1..];
            |r| == |m| && forall j :: 0 <= j < |m| ==> r[j].0 == m[j].0
  {
    var r := m[..i] + [(m[i].0, v)] + m[i + 1..];
    forall j | 0 <= j < |m| ensures r[j].0 == m[j].0 {
      if j < i {
        assert r[j] == m[j];
      } else if j > i {
        assert r[j] == m[j];
      }
    }
  }

  lemma ValuesAppend(xs: AccountMap, ys: AccountMap)
    ensures Values(xs + ys) == Values(xs) + Values(ys)
  {
  }

  /** Every quantity in the map is known. */
  predicate AllKnown(m: AccountMap) {
    forall i, c :: 0 <= i < |m| && c in m[i].1 ==> m[i].1[c].Known?
  }

  /**
    When an empty account exists and every quantity is known, the balanced map
    sums to zero in every commodity: each column adds up to zero, and so does
    every commodity of the merged maps.
  */
  lemma BalancedSumsToZero(m: AccountMap)
    requires Distinct(m) && AllKnown(m) && EmptyKey(m).Some?
    ensures forall c :: Sum(Column(Values(BalancePostingsOld(m)), c)) == Known(0.0)
    ensures forall c :: c in MergeAll(Values(BalancePostingsOld(m))) ==> MergeAll(Values(BalancePostingsOld(m)))[c] == Known(0.0)
  {
    var i := FirstEmpty(m).value;
    var b := BalancedAmount(m);
    BalancePostingsOldShape(m);
    BalancedAmountSpec(m);
    forall c ensures Sum(Column(Values(BalancePostingsOld(m)), c)) == Known(0.0) {
      BalancedColumn(m, i, b, BalancePostingsOld(m), c);
    }
    MergeAllSpec(Values(BalancePostingsOld(m)));
  }

  /** BalancedSumsToZero for one commodity: entry i was empty and now holds the balancing amount b. */
  lemma BalancedColumn(m: AccountMap, i: nat, b: Amounts, r: AccountMap, c: string)
    requires i < |m| && m[i].1 == map[] && AllKnown(m)
    requires r == m[..i] + [(m[i].0, b)] + m[i + 1..]
    requires c in b <==> Column(Values(m), c) != []
    requires c in b ==> b[c] == Neg(Sum(Column(Values(m), c)))
    ensures Sum(Column(Values(r), c)) == Known(0.0)
  {
    var pre, post := Values(m[..i]), Values(m[i + 1..]);
    ValuesAround(m, i, b);
    AllKnownColumn(m, c);
    ColumnZero(pre, post, b, c);
  }

  /** With every quantity known, every column sums to a known value. */
  lemma AllKnownColumn(m: AccountMap, c: string)
    requires AllKnown(m)
    ensures Sum(Column(Values(m), c)).Known?
  {
    ColumnKnown(Values(m), c);
  }

  /** The values of a map, around entry i and with entry i's value replaced. */
  lemma ValuesAround(m: AccountMap, i: nat, v: Amounts)
    requires i < |m|
    ensures Values(m) == Values(m[..i]) + [m[i].1] + Values(m[i + 1..])
    ensures Values(m[..i] + [(m[i].0, v)] + m[i + 1..]) == Values(m[..i]) + [v] + Values(m[i + 1..])
  {
    var pre, post := Values(m[..i]), Values(m[i + 1..]);
    var vm, want := Values(m), pre + [m[i].1] + post;
    assert |vm| == |want|;
    forall j | 0 <= j < |m| ensures vm[j] == want[j] {
      if j < i {
        assert want[j] == pre[j] == m[..i][j].1;
      } else if j > i {
        assert want[j] == post[j - i - 1] == m[i + 1..][j - i - 1].1;
      }
    }
    ValuesAt(m, i, v);
  }

  lemma ValuesAt(m: AccountMap, i: nat, v: Amounts)
    requires i < |m|
    ensures Values(m[..i] + [(m[i].0, v)] + m[i + 1..]) == Values(m[..i]) + [v] + Values(m[i + 1..])
  {
    var pre, post := Values(m[..i]), Values(m[i + 1..]);
    var r := m[..i] + [(m[i].0, v)] + m[i + 1..];
    var vr, want := Values(r), pre + [v] + post;
    assert |vr| == |want|;
    forall j | 0 <= j < |m| ensures vr[j] == want[j] {
      if j < i {
        assert vr[j] == r[j].1 == m[j].1;
        assert want[j] == pre[j] == m[..i][j].1;
      } else if j == i {
        assert vr[j] == r[j].1 == v;
      } else {
        assert vr[j] == r[j].1 == m[i + 1..][j - i - 1].1;
        assert want[j] == post[j - i - 1];
      }
    }
  }

  /** The column arithmetic of BalancedSumsToZero for one commodity. */
  lemma ColumnZero(pre: seq<Amounts>, post: seq<Amounts>, b: Amounts, c: string)
    requires Sum(Column(pre + [map[]] + post, c)).Known?
    requires c in b <==> Column(pre + [map[]] + post, c) != []
    requires c in b ==> b[c] == Neg(Sum(Column(pre + [map[]] + post, c)))
    ensures Sum(Column(pre + [b] + post, c)) == Known(0.0)
  {
    var x, y := Column(pre, c), Column(post, c);
    ColumnWithout(pre, map[], post, c);
    if c in b {
      ColumnWith(pre, b, post, c);
      SumZero(x, y, b[c]);
    } else {
      ColumnWithout(pre, b, post, c);
    }
  }

  /** The quantities under c around a map that holds c. */
  lemma ColumnWith(pre: seq<Amounts>, e: Amounts, post: seq<Amounts>, c: string)
    requires c in e
    ensures Column(pre + [e] + post, c) == Column(pre, c) + [e[c]] + Column(post, c)
  {
    ColumnAround(pre, e, post, c);
  }

  /** The quantities under c around a map that does not hold c. */
  lemma ColumnWithout(pre: seq<Amounts>, e: Amounts, post: seq<Amounts>, c: string)
    requires c !in e
    ensures Column(pre + [e] + post, c) == Column(pre, c) + Column(post, c)
  {
    ColumnAround(pre, e, post, c);
    assert Column(pre, c) + [] + Column(post, c) == Column(pre, c) + Column(post, c);
  }

  /** The quantities under c around one map in the middle. */
  lemma ColumnAround(pre: seq<Amounts>, e: Amounts, post: seq<Amounts>, c: string)
    ensures Column(pre + [e] + post, c) == Column(pre, c) + (if c in e then [e[c]] else []) + Column(post, c)
  {
    ColumnAppend(pre + [e], post, c);
    ColumnAppend(pre, [e], c);
    assert Column([e], c) == (if c in e then [e[c]] else []) + Column([], c);
  }

  /** Minus a known sum, put between its two parts, cancels it. */
  lemma SumZero(x: seq<Quantity>, y: seq<Quantity>, q: Quantity)
    requires Sum(x + y).Known? && q == Neg(Sum(x + y))
    ensures Sum(x + [q] + y) == Known(0.0)
  {
    var a, b := Sum(x), Sum(y);
    assert Sum(x + y) == Add(a, b) by { SumAppend(x, y); }
    assert Sum(x + [q]) == Add(a, q) by {
      SumAppend(x, [q]);
      SumSingleton(q);
      AddZero(q);
    }
    assert Sum(x + [q] + y) == Add(Sum(x + [q]), b) by { SumAppend(x + [q], y); }
  }

  // ---- balances over transactions -------------------------------------------------------

  /** A transaction's balanced account map. */
  function Balanced(t: Analyze.Transaction): AccountMap {
    BalancePostingsOld(PostingMap(t.postings))
  }

  /** reduceTrans: merge the transaction's balanced map into the running map. */
  function ReduceTrans(acc: AccountMap, t: Analyze.Transaction): AccountMap {
    MergeWithJs(acc, Balanced(t), Analyze.MergeAmounts)
  }

  /** R.reduce(reduceTrans, {}) */
  function BalanceTable(txns: seq<Analyze.Transaction>): AccountMap {
    if txns == [] then [] else ReduceTrans(BalanceTable(txns[..|txns| - 1]), txns[|txns| - 1])
  }

  /** balanceMap: the running map without accounts none of whose quantities is nonzero; balance is its pair list. */
  function BalanceMap(txns: seq<Analyze.Transaction>): AccountMap {
    Analyze.RemoveZeroes(BalanceTable(txns))
  }

  /** The balanced commodity maps account a receives, transaction by transaction. */
  function AccountEntries(txns: seq<Analyze.Transaction>, a: string): seq<Amounts> {
    if txns == [] then []
    else
      var e := Lookup(Balanced(txns[|txns| - 1]), a);
      AccountEntries(txns[..|txns| - 1], a) + (if e.Some? then [e.value] else [])
  }

  lemma BalancedDistinct(t: Analyze.Transaction)
    ensures Distinct(Balanced(t))
  {
    PostingMapSpec(t.postings);
    BalancePostingsOldShape(PostingMap(t.postings));
  }

  lemma {:induction false} BalanceTableSpec(txns: seq<Analyze.Transaction>)
    ensures Distinct(BalanceTable(txns))
    ensures forall a :: Lookup(BalanceTable(txns), a)
                        == if AccountEntries(txns, a) == [] then None else Some(MergeAll(AccountEntries(txns, a)))
  {
    if txns != [] {
      var init, t := txns[..|txns| - 1], txns[|txns| - 1];
      BalanceTableSpec(init);
      BalancedDistinct(t);
      MergeWithJsSpec(BalanceTable(init), Balanced(t), Analyze.MergeAmounts);
      forall a ensures Lookup(BalanceTable(txns), a)
                       == if AccountEntries(txns, a) == [] then None else Some(MergeAll(AccountEntries(txns, a))) {
        var es := AccountEntries(init, a);
        var e := Lookup(Balanced(t), a);
        if e.Some? {
          var full := es + [e.value];
          assert full[..|full| - 1] == es;
          if es == [] {
            Analyze.MergeAmountsEmpty(e.value);
          }
        } else {
          assert AccountEntries(txns, a) == es;
        }
      }
    }
  }

  /**
    balanceMap: every account receiving some balanced amount appears once,
    with the merge of those amounts (each commodity the sum of its
    quantities), exactly when one of the summed quantities is nonzero.
  */
  lemma BalanceMapSpec(txns: seq<Analyze.Transaction>)
    ensures Distinct(BalanceMap(txns))
    ensures forall a :: Lookup(BalanceMap(txns), a)
                        == if AccountEntries(txns, a) != [] && Analyze.HasNonzero(MergeAll(AccountEntries(txns, a)))
                           then Some(MergeAll(AccountEntries(txns, a))) else None
    ensures forall a, c :: Lookup(BalanceMap(txns), a).Some? && c in Lookup(BalanceMap(txns), a).value ==>
                           Lookup(BalanceMap(txns), a).value[c] == Sum(Column(AccountEntries(txns, a), c))
  {
    var t := BalanceTable(txns);
    var keep := (a: string, m: Amounts) => Analyze.HasNonzero(m);
    BalanceTableSpec(txns);
    FilterEntriesDistinct(keep, t);
    forall a ensures Lookup(BalanceMap(txns), a)
                     == if AccountEntries(txns, a) != [] && Analyze.HasNonzero(MergeAll(AccountEntries(txns, a)))
                        then Some(MergeAll(AccountEntries(txns, a))) else None {
      FilterEntriesLookup(keep, t, a);
    }
    forall a, c | Lookup(BalanceMap(txns), a).Some? && c in Lookup(BalanceMap(txns), a).value
      ensures Lookup(BalanceMap(txns), a).value[c] == Sum(Column(AccountEntries(txns, a), c))
    {
      MergeAllSpec(AccountEntries(txns, a));
    }
  }

  /** filterAccount: the [account, amounts] pairs whose account matches, in order. */
  function FilterAccount(re: string -> bool, pairs: AccountMap): (r: AccountMap)
    ensures forall i :: 0 <= i < |r| ==> r[i] in pairs && re(r[i].0)
    ensures forall i :: 0 <= i < |pairs| && re(pairs[i].0) ==> pairs[i] in r
    ensures Subsequence(r, pairs)
    ensures forall x :: multiset(r)[x] == if re(x.0) then multiset(pairs)[x] else 0
  {
    FilterSubsequence((e: (string, Amounts)) => re(e.0), pairs);
    FilterCount((e: (string, Amounts)) => re(e.0), pairs);
    Filter((e: (string, Amounts)) => re(e.0), pairs)
  }

  // ---- the examples of the analyzer tests ----------------------------------------------

  /** The test's account map: three accounts with amounts and an empty fourth, in this key order. */
  predicate TestMapping(m: AccountMap, a1: string, a2: string, a3: string, a4: string) {
    m == [(a1, map["$" := Known(-34.52)]), (a2, map["$" := Known(-1.23)]),
          (a3, map["FOOBAR" := Known(-123.45)]), (a4, map[])]
  }

  lemma EmptyKeyExample(m: AccountMap, a1: string, a2: string, a3: string, a4: string)
    requires TestMapping(m, a1, a2, a3, a4)
    ensures EmptyKey(m) == Some(a4)
  {
    assert "$" in m[0].1 && "$" in m[1].1 && "FOOBAR" in m[2].1;
    var r := FirstEmpty(m);
    assert m[3].1 == map[];
    assert r == Some(3);
  }

  /** Negating a one-commodity map. */
  lemma InvertOne(c: string, q: real)
    ensures Invert(map[c := Known(q)]) == map[c := Known(-q)]
  {
  }

  /** Merging one, then two, then three maps. */
  lemma MergeAllThree(x: Amounts, y: Amounts, z: Amounts)
    ensures MergeAll([x, y, z]) == Analyze.MergeAmounts(Analyze.MergeAmounts(x, y), z)
  {
    assert MergeAll([x]) == x by {
      assert [x][..0] == [];
      Analyze.MergeAmountsEmpty(x);
    }
    assert MergeAll([x, y]) == Analyze.MergeAmounts(x, y) by {
      assert [x, y][..1] == [x];
    }
    assert [x, y, z][..2] == [x, y];
  }

  lemma BalancedAmountExample(m: AccountMap, a1: string, a2: string, a3: string, a4: string)
    requires TestMapping(m, a1, a2, a3, a4)
    ensures BalancedAmount(m) == map["$" := Known(35.75), "FOOBAR" := Known(123.45)]
  {
    var x, y, z := map["$" := Known(34.52)], map["$" := Known(1.23)], map["FOOBAR" := Known(123.45)];
    TestInverted(m, a1, a2, a3, a4);
    MergeAllThree(x, y, z);
    Analyze.MergeSingletons("$", Known(34.52), Known(1.23));
    var b := Analyze.MergeAmounts(map["$" := Known(35.75)], z);
    assert b.Keys == {"$", "FOOBAR"};
  }

  /** The non-empty maps of the test mapping, negated. */
  lemma TestInverted(m: AccountMap, a1: string, a2: string, a3: string, a4: string)
    requires TestMapping(m, a1, a2, a3, a4)
    ensures Map(Invert, Values(NonEmpty(m)))
            == [map["$" := Known(34.52)], map["$" := Known(1.23)], map["FOOBAR" := Known(123.45)]]
  {
    TestNonEmpty(m, a1, a2, a3, a4);
    var vs := [m[0].1, m[1].1, m[2].1];
    InvertOne("$", -34.52);
    InvertOne("$", -1.23);
    InvertOne("FOOBAR", -123.45);
  }

  /** The test mapping without its empty entry. */
  lemma TestNonEmpty(m: AccountMap, a1: string, a2: string, a3: string, a4: string)
    requires TestMapping(m, a1, a2, a3, a4)
    ensures Values(NonEmpty(m)) == [m[0].1, m[1].1, m[2].1]
  {
    assert "$" in m[0].1 && "$" in m[1].1 && "FOOBAR" in m[2].1;
    var nonEmpty := (a: string, v: Amounts) => v != map[];
    assert NonEmpty(m) == m[..3] by {
      assert m == m[..3] + [m[3]];
      FilterEntriesAppend(nonEmpty, m[..3], [m[3]]);
      FilterEntriesAll(nonEmpty, m[..3]);
    }
  }

  /** The empty account receives the balancing amount. */
  lemma BalancePostingsOldExample(m: AccountMap, a1: string, a2: string, a3: string, a4: string)
    requires TestMapping(m, a1, a2, a3, a4)
    ensures Lookup(BalancePostingsOld(m), a4) == Some(map["$" := Known(35.75), "FOOBAR" := Known(123.45)])
  {
    EmptyKeyExample(m, a1, a2, a3, a4);
    BalancedAmountExample(m, a1, a2, a3, a4);
    AssocKeyLookup(m, a4, BalancedAmount(m), a4);
  }

  /**
    The grocery transaction: a card posting of -34.52 $ and an elided groceries
    posting.  The later account comes first and is given 34.52 $.
  */
  lemma GroceryExample(card: string, groceries: string)
    requires card != groceries
    ensures BalancePostingsOld(PostingMap([Analyze.Posting(card, Analyze.Amount(Some(Known(-34.52)), Some("$"), None)),
                                           Analyze.Posting(groceries, Analyze.Elided)]))
            == [(groceries, map["$" := Known(34.52)]), (card, map["$" := Known(-34.52)])]
  {
    GroceryPostings(card, groceries);
    GroceryBalance(card, groceries);
  }

  /** The grocery transaction's account map: the elided account first, still empty. */
  lemma GroceryPostings(card: string, groceries: string)
    requires card != groceries
    ensures PostingMap([Analyze.Posting(card, Analyze.Amount(Some(Known(-34.52)), Some("$"), None)),
                        Analyze.Posting(groceries, Analyze.Elided)])
            == [(groceries, map[]), (card, map["$" := Known(-34.52)])]
  {
    var p1 := Analyze.Posting(card, Analyze.Amount(Some(Known(-34.52)), Some("$"), None));
    var p2 := Analyze.Posting(groceries, Analyze.Elided);
    var ps := [p1, p2];
    var spent := map["$" := Known(-34.52)];
    Analyze.AmountExamplePlain();
    assert ps[..1] == [p1] && [p1][..0] == [];
    var m1 := [(card, spent)];
    assert PostingMap([p1]) == m1 by {
      assert MergeLeft([(card, spent)], [], Analyze.MergeAmounts) == m1;
    }
    assert Lookup(m1, groceries).None?;
    assert MergeLeft([(groceries, map[])], m1, Analyze.MergeAmounts) == [(groceries, map[])];
    assert FilterEntries((k: string, v: Amounts) => Lookup([(groceries, Analyze.AmountOf(p2.amount))], k).None?, m1) == m1;
  }

  /** Balancing the grocery account map. */
  lemma GroceryBalance(card: string, groceries: string)
    requires card != groceries
    ensures BalancePostingsOld([(groceries, map[]), (card, map["$" := Known(-34.52)])])
            == [(groceries, map["$" := Known(34.52)]), (card, map["$" := Known(-34.52)])]
  {
    var spent := map["$" := Known(-34.52)];
    var m1 := [(card, spent)];
    var m := [(groceries, map[]), (card, spent)];
    assert "$" in m[1].1;
    assert EmptyKey(m) == Some(groceries) by {
      assert FirstEmpty(m) == Some(0);
    }
    assert NonEmpty(m) == m1 by {
      assert m[1..] == m1;
      FilterEntriesAll((a: string, v: Amounts) => v != map[], m1);
    }
    assert Values(m1) == [spent];
    InvertOne("$", -34.52);
    assert Map(Invert, [spent]) == [map["$" := Known(34.52)]];
    assert [map["$" := Known(34.52)]][..0] == [];
    Analyze.MergeAmountsEmpty(map["$" := Known(34.52)]);
    assert BalancedAmount(m) == map["$" := Known(34.52)];
  }

  /**
    The stock purchase: 22.33 CTC bought at 23.45 $, with the elided leg in
    the same account.  The two postings share one entry, nothing is empty, so
    the account keeps -22.33 CTC and 22.33 * 23.45 $.
  */
  lemma StockBuyExample(account: string)
    ensures BalancePostingsOld(PostingMap([Analyze.Posting(account, Analyze.Amount(Some(Known(-22.33)), Some("CTC"),
                                                                                Some(Analyze.UnitPrice(Known(23.45), "$")))),
                                           Analyze.Posting(account, Analyze.Elided)]))
            == [(account, map["CTC" := Known(-22.33), "$" := Known(22.33 * 23.45)])]
  {
    StockBuyPostings(account);
    var bought := map["CTC" := Known(-22.33), "$" := Known(22.33 * 23.45)];
    assert "CTC" in bought;
    assert EmptyKey([(account, bought)]).None?;
  }

  /** The stock purchase's account map: one entry, merging both postings. */
  lemma StockBuyPostings(account: string)
    ensures PostingMap([Analyze.Posting(account, Analyze.Amount(Some(Known(-22.33)), Some("CTC"),
                                                                Some(Analyze.UnitPrice(Known(23.45), "$")))),
                        Analyze.Posting(account, Analyze.Elided)])
            == [(account, map["CTC" := Known(-22.33), "$" := Known(22.33 * 23.45)])]
  {
    var p1 := Analyze.Posting(account, Analyze.Amount(Some(Known(-22.33)), Some("CTC"), Some(Analyze.UnitPrice(Known(23.45), "$"))));
    var p2 := Analyze.Posting(account, Analyze.Elided);
    var ps := [p1, p2];
    var bought := map["CTC" := Known(-22.33), "$" := Known(22.33 * 23.45)];
    Analyze.AmountExampleUnitPrice();
    assert ps[..1] == [p1] && [p1][..0] == [];
    assert PostingMap([p1]) == [(account, bought)];
    Analyze.MergeAmountsEmpty(bought);
  }
}
