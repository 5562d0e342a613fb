/**
  The time-series half of src/lib/analyze.js: bucketing matching posting
  quantities by calendar unit, gap filling with null points, widening a set of
  series to a common date range, and running totals.
*/
module Series {
  import opened Wrappers
  import opened Decimal
  import opened Calendar
  import opened Assoc
  import opened Seqs
  import opened Analyze

  // ---- bucketing ----------------------------------------------------------

  predicate DateLess(a: CivilDate, b: CivilDate) {
    Before(a, b)
  }

  lemma DateOrder()
    ensures StrictOrder(DateLess)
  {
    forall a: CivilDate, b: CivilDate, c: CivilDate ensures
      && !DateLess(a, a)
      && (DateLess(a, b) && DateLess(b, c) ==> DateLess(a, c))
      && (a == b || DateLess(a, b) || DateLess(b, a))
    {
      BeforeIsStrictTotal(a, b, c);
    }
  }

  /** One {bucket start: quantity} object per matching posting, in transaction and posting order. */
  function PostingPoints(u: Unit, accountRE: string -> bool, date: CivilDate, ps: seq<Posting>): (r: seq<(CivilDate, Quantity)>)
    ensures forall i :: 0 <= i < |r| ==> r[i].0 == StartOf(u, date)
  {
    if ps == [] then []
    else
      var rest := PostingPoints(u, accountRE, date, ps[1..]);
      if accountRE(ps[0].account) then [(StartOf(u, date), QuantityOf(ps[0].amount.quantity))] + rest else rest
  }

  /** datedPostings: the flattened objects; the empty objects for other accounts merge as nothing. */
  function DatedPostings(u: Unit, accountRE: string -> bool, txns: seq<Transaction>): seq<(CivilDate, Quantity)> {
    if txns == [] then []
    else DatedPostings(u, accountRE, txns[..|txns| - 1])
         + PostingPoints(u, accountRE, txns[|txns| - 1].date, txns[|txns| - 1].postings)
  }

  /** R.reduce(R.mergeWith(addDecimal), {}) over the dated objects. */
  function Buckets(points: seq<(CivilDate, Quantity)>): seq<(CivilDate, Quantity)> {
    if points == [] then []
    else Upsert(DateLess, Buckets(points[..|points| - 1]), points[|points| - 1].0, points[|points| - 1].1,
                (o: Quantity, n: Quantity) => Add(o, n))
  }

  /** overTime(floorDate)(accountRE): [bucket start, summed quantity] pairs, ascending by date. */
  function OverTime(u: Unit, accountRE: string -> bool, txns: seq<Transaction>): seq<(CivilDate, Quantity)> {
    Buckets(DatedPostings(u, accountRE, txns))
  }

  /** The quantities of the points in bucket d, in order. */
  function BucketQuantities(points: seq<(CivilDate, Quantity)>, d: CivilDate): seq<Quantity> {
    if points == [] then []
    else
      var rest := BucketQuantities(points[..|points| - 1], d);
      if points[|points| - 1].0 == d then rest + [points[|points| - 1].1] else rest
  }

  function Quantities(points: seq<(CivilDate, Quantity)>): (r: seq<Quantity>)
    ensures |r| == |points| && forall i :: 0 <= i < |r| ==> r[i] == points[i].1
  {
    Map((p: (CivilDate, Quantity)) => p.1, points)
  }

  /** The sum of the values of an association list, front to back. */
  function SumValues<K>(xs: seq<(K, Quantity)>): Quantity {
    if xs == [] then Zero else Add(xs[0].1, SumValues(xs[1..]))
  }

  /** Folding a quantity into its bucket adds it to the total of all buckets. */
  lemma {:induction false} UpsertSum(xs: seq<(CivilDate, Quantity)>, k: CivilDate, v: Quantity)
    ensures SumValues(Upsert(DateLess, xs, k, v, (o: Quantity, n: Quantity) => Add(o, n))) == Add(SumValues(xs), v)
  {
    var f := (o: Quantity, n: Quantity) => Add(o, n);
    if xs == [] {
      AddZero(v);
    } else if xs[0].0 == k {
      assert Upsert(DateLess, xs, k, v, f)[1..] == xs[1..];
      AddAssociates(xs[0].1, v, SumValues(xs[1..]));
      AddCommutes(v, SumValues(xs[1..]));
      AddAssociates(xs[0].1, SumValues(xs[1..]), v);
    } else if DateLess(k, xs[0].0) {
      assert Upsert(DateLess, xs, k, v, f)[1..] == xs;
      AddCommutes(v, SumValues(xs));
    } else {
      var rest := Upsert(DateLess, xs[1..], k, v, f);
      assert Upsert(DateLess, xs, k, v, f)[1..] == rest;
      UpsertSum(xs[1..], k, v);
      AddAssociates(xs[0].1, SumValues(xs[1..]), v);
    }
  }

  /**
    The buckets are ascending by date; a date has a bucket exactly when some
    point falls in it, and the bucket holds the sum of those points' quantities.
  */
  lemma {:induction false} BucketsSpec(points: seq<(CivilDate, Quantity)>)
    ensures Sorted(DateLess, Buckets(points))
    ensures forall d :: Lookup(Buckets(points), d)
                        == if BucketQuantities(points, d) != [] then Some(Sum(BucketQuantities(points, d))) else None
  {
    DateOrder();
    if points != [] {
      var init := points[..|points| - 1];
      var (k, v) := points[|points| - 1];
      BucketsSpec(init);
      UpsertSorted(DateLess, Buckets(init), k, v, (o: Quantity, n: Quantity) => Add(o, n));
      UpsertLookup(DateLess, Buckets(init), k, v, (o: Quantity, n: Quantity) => Add(o, n));
      forall d ensures Lookup(Buckets(points), d)
                       == if BucketQuantities(points, d) != [] then Some(Sum(BucketQuantities(points, d))) else None
      {
        if d == k {
          var qs := BucketQuantities(points, d);
          assert qs == BucketQuantities(init, d) + [v];
          assert qs[..|qs| - 1] == BucketQuantities(init, d);
          if BucketQuantities(init, d) == [] {
            AddZero(v);
          }
        }
      }
    }
  }

  /** The bucket values add up to the total of all the points' quantities. */
  lemma {:induction false} BucketsConserve(points: seq<(CivilDate, Quantity)>)
    ensures SumValues(Buckets(points)) == Sum(Quantities(points))
  {
    if points != [] {
      var init := points[..|points| - 1];
      BucketsConserve(init);
      UpsertSum(Buckets(init), points[|points| - 1].0, points[|points| - 1].1);
      assert Quantities(points)[..|points| - 1] == Quantities(init);
    }
  }

  lemma {:induction false} DatedPostingsAreStarts(u: Unit, accountRE: string -> bool, txns: seq<Transaction>)
    ensures forall i :: 0 <= i < |DatedPostings(u, accountRE, txns)| ==>
              StartOf(u, DatedPostings(u, accountRE, txns)[i].0) == DatedPostings(u, accountRE, txns)[i].0
  {
    if txns != [] {
      var t := txns[|txns| - 1];
      DatedPostingsAreStarts(u, accountRE, txns[..|txns| - 1]);
      StartOfIdempotent(u, t.date);
    }
  }

  /**
    overTime: ascending by bucket start, every key is the start of its own
    bucket, each matching posting's bucket is present holding the sum of the
    matching quantities in it, and the buckets add up to all matching quantities.
  */
  lemma OverTimeSpec(u: Unit, accountRE: string -> bool, txns: seq<Transaction>)
    ensures var points := DatedPostings(u, accountRE, txns);
            var r := OverTime(u, accountRE, txns);
            && Sorted(DateLess, r)
            && (forall i :: 0 <= i < |r| ==> StartOf(u, r[i].0) == r[i].0)
            && (forall d :: Lookup(r, d)
                            == if BucketQuantities(points, d) != [] then Some(Sum(BucketQuantities(points, d))) else None)
            && SumValues(r) == Sum(Quantities(points))
  {
    var points := DatedPostings(u, accountRE, txns);
    var r := OverTime(u, accountRE, txns);
    BucketsSpec(points);
    BucketsConserve(points);
    DatedPostingsAreStarts(u, accountRE, txns);
    forall i | 0 <= i < |r| ensures StartOf(u, r[i].0) == r[i].0 {
      assert Lookup(r, r[i].0).Some?;
      assert BucketQuantities(points, r[i].0) != [];
      var j := BucketWitness(points, r[i].0);
    }
  }

  /** A nonempty bucket has a point with that date. */
  lemma {:induction false} BucketWitness(points: seq<(CivilDate, Quantity)>, d: CivilDate) returns (j: nat)
    requires BucketQuantities(points, d) != []
    ensures j < |points| && points[j].0 == d
  {
    if points[|points| - 1].0 == d {
      j := |points| - 1;
    } else {
      j := BucketWitness(points[..|points| - 1], d);
    }
  }

  /** A matching posting's quantity is in the bucket of its transaction's date. */
  lemma {:induction false} MatchingPostingCounted(u: Unit, accountRE: string -> bool, txns: seq<Transaction>, i: nat, j: nat)
    requires i < |txns| && j < |txns[i].postings| && accountRE(txns[i].postings[j].account)
    ensures Lookup(OverTime(u, accountRE, txns), StartOf(u, txns[i].date)).Some?
  {
    var points := DatedPostings(u, accountRE, txns);
    BucketsSpec(points);
    var k := PointOfPosting(u, accountRE, txns, i, j);
    BucketNonempty(points, k);
  }

  lemma {:induction false} PointOfPosting(u: Unit, accountRE: string -> bool, txns: seq<Transaction>, i: nat, j: nat) returns (k: nat)
    requires i < |txns| && j < |txns[i].postings| && accountRE(txns[i].postings[j].account)
    ensures k < |DatedPostings(u, accountRE, txns)| && DatedPostings(u, accountRE, txns)[k].0 == StartOf(u, txns[i].date)
  {
    var init := txns[..|txns| - 1];
    var t := txns[|txns| - 1];
    var pts := PostingPoints(u, accountRE, t.date, t.postings);
    if i == |txns| - 1 {
      var m := PostingPointIndex(u, accountRE, t.date, t.postings, j);
      k := |DatedPostings(u, accountRE, init)| + m;
    } else {
      assert init[i] == txns[i];
      k := PointOfPosting(u, accountRE, init, i, j);
    }
  }

  lemma {:induction false} PostingPointIndex(u: Unit, accountRE: string -> bool, date: CivilDate, ps: seq<Posting>, j: nat) returns (m: nat)
    requires j < |ps| && accountRE(ps[j].account)
    ensures m < |PostingPoints(u, accountRE, date, ps)|
  {
    if j == 0 {
      m := 0;
    } else {
      var m' := PostingPointIndex(u, accountRE, date, ps[1..], j - 1);
      m := if accountRE(ps[0].account) then m' + 1 else m';
    }
  }

  lemma {:induction false} BucketNonempty(points: seq<(CivilDate, Quantity)>, k: nat)
    requires k < |points|
    ensures BucketQuantities(points, points[k].0) != []
  {
    if k < |points| - 1 {
      assert points[..|points| - 1][k] == points[k];
      BucketNonempty(points[..|points| - 1], k);
    }
  }

  // ---- gap filling -------------------------------------------------------

  datatype Value = Null | Val(q: Quantity)

  type Point = (CivilDate, Value)

  /** How many months v lies beyond the last point, for termination. */
  function MonthGap(v: Point, acc: seq<Point>): int {
    if acc == [] then 0 else 12 * v.0.year + v.0.month - (12 * acc[|acc| - 1].0.year + acc[|acc| - 1].0.month)
  }

  /** How many days the last point's month could still move forward, for termination. */
  function DaysLeft(acc: seq<Point>): int {
    if acc == [] then 0 else 31 - acc[|acc| - 1].0.day
  }

  /** A step function that always moves strictly later, as addOne(unit) does. */
  ghost predicate Increasing(next: CivilDate -> CivilDate) {
    forall d: CivilDate :: Before(d, next(d))
  }

  /** addOne(unit) as a step function. */
  function Step(u: Unit): (next: CivilDate -> CivilDate)
    ensures Increasing(next)
  {
    var f := (d: CivilDate) => AddOne(u, d);
    assert forall d: CivilDate :: Before(d, f(d)) by {
      forall d: CivilDate ensures Before(d, f(d)) {
        assert f(d) == AddOne(u, d);
      }
    }
    f
  }

  /** appendNew: acc with a null point one unit after its last point. */
  function AppendNew(next: CivilDate -> CivilDate, acc: seq<Point>): seq<Point>
    requires |acc| > 0
  {
    acc + [(next(acc[|acc| - 1].0), Null)]
  }

  /** shouldAddBefore: one unit after the last point is still before v. */
  predicate ShouldAddBefore(next: CivilDate -> CivilDate, acc: seq<Point>, v: Point) {
    |acc| > 0 && Before(next(acc[|acc| - 1].0), v.0)
  }

  /** Padding brings the last point closer to v. */
  lemma GapShrinks(next: CivilDate -> CivilDate, acc: seq<Point>, v: Point)
    requires Increasing(next)
    requires ShouldAddBefore(next, acc, v)
    ensures 0 <= MonthGap(v, AppendNew(next, acc)) <= MonthGap(v, acc)
    ensures MonthGap(v, AppendNew(next, acc)) == MonthGap(v, acc)
            ==> 0 <= DaysLeft(AppendNew(next, acc)) < DaysLeft(acc)
  {
    var d := next(acc[|acc| - 1].0);
    assert Before(acc[|acc| - 1].0, d);
  }

  /**
    addBefore: while one unit after the last point is still before v, append a
    null point there; then append v.
  */
  function AddBefore(next: CivilDate -> CivilDate, acc: seq<Point>, v: Point): (r: seq<Point>)
    requires Increasing(next)
    ensures |r| > |acc|
    decreases MonthGap(v, acc), DaysLeft(acc)
  {
    if ShouldAddBefore(next, acc, v) then
      GapShrinks(next, acc, v);
      AddBefore(next, AppendNew(next, acc), v)
    else acc + [v]
  }

  /** r[j] is a null point one unit after its predecessor. */
  predicate IsPadding(next: CivilDate -> CivilDate, r: seq<Point>, j: int)
    requires 0 <= j < |r|
  {
    j > 0 && r[j].1 == Null && r[j].0 == next(r[j - 1].0)
  }

  /** addBefore ends with v. */
  lemma {:induction false} AddBeforeKeeps(next: CivilDate -> CivilDate, acc: seq<Point>, v: Point)
    requires Increasing(next)
    ensures AddBefore(next, acc, v)[|AddBefore(next, acc, v)| - 1] == v
    decreases MonthGap(v, acc), DaysLeft(acc)
  {
    var r := AddBefore(next, acc, v);
    if ShouldAddBefore(next, acc, v) {
      GapShrinks(next, acc, v);
      var acc' := AppendNew(next, acc);
      AddBeforeKeeps(next, acc', v);
      assert r == AddBefore(next, acc', v);
    } else {
      assert r == acc + [v];
    }
  }

  /** addBefore keeps acc as a prefix. */
  lemma {:induction false} AddBeforePrefix(next: CivilDate -> CivilDate, acc: seq<Point>, v: Point)
    requires Increasing(next)
    ensures |AddBefore(next, acc, v)| > |acc|
    ensures forall i :: 0 <= i < |acc| ==> AddBefore(next, acc, v)[i] == acc[i]
    decreases MonthGap(v, acc), DaysLeft(acc)
  {
    if ShouldAddBefore(next, acc, v) {
      GapShrinks(next, acc, v);
      var acc' := AppendNew(next, acc);
      AddBeforePrefix(next, acc', v);
      assert forall i :: 0 <= i < |acc| ==> acc'[i] == acc[i];
    }
  }

  /** Between acc and v, addBefore puts only null points, each one unit after its predecessor. */
  lemma {:induction false} AddBeforePads(next: CivilDate -> CivilDate, acc: seq<Point>, v: Point)
    requires Increasing(next)
    ensures forall j :: |acc| <= j < |AddBefore(next, acc, v)| - 1 ==> IsPadding(next, AddBefore(next, acc, v), j)
    decreases MonthGap(v, acc), DaysLeft(acc)
  {
    if ShouldAddBefore(next, acc, v) {
      GapShrinks(next, acc, v);
      var acc' := AppendNew(next, acc);
      AddBeforePads(next, acc', v);
      AddBeforePrefix(next, acc', v);
      var r := AddBefore(next, acc', v);
      assert IsPadding(next, r, |acc|);
    }
  }

  /** fillIn(unit) = R.reduce(addBefore(unit), []) */
  function FillIn(next: CivilDate -> CivilDate, s: seq<Point>): (r: seq<Point>)
    requires Increasing(next)
    ensures |r| >= |s| && (s == [] <==> r == [])
  {
    if s == [] then []
    else
      var prev := FillIn(next, s[..|s| - 1]);
      AddBeforeKeeps(next, prev, s[|s| - 1]);
      AddBefore(next, prev, s[|s| - 1])
  }

  /** No two neighbours further apart than one unit. */
  predicate NoGaps(next: CivilDate -> CivilDate, s: seq<Point>) {
    forall j :: 0 <= j < |s| - 1 ==> !Before(next(s[j].0), s[j + 1].0)
  }

  /** The points of s sit, in order, at the positions idx of r. */
  predicate EmbedsAt(s: seq<Point>, r: seq<Point>, idx: seq<nat>) {
    && |idx| == |s|
    && (forall i :: 0 <= i < |idx| ==> idx[i] < |r| && r[idx[i]] == s[i])
    && (forall i, j :: 0 <= i < j < |idx| ==> idx[i] < idx[j])
  }

  /** r[j] is taken from the input, or is a null point one unit after its predecessor. */
  predicate FilledAt(next: CivilDate -> CivilDate, r: seq<Point>, idx: seq<nat>, j: int)
    requires 0 <= j < |r|
  {
    (exists i :: 0 <= i < |idx| && idx[i] == j) || IsPadding(next, r, j)
  }

  /** Where fillIn puts each input point: the end of the output as it stood after that point. */
  function FillInIndex(next: CivilDate -> CivilDate, s: seq<Point>): (idx: seq<nat>)
    requires Increasing(next)
    ensures |idx| == |s|
  {
    if s == [] then [] else FillInIndex(next, s[..|s| - 1]) + [|FillIn(next, s)| - 1]
  }

  /** An embedding survives extending the output and putting the new point at its end. */
  lemma EmbedsExtend(s: seq<Point>, prev: seq<Point>, idx: seq<nat>, r: seq<Point>)
    requires s != [] && |idx| == |s| && EmbedsAt(s[..|s| - 1], prev, idx[..|s| - 1])
    requires |r| > |prev| && idx[|s| - 1] == |r| - 1 && r[|r| - 1] == s[|s| - 1]
    requires forall i :: 0 <= i < |prev| ==> r[i] == prev[i]
    ensures EmbedsAt(s, r, idx)
  {
    var init := idx[..|s| - 1];
    forall i | 0 <= i < |idx| ensures idx[i] < |r| && r[idx[i]] == s[i] {
      if i < |init| {
        assert idx[i] == init[i] && r[init[i]] == prev[init[i]];
        assert s[..|s| - 1][i] == s[i];
      }
    }
    forall i, k | 0 <= i < k < |idx| ensures idx[i] < idx[k] {
      assert idx[i] == init[i] < |prev|;
    }
  }

  /** One step of fillIn keeps the output so far as a prefix. */
  lemma FillInSnoc(next: CivilDate -> CivilDate, s: seq<Point>)
    requires Increasing(next)
    requires s != []
    ensures |FillIn(next, s)| > |FillIn(next, s[..|s| - 1])|
    ensures forall i :: 0 <= i < |FillIn(next, s[..|s| - 1])| ==> FillIn(next, s)[i] == FillIn(next, s[..|s| - 1])[i]
  {
    AddBeforePrefix(next, FillIn(next, s[..|s| - 1]), s[|s| - 1]);
  }

  /** One step of FillInIndex: the indices so far, then the end of the new output. */
  lemma FillInIndexSnoc(next: CivilDate -> CivilDate, s: seq<Point>)
    requires Increasing(next)
    requires s != []
    ensures FillInIndex(next, s)[..|s| - 1] == FillInIndex(next, s[..|s| - 1])
    ensures FillInIndex(next, s)[|s| - 1] == |FillIn(next, s)| - 1
  {
  }

  /** fillIn keeps every input point, unchanged and in order. */
  lemma {:induction false} FillInEmbeds(next: CivilDate -> CivilDate, s: seq<Point>)
    requires Increasing(next)
    ensures EmbedsAt(s, FillIn(next, s), FillInIndex(next, s))
  {
    if s != [] {
      var init := s[..|s| - 1];
      var prev, r := FillIn(next, init), FillIn(next, s);
      FillInEmbeds(next, init);
      FillInSnoc(next, s);
      FillInLast(next, s);
      FillInIndexSnoc(next, s);
      EmbedsExtend(s, prev, FillInIndex(next, s), r);
    }
  }

  /** Every point fillIn outputs is an input point or a null point one unit after its predecessor. */
  lemma {:induction false} FillInFilled(next: CivilDate -> CivilDate, s: seq<Point>)
    requires Increasing(next)
    ensures forall j :: 0 <= j < |FillIn(next, s)| ==> FilledAt(next, FillIn(next, s), FillInIndex(next, s), j)
  {
    if s != [] {
      var init := s[..|s| - 1];
      var prev := FillIn(next, init);
      var r := FillIn(next, s);
      FillInFilled(next, init);
      AddBeforeKeeps(next, prev, s[|s| - 1]);
      AddBeforePrefix(next, prev, s[|s| - 1]);
      AddBeforePads(next, prev, s[|s| - 1]);
      var idx0 := FillInIndex(next, init);
      var idx := FillInIndex(next, s);
      FillInIndexSnoc(next, s);
      forall j | 0 <= j < |r| ensures FilledAt(next, r, idx, j) {
        if j < |prev| {
          assert FilledAt(next, prev, idx0, j);
          if exists i :: 0 <= i < |idx0| && idx0[i] == j {
            var i :| 0 <= i < |idx0| && idx0[i] == j;
            assert idx[i] == idx[..|s| - 1][i] == j;
          } else {
            assert r[j] == prev[j] && r[j - 1] == prev[j - 1];
          }
        } else if j == |r| - 1 {
          assert idx[|idx| - 1] == j;
        }
      }
    }
  }

  /** Appending a point no more than one unit after the last one adds no gap. */
  lemma NoGapsSnoc(next: CivilDate -> CivilDate, acc: seq<Point>, p: Point)
    requires NoGaps(next, acc)
    requires |acc| > 0 ==> !Before(next(acc[|acc| - 1].0), p.0)
    ensures NoGaps(next, acc + [p])
  {
    var r := acc + [p];
    forall j | 0 <= j < |r| - 1 ensures !Before(next(r[j].0), r[j + 1].0) {
      if j + 1 < |acc| {
        assert r[j] == acc[j] && r[j + 1] == acc[j + 1];
      }
    }
  }

  /** addBefore adds no gap larger than one unit to a list that had none. */
  lemma {:induction false} AddBeforeNoGaps(next: CivilDate -> CivilDate, acc: seq<Point>, v: Point)
    requires Increasing(next)
    requires NoGaps(next, acc)
    ensures NoGaps(next, AddBefore(next, acc, v))
    decreases MonthGap(v, acc), DaysLeft(acc)
  {
    if ShouldAddBefore(next, acc, v) {
      GapShrinks(next, acc, v);
      var d := next(acc[|acc| - 1].0);
      BeforeIsStrictTotal(d, d, d);
      NoGapsSnoc(next, acc, (d, Null));
      AddBeforeNoGaps(next, AppendNew(next, acc), v);
    } else {
      NoGapsSnoc(next, acc, v);
    }
  }

  /** fillIn leaves no gap larger than one unit anywhere. */
  lemma {:induction false} FillInHasNoGaps(next: CivilDate -> CivilDate, s: seq<Point>)
    requires Increasing(next)
    ensures NoGaps(next, FillIn(next, s))
  {
    if s != [] {
      FillInHasNoGaps(next, s[..|s| - 1]);
      AddBeforeNoGaps(next, FillIn(next, s[..|s| - 1]), s[|s| - 1]);
    }
  }

  /** Input with no gap comes back unchanged. */
  lemma {:induction false} FillInNoGaps(next: CivilDate -> CivilDate, s: seq<Point>)
    requires Increasing(next)
    requires NoGaps(next, s)
    ensures FillIn(next, s) == s
  {
    if s != [] {
      var init := s[..|s| - 1];
      assert NoGaps(next, init);
      FillInNoGaps(next, init);
      if init != [] {
        assert s[|s| - 2] == init[|init| - 1];
      }
      assert s == init + [s[|s| - 1]];
    }
  }

  /** The last point survives gap filling. */
  lemma FillInLast(next: CivilDate -> CivilDate, s: seq<Point>)
    requires Increasing(next)
    requires s != []
    ensures FillIn(next, s)[|FillIn(next, s)| - 1] == s[|s| - 1]
  {
    AddBeforeKeeps(next, FillIn(next, s[..|s| - 1]), s[|s| - 1]);
  }

  /** Gap filling keeps the last date. */
  lemma FillInLastDate(next: CivilDate -> CivilDate, s: seq<Point>)
    requires Increasing(next)
    requires s != []
    ensures LastDate(FillIn(next, s)) == LastDate(s)
  {
    FillInLast(next, s);
  }

  /** The first point survives gap filling. */
  lemma {:induction false} FillInFirst(next: CivilDate -> CivilDate, s: seq<Point>)
    requires Increasing(next)
    requires s != []
    ensures FillIn(next, s)[0] == s[0]
  {
    var init := s[..|s| - 1];
    if init != [] {
      var prev := FillIn(next, init);
      AddBeforePrefix(next, prev, s[|s| - 1]);
      FillInFirst(next, init);
      assert FillIn(next, s)[0] == prev[0];
    }
  }

  /** The day steps the fill-in examples take. */
  lemma DaySteps2016()
    ensures Step(Day)(Date(2016, 9, 30)) == Date(2016, 10, 1)
    ensures Step(Day)(Date(2016, 10, 1)) == Date(2016, 10, 2)
    ensures Step(Day)(Date(2016, 10, 2)) == Date(2016, 10, 3)
  {
    assert DaysInMonth(2016, 9) == 30 && DaysInMonth(2016, 10) == 31;
  }

  // The points of the fill-in example with a gap.
  const GapFirst: Point := (Date(2016, 9, 30), Val(Known(123.0)))
  const GapLast: Point := (Date(2016, 10, 3), Val(Known(123.0)))
  const GapPad1: Point := (Date(2016, 10, 1), Null)
  const GapPad2: Point := (Date(2016, 10, 2), Null)

  lemma GapExamplePads()
    ensures AddBefore(Step(Day), [GapFirst], GapLast) == AddBefore(Step(Day), [GapFirst, GapPad1], GapLast)
    ensures AddBefore(Step(Day), [GapFirst, GapPad1], GapLast) == AddBefore(Step(Day), [GapFirst, GapPad1, GapPad2], GapLast)
  {
    DaySteps2016();
    assert AppendNew(Step(Day), [GapFirst]) == [GapFirst, GapPad1];
    assert AppendNew(Step(Day), [GapFirst, GapPad1]) == [GapFirst, GapPad1, GapPad2];
  }

  lemma GapExampleEnds()
    ensures AddBefore(Step(Day), [GapFirst, GapPad1, GapPad2], GapLast) == [GapFirst, GapPad1, GapPad2, GapLast]
  {
    DaySteps2016();
  }

  /** The fill-in example with a gap: two missing days become two null points. */
  lemma FillInExampleGap()
    ensures FillIn(Step(Day), [(Date(2016, 9, 30), Val(Known(123.0))), (Date(2016, 10, 3), Val(Known(123.0)))])
            == [(Date(2016, 9, 30), Val(Known(123.0))), (Date(2016, 10, 1), Null),
                (Date(2016, 10, 2), Null), (Date(2016, 10, 3), Val(Known(123.0)))]
  {
    var next := Step(Day);
    assert [GapFirst, GapLast][..1] == [GapFirst];
    assert FillIn(next, [GapFirst]) == AddBefore(next, [], GapFirst) == [GapFirst];
    GapExamplePads();
    GapExampleEnds();
    assert FillIn(next, [GapFirst, GapLast]) == AddBefore(next, [GapFirst], GapLast);
  }

  /** The fill-in example without a gap: adjacent days stay as they are. */
  lemma FillInExampleAdjacent()
    ensures FillIn(Step(Day), [(Date(2016, 9, 30), Val(Known(1.0))), (Date(2016, 10, 1), Val(Known(2.0)))])
            == [(Date(2016, 9, 30), Val(Known(1.0))), (Date(2016, 10, 1), Val(Known(2.0)))]
  {
    var next := Step(Day);
    var c: Point := (Date(2016, 9, 30), Val(Known(1.0)));
    var d: Point := (Date(2016, 10, 1), Val(Known(2.0)));
    DaySteps2016();
    assert [c, d][..1] == [c];
    assert FillIn(next, [c]) == [c];
    assert FillIn(next, [c, d]) == AddBefore(next, [c], d) == [c, d];
  }

  // ---- widening to a common range ----------------------------------------

  /** The Date for timestamp 0, maxTs's starting value. */
  const Epoch: CivilDate := Date(1970, 1, 1)

  /** R.min on dates: the second one when it is strictly earlier. */
  function MinDate(a: CivilDate, b: CivilDate): (r: CivilDate)
    ensures SameOrBefore(r, a) && SameOrBefore(r, b) && (r == a || r == b)
  {
    BeforeIsStrictTotal(a, b, b);
    if Before(b, a) then b else a
  }

  /** R.max on dates: the second one when it is strictly later. */
  function MaxDate(a: CivilDate, b: CivilDate): (r: CivilDate)
    ensures SameOrBefore(a, r) && SameOrBefore(b, r) && (r == a || r == b)
  {
    BeforeIsStrictTotal(a, b, b);
    if Before(a, b) then b else a
  }

  predicate AllNonEmpty(series: seq<seq<Point>>) {
    forall i :: 0 <= i < |series| ==> series[i] != []
  }

  /** minTs: the earliest first date, None standing for the starting Infinity when there are no series. */
  function MinTs(series: seq<seq<Point>>): (r: Option<CivilDate>)
    requires AllNonEmpty(series)
    ensures r.None? <==> series == []
  {
    if series == [] then None
    else
      var rest := MinTs(series[..|series| - 1]);
      var d := series[|series| - 1][0].0;
      Some(if rest.None? then d else MinDate(rest.value, d))
  }

  lemma {:induction false} MinTsSpec(series: seq<seq<Point>>)
    requires series != [] && AllNonEmpty(series)
    ensures var m := MinTs(series).value;
            (exists i :: 0 <= i < |series| && series[i][0].0 == m)
            && forall i :: 0 <= i < |series| ==> SameOrBefore(m, series[i][0].0)
  {
    var init := series[..|series| - 1];
    var m := MinTs(series).value;
    assert forall i :: 0 <= i < |series| - 1 ==> series[i] == init[i];
    if init != [] {
      MinTsSpec(init);
      var rest := MinTs(init).value;
      forall i | 0 <= i < |series| ensures SameOrBefore(m, series[i][0].0) {
        if i < |series| - 1 {
          BeforeIsStrictTotal(m, rest, series[i][0].0);
        }
      }
    }
  }

  /**
    maxTs as written: R.reduce(R.max, 0), so the starting value is the epoch
    and a result earlier than 1970-01-01 is impossible.
  */
  function MaxTsAsWritten(series: seq<seq<Point>>): (r: CivilDate)
    requires AllNonEmpty(series)
    ensures SameOrBefore(Epoch, r)
  {
    if series == [] then Epoch
    else
      var rest := MaxTsAsWritten(series[..|series| - 1]);
      var r := MaxDate(rest, LastDate(series[|series| - 1]));
      BeforeIsStrictTotal(Epoch, rest, r);
      r
  }

  /** maxTs as intended: the latest last date. */
  function MaxTs(series: seq<seq<Point>>): (r: CivilDate)
    requires series != [] && AllNonEmpty(series)
  {
    var d := LastDate(series[|series| - 1]);
    if |series| == 1 then d else MaxDate(MaxTs(series[..|series| - 1]), d)
  }

  lemma {:induction false} MaxTsSpec(series: seq<seq<Point>>)
    requires series != [] && AllNonEmpty(series)
    ensures var m := MaxTs(series);
            (exists i :: 0 <= i < |series| && LastDate(series[i]) == m)
            && forall i :: 0 <= i < |series| ==> SameOrBefore(LastDate(series[i]), m)
  {
    var init := series[..|series| - 1];
    var m := MaxTs(series);
    assert forall i :: 0 <= i < |series| - 1 ==> series[i] == init[i];
    if init != [] {
      MaxTsSpec(init);
      var rest := MaxTs(init);
      forall i | 0 <= i < |series| ensures SameOrBefore(LastDate(series[i]), m) {
        if i < |series| - 1 {
          BeforeIsStrictTotal(LastDate(series[i]), rest, m);
        }
      }
    }
  }

  function LastDate(s: seq<Point>): CivilDate
    requires s != []
  {
    s[|s| - 1].0
  }

  /** Once some series ends on or after the epoch, the two agree. */
  lemma {:induction false} MaxTsAgree(series: seq<seq<Point>>)
    requires series != [] && AllNonEmpty(series)
    requires exists i :: 0 <= i < |series| && SameOrBefore(Epoch, LastDate(series[i]))
    ensures MaxTsAsWritten(series) == MaxTs(series)
  {
    MaxTsAsWrittenBounds(series);
    MaxTsSpec(series);
    var m := MaxTs(series);
    var w := MaxTsAsWritten(series);
    var i :| 0 <= i < |series| && SameOrBefore(Epoch, LastDate(series[i]));
    BeforeIsStrictTotal(Epoch, LastDate(series[i]), m);
    if w != m {
      BeforeIsStrictTotal(w, m, w);
    }
  }

  lemma {:induction false} MaxTsAsWrittenBounds(series: seq<seq<Point>>)
    requires AllNonEmpty(series)
    ensures var w := MaxTsAsWritten(series);
            (w == Epoch || exists i :: 0 <= i < |series| && LastDate(series[i]) == w)
            && forall i :: 0 <= i < |series| ==> SameOrBefore(LastDate(series[i]), w)
  {
    if series != [] {
      var init := series[..|series| - 1];
      MaxTsAsWrittenBounds(init);
      var rest := MaxTsAsWritten(init);
      var w := MaxTsAsWritten(series);
      assert forall i :: 0 <= i < |series| - 1 ==> series[i] == init[i];
      forall i | 0 <= i < |series| ensures SameOrBefore(LastDate(series[i]), w) {
        if i < |series| - 1 {
          BeforeIsStrictTotal(LastDate(series[i]), rest, w);
        }
      }
    }
  }

  /** The finding: series that all end before 1970 get the epoch, which is no series' last date. */
  lemma MaxTsBeforeEpoch()
    ensures var series := [[(Date(1969, 12, 1), Null)]];
            MaxTsAsWritten(series) == Epoch && MaxTs(series) == Date(1969, 12, 1)
  {
  }

  /** prependMin: a null point at the earliest first date unless the series already starts there. */
  function PrependMin(min: CivilDate, s: seq<Point>): (r: seq<Point>)
    requires s != []
    ensures r != [] && r[0].0 == min && LastDate(r) == LastDate(s)
    ensures r == s || r == [(min, Null)] + s
  {
    if s[0].0 == min then s else [(min, Null)] + s
  }

  /** appendMax: a null point at the latest last date unless the series already ends there. */
  function AppendMax(max: CivilDate, s: seq<Point>): (r: seq<Point>)
    requires s != []
    ensures r != [] && LastDate(r) == max && r[0] == s[0]
    ensures r == s || r == s + [(max, Null)]
  {
    if LastDate(s) == max then s else s + [(max, Null)]
  }

  /** normalizeMax(unit): append the max, prepend the min, then fill in; None is the TypeError an empty series causes. */
  function NormalizeMax(u: Unit, series: seq<seq<Point>>): (r: Option<seq<seq<Point>>>)
    ensures r.Some? <==> AllNonEmpty(series)
    ensures r.Some? ==> |r.value| == |series|
  {
    if !AllNonEmpty(series) then None
    else if series == [] then Some([])
    else
      var min := MinTs(series).value;
      var max := MaxTs(series);
      Some(seq(|series|, i requires 0 <= i < |series| => FillIn(Step(u), PrependMin(min, AppendMax(max, series[i])))))
  }

  /** The same with the maxTs actually written. */
  function NormalizeMaxAsWritten(u: Unit, series: seq<seq<Point>>): (r: Option<seq<seq<Point>>>)
    ensures r.Some? <==> AllNonEmpty(series)
  {
    if !AllNonEmpty(series) then None
    else if series == [] then Some([])
    else
      var min := MinTs(series).value;
      var max := MaxTsAsWritten(series);
      Some(seq(|series|, i requires 0 <= i < |series| => FillIn(Step(u), PrependMin(min, AppendMax(max, series[i])))))
  }

  /** The series normalizeMax pads and fills at position i. */
  function Padded(series: seq<seq<Point>>, i: nat): (p: seq<Point>)
    requires AllNonEmpty(series) && i < |series|
    ensures p != [] && p[0].0 == MinTs(series).value && LastDate(p) == MaxTs(series)
  {
    PrependMin(MinTs(series).value, AppendMax(MaxTs(series), series[i]))
  }

  lemma NormalizeMaxAt(u: Unit, series: seq<seq<Point>>, i: nat)
    requires AllNonEmpty(series) && i < |series|
    ensures NormalizeMax(u, series).value[i] == FillIn(Step(u), Padded(series, i))
  {
  }

  /** After normalizeMax every series starts at the global earliest first date. */
  lemma NormalizeMaxStart(u: Unit, series: seq<seq<Point>>, i: nat)
    requires AllNonEmpty(series) && i < |series|
    ensures NormalizeMax(u, series).value[i][0].0 == MinTs(series).value
  {
    NormalizeMaxAt(u, series, i);
    FillInFirst(Step(u), Padded(series, i));
  }

  /** Filling in a padded series keeps its end at the global latest last date. */
  lemma FilledPaddedEnd(u: Unit, series: seq<seq<Point>>, i: nat)
    requires AllNonEmpty(series) && i < |series|
    ensures LastDate(FillIn(Step(u), Padded(series, i))) == MaxTs(series)
  {
    FillInLastDate(Step(u), Padded(series, i));
  }

  /** After normalizeMax every series ends at the global latest last date. */
  lemma NormalizeMaxEnd(u: Unit, series: seq<seq<Point>>, i: nat)
    requires AllNonEmpty(series) && i < |series|
    ensures LastDate(NormalizeMax(u, series).value[i]) == MaxTs(series)
  {
    NormalizeMaxAt(u, series, i);
    FilledPaddedEnd(u, series, i);
  }

  /** After normalizeMax no series has a gap larger than one unit. */
  lemma NormalizeMaxNoGaps(u: Unit, series: seq<seq<Point>>, i: nat)
    requires AllNonEmpty(series) && i < |series|
    ensures NoGaps(Step(u), NormalizeMax(u, series).value[i])
  {
    NormalizeMaxAt(u, series, i);
    FillInHasNoGaps(Step(u), Padded(series, i));
  }

  /** The finding's consequence: a series ending in 1969 is padded out to 1970-01-01. */
  lemma NormalizeMaxAsWrittenOvershoots()
    ensures var r := NormalizeMaxAsWritten(Year, [[(Date(1969, 12, 1), Null)]]);
            r.Some? && LastDate(r.value[0]) == Epoch
  {
    var s := [(Date(1969, 12, 1), Null)];
    var a := AppendMax(Epoch, s);
    var p := PrependMin(Date(1969, 12, 1), a);
    FillInLast(Step(Year), p);
  }

  // ---- running totals -----------------------------------------------------

  /** The quantity a point contributes; the null of a filled-in point adds as an unknown. */
  function ValueQuantity(v: Value): Quantity {
    if v.Val? then v.q else Unknown
  }

  /** mostRecent: the last running total, or zero at the start. */
  function MostRecent<K>(acc: seq<(K, Value)>): Quantity {
    if |acc| > 0 then ValueQuantity(acc[|acc| - 1].1) else Zero
  }

  /** runningTotal = R.reduce(runTotal, []): each point's value plus the previous total. */
  function RunningTotal<K>(s: seq<(K, Value)>): (r: seq<(K, Value)>)
    ensures |r| == |s|
  {
    if s == [] then []
    else
      var acc := RunningTotal(s[..|s| - 1]);
      var v := s[|s| - 1];
      acc + [(v.0, Val(Add(ValueQuantity(v.1), MostRecent(acc))))]
  }

  function ValueQuantities<K>(s: seq<(K, Value)>): (r: seq<Quantity>)
    ensures |r| == |s| && forall i :: 0 <= i < |s| ==> r[i] == ValueQuantity(s[i].1)
  {
    Map((p: (K, Value)) => ValueQuantity(p.1), s)
  }

  /** One step of runningTotal: the earlier totals stay, the new one follows them. */
  lemma RunningTotalSnoc<K>(s: seq<(K, Value)>)
    requires s != []
    ensures forall i :: 0 <= i < |s| - 1 ==> RunningTotal(s)[i] == RunningTotal(s[..|s| - 1])[i]
    ensures RunningTotal(s)[|s| - 1]
            == (s[|s| - 1].0, Val(Add(ValueQuantity(s[|s| - 1].1), MostRecent(RunningTotal(s[..|s| - 1])))))
  {
  }

  /** runningTotal keeps every key. */
  lemma {:induction false} RunningTotalKeys<K>(s: seq<(K, Value)>)
    ensures forall i :: 0 <= i < |s| ==> RunningTotal(s)[i].0 == s[i].0
  {
    if s != [] {
      RunningTotalKeys(s[..|s| - 1]);
      RunningTotalSnoc(s);
    }
  }

  /** out[0] = in[0] + 0 and out[i] = in[i] + out[i - 1]. */
  lemma {:induction false} RunningTotalSteps<K>(s: seq<(K, Value)>)
    ensures |s| > 0 ==> RunningTotal(s)[0].1 == Val(Add(ValueQuantity(s[0].1), Zero))
    ensures forall i :: 0 < i < |s| ==>
              RunningTotal(s)[i].1 == Val(Add(ValueQuantity(s[i].1), ValueQuantity(RunningTotal(s)[i - 1].1)))
  {
    if s != [] {
      var init := s[..|s| - 1];
      RunningTotalSteps(init);
      RunningTotalSnoc(s);
      assert forall i :: 0 <= i < |init| ==> init[i] == s[i];
    }
  }

  /** Each running total is the sum of the values up to and including its point. */
  lemma {:induction false} RunningTotalSums<K>(s: seq<(K, Value)>)
    ensures forall i :: 0 <= i < |s| ==> RunningTotal(s)[i].1 == Val(Sum(ValueQuantities(s[..i + 1])))
  {
    if s != [] {
      var n := |s| - 1;
      var init := s[..n];
      var acc := RunningTotal(init);
      RunningTotalSums(init);
      RunningTotalSnoc(s);
      forall i | 0 <= i < n ensures RunningTotal(s)[i].1 == Val(Sum(ValueQuantities(s[..i + 1]))) {
        assert s[..i + 1] == init[..i + 1];
      }
      assert s[..n + 1] == s;
      var qs := ValueQuantities(s);
      assert qs[..n] == ValueQuantities(init);
      if n == 0 {
        AddZero(ValueQuantity(s[0].1));
        assert ValueQuantities(s[..1]) == [ValueQuantity(s[0].1)];
        SumSingleton(ValueQuantity(s[0].1));
      } else {
        assert init[..n] == init;
        AddCommutes(ValueQuantity(s[n].1), Sum(ValueQuantities(init)));
      }
    }
  }

  /** The running-total example: 1, 1, 1 gives 1, 2, 3. */
  lemma RunningTotalExample()
    ensures RunningTotal([("d", Val(Known(1.0))), ("d", Val(Known(1.0))), ("d", Val(Known(1.0)))])
            == [("d", Val(Known(1.0))), ("d", Val(Known(2.0))), ("d", Val(Known(3.0)))]
  {
    var one := ("d", Val(Known(1.0)));
    assert [one, one, one][..2] == [one, one];
    assert [one, one][..1] == [one];
  }
}
