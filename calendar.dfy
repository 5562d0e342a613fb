/**
  Proleptic Gregorian civil dates, standing in for the JavaScript Date values
  (local midnights) that the analyzer buckets with moment's startOf and add.
  Time zones and daylight-saving shifts are not modelled.
*/
module Calendar {

  datatype Date = Date(year: int, month: int, day: int)

  predicate IsLeap(y: int) {
    y % 4 == 0 && (y % 100 != 0 || y % 400 == 0)
  }

  function DaysInMonth(y: int, m: int): (r: int)
    requires 1 <= m <= 12
    ensures 28 <= r <= 31
  {
    if m == 2 then (if IsLeap(y) then 29 else 28)
    else if m == 4 || m == 6 || m == 9 || m == 11 then 30
    else 31
  }

  predicate Valid(d: Date) {
    1 <= d.month <= 12 && 1 <= d.day <= DaysInMonth(d.year, d.month)
  }

  type CivilDate = d: Date | Valid(d) witness Date(1970, 1, 1)

  /** Strictly earlier, the order JavaScript's `<` gives on Date values. */
  predicate Before(a: Date, b: Date) {
    a.year < b.year
    || (a.year == b.year && (a.month < b.month || (a.month == b.month && a.day < b.day)))
  }

  predicate SameOrBefore(a: Date, b: Date) {
    a == b || Before(a, b)
  }

  lemma BeforeIsStrictTotal(a: Date, b: Date, c: Date)
    ensures !Before(a, a)
    ensures Before(a, b) && Before(b, c) ==> Before(a, c)
    ensures a == b || Before(a, b) || Before(b, a)
  {
  }

  // ---- day numbers -------------------------------------------------------

  /** Days from 0001-01-01 to January 1st of year y. */
  function DaysBeforeYear(y: int): int {
    365 * (y - 1) + (y - 1) / 4 - (y - 1) / 100 + (y - 1) / 400
  }

  /** Days from January 1st to the first of month m (m may be 13). */
  function DaysBeforeMonth(y: int, m: int): (r: int)
    requires 1 <= m <= 13
    ensures 0 <= r <= 31 * (m - 1)
    decreases m
  {
    if m == 1 then 0 else DaysBeforeMonth(y, m - 1) + DaysInMonth(y, m - 1)
  }

  /** Number of the day, counting 0001-01-01 as day 0. */
  function DayNumber(d: Date): int
    requires Valid(d)
  {
    DaysBeforeYear(d.year) + DaysBeforeMonth(d.year, d.month) + d.day - 1
  }

  lemma {:induction false} YearLength(y: int)
    ensures DaysBeforeMonth(y, 13) == if IsLeap(y) then 366 else 365
  {
    assert DaysBeforeMonth(y, 2) == 31;
    assert DaysBeforeMonth(y, 3) == if IsLeap(y) then 60 else 59;
    assert DaysBeforeMonth(y, 13) == DaysBeforeMonth(y, 3) + 306;
  }

  /** Going from year y to year y + 1 crosses one multiple of k exactly when k divides y. */
  lemma StepDiv(y: int, k: int)
    requires k == 4 || k == 100 || k == 400
    ensures y / k - (y - 1) / k == if y % k == 0 then 1 else 0
  {
    if k == 4 {
      var q, r := y / 4, y % 4;
      assert y == 4 * q + r;
      if r == 0 { assert (y - 1) / 4 == q - 1; } else { assert (y - 1) / 4 == q; }
    } else if k == 100 {
      var q, r := y / 100, y % 100;
      assert y == 100 * q + r;
      if r == 0 { assert (y - 1) / 100 == q - 1; } else { assert (y - 1) / 100 == q; }
    } else {
      var q, r := y / 400, y % 400;
      assert y == 400 * q + r;
      if r == 0 { assert (y - 1) / 400 == q - 1; } else { assert (y - 1) / 400 == q; }
    }
  }

  lemma DaysBeforeNextYear(y: int)
    ensures DaysBeforeYear(y + 1) == DaysBeforeYear(y) + DaysBeforeMonth(y, 13)
  {
    YearLength(y);
    LeapSteps(y);
  }

  /** The leap-day corrections of DaysBeforeYear grow by one exactly across a leap year. */
  lemma LeapSteps(y: int)
    ensures var c := (y / 4 - (y - 1) / 4) - (y / 100 - (y - 1) / 100) + (y / 400 - (y - 1) / 400);
            c == if IsLeap(y) then 1 else 0
  {
    StepDiv(y, 4);
    StepDiv(y, 100);
    StepDiv(y, 400);
    if y % 400 == 0 {
      MultipleHasNoRemainder(100, 4 * (y / 400));
      MultipleHasNoRemainder(4, 100 * (y / 400));
    } else if y % 100 == 0 {
      MultipleHasNoRemainder(4, 25 * (y / 100));
    }
  }

  lemma MultipleHasNoRemainder(k: int, q: int)
    requires k == 4 || k == 7 || k == 100
    ensures (k * q) % k == 0
  {
    var n := k * q;
    var t, r := n / k, n % k;
    assert n == k * t + r && 0 <= r < k;
    assert k * (q - t) == r;
  }

  lemma {:induction false} DaysBeforeMonthMonotone(y: int, m: int, n: int)
    requires 1 <= m <= n <= 13
    ensures DaysBeforeMonth(y, m) + (if m < n then DaysInMonth(y, m) else 0) <= DaysBeforeMonth(y, n)
    decreases n - m
  {
    if m < n {
      if m + 1 < n {
        DaysBeforeMonthMonotone(y, m + 1, n);
      }
    }
  }

  /** The day number of a date lies within its year. */
  lemma DayNumberInYear(d: Date)
    requires Valid(d)
    ensures DaysBeforeYear(d.year) <= DayNumber(d) < DaysBeforeYear(d.year + 1)
  {
    DaysBeforeMonthMonotone(d.year, d.month, 13);
    DaysBeforeNextYear(d.year);
  }

  lemma {:induction false} DaysBeforeYearMonotone(y: int, z: int)
    requires y < z
    ensures DaysBeforeYear(y + 1) <= DaysBeforeYear(z)
    decreases z - y
  {
    if y + 1 < z {
      DaysBeforeYearMonotone(y + 1, z);
      DaysBeforeNextYear(y + 1);
    }
  }

  /** Day numbers order dates exactly as Before does. */
  lemma BeforeIsDayNumberOrder(a: Date, b: Date)
    requires Valid(a) && Valid(b)
    ensures Before(a, b) <==> DayNumber(a) < DayNumber(b)
    ensures a == b <==> DayNumber(a) == DayNumber(b)
  {
    DayNumberInYear(a);
    DayNumberInYear(b);
    if a.year < b.year {
      DaysBeforeYearMonotone(a.year, b.year);
    } else if b.year < a.year {
      DaysBeforeYearMonotone(b.year, a.year);
    } else if a.month < b.month {
      DaysBeforeMonthMonotone(a.year, a.month, b.month);
    } else if b.month < a.month {
      DaysBeforeMonthMonotone(a.year, b.month, a.month);
    }
  }

  // ---- moving by one day ------------------------------------------------

  function NextDay(d: CivilDate): (r: CivilDate) {
    if d.day < DaysInMonth(d.year, d.month) then Date(d.year, d.month, d.day + 1)
    else if d.month < 12 then Date(d.year, d.month + 1, 1)
    else Date(d.year + 1, 1, 1)
  }

  function PrevDay(d: CivilDate): (r: CivilDate) {
    if d.day > 1 then Date(d.year, d.month, d.day - 1)
    else if d.month > 1 then Date(d.year, d.month - 1, DaysInMonth(d.year, d.month - 1))
    else Date(d.year - 1, 12, 31)
  }

  lemma NextDayNumber(d: CivilDate)
    ensures DayNumber(NextDay(d)) == DayNumber(d) + 1
  {
    if d.day == DaysInMonth(d.year, d.month) && d.month == 12 {
      YearEndNumber(d.year);
    }
  }

  /** New Year's Eve is the day before January 1st. */
  lemma YearEndNumber(y: int)
    ensures DayNumber(Date(y, 12, 31)) + 1 == DayNumber(Date(y + 1, 1, 1))
  {
    DaysBeforeNextYear(y);
    assert DaysBeforeMonth(y, 13) == DaysBeforeMonth(y, 12) + 31;
  }

  /** The last day of a month is numbered one below the first of the next. */
  lemma MonthEndNumber(y: int, m: int)
    requires 1 <= m < 12
    ensures DayNumber(Date(y, m, DaysInMonth(y, m))) + 1 == DayNumber(Date(y, m + 1, 1))
  {
    assert DaysBeforeMonth(y, m + 1) == DaysBeforeMonth(y, m) + DaysInMonth(y, m);
  }

  lemma PrevDayNumber(d: CivilDate)
    ensures DayNumber(PrevDay(d)) == DayNumber(d) - 1
  {
    if d.day == 1 && d.month == 1 {
      YearEndNumber(d.year - 1);
    } else if d.day == 1 {
      MonthEndNumber(d.year, d.month - 1);
    }
  }

  lemma NextPrevInverse(d: CivilDate)
    ensures NextDay(PrevDay(d)) == d && PrevDay(NextDay(d)) == d
  {
    NextDayNumber(d);
    PrevDayNumber(d);
    NextDayNumber(PrevDay(d));
    PrevDayNumber(NextDay(d));
    BeforeIsDayNumberOrder(NextDay(PrevDay(d)), d);
    BeforeIsDayNumberOrder(PrevDay(NextDay(d)), d);
  }

  /** n days earlier. */
  function Back(d: CivilDate, n: nat): (r: CivilDate)
    ensures DayNumber(r) == DayNumber(d) - n
  {
    if n == 0 then d else PrevDayNumber(Back(d, n - 1)); PrevDay(Back(d, n - 1))
  }

  /** n days later. */
  function Forward(d: CivilDate, n: nat): (r: CivilDate)
    ensures DayNumber(r) == DayNumber(d) + n
  {
    if n == 0 then d else NextDayNumber(Forward(d, n - 1)); NextDay(Forward(d, n - 1))
  }

  /** Day of the week, Sunday = 0 (0001-01-01 was a Monday). */
  function Weekday(d: CivilDate): (r: int)
    ensures 0 <= r < 7
  {
    (DayNumber(d) + 1) % 7
  }

  // ---- units ------------------------------------------------------------

  /** The moment units the analyzer uses; weeks start on Sunday. */
  datatype Unit = Day | Week | Month | Year

  /** moment(d).startOf(unit) */
  function StartOf(u: Unit, d: CivilDate): (r: CivilDate)
    ensures SameOrBefore(r, d)
  {
    match u
    case Day => d
    case Week =>
      var r := Back(d, Weekday(d));
      BeforeIsDayNumberOrder(r, d);
      r
    case Month => Date(d.year, d.month, 1)
    case Year => Date(d.year, 1, 1)
  }

  /** moment(d).add(1, unit); a day of month past the end of the target month is clamped to it. */
  function AddOne(u: Unit, d: CivilDate): (r: CivilDate)
    ensures Before(d, r)
  {
    match u
    case Day =>
      NextDayNumber(d);
      BeforeIsDayNumberOrder(d, NextDay(d));
      NextDay(d)
    case Week =>
      BeforeIsDayNumberOrder(d, Forward(d, 7));
      Forward(d, 7)
    case Month =>
      var y := if d.month == 12 then d.year + 1 else d.year;
      var m := if d.month == 12 then 1 else d.month + 1;
      var dim := DaysInMonth(y, m);
      Date(y, m, if d.day <= dim then d.day else dim)
    case Year =>
      var dim := DaysInMonth(d.year + 1, d.month);
      Date(d.year + 1, d.month, if d.day <= dim then d.day else dim)
  }

  /** A week starts on a Sunday no more than six days before the date. */
  lemma StartOfWeek(d: CivilDate)
    ensures Weekday(StartOf(Week, d)) == 0
    ensures 0 <= DayNumber(d) - DayNumber(StartOf(Week, d)) < 7
  {
    var n := DayNumber(d) + 1;
    var w := Weekday(d);
    var q := n / 7;
    assert n == 7 * q + w;
    var s := Back(d, w);
    assert StartOf(Week, d) == s;
    assert DayNumber(s) + 1 == 7 * q;
    MultipleHasNoRemainder(7, q);
  }

  /** startOf is idempotent: a bucket start is its own bucket. */
  lemma StartOfIdempotent(u: Unit, d: CivilDate)
    ensures StartOf(u, StartOf(u, d)) == StartOf(u, d)
  {
    if u == Week {
      StartOfWeek(d);
    }
  }

  /** Every date lies in the half-open bucket [StartOf(u, d), AddOne(u, StartOf(u, d))). */
  lemma InBucket(u: Unit, d: CivilDate)
    ensures SameOrBefore(StartOf(u, d), d) && Before(d, AddOne(u, StartOf(u, d)))
  {
    var s := StartOf(u, d);
    if u == Week {
      StartOfWeek(d);
      BeforeIsDayNumberOrder(d, AddOne(u, s));
    }
  }

  /** Dates in the same bucket have the same start. */
  lemma SameBucket(u: Unit, d: CivilDate, e: CivilDate)
    requires SameOrBefore(StartOf(u, d), e) && Before(e, AddOne(u, StartOf(u, d)))
    ensures StartOf(u, e) == StartOf(u, d)
  {
    var s := StartOf(u, d);
    match u
    case Day =>
      NextDayNumber(d);
      BeforeIsDayNumberOrder(d, e);
      BeforeIsDayNumberOrder(e, NextDay(d));
    case Week =>
      StartOfWeek(d);
      StartOfWeek(e);
      var t := StartOf(Week, e);
      BeforeIsDayNumberOrder(s, e);
      BeforeIsDayNumberOrder(e, Forward(s, 7));
      BeforeIsDayNumberOrder(s, t);
      WeekdayDifference(s, t);
    case Month =>
    case Year =>
  }

  /** Two Sundays less than a week apart are the same day. */
  lemma WeekdayDifference(s: CivilDate, t: CivilDate)
    requires Weekday(s) == 0 && Weekday(t) == 0
    requires -7 < DayNumber(t) - DayNumber(s) < 7
    ensures s == t
  {
    var a, b := DayNumber(s) + 1, DayNumber(t) + 1;
    assert a == 7 * (a / 7) && b == 7 * (b / 7);
    assert -1 < b / 7 - a / 7 < 1;
    BeforeIsDayNumberOrder(s, t);
  }

  /** Day numbers in September 2016. */
  lemma September2016(day: int)
    requires 1 <= day <= 30
    ensures DayNumber(Date(2016, 9, day)) == 736206 + day
  {
    assert DaysBeforeYear(2016) == 735963;
    assert DaysBeforeMonth(2016, 3) == 60;
    assert DaysBeforeMonth(2016, 5) == 121;
    assert DaysBeforeMonth(2016, 7) == 182;
    assert DaysBeforeMonth(2016, 9) == 244;
  }

  /** The start of the week of a date, found through its weekday and day number. */
  lemma WeekStartIs(d: CivilDate, w: nat, s: CivilDate)
    requires Weekday(d) == w && DayNumber(s) == DayNumber(d) - w
    ensures StartOf(Week, d) == s
  {
    BeforeIsDayNumberOrder(StartOf(Week, d), s);
  }

  /** The week examples: 2016-09-09 falls in the week of 2016-09-04. */
  lemma WeekExampleFriday()
    ensures StartOf(Week, Date(2016, 9, 9)) == Date(2016, 9, 4)
  {
    September2016(4);
    September2016(9);
    assert 736216 == 7 * 105173 + 5;
    WeekStartIs(Date(2016, 9, 9), 5, Date(2016, 9, 4));
  }

  /** So does 2016-09-10. */
  lemma WeekExampleSaturday()
    ensures StartOf(Week, Date(2016, 9, 10)) == Date(2016, 9, 4)
  {
    September2016(4);
    September2016(10);
    assert 736217 == 7 * 105173 + 6;
    WeekStartIs(Date(2016, 9, 10), 6, Date(2016, 9, 4));
  }

  /** 2016-09-11, a Sunday, starts a new week. */
  lemma WeekExampleSunday()
    ensures StartOf(Week, Date(2016, 9, 11)) == Date(2016, 9, 11)
  {
    September2016(11);
    assert 736218 == 7 * 105174;
    WeekStartIs(Date(2016, 9, 11), 0, Date(2016, 9, 11));
  }
}
