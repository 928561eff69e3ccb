/** UTC instants, the calendar bucket of a rate-limit window, and when a window resets. */
module Calendar {
  import opened Basics

  const SECOND := 1_000_000
  const MAX_YEAR := 9999

  datatype Period = Minute | Hour | Day | Month

  /** A UTC datetime to the microsecond. */
  datatype Instant = Instant(year: int, month: int, day: int, hour: int, minute: int, second: int, micro: int)

  predicate IsLeap(year: int) {
    year % 4 == 0 && (year % 100 != 0 || year % 400 == 0)
  }

  function DaysInMonth(year: int, month: int): int {
    if month == 2 then (if IsLeap(year) then 29 else 28)
    else if month in {4, 6, 9, 11} then 30 else 31
  }

  predicate Valid(i: Instant) {
    && 1 <= i.year <= MAX_YEAR && 1 <= i.month <= 12 && 1 <= i.day <= DaysInMonth(i.year, i.month)
    && 0 <= i.hour < 24 && 0 <= i.minute < 60 && 0 <= i.second < 60 && 0 <= i.micro < SECOND
  }

  // ----- time as a number -----

  function DaysBeforeYear(year: int): int {
    var y := year - 1;
    365 * y + y / 4 - y / 100 + y / 400
  }

  function DaysBeforeMonth(year: int, month: int): int
    decreases month
  {
    if month <= 1 then 0 else DaysBeforeMonth(year, month - 1) + DaysInMonth(year, month - 1)
  }

  function Ordinal(i: Instant): int {
    DaysBeforeYear(i.year) + DaysBeforeMonth(i.year, i.month) + i.day
  }

  /** Microseconds on the proleptic Gregorian time line. */
  function Micros(i: Instant): int {
    (((Ordinal(i) * 24 + i.hour) * 60 + i.minute) * 60 + i.second) * SECOND + i.micro
  }

  // ----- buckets -----

  /** The fields a window's key spells out at fixed width; equal keys are equal fields. */
  datatype Bucket = Bucket(period: Period, year: int, month: int, day: int, hour: int, minute: int)

  function BucketOf(i: Instant, p: Period): Bucket {
    Bucket(p, i.year, i.month,
           if p.Month? then 0 else i.day,
           if p.Month? || p.Day? then 0 else i.hour,
           if p.Minute? then i.minute else 0)
  }

  function Midnight(year: int, month: int, day: int): Instant {
    Instant(year, month, day, 0, 0, 0, 0)
  }

  function FirstOfNextMonth(i: Instant): Option<Instant> {
    if i.month < 12 then Some(Midnight(i.year, i.month + 1, 1))
    else if i.year < MAX_YEAR then Some(Midnight(i.year + 1, 1, 1))
    else None
  }

  function NextMidnight(i: Instant): Option<Instant> {
    if i.day < DaysInMonth(i.year, i.month) then Some(Midnight(i.year, i.month, i.day + 1)) else FirstOfNextMonth(i)
  }

  function NextHour(i: Instant): Option<Instant> {
    if i.hour < 23 then Some(Instant(i.year, i.month, i.day, i.hour + 1, 0, 0, 0)) else NextMidnight(i)
  }

  function NextMinute(i: Instant): Option<Instant> {
    if i.minute < 59 then Some(Instant(i.year, i.month, i.day, i.hour, i.minute + 1, 0, 0)) else NextHour(i)
  }

  /** The reset of the window `i` is in; None is the overflow past the last year. */
  function ResetAt(i: Instant, p: Period): Option<Instant> {
    match p
    case Minute => NextMinute(i)
    case Hour => NextHour(i)
    case Day => NextMidnight(i)
    case Month => FirstOfNextMonth(i)
  }

  function WindowStart(i: Instant, p: Period): Instant {
    match p
    case Minute => i.(second := 0, micro := 0)
    case Hour => i.(minute := 0, second := 0, micro := 0)
    case Day => Midnight(i.year, i.month, i.day)
    case Month => Midnight(i.year, i.month, 1)
  }

  /** The length of a window in seconds; months have none, 32 days covers any. */
  function TtlSeconds(p: Period): int {
    match p
    case Minute => 60
    case Hour => 3600
    case Day => 86400
    case Month => 32 * 86400
  }

  // ----- the two orders agree -----

  predicate Before(a: Instant, b: Instant) {
    || a.year < b.year
    || (a.year == b.year
        && (|| a.month < b.month
            || (a.month == b.month
                && (|| a.day < b.day
                    || (a.day == b.day
                        && (|| a.hour < b.hour
                            || (a.hour == b.hour
                                && (|| a.minute < b.minute
                                    || (a.minute == b.minute
                                        && (|| a.second < b.second
                                            || (a.second == b.second && a.micro < b.micro)))))))))))
  }

  lemma Fourth(y: int)
    ensures y / 4 == (y - 1) / 4 + if y % 4 == 0 then 1 else 0
  {
  }

  lemma Hundredth(y: int)
    ensures y / 100 == (y - 1) / 100 + if y % 100 == 0 then 1 else 0
  {
  }

  lemma FourHundredth(y: int)
    ensures y / 400 == (y - 1) / 400 + if y % 400 == 0 then 1 else 0
    ensures y % 400 == 0 ==> y % 100 == 0
    ensures y % 100 == 0 ==> y % 4 == 0
  {
  }

  lemma YearLength(year: int)
    ensures DaysBeforeYear(year + 1) == DaysBeforeYear(year) + if IsLeap(year) then 366 else 365
  {
    Fourth(year);
    Hundredth(year);
    FourHundredth(year);
  }

  lemma {:induction false} YearsMonotone(a: int, b: int)
    requires a < b
    ensures DaysBeforeYear(a) + (if IsLeap(a) then 366 else 365) <= DaysBeforeYear(b)
    decreases b - a
  {
    YearLength(b - 1);
    if a < b - 1 {
      YearsMonotone(a, b - 1);
    } else {
      assert a == b - 1;
    }
  }

  lemma {:induction false} MonthsMonotone(year: int, a: int, b: int)
    requires 1 <= a < b
    ensures DaysBeforeMonth(year, a) + DaysInMonth(year, a) <= DaysBeforeMonth(year, b)
    decreases b
  {
    if a < b - 1 {
      MonthsMonotone(year, a, b - 1);
    }
  }

  lemma TwelveMonths(year: int)
    ensures DaysBeforeMonth(year, 13) == if IsLeap(year) then 366 else 365
  {
    assert DaysBeforeMonth(year, 4) == 59 + 31 + if IsLeap(year) then 1 else 0;
    assert DaysBeforeMonth(year, 7) == 181 + if IsLeap(year) then 1 else 0;
    assert DaysBeforeMonth(year, 10) == 273 + if IsLeap(year) then 1 else 0;
  }

  predicate DateBefore(a: Instant, b: Instant) {
    || a.year < b.year
    || (a.year == b.year && (a.month < b.month || (a.month == b.month && a.day < b.day)))
  }

  lemma OrdinalMonotone(a: Instant, b: Instant)
    requires Valid(a) && Valid(b) && DateBefore(a, b)
    ensures Ordinal(a) < Ordinal(b)
  {
    if a.year < b.year {
      YearsMonotone(a.year, b.year);
      TwelveMonths(a.year);
      MonthsMonotone(a.year, a.month, 13);
      if b.month > 1 {
        MonthsMonotone(b.year, 1, b.month);
      }
    } else if a.month < b.month {
      MonthsMonotone(a.year, a.month, b.month);
    }
  }

  /** Field by field comparison is the order of time. */
  lemma OrdersAgree(a: Instant, b: Instant)
    requires Valid(a) && Valid(b)
    ensures Before(a, b) <==> Micros(a) < Micros(b)
    ensures a == b <==> Micros(a) == Micros(b)
  {
    if DateBefore(a, b) {
      OrdinalMonotone(a, b);
    } else if DateBefore(b, a) {
      OrdinalMonotone(b, a);
    }
  }

  // ----- resets -----

  lemma BucketConvex(a: Instant, b: Instant, c: Instant, p: Period)
    requires Valid(a) && Valid(b) && Valid(c) && Micros(a) <= Micros(b) <= Micros(c)
    requires BucketOf(a, p) == BucketOf(c, p)
    ensures BucketOf(b, p) == BucketOf(a, p)
  {
    OrdersAgree(b, a);
    OrdersAgree(c, b);
  }

  lemma ResetValid(i: Instant, p: Period)
    requires Valid(i) && ResetAt(i, p).Some?
    ensures Valid(ResetAt(i, p).value) && Before(i, ResetAt(i, p).value)
  {
  }

  lemma ResetInFieldOrder(i: Instant, p: Period, x: Instant)
    requires Valid(i) && Valid(x) && !Before(x, i)
    ensures BucketOf(x, p) == BucketOf(i, p) <==> ResetAt(i, p).None? || Before(x, ResetAt(i, p).value)
  {
    if p.Minute? {
    } else if p.Hour? {
    } else if p.Day? {
    }
  }

  /** `_reset_at` is the first later instant with another key: the reset is a real date, it
      is later, its key differs, and every instant before it has the key of `i`. There is
      none only in the last bucket of the last year. */
  lemma ResetIsFirstOtherBucket(i: Instant, p: Period, x: Instant)
    requires Valid(i) && Valid(x) && Micros(i) <= Micros(x)
    ensures var r := ResetAt(i, p);
            && (r.Some? ==> Valid(r.value) && Micros(i) < Micros(r.value))
            && (BucketOf(x, p) == BucketOf(i, p) <==> r.None? || Micros(x) < Micros(r.value))
  {
    var r := ResetAt(i, p);
    OrdersAgree(x, i);
    ResetInFieldOrder(i, p, x);
    if r.Some? {
      ResetValid(i, p);
      OrdersAgree(i, r.value);
      OrdersAgree(x, r.value);
    }
  }

  lemma NextMonthAdvances(i: Instant)
    requires Valid(i) && FirstOfNextMonth(i).Some?
    ensures Ordinal(FirstOfNextMonth(i).value) == Ordinal(i) - i.day + DaysInMonth(i.year, i.month) + 1
  {
    if i.month == 12 {
      DecemberRollsOver(i.year);
      assert DaysBeforeMonth(i.year + 1, 1) == 0;
    } else {
      assert DaysBeforeMonth(i.year, i.month + 1) == DaysBeforeMonth(i.year, i.month) + DaysInMonth(i.year, i.month);
    }
  }

  lemma MidnightAdvances(i: Instant)
    requires Valid(i) && NextMidnight(i).Some?
    ensures Ordinal(NextMidnight(i).value) == Ordinal(i) + 1
  {
    if i.day == DaysInMonth(i.year, i.month) {
      NextMonthAdvances(i);
    }
  }

  lemma DecemberRollsOver(year: int)
    ensures DaysBeforeYear(year) + DaysBeforeMonth(year, 12) + 31 == DaysBeforeYear(year + 1)
  {
    TwelveMonths(year);
    YearLength(year);
  }

  /** How long a window lasts at least, in seconds; exact but for months. */
  function ShortestSeconds(p: Period): int {
    if p.Month? then 28 * 86400 else TtlSeconds(p)
  }

  lemma MonthReset(i: Instant)
    requires Valid(i) && FirstOfNextMonth(i).Some?
    ensures Micros(FirstOfNextMonth(i).value) == Micros(WindowStart(i, Month)) + DaysInMonth(i.year, i.month) * 86400 * SECOND
  {
    NextMonthAdvances(i);
    assert Ordinal(WindowStart(i, Month)) == Ordinal(i) - i.day + 1;
  }

  lemma DayReset(i: Instant)
    requires Valid(i) && NextMidnight(i).Some?
    ensures Micros(NextMidnight(i).value) == Micros(WindowStart(i, Day)) + 86400 * SECOND
  {
    MidnightAdvances(i);
    assert Ordinal(WindowStart(i, Day)) == Ordinal(i);
  }

  lemma HourReset(i: Instant)
    requires Valid(i) && NextHour(i).Some?
    ensures Micros(NextHour(i).value) == Micros(WindowStart(i, Hour)) + 3600 * SECOND
  {
    assert Ordinal(WindowStart(i, Hour)) == Ordinal(i);
    if i.hour < 23 {
      assert Ordinal(NextHour(i).value) == Ordinal(i);
    } else {
      DayReset(i);
      assert Ordinal(WindowStart(i, Day)) == Ordinal(i);
    }
  }

  lemma MinuteReset(i: Instant)
    requires Valid(i) && NextMinute(i).Some?
    ensures Micros(NextMinute(i).value) == Micros(WindowStart(i, Minute)) + 60 * SECOND
  {
    assert Ordinal(WindowStart(i, Minute)) == Ordinal(i);
    if i.minute < 59 {
      assert Ordinal(NextMinute(i).value) == Ordinal(i);
    } else {
      HourReset(i);
      assert Ordinal(WindowStart(i, Hour)) == Ordinal(i);
    }
  }

  /** The reset is the start of the window plus its length: one minute, hour or day, or the
      days of the month, carried through month ends, leap days and December. */
  lemma ResetIsStartPlusLength(i: Instant, p: Period)
    requires Valid(i) && ResetAt(i, p).Some?
    ensures var length := if p.Month? then DaysInMonth(i.year, i.month) * 86400 else TtlSeconds(p);
            Micros(ResetAt(i, p).value) == Micros(WindowStart(i, p)) + length * SECOND
  {
    if p.Month? {
      MonthReset(i);
    } else if p.Day? {
      DayReset(i);
    } else if p.Hour? {
      HourReset(i);
    } else {
      MinuteReset(i);
    }
  }

  /** An increment's TTL outlasts its bucket: no counter vanishes inside it. */
  lemma TtlOutlastsBucket(i: Instant, x: Instant, p: Period)
    requires Valid(i) && Valid(x) && Micros(i) <= Micros(x) && BucketOf(x, p) == BucketOf(i, p)
    ensures Micros(x) < Micros(i) + TtlSeconds(p) * SECOND
  {
  }

  lemma ResetToReset(r: Instant, p: Period)
    requires Valid(r) && WindowStart(r, p) == r && ResetAt(r, p).Some?
    ensures Micros(r) + ShortestSeconds(p) * SECOND <= Micros(ResetAt(r, p).value)
  {
    ResetIsStartPlusLength(r, p);
  }

  lemma ResetStartsWindow(i: Instant, p: Period)
    requires Valid(i) && ResetAt(i, p).Some?
    ensures Valid(ResetAt(i, p).value) && WindowStart(ResetAt(i, p).value, p) == ResetAt(i, p).value
  {
    ResetValid(i, p);
  }

  lemma WholeWindowFollows(r: Instant, x: Instant, p: Period)
    requires Valid(r) && Valid(x) && WindowStart(r, p) == r
    requires Micros(r) <= Micros(x) < Micros(r) + ShortestSeconds(p) * SECOND
    ensures BucketOf(x, p) == BucketOf(r, p)
  {
    ResetIsFirstOtherBucket(r, p, x);
    if ResetAt(r, p).Some? {
      ResetToReset(r, p);
    }
  }

  /** Any interval as long as a minute, hour or day window, or 28 days for months, and its end
      point, meets at most two buckets. */
  lemma TwoBucketsCover(a: Instant, x: Instant, p: Period)
    requires Valid(a) && Valid(x) && Micros(a) <= Micros(x) <= Micros(a) + ShortestSeconds(p) * SECOND
    ensures BucketOf(x, p) == BucketOf(a, p) || (ResetAt(a, p).Some? && BucketOf(x, p) == BucketOf(ResetAt(a, p).value, p))
  {
    ResetIsFirstOtherBucket(a, p, x);
    if BucketOf(x, p) != BucketOf(a, p) {
      var r := ResetAt(a, p).value;
      ResetStartsWindow(a, p);
      ResetIsFirstOtherBucket(a, p, a);
      WholeWindowFollows(r, x, p);
    }
  }

  /** Some interval of this many microseconds meets three buckets. */
  ghost predicate ThreeBucketsMet(p: Period, length: int) {
    exists a, b, c :: MeetsThree(a, b, c, p, length)
  }

  predicate MeetsThree(a: Instant, b: Instant, c: Instant, p: Period, length: int) {
    && Valid(a) && Valid(b) && Valid(c) && Micros(a) <= Micros(b) <= Micros(c) < Micros(a) + length
    && BucketOf(a, p) != BucketOf(b, p) && BucketOf(b, p) != BucketOf(c, p) && BucketOf(a, p) != BucketOf(c, p)
  }

  /** That length is exact to the microsecond. */
  lemma ThreeBucketsIffLonger(p: Period, length: int)
    ensures ThreeBucketsMet(p, length) <==> length > ShortestSeconds(p) * SECOND + 1
  {
    if a, b, c :| MeetsThree(a, b, c, p, length) && length <= ShortestSeconds(p) * SECOND + 1 {
      TwoBucketsCover(a, b, p);
      TwoBucketsCover(a, c, p);
    }
    if length > ShortestSeconds(p) * SECOND + 1 {
      var a, b, c := AcrossOneBucket(p);
      assert MeetsThree(a, b, c, p, length);
    }
  }

  /** A whole bucket of the shortest kind, the last microsecond before it and the first after. */
  lemma AcrossOneBucket(p: Period) returns (a: Instant, b: Instant, c: Instant)
    ensures Valid(a) && Valid(b) && Valid(c) && Micros(a) < Micros(b) < Micros(c) == Micros(a) + ShortestSeconds(p) * SECOND + 1
    ensures BucketOf(a, p) != BucketOf(b, p) && BucketOf(b, p) != BucketOf(c, p) && BucketOf(a, p) != BucketOf(c, p)
  {
    if p.Month? {
      a, b, c := Instant(2025, 1, 31, 23, 59, 59, 999_999), Midnight(2025, 2, 1), Midnight(2025, 3, 1);
      assert DaysBeforeMonth(2025, 2) == 31;
      assert DaysBeforeMonth(2025, 3) == 59;
    } else if p.Day? {
      a, b, c := Instant(2025, 1, 1, 23, 59, 59, 999_999), Midnight(2025, 1, 2), Midnight(2025, 1, 3);
    } else if p.Hour? {
      a, b, c := Instant(2025, 1, 1, 0, 59, 59, 999_999), Instant(2025, 1, 1, 1, 0, 0, 0), Instant(2025, 1, 1, 2, 0, 0, 0);
    } else {
      a, b, c := Instant(2025, 1, 1, 0, 0, 59, 999_999), Instant(2025, 1, 1, 0, 1, 0, 0), Instant(2025, 1, 1, 0, 2, 0, 0);
    }
  }

  /** Months are shorter than 31 days often enough that such an interval can meet three. */
  lemma ThirtyOneDaysMeetThreeMonths() returns (a: Instant, b: Instant, c: Instant)
    ensures Valid(a) && Valid(b) && Valid(c)
    ensures Micros(a) < Micros(b) < Micros(c) < Micros(a) + 31 * 86400 * SECOND
    ensures |{BucketOf(a, Month), BucketOf(b, Month), BucketOf(c, Month)}| == 3
  {
    a, b, c := Midnight(2025, 1, 31), Midnight(2025, 2, 1), Midnight(2025, 3, 1);
    assert DaysBeforeMonth(2025, 2) == 31;
    assert DaysBeforeMonth(2025, 3) == 59;
  }

  // ----- Retry-After -----

  function RetryAfter(reset: Instant, now: Instant): int {
    Max(1, Trunc((Micros(reset) - Micros(now)) as real / SECOND as real) + 1)
  }

  /** A client that waits the advertised seconds lands in a new bucket of the exceeded
      window, and no more than a second after the reset; three clock readings lie between
      its counted request and the answer. */
  lemma RetryAfterLandsInNewBucket(counted: Instant, read: Instant, now: Instant, landing: Instant, p: Period)
    requires Valid(counted) && Valid(read) && Valid(now) && Valid(landing)
    requires Micros(counted) <= Micros(read) <= Micros(now) && ResetAt(read, p).Some?
    requires Micros(landing) == Micros(now) + RetryAfter(ResetAt(read, p).value, now) * SECOND
    ensures BucketOf(landing, p) != BucketOf(counted, p)
    ensures Micros(now) <= Micros(ResetAt(read, p).value) ==> Micros(landing) <= Micros(ResetAt(read, p).value) + SECOND
  {
    var r := ResetAt(read, p).value;
    RetryAfterBounds(Micros(r) - Micros(now));
    ResetIsFirstOtherBucket(read, p, read);
    ResetIsFirstOtherBucket(read, p, landing);
    if BucketOf(landing, p) == BucketOf(counted, p) {
      BucketConvex(counted, read, landing, p);
    }
  }

  lemma RetryAfterBounds(left: int)
    ensures var seconds := Max(1, Trunc(left as real / SECOND as real) + 1);
            left < seconds * SECOND && (left >= 0 ==> (seconds - 1) * SECOND <= left)
  {
    if left >= 0 {
      var q := left as real / SECOND as real;
      assert q.Floor as real <= q < q.Floor as real + 1.0;
      assert q * SECOND as real == left as real;
    }
  }

  // ----- nesting -----

  function Rank(p: Period): int {
    match p
    case Minute => 0
    case Hour => 1
    case Day => 2
    case Month => 3
  }

  lemma BucketsNest(a: Instant, b: Instant, fine: Period, coarse: Period)
    requires Rank(fine) <= Rank(coarse) && BucketOf(a, fine) == BucketOf(b, fine)
    ensures BucketOf(a, coarse) == BucketOf(b, coarse)
  {
  }
}
