/** UTC instants, day numbers and the proleptic Gregorian calendar. */
module Calendar {

  /** An instant, in nanoseconds since the Unix epoch. */
  type Time = int

  const SECOND := 1_000_000_000
  const MINUTE := 60 * SECOND
  const HOUR := 60 * MINUTE
  const DAY := 24 * HOUR

  /** The source's zero time, the first instant of year 1. */
  const ZERO_TIME: Time := -62135596800 * SECOND

  /** The UTC day an instant falls on; day 0 is 1970-01-01. */
  function DayOf(t: Time): int {
    t / DAY
  }

  lemma DayShift(t: Time, n: int)
    ensures DayOf(t + n * DAY) == DayOf(t) + n
  {
  }

  lemma DayStart(n: int)
    ensures DayOf(n * DAY) == n
  {
  }

  lemma DayOrder(a: Time, b: Time)
    ensures a <= b ==> DayOf(a) <= DayOf(b)
  {
  }

  predicate Leap(y: int) {
    y % 4 == 0 && (y % 100 != 0 || y % 400 == 0)
  }

  function YearLen(y: int): int {
    if Leap(y) then 366 else 365
  }

  /** Days from the start of year 0 to the start of year `y`. */
  function YearStart(y: int): int {
    365 * y + (y + 3) / 4 - (y + 99) / 100 + (y + 399) / 400
  }

  lemma Carry4(y: int)
    ensures (y + 4) / 4 == (y + 3) / 4 + if y % 4 == 0 then 1 else 0
  {
  }

  lemma Carry100(y: int)
    ensures (y + 100) / 100 == (y + 99) / 100 + if y % 100 == 0 then 1 else 0
  {
  }

  lemma Carry400(y: int)
    ensures (y + 400) / 400 == (y + 399) / 400 + if y % 400 == 0 then 1 else 0
  {
  }

  lemma QuarterCentury(y: int)
    ensures y % 400 == 0 ==> y % 100 == 0
  {
    var q := y / 400;
    assert y % 400 == 0 ==> y == 100 * (4 * q);
  }

  lemma QuarterLeap(y: int)
    ensures y % 100 == 0 ==> y % 4 == 0
  {
    var r := y / 100;
    assert y % 100 == 0 ==> y == 4 * (25 * r);
  }

  lemma NextYear(y: int)
    ensures YearStart(y + 1) == YearStart(y) + YearLen(y)
  {
    Carry4(y);
    Carry100(y);
    Carry400(y);
    QuarterCentury(y);
    QuarterLeap(y);
    assert (y + 1 + 3) / 4 == (y + 4) / 4 && (y + 1 + 99) / 100 == (y + 100) / 100
           && (y + 1 + 399) / 400 == (y + 400) / 400;
  }

  lemma {:induction false} YearOrder(y: int, z: int)
    requires y < z
    ensures YearStart(y) + YearLen(y) <= YearStart(z)
    decreases z - y
  {
    NextYear(y);
    if y + 1 < z {
      YearOrder(y + 1, z);
    }
  }

  const MONTH_STARTS: seq<int> := [0, 31, 59, 90, 120, 151, 181, 212, 243, 273, 304, 334, 365]

  /** Days from the start of the year to the start of month `m`; month 13 is the year's end. */
  function MonthStart(y: int, m: int): int
    requires 1 <= m <= 13
  {
    MONTH_STARTS[m - 1] + if m > 2 && Leap(y) then 1 else 0
  }

  function MonthLen(y: int, m: int): (n: int)
    requires 1 <= m <= 12
    ensures 28 <= n <= 31
  {
    MonthStart(y, m + 1) - MonthStart(y, m)
  }

  lemma MonthOrder(y: int, m: int, n: int)
    requires 1 <= m < n <= 13
    ensures MonthStart(y, m) + MonthLen(y, m) <= MonthStart(y, n)
    ensures MonthStart(y, 13) == YearLen(y)
  {
  }

  const EPOCH := 719528

  /** The day number of a date. A day past the month's end counts on into the
      next month, as `time.Date` normalises it. */
  function DateDay(y: int, m: int, d: int): int
    requires 1 <= m <= 12
  {
    YearStart(y) + MonthStart(y, m) + d - 1 - EPOCH
  }

  predicate RealDate(y: int, m: int, d: int) {
    1 <= m <= 12 && 1 <= d <= MonthLen(y, m)
  }

  datatype Date = Date(year: int, month: int, day: int)

  /** The year a day falls in, looked for from a year that starts no later. */
  function YearFrom(y: int, n: int): (r: int)
    requires YearStart(y) <= n
    ensures YearStart(r) <= n < YearStart(r) + YearLen(r)
    decreases n - YearStart(y)
  {
    NextYear(y);
    if n < YearStart(y + 1) then y else YearFrom(y + 1, n)
  }

  function MonthFrom(y: int, m: int, n: int): (r: int)
    requires 1 <= m <= 12 && MonthStart(y, m) <= n < YearLen(y)
    ensures m <= r <= 12 && MonthStart(y, r) <= n < MonthStart(y, r + 1)
    decreases 12 - m
  {
    MonthOrder(y, m, 13);
    if n < MonthStart(y, m + 1) then m else MonthFrom(y, m + 1, n)
  }

  lemma EarlyYear(n: int)
    ensures YearStart(if n < 0 then n / 365 else 0) <= n
  {
  }

  /** The date of a day number. */
  function DateOf(day: int): (r: Date)
    ensures RealDate(r.year, r.month, r.day) && DateDay(r.year, r.month, r.day) == day
  {
    var n := day + EPOCH;
    EarlyYear(n);
    var y := YearFrom(if n < 0 then n / 365 else 0, n);
    var m := MonthFrom(y, 1, n - YearStart(y));
    Date(y, m, n - YearStart(y) - MonthStart(y, m) + 1)
  }

  /** A date lies inside its year and inside its month. */
  lemma DateBounds(y: int, m: int, d: int)
    requires RealDate(y, m, d)
    ensures DateDay(y, 1, 1) <= DateDay(y, m, 1) <= DateDay(y, m, d)
    ensures DateDay(y, m, d) <= DateDay(y, m, MonthLen(y, m)) <= DateDay(y, 12, 31)
    ensures DateDay(y, m, 1) + MonthLen(y, m) <= DateDay(y, 12, 31) + 1 == DateDay(y, 1, 1) + YearLen(y)
  {
    if m > 1 {
      MonthOrder(y, 1, m);
    }
    MonthOrder(y, m, 13);
  }

  /** A date is its day number's date, and the only one. */
  lemma DateOfDay(y: int, m: int, d: int)
    requires RealDate(y, m, d)
    ensures DateOf(DateDay(y, m, d)) == Date(y, m, d)
  {
    var r := DateOf(DateDay(y, m, d));
    DateBounds(y, m, d);
    DateBounds(r.year, r.month, r.day);
    if r.year < y {
      YearOrder(r.year, y);
    } else if y < r.year {
      YearOrder(y, r.year);
    } else if r.month < m {
      MonthOrder(y, r.month, m);
    } else if m < r.month {
      MonthOrder(y, m, r.month);
    }
  }
}
