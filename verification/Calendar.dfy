// Dates and instants on a fixed-offset clock of 24-hour days.  Instants are nanoseconds, and days are
// counted, from 1 January of year 0.

module Calendar {

  const SECOND: int := 1_000_000_000
  const MINUTE: int := 60 * SECOND
  const HOUR: int := 60 * MINUTE
  const DAY: int := 24 * HOUR
  const MILLISECOND: int := 1_000_000

  datatype Date = Date(year: int, month: int, day: int)

  predicate Leap(y: int) {
    y % 4 == 0 && (y % 100 != 0 || y % 400 == 0)
  }

  // Days before 1 January of year y; for y < 0 a negative number.
  function DaysBeforeYear(y: int): int {
    365 * y + (y + 3) / 4 - (y + 99) / 100 + (y + 399) / 400
  }

  // Days of a year before its m-th month.
  function DaysBeforeMonth(m: int, leap: bool): (n: int)
    requires 1 <= m <= 13
    ensures 0 <= n <= 366
  {
    var table := [0, 31, 59, 90, 120, 151, 181, 212, 243, 273, 304, 334, 365];
    table[m - 1] + if leap && m > 2 then 1 else 0
  }

  function DaysIn(y: int, m: int): int
    requires 1 <= m <= 12
  {
    DaysBeforeMonth(m + 1, Leap(y)) - DaysBeforeMonth(m, Leap(y))
  }

  predicate ValidDate(d: Date) {
    1 <= d.month <= 12 && 1 <= d.day <= DaysIn(d.year, d.month)
  }

  // time.Date: months outside 1..12 carry into the year, days outside the month simply count on.
  function DayNumber(d: Date): int {
    var y := d.year + (d.month - 1) / 12;
    var m := (d.month - 1) % 12 + 1;
    DaysBeforeYear(y) + DaysBeforeMonth(m, Leap(y)) + d.day - 1
  }

  // Date.ToTime.
  function Midnight(n: int): int {
    n * DAY
  }

  function DayOf(t: int): int {
    t / DAY
  }

  // 0 is Sunday; 1 January of year 0 was a Saturday.
  function WeekdayOf(n: int): (w: int)
    ensures 0 <= w < 7
  {
    (n + 6) % 7
  }

  // ---- The date of a day ----

  lemma Divisible100(y: int)
    requires y % 400 == 0
    ensures y % 100 == 0
  {
    assert y == 100 * (4 * (y / 400));
  }

  lemma Divisible4(y: int)
    requires y % 100 == 0
    ensures y % 4 == 0
  {
    assert y == 4 * (25 * (y / 100));
  }

  lemma LeapCount(y: int)
    ensures (if Leap(y) then 1 else 0)
            == (if y % 4 == 0 then 1 else 0) - (if y % 100 == 0 then 1 else 0) + (if y % 400 == 0 then 1 else 0)
  {
    if y % 400 == 0 { Divisible100(y); }
    if y % 100 == 0 { Divisible4(y); }
  }

  lemma CeilingStep4(y: int)
    ensures (y + 1 + 3) / 4 == (y + 3) / 4 + if y % 4 == 0 then 1 else 0
  {
  }

  lemma CeilingStep100(y: int)
    ensures (y + 1 + 99) / 100 == (y + 99) / 100 + if y % 100 == 0 then 1 else 0
  {
  }

  lemma CeilingStep400(y: int)
    ensures (y + 1 + 399) / 400 == (y + 399) / 400 + if y % 400 == 0 then 1 else 0
  {
  }

  lemma YearLength(y: int)
    ensures DaysBeforeYear(y + 1) == DaysBeforeYear(y) + if Leap(y) then 366 else 365
  {
    LeapCount(y);
    hide Leap;
    CeilingStep4(y);
    CeilingStep100(y);
    CeilingStep400(y);
  }

  function YearFrom(y: int, n: int): (r: int)
    ensures DaysBeforeYear(r) <= n < DaysBeforeYear(r + 1)
    decreases if n < DaysBeforeYear(y) then 1 else 0,
              if n < DaysBeforeYear(y) then DaysBeforeYear(y) - n else n - DaysBeforeYear(y)
  {
    YearLength(y);
    YearLength(y - 1);
    if n < DaysBeforeYear(y) then YearFrom(y - 1, n)
    else if n >= DaysBeforeYear(y + 1) then YearFrom(y + 1, n)
    else y
  }

  function MonthFrom(m: int, k: int, leap: bool): (r: int)
    requires 1 <= m <= 12 && DaysBeforeMonth(m, leap) <= k < DaysBeforeMonth(13, leap)
    ensures m <= r <= 12 && DaysBeforeMonth(r, leap) <= k < DaysBeforeMonth(r + 1, leap)
    decreases 12 - m
  {
    if m == 12 || k < DaysBeforeMonth(m + 1, leap) then m else MonthFrom(m + 1, k, leap)
  }

  lemma DateInYear(y: int, m: int, k: int)
    requires 1 <= m <= 12 && DaysBeforeMonth(m, Leap(y)) <= k < DaysBeforeMonth(m + 1, Leap(y))
    ensures var d := Date(y, m, k - DaysBeforeMonth(m, Leap(y)) + 1);
            ValidDate(d) && DayNumber(d) == DaysBeforeYear(y) + k
  {
    hide DaysBeforeMonth, DaysBeforeYear, Leap;
    assert (m - 1) / 12 == 0 && (m - 1) % 12 == m - 1;
  }

  // DateFromTime, for the n-th day.
  function DateOf(n: int): (d: Date)
    ensures ValidDate(d) && DayNumber(d) == n
  {
    var y := YearFrom(0, n);
    YearLength(y);
    var k := n - DaysBeforeYear(y);
    var m := MonthFrom(1, k, Leap(y));
    DateInYear(y, m, k);
    Date(y, m, k - DaysBeforeMonth(m, Leap(y)) + 1)
  }

  // ---- Order ----

  // Date.After and Date.Before.
  predicate After(d: Date, e: Date) {
    d.year > e.year || (d.year == e.year && (d.month > e.month || (d.month == e.month && d.day > e.day)))
  }

  predicate Before(d: Date, e: Date) {
    if d == e then false else !After(d, e)
  }

  lemma {:induction false} YearsIncrease(y: int, z: int)
    requires y <= z
    ensures DaysBeforeYear(y) + 365 * (z - y) <= DaysBeforeYear(z)
    decreases z - y
  {
    if y < z {
      YearLength(y);
      YearsIncrease(y + 1, z);
    }
  }

  lemma MonthsIncrease(m: int, k: int, leap: bool)
    requires 1 <= m <= k <= 13
    ensures DaysBeforeMonth(m, leap) <= DaysBeforeMonth(k, leap)
    ensures m < k ==> DaysBeforeMonth(m + 1, leap) <= DaysBeforeMonth(k, leap)
  {
  }

  // The month and day of a year-less date: the day may be one the month does not have.
  predicate MonthAndDay(d: Date) {
    1 <= d.month <= 12 && 1 <= d.day <= 31
  }

  lemma ValidIsMonthAndDay(d: Date)
    requires ValidDate(d)
    ensures MonthAndDay(d)
  {
  }

  lemma MonthFits(m: int, leap: bool)
    requires 1 <= m <= 12
    ensures DaysBeforeMonth(m, leap) + 31 <= if leap then 366 else 365
  {
  }

  // Even then, the date lies in its year.
  lemma WithinYear(d: Date)
    requires MonthAndDay(d)
    ensures DaysBeforeYear(d.year) <= DayNumber(d) < DaysBeforeYear(d.year + 1)
  {
    hide DaysBeforeYear, DaysBeforeMonth, Leap;
    YearLength(d.year);
    assert (d.month - 1) / 12 == 0 && (d.month - 1) % 12 == d.month - 1;
    MonthFits(d.month, Leap(d.year));
  }

  lemma YearsApart(d: Date, e: Date)
    requires MonthAndDay(d) && MonthAndDay(e) && d.year < e.year
    ensures DayNumber(d) < DayNumber(e)
  {
    WithinYear(d);
    WithinYear(e);
    YearsIncrease(d.year + 1, e.year);
  }

  // On valid dates the field-by-field order is the order of days.
  lemma AfterIsLater(d: Date, e: Date)
    requires ValidDate(d) && ValidDate(e)
    ensures After(d, e) <==> DayNumber(d) > DayNumber(e)
    ensures Before(d, e) <==> DayNumber(d) < DayNumber(e)
    ensures DayNumber(d) == DayNumber(e) <==> d == e
  {
    hide DaysBeforeMonth, DaysBeforeYear, Leap;
    ValidIsMonthAndDay(d);
    ValidIsMonthAndDay(e);
    if d.year < e.year {
      YearsApart(d, e);
    } else if e.year < d.year {
      YearsApart(e, d);
    } else if d.month < e.month {
      MonthsIncrease(d.month, e.month, Leap(d.year));
    } else if e.month < d.month {
      MonthsIncrease(e.month, d.month, Leap(d.year));
    }
  }

  // So a valid date is the date of its day.
  lemma DateOfDay(d: Date)
    requires ValidDate(d)
    ensures DateOf(DayNumber(d)) == d
  {
    AfterIsLater(DateOf(DayNumber(d)), d);
  }

  // After is a strict total order on all dates, valid or not.
  lemma AfterIsTotalOrder(a: Date, b: Date, c: Date)
    ensures !After(a, a)
    ensures After(a, b) && After(b, c) ==> After(a, c)
    ensures a == b || (After(a, b) <==> !After(b, a))
    ensures Before(a, b) <==> After(b, a)
  {
  }

  // ---- The Gregorian calendar ----

  lemma DayInMonth(d: Date)
    requires 1 <= d.month <= 12
    ensures DayNumber(d) == DaysBeforeYear(d.year) + DaysBeforeMonth(d.month, Leap(d.year)) + d.day - 1
  {
    hide DaysBeforeYear, DaysBeforeMonth, Leap;
    assert (d.month - 1) / 12 == 0 && (d.month - 1) % 12 == d.month - 1;
  }

  lemma MonthLengths(y: int, m: int)
    requires 1 <= m <= 12
    ensures DaysIn(y, m) == if m == 2 then (if Leap(y) then 29 else 28) else if m in {4, 6, 9, 11} then 30 else 31
    ensures DaysBeforeMonth(1, Leap(y)) == 0
  {
  }

  // Days beyond the end of a month count on, and so do months beyond the end of a year.
  lemma DaysCountOn(d: Date, days: int, years: int)
    ensures DayNumber(d.(day := d.day + days)) == DayNumber(d) + days
    ensures DayNumber(d.(month := d.month + 12 * years)) == DayNumber(d.(year := d.year + years))
  {
    hide DaysBeforeYear, DaysBeforeMonth, Leap;
    assert (d.month + 12 * years - 1) / 12 == (d.month - 1) / 12 + years;
    assert (d.month + 12 * years - 1) % 12 == (d.month - 1) % 12;
  }

  // Each month begins where the one before it ends, and so does each year.
  lemma MonthFollows(y: int, m: int)
    requires 1 <= m <= 12
    ensures DayNumber(Date(y, m + 1, 1)) == DayNumber(Date(y, m, 1)) + DaysIn(y, m)
    ensures DayNumber(Date(y, 13, 1)) == DayNumber(Date(y + 1, 1, 1))
  {
    hide DayNumber, DaysBeforeYear, Leap;
    DaysCountOn(Date(y, 1, 1), 0, 1);
    YearLength(y);
    DayInMonth(Date(y, m, 1));
    DayInMonth(Date(y + 1, 1, 1));
    if m < 12 { DayInMonth(Date(y, m + 1, 1)); }
  }

  lemma LeapRepeats(y: int)
    ensures Leap(y + 400) <==> Leap(y)
  {
    assert (y + 400) % 4 == y % 4 && (y + 400) % 100 == y % 100 && (y + 400) % 400 == y % 400;
  }

  lemma WeeksLater(n: int)
    ensures WeekdayOf(n + 146097) == WeekdayOf(n)
  {
    assert 146097 == 7 * 20871;
  }

  // The calendar repeats after 400 years, which have 97 leap days and are a whole number of weeks.
  lemma FourCenturies(y: int)
    ensures DaysBeforeYear(y + 400) == DaysBeforeYear(y) + 365 * 400 + 97
    ensures Leap(y + 400) <==> Leap(y)
    ensures WeekdayOf(DaysBeforeYear(y + 400)) == WeekdayOf(DaysBeforeYear(y))
  {
    LeapRepeats(y);
    hide Leap;
    assert (y + 400 + 3) / 4 == (y + 3) / 4 + 100;
    assert (y + 400 + 99) / 100 == (y + 99) / 100 + 4;
    assert (y + 400 + 399) / 400 == (y + 399) / 400 + 1;
    WeeksLater(DaysBeforeYear(y));
  }

  // 1 January 1970 was a Thursday, 719528 days after the first day of year 0.
  lemma Epoch()
    ensures DayNumber(Date(0, 1, 1)) == 0 && DayNumber(Date(1970, 1, 1)) == 719528 && WeekdayOf(719528) == 4
  {
    hide DayNumber;
    DayInMonth(Date(0, 1, 1));
    DayInMonth(Date(1970, 1, 1));
  }
}
