/**
 * Proleptic Gregorian calendar dates, as pandas parses the inclusion-date column.
 * A date is counted in whole days: `DayNumber` is the number of days since
 * 0001-01-01 (Python's `date.toordinal() - 1`), and day number 0 is a Monday.
 */
module Calendar {

  datatype Ymd = Ymd(year: int, month: int, day: int)

  predicate IsLeapYear(y: int) {
    y % 4 == 0 && (y % 100 != 0 || y % 400 == 0)
  }

  function DaysInMonth(y: int, m: int): int {
    if m == 2 then (if IsLeapYear(y) then 29 else 28)
    else if m == 4 || m == 6 || m == 9 || m == 11 then 30
    else 31
  }

  function DaysInYear(y: int): int {
    if IsLeapYear(y) then 366 else 365
  }

  predicate IsValid(d: Ymd) {
    1 <= d.year && 1 <= d.month <= 12 && 1 <= d.day <= DaysInMonth(d.year, d.month)
  }

  /** A calendar date that exists. */
  type Date = d: Ymd | IsValid(d) witness Ymd(1970, 1, 1)

  /** Days in the years 1 .. y-1. */
  function DaysBeforeYear(y: int): int
    requires y >= 1
  {
    var t := y - 1;
    365 * t + t / 4 - t / 100 + t / 400
  }

  /** Days in the months 1 .. m-1 of year y. */
  function DaysBeforeMonth(y: int, m: int): int
    requires 1 <= m <= 12
  {
    var common := [0, 31, 59, 90, 120, 151, 181, 212, 243, 273, 304, 334][m - 1];
    if m > 2 && IsLeapYear(y) then common + 1 else common
  }

  /** Days elapsed since 0001-01-01. */
  function DayNumber(d: Date): int {
    DaysBeforeYear(d.year) + DaysBeforeMonth(d.year, d.month) + d.day - 1
  }

  /** Day of the week, 0 = Monday .. 6 = Sunday (Python's `date.weekday()`). */
  function Weekday(d: Date): int {
    DayNumber(d) % 7
  }

  /** Calendar order on the (year, month, day) fields: year first, then month, then day. */
  predicate Precedes(a: Date, b: Date) {
    a.year < b.year
    || (a.year == b.year && (a.month < b.month || (a.month == b.month && a.day < b.day)))
  }

  lemma DaysBeforeYearStep(y: int)
    requires y >= 1
    ensures DaysBeforeYear(y + 1) == DaysBeforeYear(y) + DaysInYear(y)
  {
    var t := y - 1;
    assert (t + 1) / 4 - t / 4 == (if y % 4 == 0 then 1 else 0);
    assert (t + 1) / 100 - t / 100 == (if y % 100 == 0 then 1 else 0);
    assert (t + 1) / 400 - t / 400 == (if y % 400 == 0 then 1 else 0);
  }

  /** Every year before y2 ends no later than year y2 begins. */
  lemma {:induction false} YearEndsBefore(y1: int, y2: int)
    requires 1 <= y1 < y2
    ensures DaysBeforeYear(y1) + DaysInYear(y1) <= DaysBeforeYear(y2)
    decreases y2 - y1
  {
    DaysBeforeYearStep(y1);
    if y1 + 1 < y2 {
      YearEndsBefore(y1 + 1, y2);
    }
  }

  /** A month ends no later than any later month of the same year begins, and the months fit in the year. */
  lemma MonthEndsBefore(y: int, m1: int, m2: int)
    requires 1 <= m1 <= 12 && 1 <= m2 <= 12
    ensures m1 < m2 ==> DaysBeforeMonth(y, m1) + DaysInMonth(y, m1) <= DaysBeforeMonth(y, m2)
    ensures DaysBeforeMonth(y, m1) + DaysInMonth(y, m1) <= DaysInYear(y)
  {
  }

  /** The day number strictly increases along calendar order. */
  lemma DayNumberIncreasing(a: Date, b: Date)
    requires Precedes(a, b)
    ensures DayNumber(a) < DayNumber(b)
  {
    MonthEndsBefore(a.year, a.month, b.month);
    if a.year < b.year {
      YearEndsBefore(a.year, b.year);
    }
  }

  /** Comparing day numbers is comparing dates in calendar order; equal day numbers are the same date. */
  lemma DayNumberOrder(a: Date, b: Date)
    ensures DayNumber(a) < DayNumber(b) <==> Precedes(a, b)
    ensures DayNumber(a) == DayNumber(b) <==> a == b
  {
    if Precedes(a, b) {
      DayNumberIncreasing(a, b);
    } else if Precedes(b, a) {
      DayNumberIncreasing(b, a);
    } else {
      assert a == b;
    }
  }

  /** Two fixed points that tie the numbering to the real calendar. */
  lemma KnownWeekdays()
    ensures Weekday(Ymd(1970, 1, 1)) == 3   // a Thursday
    ensures Weekday(Ymd(2024, 1, 1)) == 0   // a Monday
  {
  }
}
