/**
 * Calendar dates as the price monitor uses them: the check-in and check-out
 * values of the stay window are proleptic Gregorian dates, compared field by
 * field (year, then month, then day), and the length of a stay is the
 * difference of their day ordinals (day 1 is 0001-01-01).
 */
module Calendar {

  const MinYear := 1
  const MaxYear := 9999

  /** Days per month, index 1..12 (index 0 unused); February of a common year. */
  const DaysInMonthTable: seq<int> := [-1, 31, 28, 31, 30, 31, 30, 31, 31, 30, 31, 30, 31]

  /** Days in the months before a month of a common year, index 1..12. */
  const DaysBeforeMonthTable: seq<int> := [-1, 0, 31, 59, 90, 120, 151, 181, 212, 243, 273, 304, 334]

  datatype Date = Date(year: int, month: int, day: int)

  predicate IsLeap(year: int) {
    year % 4 == 0 && (year % 100 != 0 || year % 400 == 0)
  }

  function DaysInYear(year: int): int {
    if IsLeap(year) then 366 else 365
  }

  function DaysInMonth(year: int, month: int): int
    requires 1 <= month <= 12
  {
    if month == 2 && IsLeap(year) then 29 else DaysInMonthTable[month]
  }

  function DaysBeforeMonth(year: int, month: int): int
    requires 1 <= month <= 12
  {
    DaysBeforeMonthTable[month] + (if month > 2 && IsLeap(year) then 1 else 0)
  }

  /** Days in the years before `year`, counted from 0001-01-01. */
  function DaysBeforeYear(year: int): int
    requires year >= MinYear
  {
    var y := year - 1;
    y * 365 + y / 4 - y / 100 + y / 400
  }

  /** A date that can exist: the year in range and the day within its month. */
  predicate Valid(d: Date) {
    MinYear <= d.year <= MaxYear && 1 <= d.month <= 12 && 1 <= d.day <= DaysInMonth(d.year, d.month)
  }

  /** The day number of a date; 0001-01-01 is day 1. */
  function Ordinal(d: Date): (n: int)
    requires Valid(d)
    ensures n >= 1
  {
    DaysBeforeYear(d.year) + DaysBeforeMonth(d.year, d.month) + d.day
  }

  /** Date comparison `a <= b`: year, then month, then day. */
  predicate AtOrBefore(a: Date, b: Date) {
    a.year < b.year
    || (a.year == b.year && (a.month < b.month || (a.month == b.month && a.day <= b.day)))
  }

  /** Whole days from `a` to `b`, as the `days` of `b - a`. */
  function DaysBetween(a: Date, b: Date): (n: int)
    requires Valid(a) && Valid(b)
    ensures n > 0 <==> !AtOrBefore(b, a)
    ensures n == 0 <==> a == b
  {
    OrdinalMatchesOrder(a, b);
    OrdinalMatchesOrder(b, a);
    Ordinal(b) - Ordinal(a)
  }

  /** The day after a valid date, as `d + timedelta(days=1)`. */
  function NextDay(d: Date): Date
    requires Valid(d)
  {
    if d.day < DaysInMonth(d.year, d.month) then Date(d.year, d.month, d.day + 1)
    else if d.month < 12 then Date(d.year, d.month + 1, 1)
    else Date(d.year + 1, 1, 1)
  }

  /** Consecutive calendar days have consecutive ordinals, so a stay's day count counts calendar days. */
  lemma NextDayIsOneLater(d: Date)
    requires Valid(d) && d != Date(MaxYear, 12, 31)
    ensures Valid(NextDay(d))
    ensures Ordinal(NextDay(d)) == Ordinal(d) + 1
    ensures DaysBetween(d, NextDay(d)) == 1
  {
    if d.day == DaysInMonth(d.year, d.month) {
      if d.month < 12 {
        DaysBeforeMonthStep(d.year, d.month);
      } else {
        YearEndsAfterDecember(d.year);
        DaysBeforeYearStep(d.year);
      }
    }
  }

  /** The two month tables agree: a month begins where the one before it ends. */
  lemma DaysBeforeMonthStep(year: int, month: int)
    requires 1 <= month < 12
    ensures DaysBeforeMonth(year, month + 1) == DaysBeforeMonth(year, month) + DaysInMonth(year, month)
  {
  }

  /** December ends on the last day of its year. */
  lemma YearEndsAfterDecember(year: int)
    ensures DaysBeforeMonth(year, 12) + DaysInMonth(year, 12) == DaysInYear(year)
  {
  }

  /** A year adds its own length to the days before the next one. */
  lemma DaysBeforeYearStep(year: int)
    requires year >= MinYear
    ensures DaysBeforeYear(year + 1) == DaysBeforeYear(year) + DaysInYear(year)
  {
    var y := year - 1;
    assert (y + 1) / 4 - y / 4 == if year % 4 == 0 then 1 else 0;
    assert (y + 1) / 100 - y / 100 == if year % 100 == 0 then 1 else 0;
    assert (y + 1) / 400 - y / 400 == if year % 400 == 0 then 1 else 0;
  }

  /** A year ends no later than any later year begins. */
  lemma {:induction false} DaysBeforeYearGrows(y1: int, y2: int)
    requires MinYear <= y1 < y2
    ensures DaysBeforeYear(y1) + DaysInYear(y1) <= DaysBeforeYear(y2)
    decreases y2 - y1
  {
    DaysBeforeYearStep(y2 - 1);
    if y1 < y2 - 1 {
      DaysBeforeYearGrows(y1, y2 - 1);
    }
  }

  /** A month ends no later than any later month begins. */
  lemma MonthsFitInYear(year: int, m1: int, m2: int)
    requires 1 <= m1 < m2 <= 12
    ensures DaysBeforeMonth(year, m1) + DaysInMonth(year, m1) <= DaysBeforeMonth(year, m2)
  {
  }

  /** Every month ends within its year. */
  lemma LastMonthFitsInYear(year: int, m: int)
    requires 1 <= m <= 12
    ensures DaysBeforeMonth(year, m) + DaysInMonth(year, m) <= DaysInYear(year)
  {
  }

  /** A strictly earlier valid date has a strictly smaller ordinal. */
  lemma EarlierHasSmallerOrdinal(a: Date, b: Date)
    requires Valid(a) && Valid(b)
    requires AtOrBefore(a, b) && a != b
    ensures Ordinal(a) < Ordinal(b)
  {
    if a.year < b.year {
      LastMonthFitsInYear(a.year, a.month);
      DaysBeforeYearGrows(a.year, b.year);
    } else if a.month < b.month {
      MonthsFitInYear(a.year, a.month, b.month);
    }
  }

  /** Comparing two valid dates field by field agrees with comparing their ordinals. */
  lemma OrdinalMatchesOrder(a: Date, b: Date)
    requires Valid(a) && Valid(b)
    ensures AtOrBefore(a, b) <==> Ordinal(a) <= Ordinal(b)
    ensures a == b <==> Ordinal(a) == Ordinal(b)
  {
    if a != b {
      if AtOrBefore(a, b) {
        EarlierHasSmallerOrdinal(a, b);
      } else {
        EarlierHasSmallerOrdinal(b, a);
      }
    }
  }
}
