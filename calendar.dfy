/** Proleptic Gregorian calendar dates without a time of day.
    A date is numbered by its day count from 0001-01-01 (day 1), so that
    adding days is integer addition and comparing dates is comparing numbers.
    `Normalize` is the calendar's overflow rule (a day of month outside the
    month rolls into the neighbouring months), and `CivilFromDays` is the
    inverse of `DayNumber`. */
module Calendar {

  datatype Date = Date(year: int, month: int, day: int)

  predicate IsLeapYear(y: int) {
    y % 4 == 0 && (y % 100 != 0 || y % 400 == 0)
  }

  function DaysInMonth(y: int, m: int): int
    requires 1 <= m <= 12
  {
    if m == 2 then (if IsLeapYear(y) then 29 else 28)
    else if m == 4 || m == 6 || m == 9 || m == 11 then 30
    else 31
  }

  function DaysInYear(y: int): int {
    if IsLeapYear(y) then 366 else 365
  }

  /** A date that exists on the calendar. */
  predicate ValidDate(d: Date) {
    1 <= d.month <= 12 && 1 <= d.day <= DaysInMonth(d.year, d.month)
  }

  /** Days in the years 1 .. y-1 (negative for years before 1). */
  function DaysBeforeYear(y: int): int {
    var p := y - 1;
    365 * p + p / 4 - p / 100 + p / 400
  }

  /** Days in the months 1 .. m-1 of year y. */
  function DaysBeforeMonth(y: int, m: int): int
    requires 1 <= m <= 12
  {
    var cumulative := [0, 31, 59, 90, 120, 151, 181, 212, 243, 273, 304, 334];
    cumulative[m - 1] + (if m > 2 && IsLeapYear(y) then 1 else 0)
  }

  /** Days-from-civil: the number of the day, 0001-01-01 being day 1. */
  function DayNumber(d: Date): int
    requires 1 <= d.month <= 12
  {
    DaysBeforeYear(d.year) + DaysBeforeMonth(d.year, d.month) + d.day
  }

  /** `a` falls on or before `b` (the comparison of two time values). */
  predicate OnOrBefore(a: Date, b: Date)
    requires 1 <= a.month <= 12 && 1 <= b.month <= 12
  {
    DayNumber(a) <= DayNumber(b)
  }

  /** Field-by-field order: year, then month, then day. */
  predicate LexicographicLeq(a: Date, b: Date) {
    a.year < b.year
    || (a.year == b.year && (a.month < b.month || (a.month == b.month && a.day <= b.day)))
  }

  /** The date whose day number is that of the first of month m of year y,
      plus d - 1: day d of that month, rolled into later or earlier months
      when d lies outside it. */
  function Normalize(y: int, m: int, d: int): (r: Date)
    requires 1 <= m <= 12
    ensures ValidDate(r)
    decreases if d < 1 then 1 else 0, if d < 1 then -d else d
  {
    if d < 1 then
      if m == 1 then Normalize(y - 1, 12, d + 31)
      else Normalize(y, m - 1, d + DaysInMonth(y, m - 1))
    else if d <= DaysInMonth(y, m) then Date(y, m, d)
    else if m == 12 then Normalize(y + 1, 1, d - 31)
    else Normalize(y, m + 1, d - DaysInMonth(y, m))
  }

  /** Civil-from-days: the date with day number n. */
  function CivilFromDays(n: int): (r: Date)
    ensures ValidDate(r)
  {
    Normalize(1, 1, n)
  }

  // ---------------------------------------------------------------------
  // Steps of the numbering

  lemma MonthStep(y: int, m: int)
    requires 1 <= m < 12
    ensures DaysBeforeMonth(y, m + 1) == DaysBeforeMonth(y, m) + DaysInMonth(y, m)
  {
  }

  lemma YearStep(y: int)
    ensures DaysBeforeYear(y + 1) == DaysBeforeYear(y) + DaysInYear(y)
  {
    var p := y - 1;
    assert y / 4 - p / 4 == (if y % 4 == 0 then 1 else 0);
    assert y / 100 - p / 100 == (if y % 100 == 0 then 1 else 0);
    assert y / 400 - p / 400 == (if y % 400 == 0 then 1 else 0);
    assert y % 400 == 0 ==> y % 100 == 0;
    assert y % 100 == 0 ==> y % 4 == 0;
  }

  /** The day of the year of a valid date lies in 1 .. DaysInYear. */
  lemma DayOfYearBounds(d: Date)
    requires ValidDate(d)
    ensures 1 <= DaysBeforeMonth(d.year, d.month) + d.day <= DaysInYear(d.year)
  {
  }

  lemma {:induction false} MonthsOrdered(y: int, m1: int, m2: int)
    requires 1 <= m1 < m2 <= 12
    ensures DaysBeforeMonth(y, m1) + DaysInMonth(y, m1) <= DaysBeforeMonth(y, m2)
    decreases m2
  {
    MonthStep(y, m2 - 1);
    if m1 < m2 - 1 {
      MonthsOrdered(y, m1, m2 - 1);
    }
  }

  lemma {:induction false} YearsOrdered(y1: int, y2: int)
    requires y1 < y2
    ensures DaysBeforeYear(y1) + DaysInYear(y1) <= DaysBeforeYear(y2)
    decreases y2 - y1
  {
    YearStep(y1);
    if y1 + 1 < y2 {
      YearsOrdered(y1 + 1, y2);
      YearStep(y1 + 1);
    }
  }

  /** Comparing day numbers is comparing dates field by field. */
  lemma OnOrBeforeIsLexicographic(a: Date, b: Date)
    requires ValidDate(a) && ValidDate(b)
    ensures OnOrBefore(a, b) <==> LexicographicLeq(a, b)
  {
    if a.year != b.year {
      var (early, late) := if a.year < b.year then (a, b) else (b, a);
      DayOfYearBounds(early);
      DayOfYearBounds(late);
      YearsOrdered(early.year, late.year);
    } else if a.month != b.month {
      var (early, late) := if a.month < b.month then (a, b) else (b, a);
      MonthsOrdered(a.year, early.month, late.month);
    }
  }

  /** Day numbers tell valid dates apart. */
  lemma DayNumberInjective(a: Date, b: Date)
    requires ValidDate(a) && ValidDate(b)
    requires DayNumber(a) == DayNumber(b)
    ensures a == b
  {
    OnOrBeforeIsLexicographic(a, b);
    OnOrBeforeIsLexicographic(b, a);
  }

  /** Normalize moves d - 1 days on from the first of the month. */
  lemma {:induction false} NormalizeDayNumber(y: int, m: int, d: int)
    requires 1 <= m <= 12
    ensures DayNumber(Normalize(y, m, d)) == DayNumber(Date(y, m, 1)) + d - 1
    decreases if d < 1 then 1 else 0, if d < 1 then -d else d
  {
    if d < 1 {
      if m == 1 {
        NormalizeDayNumber(y - 1, 12, d + 31);
        YearStep(y - 1);
      } else {
        NormalizeDayNumber(y, m - 1, d + DaysInMonth(y, m - 1));
        MonthStep(y, m - 1);
      }
    } else if d <= DaysInMonth(y, m) {
    } else if m == 12 {
      NormalizeDayNumber(y + 1, 1, d - 31);
      YearStep(y);
    } else {
      NormalizeDayNumber(y, m + 1, d - DaysInMonth(y, m));
      MonthStep(y, m);
    }
  }

  // ---------------------------------------------------------------------
  // The days-from-civil / civil-from-days pair

  lemma DayNumberOfCivil(n: int)
    ensures DayNumber(CivilFromDays(n)) == n
  {
    NormalizeDayNumber(1, 1, n);
  }

  lemma CivilOfDayNumber(d: Date)
    requires ValidDate(d)
    ensures CivilFromDays(DayNumber(d)) == d
  {
    DayNumberOfCivil(DayNumber(d));
    DayNumberInjective(CivilFromDays(DayNumber(d)), d);
  }

  /** The date n days after d is CivilFromDays(DayNumber(d) + n), and it is
      the only valid date that many days after d. */
  lemma AddDaysUnique(d: Date, n: int, r: Date)
    requires ValidDate(d) && ValidDate(r)
    requires DayNumber(r) == DayNumber(d) + n
    ensures r == CivilFromDays(DayNumber(d) + n)
  {
    CivilOfDayNumber(r);
  }
}
