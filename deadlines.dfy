/** The two deadline calculations. Each builds a mutable date from the
    payment date and changes it in place: the 105-day delivery deadline by
    moving its day of month forward 105 days, the placed-in-service deadline
    by moving its year forward four and then setting month and day to
    December 31. */
module Deadlines {
  import opened Calendar

  /** A mutable calendar date, with the setters the deadlines use. Setting a
      field to a value outside its range rolls the date over into the
      neighbouring months, as `Normalize` describes. */
  class MutableDate {
    var year: int
    var month: int  // 1 .. 12
    var day: int

    ghost predicate Valid()
      reads this
    {
      ValidDate(Date(year, month, day))
    }

    function Value(): Date
      reads this
    {
      Date(year, month, day)
    }

    constructor (d: Date)
      requires ValidDate(d)
      ensures Valid() && Value() == d
    {
      year, month, day := d.year, d.month, d.day;
    }

    /** Sets the day of month, rolling over month and year ends. */
    method SetDate(dayOfMonth: int)
      requires Valid()
      modifies this
      ensures Valid()
      ensures Value() == Normalize(old(year), old(month), dayOfMonth)
    {
      var r := Normalize(year, month, dayOfMonth);
      year, month, day := r.year, r.month, r.day;
    }

    /** Sets the year, keeping month and day (February 29 in a common year
        rolls to March 1). */
    method SetFullYear(newYear: int)
      requires Valid()
      modifies this
      ensures Valid()
      ensures Value() == Normalize(newYear, old(month), old(day))
    {
      var r := Normalize(newYear, month, day);
      year, month, day := r.year, r.month, r.day;
    }

    /** Sets the month (counted from 0 for January) and the day of month. */
    method SetMonth(monthIndex: int, dayOfMonth: int)
      requires Valid()
      requires 0 <= monthIndex <= 11
      modifies this
      ensures Valid()
      ensures Value() == Normalize(old(year), monthIndex + 1, dayOfMonth)
    {
      var r := Normalize(year, monthIndex + 1, dayOfMonth);
      year, month, day := r.year, r.month, r.day;
    }
  }

  const DeliveryWindowDays := 105

  /** The economic-performance delivery deadline: exactly 105 calendar days
      after the payment. */
  method Calculate105DayDeadline(paymentDate: Date) returns (deadline: Date)
    requires ValidDate(paymentDate)
    ensures ValidDate(deadline)
    ensures DayNumber(deadline) == DayNumber(paymentDate) + DeliveryWindowDays
    ensures deadline == CivilFromDays(DayNumber(paymentDate) + DeliveryWindowDays)
  {
    var date := new MutableDate(paymentDate);
    date.SetDate(date.day + DeliveryWindowDays);
    deadline := date.Value();
    NormalizeDayNumber(paymentDate.year, paymentDate.month, paymentDate.day + DeliveryWindowDays);
    AddDaysUnique(paymentDate, DeliveryWindowDays, deadline);
  }

  /** Changing only the year of a valid date keeps the new year, whatever
      the month and day (February 29 rolls to March 1 of that year). */
  lemma SetYearKeepsYear(d: Date, newYear: int)
    requires ValidDate(d)
    ensures Normalize(newYear, d.month, d.day).year == newYear
    ensures ValidDate(Date(newYear, d.month, d.day)) ==> Normalize(newYear, d.month, d.day) == Date(newYear, d.month, d.day)
    ensures !ValidDate(Date(newYear, d.month, d.day)) ==> Normalize(newYear, d.month, d.day) == Date(newYear, 3, 1)
  {
    if !ValidDate(Date(newYear, d.month, d.day)) {
      assert d.month == 2 && d.day == 29;
      assert Normalize(newYear, 3, 1) == Date(newYear, 3, 1);
    }
  }

  /** The placed-in-service deadline: December 31 of the fourth year after
      the payment's year, whatever the payment's month and day. */
  method CalculatePISDeadline(bocDate: Date) returns (deadline: Date)
    requires ValidDate(bocDate)
    ensures ValidDate(deadline)
    ensures deadline == Date(bocDate.year + 4, 12, 31)
  {
    var date := new MutableDate(bocDate);
    date.SetFullYear(date.year + 4);
    SetYearKeepsYear(bocDate, bocDate.year + 4);
    date.SetMonth(11, 31);
    deadline := date.Value();
  }

  /** The worked example: a payment on 2025-12-15 must be delivered by
      2026-03-30. */
  lemma DeliveryExample(deadline: Date)
    requires ValidDate(deadline)
    requires DayNumber(deadline) == DayNumber(Date(2025, 12, 15)) + DeliveryWindowDays
    ensures deadline == Date(2026, 3, 30)
  {
    DayNumberInjective(deadline, Date(2026, 3, 30));
  }
}
