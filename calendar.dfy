/**
 * Naive UTC timestamps as chrono's `NaiveDateTime` orders them, and the
 * "first day of next month" step both the usage gate and registration use.
 */
module Calendar {

  const NanosPerDay: int := 86_400 * 1_000_000_000

  /** A calendar date and the nanoseconds elapsed since midnight of that date. */
  datatype DateTime = DateTime(year: int, month: int, day: int, nanos: int)

  predicate IsLeapYear(year: int)
  {
    year % 4 == 0 && (year % 100 != 0 || year % 400 == 0)
  }

  function DaysInMonth(year: int, month: int): (n: int)
    requires 1 <= month <= 12
    ensures 28 <= n <= 31
  {
    if month == 2 then (if IsLeapYear(year) then 29 else 28)
    else if month == 4 || month == 6 || month == 9 || month == 11 then 30
    else 31
  }

  /** A date that exists in the proleptic Gregorian calendar, with a time of day. */
  predicate Valid(d: DateTime)
  {
    && 1 <= d.month <= 12
    && 1 <= d.day <= DaysInMonth(d.year, d.month)
    && 0 <= d.nanos < NanosPerDay
  }

  /** `a <= b`: chronological order, which is lexicographic on (year, month, day, time). */
  predicate LessEq(a: DateTime, b: DateTime)
  {
    if a.year != b.year then a.year < b.year
    else if a.month != b.month then a.month < b.month
    else if a.day != b.day then a.day < b.day
    else a.nanos <= b.nanos
  }

  predicate Less(a: DateTime, b: DateTime)
  {
    LessEq(a, b) && a != b
  }

  /** Exactly one of `a <= b` and `b < a` holds. */
  lemma LessEqTotal(a: DateTime, b: DateTime)
    ensures LessEq(a, b) <==> !Less(b, a)
  {
  }

  /** Midnight-independent "same moment of the day, on the first of a month". */
  predicate IsFirstOfMonthAt(d: DateTime, nanos: int)
  {
    Valid(d) && d.day == 1 && d.nanos == nanos
  }

  /**
   * chrono `now.with_day(1).checked_add_months(Months::new(1))`: day 1 of the month
   * after `now`, at the same time of day; December rolls over to January of the
   * following year.
   */
  function FirstOfNextMonth(now: DateTime): (r: DateTime)
    requires Valid(now)
    ensures IsFirstOfMonthAt(r, now.nanos)
    ensures Less(now, r)
  {
    if now.month == 12 then DateTime(now.year + 1, 1, 1, now.nanos)
    else DateTime(now.year, now.month + 1, 1, now.nanos)
  }

  /**
   * The next reset is the EARLIEST first-of-month moment (at the time of day of
   * `now`) strictly after `now`: no such moment lies between the two.
   */
  lemma FirstOfNextMonthIsEarliest(now: DateTime, d: DateTime)
    requires Valid(now)
    requires IsFirstOfMonthAt(d, now.nanos) && Less(now, d)
    ensures LessEq(FirstOfNextMonth(now), d)
  {
  }

  /** Every December moment resets on 1 January of the following year, at the same time of day. */
  lemma DecemberRollsOver(now: DateTime)
    requires Valid(now) && now.month == 12
    ensures FirstOfNextMonth(now) == DateTime(now.year + 1, 1, 1, now.nanos)
  {
    var january := DateTime(now.year + 1, 1, 1, now.nanos);
    FirstOfNextMonthIsEarliest(now, january);
    assert LessEq(FirstOfNextMonth(now), january);
  }
}
