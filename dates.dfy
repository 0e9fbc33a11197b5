/**
 * Calendar days as (year, month, day) triples: the part of moment.js that the
 * flag-day code relies on. Days are compared lexicographically, which is what
 * `isBefore`, `isAfter` and `isSame(_, 'day')` do on midnight-anchored moments,
 * and whole years are added with moment's month-length clamp.
 */
module Dates {

  datatype Date = Date(year: int, month: int, day: int)

  /** `a` is a strictly earlier calendar day than `b`. */
  predicate Before(a: Date, b: Date) {
    || a.year < b.year
    || (a.year == b.year && a.month < b.month)
    || (a.year == b.year && a.month == b.month && a.day < b.day)
  }

  /** Proleptic Gregorian leap years, as JavaScript's Date uses them. */
  predicate IsLeapYear(y: int) {
    y % 4 == 0 && (y % 100 != 0 || y % 400 == 0)
  }

  function DaysInMonth(y: int, m: int): (n: int)
    requires 1 <= m <= 12
    ensures 28 <= n <= 31
    ensures m == 2 ==> (n == 29 <==> IsLeapYear(y))
  {
    if m == 2 then (if IsLeapYear(y) then 29 else 28)
    else if m == 4 || m == 6 || m == 9 || m == 11 then 30
    else 31
  }

  predicate Valid(d: Date) {
    1 <= d.month <= 12 && 1 <= d.day <= DaysInMonth(d.year, d.month)
  }

  /**
   * moment's `add(n, 'years')` (and `subtract(n, 'years')` for negative n):
   * the year moves by n and the day of month is clamped to the length of the
   * target month, so only Feb 29 in a non-leap target year changes its day.
   */
  function AddYears(d: Date, n: int): (r: Date)
    ensures r.year == d.year + n && r.month == d.month
    ensures Valid(d) ==> Valid(r)
    ensures Valid(d) && !(d.month == 2 && d.day == 29) ==> r.day == d.day
    ensures Valid(d) && d.month == 2 && d.day == 29 ==> r.day == (if IsLeapYear(d.year + n) then 29 else 28)
  {
    var y := d.year + n;
    if 1 <= d.month <= 12 && d.day > DaysInMonth(y, d.month)
    then Date(y, d.month, DaysInMonth(y, d.month))
    else Date(y, d.month, d.day)
  }

  lemma BeforeIsStrictTotalOrder(a: Date, b: Date, c: Date)
    ensures !Before(a, a)
    ensures Before(a, b) ==> !Before(b, a)
    ensures Before(a, b) && Before(b, c) ==> Before(a, c)
    ensures a == b || Before(a, b) || Before(b, a)
  {
  }

  /** The year decides the order whatever the month and day. */
  lemma YearDominates(a: Date, b: Date)
    requires a.year < b.year
    ensures Before(a, b) && !Before(b, a)
  {
  }

  /** Moving a day forward by a positive number of years yields a later day. */
  lemma AddYearsMovesForward(d: Date, n: int)
    requires n > 0
    ensures Before(d, AddYears(d, n)) && Before(AddYears(d, -n), d)
  {
  }

  /** Shifting by n years and back is the identity, except for a clamped leap day. */
  lemma AddYearsRoundTrip(d: Date, n: int)
    requires Valid(d)
    requires !(d.month == 2 && d.day == 29)
    ensures AddYears(AddYears(d, n), -n) == d
  {
  }

  /** The leap-day clamp is lossy: Feb 29 2020 + 1 year - 1 year is Feb 28 2020. */
  lemma LeapDayRoundTripLoses()
    ensures AddYears(Date(2020, 2, 29), 1) == Date(2021, 2, 28)
    ensures AddYears(AddYears(Date(2020, 2, 29), 1), -1) == Date(2020, 2, 28)
  {
  }
}
