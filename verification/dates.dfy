/**
 * Calendar dates as PHP's `DateTime` treats them when a day or a month is
 * changed: an out-of-range day rolls over into a neighbouring month.
 * Time zones and formatting are not modelled.
 */
module Dates {

  datatype Date = Date(year: int, month: int, day: int)

  /** A `DateTime`: a date and a time of day in seconds after midnight. */
  datatype DateTime = DateTime(date: Date, secondOfDay: nat)

  predicate IsLeapYear(y: int) {
    y % 4 == 0 && (y % 100 != 0 || y % 400 == 0)
  }

  function DaysInMonth(y: int, m: int): (n: int)
    requires 1 <= m <= 12
    ensures 28 <= n <= 31
    ensures m == 2 ==> (n == 29 <==> IsLeapYear(y))
  {
    if m == 2 then (if IsLeapYear(y) then 29 else 28)
    else if m == 4 || m == 6 || m == 9 || m == 11 then 30
    else 31
  }

  /** A date a `DateTime` can hold. */
  predicate Valid(d: Date) {
    1 <= d.month <= 12 && 1 <= d.day <= DaysInMonth(d.year, d.month)
  }

  /** Chronological order: `a` is strictly earlier than `b`. */
  predicate Before(a: Date, b: Date) {
    || a.year < b.year
    || (a.year == b.year && a.month < b.month)
    || (a.year == b.year && a.month == b.month && a.day < b.day)
  }

  function FirstOfMonth(y: int, m: int): Date {
    Date(y, m, 1)
  }

  /**
   * The date PHP's `setDate(y, m, d)` produces: day `d` of month `m` of year
   * `y`, where a day past the end of the month continues into the following
   * months and a day below 1 counts back into the preceding ones.
   */
  function Normalize(y: int, m: int, d: int): (r: Date)
    requires 1 <= m <= 12
    ensures Valid(r)
    ensures 1 <= d <= DaysInMonth(y, m) ==> r == Date(y, m, d)
    ensures d >= 1 ==> !Before(r, FirstOfMonth(y, m))
    ensures d < 1 ==> Before(r, FirstOfMonth(y, m))
    ensures d > DaysInMonth(y, m) ==> Before(Date(y, m, DaysInMonth(y, m)), r)
    decreases if d < 1 then 1 - d else 0, if d < 1 then 0 else d
  {
    if d < 1 then
      var py := if m == 1 then y - 1 else y;
      var pm := if m == 1 then 12 else m - 1;
      Normalize(py, pm, d + DaysInMonth(py, pm))
    else if d > DaysInMonth(y, m) then
      var ny := if m == 12 then y + 1 else y;
      var nm := if m == 12 then 1 else m + 1;
      Normalize(ny, nm, d - DaysInMonth(y, m))
    else
      Date(y, m, d)
  }

  /** The year and month after month `m` of year `y`. */
  function FollowingMonth(y: int, m: int): (ym: (int, int))
    requires 1 <= m <= 12
    ensures 1 <= ym.1 <= 12
    ensures Before(FirstOfMonth(y, m), FirstOfMonth(ym.0, ym.1))
    ensures m < 12 ==> ym == (y, m + 1)
    ensures m == 12 ==> ym == (y + 1, 1)
  {
    if m == 12 then (y + 1, 1) else (y, m + 1)
  }

  /**
   * PHP's `modify('+1 month')`: the month advances by one and the day is
   * kept, rolling over when the following month is shorter.
   */
  function NextMonth(d: Date): (r: Date)
    requires Valid(d)
    ensures Valid(r)
    ensures Before(d, r)
    ensures d.day <= DaysInMonth(FollowingMonth(d.year, d.month).0, FollowingMonth(d.year, d.month).1) ==>
              r == Date(FollowingMonth(d.year, d.month).0, FollowingMonth(d.year, d.month).1, d.day)
  {
    var ym := FollowingMonth(d.year, d.month);
    Normalize(ym.0, ym.1, d.day)
  }

  /** The calendar day before `d` (`modify('-1 day')`). */
  function DayBefore(d: Date): (r: Date)
    requires Valid(d)
    ensures Valid(r)
    ensures Before(r, d)
    ensures d.day > 1 ==> r == Date(d.year, d.month, d.day - 1)
  {
    Normalize(d.year, d.month, d.day - 1)
  }
}
