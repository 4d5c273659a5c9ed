/**
 * Calendar dates as (year, month, day) triples in the proleptic Gregorian calendar, and the one
 * behaviour of JavaScript's `new Date(y, m - 1, d)` the front end depends on: reading the fields
 * back gives (y, m, d) exactly when the day exists in that month and the year is not one of the
 * years 0-99, which `new Date` maps to 1900-1999.
 */
module Calendar {

  datatype Date = Date(year: nat, month: nat, day: nat)

  predicate IsLeapYear(y: nat) {
    y % 4 == 0 && (y % 100 != 0 || y % 400 == 0)
  }

  function DaysInMonth(m: nat, y: nat): (n: nat)
    requires 1 <= m <= 12
    ensures 28 <= n <= 31
    ensures m == 2 ==> (n == 29 <==> IsLeapYear(y))
  {
    if m == 2 then (if IsLeapYear(y) then 29 else 28)
    else if m == 4 || m == 6 || m == 9 || m == 11 then 30
    else 31
  }

  /** A date that exists in the calendar. */
  predicate IsValidDate(d: Date) {
    1 <= d.month <= 12 && 1 <= d.day <= DaysInMonth(d.month, d.year)
  }

  /** The year `new Date(y, ...)` actually uses: the two-digit years 0-99 become 1900-1999. */
  function JsFullYear(y: nat): (r: nat)
    ensures r == y <==> y >= 100
  {
    if y <= 99 then 1900 + y else y
  }

  /**
   * For 1 <= m <= 12 and 1 <= d <= 31: whether `new Date(y, m - 1, d)` read back with
   * `getFullYear()`, `getMonth() + 1` and `getDate()` gives (y, m, d). A day past the month's
   * end rolls over into the next month, and a year 0-99 comes back as 1900-1999.
   */
  predicate JsDateRoundTrips(y: nat, m: nat, d: nat)
    requires 1 <= m <= 12 && 1 <= d <= 31
  {
    JsFullYear(y) == y && d <= DaysInMonth(m, y)
  }

  lemma RoundTripIsValidDate(y: nat, m: nat, d: nat)
    requires 1 <= m <= 12 && 1 <= d <= 31
    ensures JsDateRoundTrips(y, m, d) <==> y >= 100 && IsValidDate(Date(y, m, d))
  {
  }
}
