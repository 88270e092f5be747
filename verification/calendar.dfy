/** Proleptic Gregorian calendar dates, as Python's `datetime.date` holds them. */
module Calendar {

  datatype Date = Date(year: int, month: int, day: int)

  predicate IsLeapYear(y: int) {
    y % 4 == 0 && (y % 100 != 0 || y % 400 == 0)
  }

  function DaysInMonth(y: int, m: int): (n: int)
    requires 1 <= m <= 12
    ensures 28 <= n <= 31
    ensures m == 2 ==> (n == 29 <==> IsLeapYear(y)) && (n == 28 <==> !IsLeapYear(y))
    ensures m == 4 || m == 6 || m == 9 || m == 11 ==> n == 30
    ensures m != 2 && m != 4 && m != 6 && m != 9 && m != 11 ==> n == 31
  {
    if m == 2 then (if IsLeapYear(y) then 29 else 28)
    else if m == 4 || m == 6 || m == 9 || m == 11 then 30
    else 31
  }

  /** The dates `datetime.date` accepts: years 1 to 9999 and a day that exists in its month. */
  predicate ValidDate(d: Date) {
    1 <= d.year <= 9999 && 1 <= d.month <= 12 && 1 <= d.day <= DaysInMonth(d.year, d.month)
  }

  /** Chronological order, `a <= b`. */
  predicate OnOrBefore(a: Date, b: Date) {
    a.year < b.year
    || (a.year == b.year && (a.month < b.month || (a.month == b.month && a.day <= b.day)))
  }

  /** The calendar quarter SQL's EXTRACT(QUARTER ...) gives a date. */
  function Quarter(d: Date): (q: int)
    ensures 1 <= d.month <= 12 ==> 1 <= q <= 4 && 3 * q - 2 <= d.month <= 3 * q
  {
    (d.month - 1) / 3 + 1
  }
}
