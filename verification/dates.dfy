/** Civil (calendar) dates in the proleptic Gregorian calendar, as stored in a
    Postgres `date` column: no time of day and no time zone. The order is the
    lexicographic order on (year, month, day). */
module Dates {

  datatype Date = Date(year: int, month: int, day: int)

  predicate IsLeapYear(y: int) {
    y % 4 == 0 && (y % 100 != 0 || y % 400 == 0)
  }

  function DaysInMonth(y: int, m: int): (n: int)
    requires 1 <= m <= 12
    ensures 28 <= n <= 31
  {
    if m == 2 then (if IsLeapYear(y) then 29 else 28)
    else if m == 4 || m == 6 || m == 9 || m == 11 then 30
    else 31
  }

  predicate IsValid(d: Date) {
    1 <= d.month <= 12 && 1 <= d.day <= DaysInMonth(d.year, d.month)
  }

  /** A date that exists in the calendar. */
  type CivilDate = d: Date | IsValid(d) witness Date(1970, 1, 1)

  /** Strict chronological order. */
  predicate Before(a: Date, b: Date) {
    || a.year < b.year
    || (a.year == b.year && a.month < b.month)
    || (a.year == b.year && a.month == b.month && a.day < b.day)
  }

  predicate NotAfter(a: Date, b: Date) {
    Before(a, b) || a == b
  }

  /** SQL `GREATEST` on two dates. */
  function Max(a: CivilDate, b: CivilDate): (r: CivilDate)
    ensures NotAfter(a, r) && NotAfter(b, r)
    ensures r == a || r == b
  {
    if Before(a, b) then b else a
  }

  /** SQL `LEAST` on two dates. */
  function Min(a: CivilDate, b: CivilDate): (r: CivilDate)
    ensures NotAfter(r, a) && NotAfter(r, b)
    ensures r == a || r == b
  {
    if Before(a, b) then a else b
  }

  /** `d - interval '1 day'`: the day immediately before `d`, the greatest
      calendar date that is strictly before it. */
  function PrevDay(d: CivilDate): (p: CivilDate)
    ensures Before(p, d)
    ensures forall e: CivilDate :: Before(e, d) ==> NotAfter(e, p)
  {
    if d.day > 1 then Date(d.year, d.month, d.day - 1)
    else if d.month > 1 then Date(d.year, d.month - 1, DaysInMonth(d.year, d.month - 1))
    else Date(d.year - 1, 12, 31)
  }

  /** `EXTRACT(YEAR ...) * 12 + EXTRACT(MONTH ...)`: a linear month counter.
      Truncating to the first of the month first does not change it. */
  function MonthIndex(d: Date): (k: int)
    ensures 1 <= d.month <= 12 ==> (k - 1) / 12 == d.year && (k - 1) % 12 + 1 == d.month
  {
    d.year * 12 + d.month
  }

  /** The first day of the month whose index is `k`: the inverse of
      `MonthIndex` on first-of-month dates. */
  function FirstOfMonth(k: int): (f: CivilDate)
    ensures MonthIndex(f) == k && f.day == 1
  {
    Date((k - 1) / 12, (k - 1) % 12 + 1, 1)
  }

  lemma FirstOfMonthInverse(d: CivilDate)
    requires d.day == 1
    ensures FirstOfMonth(MonthIndex(d)) == d
  {
  }

  /** The month counter agrees with the chronological order: it never
      decreases along the calendar, and a larger index means a later date. */
  lemma MonthIndexOrder(a: CivilDate, b: CivilDate)
    ensures NotAfter(a, b) ==> MonthIndex(a) <= MonthIndex(b)
    ensures MonthIndex(a) < MonthIndex(b) ==> Before(a, b)
    ensures MonthIndex(a) == MonthIndex(b) ==> a.year == b.year && a.month == b.month
  {
  }

  /** Subtracting a day moves into the previous month exactly when the day
      is the first of its month. */
  lemma MonthIndexOfPrevDay(d: CivilDate)
    ensures d.day == 1 ==> MonthIndex(PrevDay(d)) == MonthIndex(d) - 1
    ensures d.day != 1 ==> MonthIndex(PrevDay(d)) == MonthIndex(d)
  {
  }

  /** Subtracting a day preserves the order. */
  lemma PrevDayMonotone(a: CivilDate, b: CivilDate)
    requires NotAfter(a, b)
    ensures NotAfter(PrevDay(a), PrevDay(b))
  {
    var pa := PrevDay(a);
    assert Before(pa, b);
  }

  /** The first day of month `k` is on or before every date of a month with
      index at least `k`. */
  lemma FirstOfMonthNotAfter(k: int, d: CivilDate)
    requires k <= MonthIndex(d)
    ensures NotAfter(FirstOfMonth(k), d)
  {
    var f := FirstOfMonth(k);
    MonthIndexOrder(f, d);
  }
}
