/** `Storage.SumTotalCost` in internal/db/postgres/postgres.go: the SQL query
    that prorates each matching subscription over a query window in whole
    calendar months and sums `price * months`, read as a pure function over
    the rows of the `subscriptions` table. */
module TotalCost {
  import opened Wrappers
  import opened Dates
  import opened Models

  /** The query parameters: $3, $4, $1 and $2 of the SQL statement. */
  datatype Query = Query(userID: string, serviceName: string, periodStart: CivilDate, periodEnd: CivilDate)

  /** The WHERE clause of the `subs_in_period` sub-query. A row that ends
      exactly at `period_start` or starts exactly at `period_end` is not
      selected; a NULL end date is never what excludes a row. */
  predicate Selected(s: Subscription, q: Query): (b: bool)
    ensures s.endDate.Some? && NotAfter(s.endDate.value, q.periodStart) ==> !b
    ensures NotAfter(q.periodEnd, s.startDate) ==> !b
    ensures s.endDate.None? ==>
      (b <==> s.userID == q.userID && s.serviceName == q.serviceName && Before(s.startDate, q.periodEnd))
  {
    && s.userID == q.userID
    && s.serviceName == q.serviceName
    && (s.endDate.None? || Before(q.periodStart, s.endDate.value))
    && Before(s.startDate, q.periodEnd)
  }

  /** `GREATEST(start_date, period_start)`. */
  function ActualStart(s: Subscription, q: Query): (r: CivilDate)
    ensures NotAfter(q.periodStart, r) && NotAfter(s.startDate, r)
    ensures r == s.startDate || r == q.periodStart
  {
    Max(s.startDate, q.periodStart)
  }

  /** `LEAST(COALESCE(end_date, period_end), period_end)`. */
  function ActualEnd(s: Subscription, q: Query): (r: CivilDate)
    ensures NotAfter(r, q.periodEnd)
    ensures s.endDate.None? ==> r == q.periodEnd
    ensures s.endDate.Some? ==> NotAfter(r, s.endDate.value) && (r == s.endDate.value || r == q.periodEnd)
  {
    Min(s.endDate.GetOr(q.periodEnd), q.periodEnd)
  }

  /** A row that is selected and survives the outer `actual_start < actual_end`.
      Its clipped interval is non-empty and lies inside the window, so the
      window itself is non-empty. */
  predicate Participates(s: Subscription, q: Query): (b: bool)
    ensures b ==> Selected(s, q)
    ensures b ==> NotAfter(q.periodStart, ActualStart(s, q)) && NotAfter(ActualEnd(s, q), q.periodEnd)
    ensures b ==> Before(q.periodStart, q.periodEnd)
  {
    Selected(s, q) && Before(ActualStart(s, q), ActualEnd(s, q))
  }

  /** The month count the outer SELECT multiplies the price by, and 0 for a
      row that does not participate in the sum. */
  function BilledMonths(s: Subscription, q: Query): (n: nat)
    ensures n > 0 <==> Participates(s, q)
    ensures s.userID != q.userID || s.serviceName != q.serviceName ==> n == 0
    ensures s.endDate.Some? && NotAfter(s.endDate.value, q.periodStart) ==> n == 0
    ensures NotAfter(q.periodEnd, s.startDate) ==> n == 0
  {
    if Participates(s, q) then
      var first := ActualStart(s, q);
      var last := PrevDay(ActualEnd(s, q));
      MonthIndexOrder(first, last);
      AtLeastZero(MonthIndex(last) - MonthIndex(first) + 1)
    else 0
  }

  /** SQL `GREATEST(0, x)`. */
  function AtLeastZero(x: int): (r: nat)
    ensures r >= x
    ensures x >= 0 ==> r == x
    ensures x < 0 ==> r == 0
  {
    if x > 0 then x else 0
  }

  /** One row's share of the total. */
  function Contribution(s: Subscription, q: Query): (c: int)
    ensures s.price >= 0 ==> c >= 0
    ensures !Participates(s, q) ==> c == 0
  {
    s.price * BilledMonths(s, q)
  }

  predicate NonNegativePrices(rows: seq<Subscription>) {
    forall i | 0 <= i < |rows| :: rows[i].price >= 0
  }

  /** `COALESCE(SUM(...), 0)` over the table's rows. */
  function SumTotalCost(rows: seq<Subscription>, q: Query): (total: int)
    ensures NonNegativePrices(rows) ==> total >= 0
  {
    if rows == [] then 0
    else
      assert NonNegativePrices(rows) ==> rows[0].price >= 0 && NonNegativePrices(rows[1..]);
      Contribution(rows[0], q) + SumTotalCost(rows[1..], q)
  }
}
