/** Properties of the proration rule of `Storage.SumTotalCost`: which rows
    count, how many months each is billed for, and how the total reacts to
    the rows and to the query window. */
module TotalCostProperties {
  import opened Wrappers
  import opened Dates
  import opened Models
  import opened TotalCost

  /** The date conditions of the WHERE clause and of the outer
      `actual_start < actual_end` together keep exactly the rows whose
      `[start_date, end_date)` interval shares a day with
      `[period_start, period_end)`; a NULL end date never excludes a row. */
  lemma ParticipatesIff(s: Subscription, q: Query)
    ensures Participates(s, q) <==>
      && s.userID == q.userID
      && s.serviceName == q.serviceName
      && Before(q.periodStart, q.periodEnd)
      && Before(s.startDate, q.periodEnd)
      && (s.endDate.None? || (Before(q.periodStart, s.endDate.value) && Before(s.startDate, s.endDate.value)))
  {
  }

  /** A subscription that ends on or before its own start is never billed. */
  lemma EmptySubscriptionNeverBilled(s: Subscription, q: Query)
    requires s.endDate.Some? && NotAfter(s.endDate.value, s.startDate)
    ensures BilledMonths(s, q) == 0
  {
    ParticipatesIff(s, q);
  }

  /** The billed months are exactly the calendar months that contain at
      least one day of the overlap `[actual_start, actual_end)`: the
      one-day-back anchor charges the last month actually occupied and not
      a month the end date only touches. */
  lemma BilledMonthsAreTouchedMonths(s: Subscription, q: Query, k: int)
    requires Participates(s, q)
    ensures (exists d: CivilDate :: NotAfter(ActualStart(s, q), d) && Before(d, ActualEnd(s, q)) && MonthIndex(d) == k)
        <==> MonthIndex(ActualStart(s, q)) <= k < MonthIndex(ActualStart(s, q)) + BilledMonths(s, q)
  {
    var first, end := ActualStart(s, q), ActualEnd(s, q);
    var last := PrevDay(end);
    MonthIndexOrder(first, last);
    assert BilledMonths(s, q) == MonthIndex(last) - MonthIndex(first) + 1;
    forall d: CivilDate | NotAfter(first, d) && Before(d, end)
      ensures MonthIndex(first) <= MonthIndex(d) <= MonthIndex(last)
    {
      MonthIndexOrder(first, d);
      MonthIndexOrder(d, last);
    }
    if MonthIndex(first) <= k <= MonthIndex(last) {
      if k == MonthIndex(first) {
        assert NotAfter(first, first) && Before(first, end);
      } else {
        var f := FirstOfMonth(k);
        MonthIndexOrder(first, f);
        FirstOfMonthNotAfter(k, last);
        assert NotAfter(first, f) && Before(f, end) && MonthIndex(f) == k;
      }
    }
  }

  /** On first-of-month dates, the form every parsed date has, the count is
      the plain difference of month indices. */
  lemma FirstOfMonthBilling(s: Subscription, q: Query)
    requires s.startDate.day == 1 && q.periodStart.day == 1 && q.periodEnd.day == 1
    requires s.endDate.Some? ==> s.endDate.value.day == 1
    ensures BilledMonths(s, q) ==
      if Participates(s, q) then MonthIndex(ActualEnd(s, q)) - MonthIndex(ActualStart(s, q)) else 0
  {
    if Participates(s, q) {
      var first, end := ActualStart(s, q), ActualEnd(s, q);
      MonthIndexOfPrevDay(end);
      MonthIndexOrder(first, PrevDay(end));
    }
  }

  /** A matching subscription that covers the whole window is billed for
      every month of it. */
  lemma FullWindowBilling(s: Subscription, q: Query)
    requires s.userID == q.userID && s.serviceName == q.serviceName
    requires NotAfter(s.startDate, q.periodStart)
    requires s.endDate.None? || NotAfter(q.periodEnd, s.endDate.value)
    requires Before(q.periodStart, q.periodEnd)
    requires q.periodStart.day == 1 && q.periodEnd.day == 1
    ensures BilledMonths(s, q) == MonthIndex(q.periodEnd) - MonthIndex(q.periodStart)
    ensures Contribution(s, q) == s.price * (MonthIndex(q.periodEnd) - MonthIndex(q.periodStart))
  {
    assert ActualStart(s, q) == q.periodStart;
    assert ActualEnd(s, q) == q.periodEnd;
    assert Participates(s, q);
    MonthIndexOfPrevDay(q.periodEnd);
  }

  /** When no row takes part, in particular when there are no rows at all,
      `COALESCE` turns the empty sum into 0. */
  lemma {:induction false} NoParticipantsZero(rows: seq<Subscription>, q: Query)
    requires forall i | 0 <= i < |rows| :: !Participates(rows[i], q)
    ensures SumTotalCost(rows, q) == 0
  {
    if rows != [] {
      assert !Participates(rows[0], q);
      NoParticipantsZero(rows[1..], q);
    }
  }

  /** The total of a concatenation is the sum of the totals. */
  lemma {:induction false} TotalAppend(a: seq<Subscription>, b: seq<Subscription>, q: Query)
    ensures SumTotalCost(a + b, q) == SumTotalCost(a, q) + SumTotalCost(b, q)
  {
    if a == [] {
      assert a + b == b;
    } else {
      assert (a + b)[1..] == a[1..] + b;
      TotalAppend(a[1..], b, q);
    }
  }

  /** Taking one row out of the middle removes exactly its contribution. */
  lemma TotalRemoveAt(b: seq<Subscription>, i: int, q: Query)
    requires 0 <= i < |b|
    ensures SumTotalCost(b, q) == Contribution(b[i], q) + SumTotalCost(b[..i] + b[i + 1..], q)
  {
    assert b == b[..i] + b[i..];
    TotalAppend(b[..i], b[i..], q);
    assert b[i..][1..] == b[i + 1..];
    TotalAppend(b[..i], b[i + 1..], q);
  }

  /** Removing the same element from two sequences with equal multisets
      leaves sequences with equal multisets. */
  lemma MultisetRemoveFirst<T>(a: seq<T>, b: seq<T>, i: int)
    requires multiset(a) == multiset(b) && a != [] && 0 <= i < |b| && b[i] == a[0]
    ensures multiset(a[1..]) == multiset(b[..i] + b[i + 1..])
  {
    assert a == [a[0]] + a[1..];
    assert multiset(a) == multiset{a[0]} + multiset(a[1..]);
    assert b == b[..i] + ([b[i]] + b[i + 1..]);
    assert multiset(b) == multiset(b[..i]) + multiset{b[i]} + multiset(b[i + 1..]);
    assert multiset(a[1..]) == multiset(a) - multiset{a[0]};
  }

  /** SQL SUM ranges over a bag of rows: the order of the rows does not
      matter. */
  lemma {:induction false} TotalOrderIndependent(a: seq<Subscription>, b: seq<Subscription>, q: Query)
    requires multiset(a) == multiset(b)
    ensures SumTotalCost(a, q) == SumTotalCost(b, q)
    decreases |a|
  {
    if a != [] {
      assert a[0] in multiset(b);
      var i :| 0 <= i < |b| && b[i] == a[0];
      MultisetRemoveFirst(a, b, i);
      TotalOrderIndependent(a[1..], b[..i] + b[i + 1..], q);
      TotalRemoveAt(b, i, q);
    }
  }

  /** The rows of the query's user and service, in their original order. */
  function MatchingRows(rows: seq<Subscription>, q: Query): (m: seq<Subscription>)
    ensures forall i | 0 <= i < |m| :: m[i].userID == q.userID && m[i].serviceName == q.serviceName
    ensures multiset(m) <= multiset(rows)
    ensures forall s :: multiset(m)[s]
                        == (if s.userID == q.userID && s.serviceName == q.serviceName then multiset(rows)[s] else 0)
  {
    if rows == [] then []
    else
      var tail := MatchingRows(rows[1..], q);
      assert rows == [rows[0]] + rows[1..];
      if rows[0].userID == q.userID && rows[0].serviceName == q.serviceName
      then [rows[0]] + tail
      else tail
  }

  /** Rows of other users or other services never change the total. */
  lemma {:induction false} OnlyMatchingRowsCount(rows: seq<Subscription>, q: Query)
    ensures SumTotalCost(rows, q) == SumTotalCost(MatchingRows(rows, q), q)
  {
    if rows != [] {
      OnlyMatchingRowsCount(rows[1..], q);
      var tail := MatchingRows(rows[1..], q);
      if rows[0].userID == q.userID && rows[0].serviceName == q.serviceName {
        assert ([rows[0]] + tail)[1..] == tail;
      }
    }
  }

  /** Adding a row of another user or another service anywhere leaves the
      total unchanged. */
  lemma ForeignRowIrrelevant(a: seq<Subscription>, b: seq<Subscription>, s: Subscription, q: Query)
    requires s.userID != q.userID || s.serviceName != q.serviceName
    ensures SumTotalCost(a + [s] + b, q) == SumTotalCost(a + b, q)
  {
    TotalAppend(a + [s], b, q);
    TotalAppend(a, [s], q);
    TotalAppend(a, b, q);
    assert SumTotalCost([s], q) == Contribution(s, q) + SumTotalCost([], q);
  }

  /** Replacing one row changes the total by the difference of that row's
      contributions. */
  lemma {:induction false} ReplaceRow(rows: seq<Subscription>, i: int, s: Subscription, q: Query)
    requires 0 <= i < |rows|
    ensures SumTotalCost(rows[i := s], q) == SumTotalCost(rows, q) - Contribution(rows[i], q) + Contribution(s, q)
  {
    var changed := rows[i := s];
    if i == 0 {
      assert changed[1..] == rows[1..];
    } else {
      assert changed[0] == rows[0];
      assert changed[1..] == rows[1..][i - 1 := s];
      ReplaceRow(rows[1..], i - 1, s, q);
    }
  }

  /** Changing one row's price changes the total by the price difference
      times that row's billed months. */
  lemma PriceChange(rows: seq<Subscription>, i: int, p: int, q: Query)
    requires 0 <= i < |rows|
    ensures SumTotalCost(rows[i := rows[i].(price := p)], q)
         == SumTotalCost(rows, q) + (p - rows[i].price) * BilledMonths(rows[i], q)
  {
    ReplaceRow(rows, i, rows[i].(price := p), q);
    ContributionPriceChange(rows[i], p, q);
  }

  /** The total never decreases when one row's price grows. */
  lemma TotalMonotoneInPrice(rows: seq<Subscription>, i: int, p: int, q: Query)
    requires 0 <= i < |rows|
    requires rows[i].price <= p
    ensures SumTotalCost(rows, q) <= SumTotalCost(rows[i := rows[i].(price := p)], q)
  {
    PriceChange(rows, i, p, q);
    MulNonNegative(p - rows[i].price, BilledMonths(rows[i], q));
  }

  /** One row's contribution is linear in its price. */
  lemma ContributionPriceChange(s: Subscription, p: int, q: Query)
    ensures Contribution(s.(price := p), q) == Contribution(s, q) + (p - s.price) * BilledMonths(s, q)
  {
    var n := BilledMonths(s, q);
    assert BilledMonths(s.(price := p), q) == n;
    assert p * n == s.price * n + (p - s.price) * n;
  }

  lemma MulNonNegative(x: int, y: int)
    requires y >= 0
    ensures x >= 0 ==> x * y >= 0
  {
  }

  lemma MulMonotone(p: int, m: int, n: int)
    requires p >= 0 && m <= n
    ensures p * m <= p * n
  {
    assert p * n - p * m == p * (n - m);
  }

  /** Moving the end of the window later never bills a row for fewer months. */
  lemma BilledMonthsMonotoneInPeriodEnd(s: Subscription, q: Query, periodEnd: CivilDate)
    requires NotAfter(q.periodEnd, periodEnd)
    ensures BilledMonths(s, q) <= BilledMonths(s, q.(periodEnd := periodEnd))
  {
    var q2 := q.(periodEnd := periodEnd);
    if Participates(s, q) {
      assert ActualStart(s, q2) == ActualStart(s, q);
      assert NotAfter(ActualEnd(s, q), ActualEnd(s, q2));
      assert Participates(s, q2);
      PrevDayMonotone(ActualEnd(s, q), ActualEnd(s, q2));
      MonthIndexOrder(PrevDay(ActualEnd(s, q)), PrevDay(ActualEnd(s, q2)));
    }
  }

  /** Moving the start of the window later never bills a row for more months. */
  lemma BilledMonthsAntitoneInPeriodStart(s: Subscription, q: Query, periodStart: CivilDate)
    requires NotAfter(q.periodStart, periodStart)
    ensures BilledMonths(s, q.(periodStart := periodStart)) <= BilledMonths(s, q)
  {
    var q2 := q.(periodStart := periodStart);
    if Participates(s, q2) {
      assert ActualEnd(s, q2) == ActualEnd(s, q);
      assert NotAfter(ActualStart(s, q), ActualStart(s, q2));
      assert Participates(s, q);
      MonthIndexOrder(ActualStart(s, q), ActualStart(s, q2));
    }
  }

  /** With non-negative prices the total never decreases when the window's
      end moves later, for open-ended and for ended subscriptions alike. */
  lemma {:induction false} TotalMonotoneInPeriodEnd(rows: seq<Subscription>, q: Query, periodEnd: CivilDate)
    requires NonNegativePrices(rows)
    requires NotAfter(q.periodEnd, periodEnd)
    ensures SumTotalCost(rows, q) <= SumTotalCost(rows, q.(periodEnd := periodEnd))
  {
    if rows != [] {
      assert NonNegativePrices(rows[1..]);
      TotalMonotoneInPeriodEnd(rows[1..], q, periodEnd);
      BilledMonthsMonotoneInPeriodEnd(rows[0], q, periodEnd);
      MulMonotone(rows[0].price, BilledMonths(rows[0], q), BilledMonths(rows[0], q.(periodEnd := periodEnd)));
    }
  }

  /** With non-negative prices the total never increases when the window's
      start moves later. */
  lemma {:induction false} TotalAntitoneInPeriodStart(rows: seq<Subscription>, q: Query, periodStart: CivilDate)
    requires NonNegativePrices(rows)
    requires NotAfter(q.periodStart, periodStart)
    ensures SumTotalCost(rows, q.(periodStart := periodStart)) <= SumTotalCost(rows, q)
  {
    if rows != [] {
      assert NonNegativePrices(rows[1..]);
      TotalAntitoneInPeriodStart(rows[1..], q, periodStart);
      BilledMonthsAntitoneInPeriodStart(rows[0], q, periodStart);
      MulMonotone(rows[0].price, BilledMonths(rows[0], q.(periodStart := periodStart)), BilledMonths(rows[0], q));
    }
  }
}
