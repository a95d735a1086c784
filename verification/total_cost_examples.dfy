/** Worked instances of the proration rule, on first-of-month dates as the
    "MM-YYYY" parser produces them. */
module TotalCostExamples {
  import opened Wrappers
  import opened Dates
  import opened Models
  import opened TotalCost
  import opened TotalCostProperties

  /** Price 100, started 01-2024, open-ended, queried over 01-2024 to
      04-2024: three months, 300. */
  lemma OpenEndedThreeMonths()
    ensures SumTotalCost([Subscription("s1", "netflix", 100, "u1", Date(2024, 1, 1), None)],
                         Query("u1", "netflix", Date(2024, 1, 1), Date(2024, 4, 1))) == 300
  {
    var s := Subscription("s1", "netflix", 100, "u1", Date(2024, 1, 1), None);
    var q := Query("u1", "netflix", Date(2024, 1, 1), Date(2024, 4, 1));
    FullWindowBilling(s, q);
    assert SumTotalCost([s], q) == Contribution(s, q) + SumTotalCost([], q);
  }

  /** Two subscriptions of price 50 overlapping the window by two and by
      three months: 50 * 2 + 50 * 3 = 250. */
  lemma TwoSubscriptions()
    ensures SumTotalCost([Subscription("s1", "netflix", 50, "u1", Date(2024, 2, 1), Some(Date(2024, 4, 1))),
                          Subscription("s2", "netflix", 50, "u1", Date(2024, 5, 1), Some(Date(2024, 8, 1)))],
                         Query("u1", "netflix", Date(2024, 1, 1), Date(2024, 12, 1))) == 250
  {
    var a := Subscription("s1", "netflix", 50, "u1", Date(2024, 2, 1), Some(Date(2024, 4, 1)));
    var b := Subscription("s2", "netflix", 50, "u1", Date(2024, 5, 1), Some(Date(2024, 8, 1)));
    var q := Query("u1", "netflix", Date(2024, 1, 1), Date(2024, 12, 1));
    FirstOfMonthBilling(a, q);
    FirstOfMonthBilling(b, q);
    assert Participates(a, q) && Participates(b, q);
    assert SumTotalCost([a, b], q) == Contribution(a, q) + SumTotalCost([b], q);
    assert SumTotalCost([b], q) == Contribution(b, q) + SumTotalCost([], q);
  }

  /** A subscription starting and ending on 02-2024 is never billed, for
      any window. */
  lemma SameMonthBoundary(q: Query)
    ensures BilledMonths(Subscription("s1", "netflix", 100, "u1", Date(2024, 2, 1), Some(Date(2024, 2, 1))), q) == 0
  {
    EmptySubscriptionNeverBilled(Subscription("s1", "netflix", 100, "u1", Date(2024, 2, 1), Some(Date(2024, 2, 1))), q);
  }

  /** A subscription ending exactly when the window starts, or starting
      exactly when it ends, is never billed. */
  lemma TouchingBoundaries(price: int)
    ensures BilledMonths(Subscription("s1", "netflix", price, "u1", Date(2023, 6, 1), Some(Date(2024, 1, 1))),
                         Query("u1", "netflix", Date(2024, 1, 1), Date(2024, 6, 1))) == 0
    ensures BilledMonths(Subscription("s2", "netflix", price, "u1", Date(2024, 6, 1), None),
                         Query("u1", "netflix", Date(2024, 1, 1), Date(2024, 6, 1))) == 0
  {
  }

  /** With astronomical year numbering, a row from 01-0000 over the window
      01-0000 to 02-0001 is billed the 13 months it touches. */
  lemma YearZeroBilling()
    ensures BilledMonths(Subscription("s1", "netflix", 100, "u1", Date(0, 1, 1), None),
                         Query("u1", "netflix", Date(0, 1, 1), Date(1, 2, 1))) == 13
  {
    FirstOfMonthBilling(Subscription("s1", "netflix", 100, "u1", Date(0, 1, 1), None),
                        Query("u1", "netflix", Date(0, 1, 1), Date(1, 2, 1)));
  }
}
