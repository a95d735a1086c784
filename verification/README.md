# Subscription aggregator: proration core in Dafny

This project models the billing core of the subscription aggregator service.
The service stores users' recurring subscriptions and answers one question:
how much did a user pay for one service over a window of months?

The model has three parts:

- **Proration and aggregation** (`TotalCost`, `TotalCostProperties`,
  `TotalCostExamples`). This is the SQL query of `Storage.SumTotalCost`, read as
  a pure function over the rows of the `subscriptions` table.
  - A row counts only if its user and service equal the query's, it has not
    ended by `period_start`, and it starts before `period_end`.
  - The row is clipped to the window: `actual_start = GREATEST(start_date, period_start)`
    and `actual_end = LEAST(COALESCE(end_date, period_end), period_end)`.
  - Rows whose clipped interval is empty are dropped.
  - A surviving row is billed for
    `GREATEST(0, monthIndex(actual_end - 1 day) - monthIndex(actual_start) + 1)`
    months, where `monthIndex = year * 12 + month`.
  - The result is the sum of `price * months`, or 0 when no row survives.
- **The "MM-YYYY" date parser** (`Validate`). This is `parseDate`, which calls
  Go's `time.Parse` with the layout `"01-2006"`.
- **Request mapping** (`Mapper`, `Models`). This is `MapRequest`, which builds a
  subscription from a create or update request.

Dates are civil dates in the proleptic Gregorian calendar (`Dates.CivilDate`).
This is a subset type that only admits days that exist, which matches the
Postgres `date` column. Dates are ordered lexicographically. `Dates.PrevDay`
uses the leap-year rule, so `actual_end - interval '1 day'` is exact.

What the proofs show, beyond the per-operation contracts:

- The WHERE clause and the outer `actual_start < actual_end` together keep
  exactly the rows whose `[start_date, end_date)` interval shares a day with
  `[period_start, period_end)`. The WHERE clause's two date tests are implied by
  the outer test, so they never change the result.
- For every surviving row the month count is at least 1, so the `GREATEST(0, …)`
  clamp never changes the result.
- The billed months are exactly the calendar months that contain a day of the
  clipped interval.

Where the code is narrower than its documented API, or inconsistent with itself, the model follows the code's definitions:

- Parser failures are the code's two errors, "date is empty" and
  "date is invalid".
- No ordering between `period_start` and `period_end`, or between a record's
  own dates, is assumed. An inverted window or record simply bills nothing
  (`TotalCostProperties.ParticipatesIff`).
- The HTTP handlers call `utils.ParseDate` and a two-argument `MapRequest`.
  The definitions are the unexported `parseDate` and a three-argument
  `MapRequest`. The model follows the definitions.

Things the model takes as parameters or drops:

- The fresh UUID is the parameter `freshID` of `Mapper.MapRequest`. The request type has no id field, so the id can never come from the request.
- The logger and the unused `*http.Request` argument of `MapRequest` are dropped.
- The field copy done by `copier.Copy` is an explicit constructor.
- The field list of `Subscription` and `SubscriptionRequest` follows the SQL
  columns and the fields that mapper.go touches. The `internal/models` package
  is not part of this model.

## Model

| member | source | states |
|---|---|---|
| Dates.Max | internal/db/postgres/postgres.go:203 | `GREATEST` of two dates is one of them and is on or after both |
| Dates.Min | internal/db/postgres/postgres.go:204 | `LEAST` of two dates is one of them and is on or before both |
| Dates.PrevDay | internal/db/postgres/postgres.go:213-214 | `d - interval '1 day'` is strictly before `d`, and every valid date before `d` is on or before it (the immediate predecessor in the Gregorian calendar) |
| Dates.MonthIndex | internal/db/postgres/postgres.go:213-217 | `EXTRACT(YEAR …) * 12 + EXTRACT(MONTH …)` is an invertible month counter: year and month are recovered from it |
| Dates.FirstOfMonth | internal/db/postgres/postgres.go:213-217 | `date_trunc('month', …)` as a date: the first day of the month with a given month index; it is the inverse of the month index on first-of-month dates |
| Dates.MonthIndexOrder | internal/db/postgres/postgres.go:213-217 | `year*12 + month` never decreases along the calendar; a larger index means a strictly later date; equal indices mean the same year and month |
| Dates.MonthIndexOfPrevDay | internal/db/postgres/postgres.go:213-214 | going back one day lowers the month index by one exactly when the date is the first of its month |
| Dates.PrevDayMonotone | internal/db/postgres/postgres.go:213-214 | going back one day preserves the order of dates |
| Validate.ParseDate | internal/utils/validate.go:8-19 | the empty token fails with "date is empty" and no other token does; a success has day 1, month 01..12 and a four-digit year, and comes from a 7-character token with a hyphen in third place |
| Validate.ParseThenFormat | internal/utils/validate.go:13 | formatting an accepted token's result with "01-2006" yields the original token |
| Validate.FormatThenParse | internal/utils/validate.go:13-18 | every first-of-month date with year 0000..9999 is read back from its own "MM-YYYY" formatting |
| Validate.ParseDateCharacterization | internal/utils/validate.go:13-18 | a token parses to `d` if and only if `d` is a first-of-month date with a four-digit year and the token is its formatting |
| Validate.ParseExample | internal/utils/validate.go:8-19 | "03-2025" gives 1 March 2025 with month index 2025*12+3; "", "3-2025", "13-2025", "00-2025" and a token with trailing text fail with the matching error |
| Mapper.MapRequest | internal/utils/mapper.go:12-42 | it fails exactly when the start date fails to parse or a non-empty end date fails to parse, and it fails with "date is empty" exactly when the start date is empty; on success the id is the fresh one, the name, price and user are copied, the start date is the parsed start, and the end date is absent exactly when the request's end date is empty, else the parsed end |
| Mapper.MapThenUnmap | internal/utils/mapper.go:13-39 | a successful mapping loses nothing of the request: the request is recovered from the subscription |
| Mapper.UnmapThenMap | internal/utils/mapper.go:13-39 | every subscription whose dates are "MM-YYYY"-representable is produced, under its own id, from the request that describes it |
| TotalCost.Selected | internal/db/postgres/postgres.go:206-209 | the inner WHERE never selects a row whose end date is on or before `period_start` or whose start is on or after `period_end`; for a NULL end date it reduces to user, service and `start_date < period_end` |
| TotalCost.ActualStart | internal/db/postgres/postgres.go:203 | the clipped start is on or after both `period_start` and `start_date`, and is one of them |
| TotalCost.ActualEnd | internal/db/postgres/postgres.go:204 | the clipped end is on or before `period_end`; it equals `period_end` when the end date is NULL; otherwise it is on or before the end date and is one of the two |
| TotalCost.Participates | internal/db/postgres/postgres.go:206-221 | a row that passes both WHERE clauses is selected, its clipped interval lies inside the window, and the window is non-empty |
| TotalCost.BilledMonths | internal/db/postgres/postgres.go:206-221 | a row is billed for a positive number of months exactly when it passes the WHERE clause and `actual_start < actual_end`; another user or service, an end date on or before `period_start`, or a start on or after `period_end` gives 0 |
| TotalCost.Contribution | internal/db/postgres/postgres.go:211-219 | a row's share is non-negative when its price is, and 0 when it does not take part in the sum |
| TotalCost.AtLeastZero | internal/db/postgres/postgres.go:212 | `GREATEST(0, x)` is `x` when `x` is not negative and 0 when it is negative |
| TotalCost.SumTotalCost | internal/db/postgres/postgres.go:211-221 | with non-negative prices the total is non-negative |
| TotalCostProperties.NoParticipantsZero | internal/db/postgres/postgres.go:211-221 | when no row takes part, and in particular when there are no rows, `COALESCE(SUM(…), 0)` gives 0 |
| TotalCostProperties.ParticipatesIff | internal/db/postgres/postgres.go:203-221 | a row takes part if and only if user and service match, the window is non-empty, the row starts before `period_end`, and, when it has an end date, that date is after both `period_start` and its own start; a NULL end date never excludes a row |
| TotalCostProperties.EmptySubscriptionNeverBilled | internal/db/postgres/postgres.go:203-221 | a subscription ending on or before its own start is billed 0 months for every query |
| TotalCostProperties.BilledMonthsAreTouchedMonths | internal/db/postgres/postgres.go:211-219 | for a row that takes part, a month index is among the billed months if and only if some day of `[actual_start, actual_end)` lies in that month |
| TotalCostProperties.FirstOfMonthBilling | internal/db/postgres/postgres.go:212-218 | when all dates are first-of-month, a row that takes part is billed `monthIndex(actual_end) - monthIndex(actual_start)` months, and any other row 0 |
| TotalCostProperties.FullWindowBilling | internal/db/postgres/postgres.go:203-218 | a matching subscription covering a first-of-month window is billed for every month of it, contributing `price * (monthIndex(period_end) - monthIndex(period_start))` |
| TotalCostProperties.TotalRemoveAt | internal/db/postgres/postgres.go:211 | taking one row out of the row set lowers the total by exactly that row's contribution |
| TotalCostProperties.TotalAppend | internal/db/postgres/postgres.go:211 | the total over two row sets taken together is the sum of their totals |
| TotalCostProperties.TotalOrderIndependent | internal/db/postgres/postgres.go:211 | `SUM` ranges over a bag: two row sequences with the same multiset of rows have the same total |
| TotalCostProperties.MatchingRows | internal/db/postgres/postgres.go:206-207 | the user and service tests keep every row with the query's user and service, as often as it occurs in the input, and no other row |
| TotalCostProperties.OnlyMatchingRowsCount | internal/db/postgres/postgres.go:206-207 | the total equals the total over the rows of the query's user and service alone |
| TotalCostProperties.ForeignRowIrrelevant | internal/db/postgres/postgres.go:206-207 | inserting a row of another user or another service anywhere leaves the total unchanged |
| TotalCostProperties.ReplaceRow | internal/db/postgres/postgres.go:211-219 | replacing one row changes the total by exactly the difference of the two rows' contributions |
| TotalCostProperties.ContributionPriceChange | internal/db/postgres/postgres.go:212 | a row's contribution is linear in its price, with the billed months as slope |
| TotalCostProperties.PriceChange | internal/db/postgres/postgres.go:211-219 | changing one row's price changes the total by the price difference times that row's billed months |
| TotalCostProperties.TotalMonotoneInPrice | internal/db/postgres/postgres.go:211-219 | raising one row's price never lowers the total |
| TotalCostProperties.BilledMonthsMonotoneInPeriodEnd | internal/db/postgres/postgres.go:204-219 | moving `period_end` later never bills a row for fewer months |
| TotalCostProperties.BilledMonthsAntitoneInPeriodStart | internal/db/postgres/postgres.go:203-219 | moving `period_start` later never bills a row for more months |
| TotalCostProperties.TotalMonotoneInPeriodEnd | internal/db/postgres/postgres.go:203-221 | with non-negative prices the total never decreases when `period_end` moves later, for open-ended and ended subscriptions alike |
| TotalCostProperties.TotalAntitoneInPeriodStart | internal/db/postgres/postgres.go:203-221 | with non-negative prices the total never increases when `period_start` moves later |
| TotalCostExamples.OpenEndedThreeMonths | internal/db/postgres/postgres.go:203-221 | price 100 from 01-2024, open-ended, over 01-2024 to 04-2024 totals 300 |
| TotalCostExamples.TwoSubscriptions | internal/db/postgres/postgres.go:203-221 | two rows of price 50 overlapping the window by 2 and 3 months total 250 |
| TotalCostExamples.SameMonthBoundary | internal/db/postgres/postgres.go:203-221 | a subscription that starts and ends on 02-2024 is billed nothing in any window |
| TotalCostExamples.YearZeroBilling | internal/db/postgres/postgres.go:212-218 | a row from 01-0000 over the window 01-0000 to 02-0001 is billed 13 months under astronomical year numbering |
| TotalCostExamples.TouchingBoundaries | internal/db/postgres/postgres.go:208-221 | a row ending exactly at `period_start`, or starting exactly at `period_end`, is billed nothing |

## Left out

- HTTP handlers (internal/handlers/subscriptions.go): JSON decoding, status codes and logging. Two caller quirks are documented, not modelled. An absent `period_start` or `period_end` is passed as Go's zero `time.Time`, which is 1 January of year 1. A malformed period date makes the handler return without writing a response.
- Connection setup and the CRUD statements (`New`, `Save`, `Delete`, `GetByID`, `List`, `Update`, `Close` in internal/db/postgres/postgres.go): these are database I/O whose only logic is "no row affected means not found".
- Process wiring and configuration (cmd/main.go, internal/config/config.go), and the storage interface with its sentinel error (internal/db/storage.go): they are declarations and start-up code with no behaviour to prove.
- UUID generation, the logger and the reflective field copy are foreign libraries. The UUID is a parameter and the copy is an explicit constructor.
- Time of day and time zones inside Go's `time.Time`, and the session time zone used when Postgres casts the parameters to `date`: dates are civil dates only.
- The `int64` to `int` conversion of the result and the SQL engine's numeric types: all integers are unbounded.
- Years before 1 AD: the model numbers years astronomically, so "0000" is year 0. Postgres calls that year 1 BC and its `EXTRACT(YEAR …)` gives -1, so its month index for such dates differs from the model's. For example, reading the SQL (not executed): a row starting "01-0000", queried over "01-0000" to "02-0001", would be billed 13 - (-11) + 1 = 25 months by Postgres, because 1 January of 1 BC has month index -11 there. The model bills the 13 months the interval actually touches.
- Non-ASCII input to the parser: Go reads the token as bytes and the model reads it as characters. Every position of an accepted token must be an ASCII digit or a hyphen, so both views accept the same tokens.
- The parser's determinism is not stated as a lemma, because every Dafny function is deterministic by construction.
- A failure of `copier.Copy` is not modelled: between these two record types with matching field names it cannot occur.
