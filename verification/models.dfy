/** The records the core works on. Their fields follow the columns of the
    `subscriptions` table written and read in internal/db/postgres/postgres.go
    (id, service_name, price, user_id, start_date, end_date). */
module Models {
  import opened Wrappers
  import opened Dates

  /** A stored subscription. A `None` end date is a SQL NULL: the
      subscription is still running. */
  datatype Subscription = Subscription(
    id: string,
    serviceName: string,
    price: int,
    userID: string,
    startDate: CivilDate,
    endDate: Option<CivilDate>)

  /** The body of a create or update request; dates are "MM-YYYY" tokens and
      an empty end date means the subscription is open-ended. */
  datatype SubscriptionRequest = SubscriptionRequest(
    serviceName: string,
    price: int,
    userID: string,
    startDate: string,
    endDate: string)
}
