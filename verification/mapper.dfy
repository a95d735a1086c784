/** `MapRequest` in internal/utils/mapper.go: builds a subscription from a
    request, parsing its dates. The generated identifier is a parameter. */
module Mapper {
  import opened Wrappers
  import opened Dates
  import opened Validate
  import opened Models

  /** The start date is parsed first and is required; a non-empty end date is
      parsed next; then the plain fields are copied, the identifier is the
      fresh one, and the parsed dates are filled in. */
  function MapRequest(req: SubscriptionRequest, freshID: string): (r: Result<Subscription, DateError>)
    ensures r.Failure? <==> ParseDate(req.startDate).Failure?
                            || (req.endDate != "" && ParseDate(req.endDate).Failure?)
    ensures r.Failure? ==> (r.error == EmptyDate <==> req.startDate == "")
    ensures r.Success? ==>
      && r.value.id == freshID
      && r.value.serviceName == req.serviceName
      && r.value.price == req.price
      && r.value.userID == req.userID
      && Success(r.value.startDate) == ParseDate(req.startDate)
      && (req.endDate == "" <==> r.value.endDate.None?)
      && (r.value.endDate.Some? ==> Success(r.value.endDate.value) == ParseDate(req.endDate))
  {
    var startDate :- ParseDate(req.startDate);
    var endDate :- if req.endDate == "" then Success(None)
                   else var e :- ParseDate(req.endDate); Success(Some(e));
    Success(Subscription(freshID, req.serviceName, req.price, req.userID, startDate, endDate))
  }

  /** A subscription whose dates can be written back as "MM-YYYY" tokens. */
  predicate Representable(sub: Subscription) {
    Formattable(sub.startDate) && (sub.endDate.Some? ==> Formattable(sub.endDate.value))
  }

  /** The request that describes a subscription: the inverse of `MapRequest`. */
  function ToRequest(sub: Subscription): SubscriptionRequest
    requires Representable(sub)
  {
    SubscriptionRequest(
      sub.serviceName, sub.price, sub.userID,
      FormatDate(sub.startDate),
      match sub.endDate
      case None => ""
      case Some(e) => FormatDate(e))
  }

  /** A successful mapping loses nothing of the request but the identifier:
      the request is recovered from the subscription. */
  lemma MapThenUnmap(req: SubscriptionRequest, freshID: string)
    requires MapRequest(req, freshID).Success?
    ensures Representable(MapRequest(req, freshID).value)
    ensures ToRequest(MapRequest(req, freshID).value) == req
  {
    var sub := MapRequest(req, freshID).value;
    ParseThenFormat(req.startDate);
    if req.endDate != "" {
      ParseThenFormat(req.endDate);
    }
  }

  /** Every representable subscription is produced, under its own
      identifier, from the request that describes it. */
  lemma UnmapThenMap(sub: Subscription)
    requires Representable(sub)
    ensures MapRequest(ToRequest(sub), sub.id) == Success(sub)
  {
    FormatThenParse(sub.startDate);
    if sub.endDate.Some? {
      FormatThenParse(sub.endDate.value);
    }
  }
}
