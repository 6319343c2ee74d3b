/**
  The booking request body shared by the canonical booking handler and the
  two simple-lambda create handlers, the required-field checks each of them
  applies, and the booking status values.
 */
module Requests {
  import opened Values

  /** The fields the handlers destructure from the parsed JSON body. */
  datatype BookingRequest = BookingRequest(
    trainId: Val,
    trainNumber: Val,
    trainName: Val,
    from: Val,
    to: Val,
    travelDate: Val,
    passengerName: Val,
    passengerAge: Val,
    passengerGender: Val,
    seatPreference: Val,
    fare: Val,
    paymentStatus: Val)

  /** The body of a request as the handler sees it: absent (`undefined` or
      the empty string), not parseable as JSON or parsed to `null`, or
      parsed to a value whose fields can be read. */
  datatype Body = NoBody | Unparsable | Parsed(req: BookingRequest)

  /** The body `{}`: every field reads as `undefined`. */
  const EmptyRequest: BookingRequest :=
    BookingRequest(Undefined, Undefined, Undefined, Undefined, Undefined, Undefined,
                   Undefined, Undefined, Undefined, Undefined, Undefined, Undefined)

  /** `JSON.parse(event.body || '{}')` in the simple handlers: an absent
      body reads as `{}`, and a body that does not parse (or parses to
      `null`) is a thrown error, here `None`. */
  function ParsedBody(body: Body): Option<BookingRequest> {
    match body
    case NoBody => Some(EmptyRequest)
    case Unparsable => None
    case Parsed(req) => Some(req)
  }

  /** An absent body lacks every required field. */
  lemma EmptyBodyIsMissingDetails()
    ensures ParsedBody(NoBody) == Some(EmptyRequest)
    ensures !HasSimpleFields(EmptyRequest) && !HasCanonicalFields(EmptyRequest)
  {
  }

  /** The canonical handler's validation: trainId, travelDate,
      passengerName, passengerAge and fare are all truthy. */
  predicate HasCanonicalFields(r: BookingRequest) {
    Truthy(r.trainId) && Truthy(r.travelDate) && Truthy(r.passengerName)
    && Truthy(r.passengerAge) && Truthy(r.fare)
  }

  /** The simple-lambda validation: the same without travelDate. */
  predicate HasSimpleFields(r: BookingRequest) {
    Truthy(r.trainId) && Truthy(r.passengerName) && Truthy(r.passengerAge) && Truthy(r.fare)
  }

  datatype Status = Pending | Confirmed | Cancelled
}
