/**
  The in-memory booking handler (backend/simple-lambda/createBooking.js):
  a module-level dictionary from PNR to booking, filled by one assignment
  per accepted request. There is no payment, no seat count and no
  collision check.
 */
module SimpleCreate {
  import opened Values
  import opened Text
  import opened Requests
  import opened SimpleIds

  /** The record stored under its PNR. */
  datatype StoredBooking = StoredBooking(
    pnr: string,
    trainId: Val,
    trainNumber: Val,
    trainName: Val,
    from: Val,
    to: Val,
    travelDate: Val,
    passengerName: Val,
    passengerAge: Val,
    passengerGender: Val,
    seatPreference: Val,
    fare: Val,
    status: Status,
    transactionId: string,
    createdAt: string)

  datatype CreateResponse =
    | Preflight
    | MissingDetails
    | BookingFailed
    | Created(pnr: string, status: Status, transactionId: string)
  {
    function StatusCode(): int {
      match this
      case Preflight => 200
      case MissingDetails => 400
      case BookingFailed => 500
      case Created(_, _, _) => 201
    }
  }

  /** The record built for an accepted request: CONFIRMED, with a
      transaction id made from the clock, and the request's fields. */
  function NewRecord(pnr: string, req: BookingRequest, nowMillis: nat, nowIso: string): (b: StoredBooking)
    ensures b.pnr == pnr && b.status == Confirmed
    ensures IsTxnFor(b.transactionId, nowMillis)
  {
    StoredBooking(pnr, req.trainId, req.trainNumber, req.trainName, req.from, req.to, req.travelDate,
                  req.passengerName, req.passengerAge, req.passengerGender, req.seatPreference, req.fare,
                  Confirmed, TransactionId(nowMillis), nowIso)
  }

  /** What every stored record satisfies: it sits under its own PNR, of
      at most ten digits and capital letters, is CONFIRMED and carries a
      TXN transaction id. */
  predicate WellFormed(bookings: map<string, StoredBooking>) {
    forall p :: p in bookings ==>
      && bookings[p].pnr == p
      && |p| <= 10 && (forall i :: 0 <= i < |p| ==> IsUpperAlnum(p[i]))
      && bookings[p].status == Confirmed
      && |bookings[p].transactionId| > 3 && bookings[p].transactionId[..3] == "TXN"
  }

  class InMemoryBookings {
    var bookings: map<string, StoredBooking>

    /** A cold start: the dictionary is empty. */
    constructor ()
      ensures bookings == map[]
      ensures WellFormed(bookings)
    {
      bookings := map[];
    }

    /** One call of the handler; `fraction` is the random draw behind the
        PNR and `nowMillis`, `nowIso` the clock. */
    method Handle(httpMethod: Option<string>, body: Body, fraction: seq<nat>, nowMillis: nat, nowIso: string)
      returns (r: CreateResponse)
      requires forall i :: 0 <= i < |fraction| ==> fraction[i] < 36
      modifies this
      ensures httpMethod == Some("OPTIONS") ==> r == Preflight
      ensures httpMethod != Some("OPTIONS") && body.Unparsable? ==> r == BookingFailed
      ensures httpMethod != Some("OPTIONS") && ParsedBody(body).Some? ==>
                (r == MissingDetails <==> !HasSimpleFields(ParsedBody(body).value))
      ensures httpMethod != Some("OPTIONS") && ParsedBody(body).Some? && HasSimpleFields(ParsedBody(body).value) ==>
                r.Created?
      ensures !r.Created? ==> bookings == old(bookings)
      ensures r.Created? ==>
                && httpMethod != Some("OPTIONS")
                && ParsedBody(body).Some? && HasSimpleFields(ParsedBody(body).value)
                && r == Created(RandomPnr(fraction), Confirmed, TransactionId(nowMillis))
                && bookings == old(bookings)[r.pnr := NewRecord(r.pnr, ParsedBody(body).value, nowMillis, nowIso)]
      ensures WellFormed(old(bookings)) ==> WellFormed(bookings)
    {
      if httpMethod == Some("OPTIONS") {
        return Preflight;
      }
      var parsed := ParsedBody(body);
      if parsed.None? {
        return BookingFailed;
      }
      var req := parsed.value;
      if !HasSimpleFields(req) {
        return MissingDetails;
      }
      var pnr := RandomPnr(fraction);
      var booking := NewRecord(pnr, req, nowMillis, nowIso);
      bookings := bookings[pnr := booking];
      return Created(pnr, Confirmed, booking.transactionId);
    }
  }
}
