/**
  The table-backed simple handlers: the create handler of
  backend/simple-lambda/createBookingWithDB.js, which derives the status,
  payment status and transaction id from the request and puts one item,
  and the cancel handler of backend/simple-lambda/cancelBooking.js, which
  reads the item and flips its status in place. Both work on the one
  bookings table, keyed by PNR.
 */
module SimpleTable {
  import opened Values
  import opened Text
  import opened Requests
  import opened SimpleIds

  /** An item of the bookings table; a `null` transaction id is `None`. */
  datatype TableItem = TableItem(
    pnr: string,
    userId: string,
    trainId: Val,
    trainNumber: Val,
    trainName: Val,
    from: Val,
    to: Val,
    travelDate: Val,
    passengerName: Val,
    passengerAge: Val,
    passengerGender: Val,
    seatPreference: Val,
    fare: Val,
    status: Status,
    paymentStatus: Val,
    transactionId: Option<string>,
    createdAt: string,
    cancelledAt: Option<string>)

  /** The item the create handler builds. */
  function NewItem(pnr: string, req: BookingRequest, nowMillis: nat, nowIso: string): (item: TableItem)
    ensures item.pnr == pnr && item.userId == "guest" && item.createdAt == nowIso && item.cancelledAt.None?
    ensures item.status == Pending <==> req.paymentStatus == Str("PENDING")
    ensures item.status != Cancelled
    ensures item.transactionId.None? <==> item.status == Pending
    ensures item.transactionId.Some? ==> IsTxnFor(item.transactionId.value, nowMillis)
    ensures Truthy(req.paymentStatus) ==> item.paymentStatus == req.paymentStatus
    ensures !Truthy(req.paymentStatus) ==> item.paymentStatus == Str("CONFIRMED")
  {
    var status := if req.paymentStatus == Str("PENDING") then Pending else Confirmed;
    TableItem(pnr, "guest", req.trainId, req.trainNumber, req.trainName, req.from, req.to, req.travelDate,
              req.passengerName, req.passengerAge, req.passengerGender, req.seatPreference, req.fare,
              status,
              if Truthy(req.paymentStatus) then req.paymentStatus else Str("CONFIRMED"),
              if status == Confirmed then Some(TransactionId(nowMillis)) else None,
              nowIso, None)
  }

  /** The document client refuses to write an item with an `undefined`
      attribute; these are the attributes copied from the request and
      not checked by the validation. */
  predicate NoUndefinedAttributes(item: TableItem) {
    && item.trainId != Undefined && item.trainNumber != Undefined && item.trainName != Undefined
    && item.from != Undefined && item.to != Undefined && item.travelDate != Undefined
    && item.passengerName != Undefined && item.passengerAge != Undefined
    && item.passengerGender != Undefined && item.seatPreference != Undefined && item.fare != Undefined
  }

  /** The success message, chosen by the status. */
  function CreatedMessage(status: Status): string {
    if status == Pending then "Booking created. Payment pending." else "Booking confirmed successfully"
  }

  datatype CreateResponse =
    | Preflight
    | MissingDetails
    | BookingFailed
    | Created(pnr: string, status: Status, transactionId: Option<string>, message: string)
  {
    function StatusCode(): int {
      match this
      case Preflight => 200
      case MissingDetails => 400
      case BookingFailed => 500
      case Created(_, _, _, _) => 201
    }
  }

  datatype CancelResponse =
    | CancelPreflight
    | PnrRequired
    | NotFound
    | AlreadyCancelled
    | CancelFailed
    | CancelledOk(pnr: string, status: Status)
  {
    function StatusCode(): int {
      match this
      case CancelPreflight => 200
      case PnrRequired => 400
      case NotFound => 404
      case AlreadyCancelled => 409
      case CancelFailed => 500
      case CancelledOk(_, _) => 200
    }
  }

  /** What the two handlers keep true of every item: it is stored under
      its own PNR and belongs to 'guest'; it has a cancellation time
      exactly when it is CANCELLED; a CONFIRMED item has a transaction id
      and a PENDING one has none; its payment status is never empty. */
  predicate WellFormed(items: map<string, TableItem>) {
    forall p :: p in items ==>
      && items[p].pnr == p
      && items[p].userId == "guest"
      && (items[p].status == Cancelled <==> items[p].cancelledAt.Some?)
      && (items[p].status == Confirmed ==> items[p].transactionId.Some?)
      && (items[p].status == Pending ==> items[p].transactionId.None?)
      && Truthy(items[p].paymentStatus)
  }

  class BookingsTable {
    var items: map<string, TableItem>

    constructor (initial: map<string, TableItem>)
      ensures items == initial
    {
      items := initial;
    }

    /** The create handler; `fraction` is the random draw behind the PNR,
        `nowMillis` and `nowIso` the clock, and `putOk` whether the
        service accepts the write. */
    method CreateBooking(httpMethod: Option<string>, body: Body, fraction: seq<nat>,
                         nowMillis: nat, nowIso: string, putOk: bool)
      returns (r: CreateResponse)
      requires forall i :: 0 <= i < |fraction| ==> fraction[i] < 36
      modifies this
      ensures httpMethod == Some("OPTIONS") ==> r == Preflight
      ensures httpMethod != Some("OPTIONS") && body.Unparsable? ==> r == BookingFailed
      ensures httpMethod != Some("OPTIONS") && ParsedBody(body).Some? ==>
                (r == MissingDetails <==> !HasSimpleFields(ParsedBody(body).value))
      ensures httpMethod != Some("OPTIONS") && ParsedBody(body).Some? && HasSimpleFields(ParsedBody(body).value) ==>
                var item := NewItem(RandomPnr(fraction), ParsedBody(body).value, nowMillis, nowIso);
                && (r.Created? <==> NoUndefinedAttributes(item) && putOk)
                && (!r.Created? ==> r == BookingFailed)
      ensures !r.Created? ==> items == old(items)
      ensures r.Created? ==>
                && ParsedBody(body).Some?
                && var item := NewItem(r.pnr, ParsedBody(body).value, nowMillis, nowIso);
                && r.pnr == RandomPnr(fraction)
                && items == old(items)[r.pnr := item]
                && r == Created(item.pnr, item.status, item.transactionId, CreatedMessage(item.status))
      ensures WellFormed(old(items)) ==> WellFormed(items)
    {
      if httpMethod == Some("OPTIONS") {
        return Preflight;
      }
      var parsed := ParsedBody(body);
      if parsed.None? {
        return BookingFailed;
      }
      var req := parsed.value;
      if !HasSimpleFields(req) {
        return MissingDetails;
      }
      var pnr := RandomPnr(fraction);
      var item := NewItem(pnr, req, nowMillis, nowIso);
      if !NoUndefinedAttributes(item) || !putOk {
        return BookingFailed;
      }
      items := items[pnr := item];
      return Created(pnr, item.status, item.transactionId, CreatedMessage(item.status));
    }

    /** The cancel handler; `updateOk` says whether the service accepts
        the update. */
    method CancelBooking(httpMethod: Option<string>, pnrParam: Option<string>, nowIso: string, updateOk: bool)
      returns (r: CancelResponse)
      modifies this
      ensures httpMethod == Some("OPTIONS") ==> r == CancelPreflight
      ensures httpMethod != Some("OPTIONS") && !Present(pnrParam) ==> r == PnrRequired
      ensures httpMethod != Some("OPTIONS") && Present(pnrParam) ==>
                var pnr := pnrParam.value;
                && (pnr !in old(items) <==> r == NotFound)
                && (pnr in old(items) && old(items)[pnr].status == Cancelled <==> r == AlreadyCancelled)
                && (r.CancelledOk? <==> pnr in old(items) && old(items)[pnr].status != Cancelled && updateOk)
                && (pnr in old(items) && old(items)[pnr].status != Cancelled && !updateOk ==> r == CancelFailed)
      ensures !r.CancelledOk? ==> items == old(items)
      ensures r.CancelledOk? ==>
                && Present(pnrParam) && r == CancelledOk(pnrParam.value, Cancelled)
                && var pnr := pnrParam.value;
                && pnr in old(items)
                && items == old(items)[pnr := old(items)[pnr].(status := Cancelled, cancelledAt := Some(nowIso))]
      ensures WellFormed(old(items)) ==> WellFormed(items)
    {
      if httpMethod == Some("OPTIONS") {
        return CancelPreflight;
      }
      if !Present(pnrParam) {
        return PnrRequired;
      }
      var pnr := pnrParam.value;
      if pnr !in items {
        return NotFound;
      }
      var item := items[pnr];
      if item.status == Cancelled {
        return AlreadyCancelled;
      }
      if !updateOk {
        return CancelFailed;
      }
      items := items[pnr := item.(status := Cancelled, cancelledAt := Some(nowIso))];
      return CancelledOk(pnr, Cancelled);
    }
  }

  /** A payment status other than PENDING, 'FAILED' included, is booked as
      CONFIRMED with a transaction id, and the given payment status is
      stored beside it. */
  lemma FailedPaymentIsConfirmed(pnr: string, req: BookingRequest, nowMillis: nat, nowIso: string)
    requires req.paymentStatus == Str("FAILED")
    ensures var item := NewItem(pnr, req, nowMillis, nowIso);
            && item.status == Confirmed
            && item.transactionId.Some?
            && item.paymentStatus == Str("FAILED")
  {
  }

  /** travelDate is not among the validated fields, but an item without
      it cannot be written: the request passes the validation and the
      write fails. */
  lemma MissingTravelDateFailsTheWrite(pnr: string, req: BookingRequest, nowMillis: nat, nowIso: string)
    requires HasSimpleFields(req) && req.travelDate == Undefined
    ensures !NoUndefinedAttributes(NewItem(pnr, req, nowMillis, nowIso))
  {
  }
}
