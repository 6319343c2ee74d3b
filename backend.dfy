/**
  The canonical booking backend as a stateful object: the seat inventory
  and the bookings table of the relational store, and the mirror table.
  Each handler works on local copies of the relational tables inside its
  transaction and assigns them back only at the commit; returning before
  that point is the rollback. The mirror is written only after the commit.
 */
module Backend {
  import opened Values
  import opened Requests
  import opened Pnr
  import opened Store
  import opened CreateFlow
  import opened CancelFlow

  class ReservationBackend {
    var inventory: map<ScheduleKey, nat>
    var bookings: map<string, Booking>
    var mirror: map<string, MirrorRecord>

    function State(): Db
      reads this
    {
      Db(inventory, bookings, mirror)
    }

    /** A backend over pre-seeded schedules, with no bookings yet. */
    constructor (schedules: map<ScheduleKey, nat>)
      ensures State() == Db(schedules, map[], map[])
      ensures Valid(State()) && SeatsConserved(State(), schedules)
    {
      inventory, bookings, mirror := schedules, map[], map[];
      new;
      forall k | k in schedules
        ensures ConfirmedOn(State(), k) == {}
      {
      }
    }

    /** The booking handler. */
    method CreateBooking(ev: CreateEvent, w: CreateWorld) returns (outcome: CreateOutcome)
      modifies this
      ensures CreateStep(State(), outcome) == Create(old(State()), ev, w)
      ensures Valid(old(State())) ==> Valid(State())
    {
      if Valid(State()) {
        CreatePreservesValid(State(), ev, w);
      }
      if !ev.body.Parsed? {
        return BookingFailed(MalformedBody);
      }
      var req := ev.body.req;
      if !HasCanonicalFields(req) {
        return MissingDetails;
      }
      var userId := UserIdFor(ev.claimSub);
      var pnr := GeneratePnr(w.randomBytes);

      // begin transaction
      var txInventory, txBookings := inventory, bookings;
      var key := ScheduleKey(req.trainId, req.travelDate);
      if key !in txInventory {
        return BookingFailed(ScheduleNotFound);
      }
      if txInventory[key] < 1 {
        return SeatsUnavailable;
      }
      if !PaymentSucceeded(w.payment) {
        return PaymentFailed(w.payment);
      }
      txInventory := txInventory[key := txInventory[key] - 1];
      var txn := w.payment.transactionId;
      if !InsertBindsDefined(req, txn) {
        // the driver refuses an undefined bind value
        return BookingFailed(InsertRejected);
      }
      if pnr in txBookings {
        // the INSERT violates the primary key
        return BookingFailed(DuplicatePnr);
      }
      txBookings := txBookings[pnr := NewBooking(pnr, userId, req, txn, w.now)];
      // commit
      inventory, bookings := txInventory, txBookings;

      if !w.mirrorWriteOk {
        return BookingFailed(MirrorWriteFailed);
      }
      mirror := mirror[pnr := NewMirrorRecord(pnr, userId, req, txn, w.now)];
      if !w.sessionWriteOk {
        return BookingFailed(SessionWriteFailed);
      }
      return Created(pnr, Confirmed, txn);
    }

    /** The cancel handler. */
    method CancelBooking(ev: CancelEvent, w: CancelWorld) returns (outcome: CancelOutcome)
      modifies this
      ensures CancelStep(State(), outcome) == Cancel(old(State()), ev, w)
      ensures Valid(old(State())) ==> Valid(State())
    {
      if Valid(State()) {
        CancelPreservesValid(State(), ev, w);
      }
      if !Present(ev.pnrParam) {
        return PnrRequired;
      }
      if !Present(ev.claimSub) {
        return Unauthorized;
      }
      var pnr, userId := ev.pnrParam.value, ev.claimSub.value;
      if pnr !in mirror {
        return BookingNotFound;
      }
      var item := mirror[pnr];
      if item.userId != userId {
        return NotOwner;
      }
      if item.status == Cancelled {
        return AlreadyCancelled;
      }

      // begin transaction
      var txInventory, txBookings := inventory, bookings;
      if !(pnr in txBookings && txBookings[pnr].status == Confirmed) {
        return CancelFailed(NotFoundOrAlreadyCancelled);
      }
      var row := txBookings[pnr];
      txBookings := txBookings[pnr := row.(status := Cancelled, cancelledAt := Some(w.now))];
      var key := row.Key();
      if key in txInventory {
        txInventory := txInventory[key := txInventory[key] + 1];
      }
      // commit
      inventory, bookings := txInventory, txBookings;

      if !w.mirrorUpdateOk {
        return CancelFailed(MirrorUpdateFailed);
      }
      mirror := mirror[pnr := item.(status := Cancelled, cancelledAt := Some(w.now))];
      return CancelledOk(pnr, Cancelled);
    }
  }
}
