/**
  The canonical create workflow (backend/src/handlers/booking/index.js,
  `handler`): validate, pick a PNR, then in one relational transaction
  check the schedule row, take the payment outcome, decrement the seat and
  insert a CONFIRMED booking; after the commit, write the mirror item and
  the session item.

  `Create` states the workflow as a function of the store before the call;
  the handler method in module Backend is proved equal to it.
 */
module CreateFlow {
  import opened Values
  import opened Requests
  import opened Pnr
  import opened Store

  /** What the payment gateway answered (the parsed JSON of its response). */
  datatype PaymentResult = PaymentResult(status: Val, transactionId: Val)

  predicate PaymentSucceeded(p: PaymentResult) {
    p.status == Str("SUCCESS")
  }

  /** The five random bytes `generatePNR` draws. */
  type PnrBytes = b: seq<Byte> | |b| == 5 witness [0, 0, 0, 0, 0]

  /** The parts of the event the handler reads. */
  datatype CreateEvent = CreateEvent(claimSub: Option<string>, body: Body)

  /** What the world outside the model answers during one call: the random
      bytes, the payment outcome, the clock, and whether the two writes
      after the commit succeed. */
  datatype CreateWorld = CreateWorld(
    randomBytes: PnrBytes,
    payment: PaymentResult,
    now: string,
    mirrorWriteOk: bool,
    sessionWriteOk: bool)

  /** Why a call answered 500. */
  datatype CreateFailure =
    | MalformedBody | ScheduleNotFound | InsertRejected | DuplicatePnr | MirrorWriteFailed | SessionWriteFailed

  datatype CreateOutcome =
    | MissingDetails
    | SeatsUnavailable
    | PaymentFailed(details: PaymentResult)
    | BookingFailed(reason: CreateFailure)
    | Created(pnr: string, status: Status, transactionId: Val)
  {
    function StatusCode(): int {
      match this
      case MissingDetails => 400
      case SeatsUnavailable => 409
      case PaymentFailed(_) => 402
      case BookingFailed(_) => 500
      case Created(_, _, _) => 201
    }
  }

  datatype CreateStep = CreateStep(db: Db, outcome: CreateOutcome)

  /** `claims.sub || 'guest'`. */
  function UserIdFor(claimSub: Option<string>): string {
    OrElse(claimSub, "guest")
  }

  function ScheduleOf(req: BookingRequest): ScheduleKey {
    ScheduleKey(req.trainId, req.travelDate)
  }

  /** The row `saveBookingToRDS` inserts. */
  function NewBooking(pnr: string, userId: string, req: BookingRequest, transactionId: Val, now: string): Booking {
    Booking(pnr, userId, req.trainId, req.travelDate, req.passengerName, req.passengerAge,
            req.passengerGender, req.seatPreference, req.fare, transactionId, Confirmed, now, None)
  }

  /** The item `saveBookingToDynamoDB` puts. */
  function NewMirrorRecord(pnr: string, userId: string, req: BookingRequest, transactionId: Val, now: string): MirrorRecord {
    MirrorRecord(pnr, userId, req.trainNumber, req.trainName, req.travelDate, req.from, req.to,
                 req.passengerName, req.passengerAge, req.passengerGender, req.seatPreference,
                 req.fare, Confirmed, transactionId, now, None)
  }

  /** The database driver refuses to run a statement with an `undefined`
      bind value. Of the INSERT's values, the validation leaves only the
      passenger's gender, the seat preference and the gateway's
      transaction id unchecked; `null` is bound as SQL NULL. */
  predicate InsertBindsDefined(req: BookingRequest, transactionId: Val) {
    req.passengerGender != Undefined && req.seatPreference != Undefined && transactionId != Undefined
  }

  /** The transaction reaches its commit. */
  predicate CreateCommits(db: Db, ev: CreateEvent, w: CreateWorld) {
    && ev.body.Parsed?
    && HasCanonicalFields(ev.body.req)
    && ScheduleOf(ev.body.req) in db.inventory
    && db.inventory[ScheduleOf(ev.body.req)] >= 1
    && PaymentSucceeded(w.payment)
    && InsertBindsDefined(ev.body.req, w.payment.transactionId)
    && GeneratePnr(w.randomBytes) !in db.bookings
  }

  /** One call of the booking handler. */
  function Create(db: Db, ev: CreateEvent, w: CreateWorld): CreateStep {
    if !ev.body.Parsed? then CreateStep(db, BookingFailed(MalformedBody))
    else
      var req := ev.body.req;
      if !HasCanonicalFields(req) then CreateStep(db, MissingDetails)
      else
        var pnr := GeneratePnr(w.randomBytes);
        var key := ScheduleOf(req);
        if key !in db.inventory then CreateStep(db, BookingFailed(ScheduleNotFound))
        else if db.inventory[key] < 1 then CreateStep(db, SeatsUnavailable)
        else if !PaymentSucceeded(w.payment) then CreateStep(db, PaymentFailed(w.payment))
        else if !InsertBindsDefined(req, w.payment.transactionId) then CreateStep(db, BookingFailed(InsertRejected))
        else if pnr in db.bookings then CreateStep(db, BookingFailed(DuplicatePnr))
        else
          var userId := UserIdFor(ev.claimSub);
          var txn := w.payment.transactionId;
          var committed := db.(inventory := db.inventory[key := db.inventory[key] - 1],
                               bookings := db.bookings[pnr := NewBooking(pnr, userId, req, txn, w.now)]);
          if !w.mirrorWriteOk then CreateStep(committed, BookingFailed(MirrorWriteFailed))
          else
            var mirrored := committed.(mirror := committed.mirror[pnr := NewMirrorRecord(pnr, userId, req, txn, w.now)]);
            if !w.sessionWriteOk then CreateStep(mirrored, BookingFailed(SessionWriteFailed))
            else CreateStep(mirrored, Created(pnr, Confirmed, txn))
  }

  /** The user id defaults to 'guest' when the authorizer gives no subject. */
  lemma UserIdDefaultsToGuest(claimSub: Option<string>)
    ensures Present(claimSub) ==> UserIdFor(claimSub) == claimSub.value
    ensures !Present(claimSub) ==> UserIdFor(claimSub) == "guest"
  {
  }

  /** Every answer is one of the handler's status codes, and only a
      committed transaction can answer 201. */
  lemma CreateStatusCodes(db: Db, ev: CreateEvent, w: CreateWorld)
    ensures Create(db, ev, w).outcome.StatusCode() in {201, 400, 402, 409, 500}
    ensures Create(db, ev, w).outcome.Created? <==> CreateCommits(db, ev, w) && w.mirrorWriteOk && w.sessionWriteOk
  {
  }

  /** A request missing a required field answers 400 and changes nothing. */
  lemma CreateRejectsMissingDetails(db: Db, ev: CreateEvent, w: CreateWorld)
    requires ev.body.Parsed? && !HasCanonicalFields(ev.body.req)
    ensures Create(db, ev, w) == CreateStep(db, MissingDetails)
  {
  }

  /** A body that is absent, unparsable or `null` makes the handler throw
      before the transaction: 500 and nothing changed. */
  lemma CreateRejectsMalformedBody(db: Db, ev: CreateEvent, w: CreateWorld)
    requires !ev.body.Parsed?
    ensures Create(db, ev, w) == CreateStep(db, BookingFailed(MalformedBody))
  {
  }

  /** No schedule row: the transaction rolls back and the answer is 500. */
  lemma CreateScheduleNotFound(db: Db, ev: CreateEvent, w: CreateWorld)
    requires ev.body.Parsed? && HasCanonicalFields(ev.body.req)
    requires ScheduleOf(ev.body.req) !in db.inventory
    ensures Create(db, ev, w) == CreateStep(db, BookingFailed(ScheduleNotFound))
  {
  }

  /** A sold-out schedule answers 409 and changes nothing. */
  lemma CreateSoldOut(db: Db, ev: CreateEvent, w: CreateWorld)
    requires ev.body.Parsed? && HasCanonicalFields(ev.body.req)
    requires ScheduleOf(ev.body.req) in db.inventory && db.inventory[ScheduleOf(ev.body.req)] == 0
    ensures Create(db, ev, w) == CreateStep(db, SeatsUnavailable)
  {
  }

  /** A payment that is not SUCCESS answers 402 with the gateway's
      details, after rolling back: no seat taken, no booking row. */
  lemma CreatePaymentRolledBack(db: Db, ev: CreateEvent, w: CreateWorld)
    requires ev.body.Parsed? && HasCanonicalFields(ev.body.req)
    requires ScheduleOf(ev.body.req) in db.inventory && db.inventory[ScheduleOf(ev.body.req)] >= 1
    requires !PaymentSucceeded(w.payment)
    ensures Create(db, ev, w) == CreateStep(db, PaymentFailed(w.payment))
  {
  }

  /** An INSERT with an undefined gender, seat preference or transaction
      id throws inside the transaction: the seat update is rolled back
      with it, and the answer is 500. */
  lemma CreateInsertRejected(db: Db, ev: CreateEvent, w: CreateWorld)
    requires ev.body.Parsed? && HasCanonicalFields(ev.body.req)
    requires ScheduleOf(ev.body.req) in db.inventory && db.inventory[ScheduleOf(ev.body.req)] >= 1
    requires PaymentSucceeded(w.payment)
    requires !InsertBindsDefined(ev.body.req, w.payment.transactionId)
    ensures Create(db, ev, w) == CreateStep(db, BookingFailed(InsertRejected))
  {
  }

  /** Any answer other than one given after the commit leaves every store as it was. */
  lemma CreateFailuresChangeNothing(db: Db, ev: CreateEvent, w: CreateWorld)
    ensures !CreateCommits(db, ev, w) ==> Create(db, ev, w).db == db
    ensures Create(db, ev, w).db != db ==> PaymentSucceeded(w.payment)
  {
  }

  /** A committed transaction takes exactly one seat of the requested
      schedule, leaves the other rows alone, and adds exactly one
      CONFIRMED row under the new PNR carrying the payment's transaction
      id; the answer echoes that PNR, status and transaction id. */
  lemma CreateCommitted(db: Db, ev: CreateEvent, w: CreateWorld)
    requires CreateCommits(db, ev, w)
    ensures var r := Create(db, ev, w);
            var key := ScheduleOf(ev.body.req);
            var pnr := GeneratePnr(w.randomBytes);
            && IsPnr(pnr)
            && r.db.inventory.Keys == db.inventory.Keys
            && r.db.inventory[key] == db.inventory[key] - 1
            && (forall k :: k in db.inventory && k != key ==> r.db.inventory[k] == db.inventory[k])
            && pnr !in db.bookings
            && r.db.bookings.Keys == db.bookings.Keys + {pnr}
            && (forall p :: p in db.bookings ==> r.db.bookings[p] == db.bookings[p])
            && r.db.bookings[pnr].status == Confirmed
            && r.db.bookings[pnr].userId == UserIdFor(ev.claimSub)
            && r.db.bookings[pnr].Key() == key
            && r.db.bookings[pnr].transactionId == w.payment.transactionId
            && (r.outcome.Created? ==> r.outcome == Created(pnr, Confirmed, w.payment.transactionId))
  {
  }

  /** After the commit the mirror holds (or, if the mirror write failed,
      still lacks) an item under the same PNR with the same user,
      passenger fields, fare and status CONFIRMED; other items are kept. */
  lemma CreateMirrored(db: Db, ev: CreateEvent, w: CreateWorld)
    requires CreateCommits(db, ev, w)
    ensures var r := Create(db, ev, w);
            var req := ev.body.req;
            var pnr := GeneratePnr(w.randomBytes);
            && (forall p :: p in db.mirror && p != pnr ==> p in r.db.mirror && r.db.mirror[p] == db.mirror[p])
            && (w.mirrorWriteOk ==>
                 && r.db.mirror.Keys == db.mirror.Keys + {pnr}
                 && r.db.mirror[pnr].userId == r.db.bookings[pnr].userId
                 && r.db.mirror[pnr].passengerName == req.passengerName
                 && r.db.mirror[pnr].passengerAge == req.passengerAge
                 && r.db.mirror[pnr].passengerGender == req.passengerGender
                 && r.db.mirror[pnr].fare == req.fare
                 && r.db.mirror[pnr].status == Confirmed)
            && (!w.mirrorWriteOk ==> r.db.mirror == db.mirror && r.outcome == BookingFailed(MirrorWriteFailed))
  {
  }

  /** A failure after the commit still answers 500 although the seat is
      taken and the booking row exists. */
  lemma CreateLateFailureIsCommitted(db: Db, ev: CreateEvent, w: CreateWorld)
    requires CreateCommits(db, ev, w) && !(w.mirrorWriteOk && w.sessionWriteOk)
    ensures Create(db, ev, w).outcome.StatusCode() == 500
    ensures Create(db, ev, w).db.bookings != db.bookings
  {
    var pnr := GeneratePnr(w.randomBytes);
    assert pnr in Create(db, ev, w).db.bookings;
  }

  /** The workflow keeps the stores consistent. */
  lemma CreatePreservesValid(db: Db, ev: CreateEvent, w: CreateWorld)
    requires Valid(db)
    ensures Valid(Create(db, ev, w).db)
  {
  }

  /** The workflow keeps every seat accounted for. */
  lemma CreatePreservesSeats(db: Db, ev: CreateEvent, w: CreateWorld, capacity: map<ScheduleKey, nat>)
    requires SeatsConserved(db, capacity)
    ensures SeatsConserved(Create(db, ev, w).db, capacity)
  {
    if CreateCommits(db, ev, w) {
      var req := ev.body.req;
      var pnr := GeneratePnr(w.randomBytes);
      var b := NewBooking(pnr, UserIdFor(ev.claimSub), req, w.payment.transactionId, w.now);
      TakeSeatConserves(db, Create(db, ev, w).db, pnr, b, capacity);
    }
  }
}
