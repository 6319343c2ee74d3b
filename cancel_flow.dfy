/**
  The canonical cancel workflow (backend/src/handlers/cancelBooking/index.js,
  `handler`): check existence, ownership and status on the mirror item, then
  in one relational transaction require a CONFIRMED row, flip it to
  CANCELLED and give its seat back; after the commit, update the mirror
  item.

  `Cancel` states the workflow as a function of the store before the call;
  the handler method in module Backend is proved equal to it.
 */
module CancelFlow {
  import opened Values
  import opened Requests
  import opened Store

  /** The parts of the event the handler reads: the `pnr` path parameter
      and the authorizer's subject claim. */
  datatype CancelEvent = CancelEvent(pnrParam: Option<string>, claimSub: Option<string>)

  /** The clock, and whether the mirror update after the commit succeeds. */
  datatype CancelWorld = CancelWorld(now: string, mirrorUpdateOk: bool)

  /** Why a call answered 500. */
  datatype CancelFailure = NotFoundOrAlreadyCancelled | MirrorUpdateFailed

  datatype CancelOutcome =
    | PnrRequired
    | Unauthorized
    | BookingNotFound
    | NotOwner
    | AlreadyCancelled
    | CancelFailed(reason: CancelFailure)
    | CancelledOk(pnr: string, status: Status)
  {
    function StatusCode(): int {
      match this
      case PnrRequired => 400
      case Unauthorized => 401
      case BookingNotFound => 404
      case NotOwner => 403
      case AlreadyCancelled => 409
      case CancelFailed(_) => 500
      case CancelledOk(_, _) => 200
    }
  }

  datatype CancelStep = CancelStep(db: Db, outcome: CancelOutcome)

  /** `releaseSeats`: an UPDATE that adds one seat to the matching row, if any. */
  function ReleaseSeat(inventory: map<ScheduleKey, nat>, k: ScheduleKey): map<ScheduleKey, nat> {
    if k in inventory then inventory[k := inventory[k] + 1] else inventory
  }

  /** The mirror pre-checks pass and the canonical row is CONFIRMED. */
  predicate CancelCommits(db: Db, ev: CancelEvent) {
    && Present(ev.pnrParam)
    && Present(ev.claimSub)
    && ev.pnrParam.value in db.mirror
    && db.mirror[ev.pnrParam.value].userId == ev.claimSub.value
    && db.mirror[ev.pnrParam.value].status != Cancelled
    && ev.pnrParam.value in db.bookings
    && db.bookings[ev.pnrParam.value].status == Confirmed
  }

  /** One call of the cancel handler. */
  function Cancel(db: Db, ev: CancelEvent, w: CancelWorld): CancelStep {
    if !Present(ev.pnrParam) then CancelStep(db, PnrRequired)
    else if !Present(ev.claimSub) then CancelStep(db, Unauthorized)
    else
      var pnr, userId := ev.pnrParam.value, ev.claimSub.value;
      if pnr !in db.mirror then CancelStep(db, BookingNotFound)
      else if db.mirror[pnr].userId != userId then CancelStep(db, NotOwner)
      else if db.mirror[pnr].status == Cancelled then CancelStep(db, AlreadyCancelled)
      else if !(pnr in db.bookings && db.bookings[pnr].status == Confirmed) then
        CancelStep(db, CancelFailed(NotFoundOrAlreadyCancelled))
      else
        var row := db.bookings[pnr];
        var committed := db.(bookings := db.bookings[pnr := row.(status := Cancelled, cancelledAt := Some(w.now))],
                             inventory := ReleaseSeat(db.inventory, row.Key()));
        if !w.mirrorUpdateOk then CancelStep(committed, CancelFailed(MirrorUpdateFailed))
        else
          var item := db.mirror[pnr];
          CancelStep(committed.(mirror := db.mirror[pnr := item.(status := Cancelled, cancelledAt := Some(w.now))]),
                     CancelledOk(pnr, Cancelled))
  }

  /** A missing PNR answers 400 and a missing subject 401; nothing changes. */
  lemma CancelRejectsMissingInput(db: Db, ev: CancelEvent, w: CancelWorld)
    ensures !Present(ev.pnrParam) ==> Cancel(db, ev, w) == CancelStep(db, PnrRequired)
    ensures Present(ev.pnrParam) && !Present(ev.claimSub) ==> Cancel(db, ev, w) == CancelStep(db, Unauthorized)
  {
  }

  /** The checks on the mirror item: 404 when there is none, 403 when it
      belongs to someone else, 409 when it already says CANCELLED; none of
      them changes anything. */
  lemma CancelMirrorChecks(db: Db, ev: CancelEvent, w: CancelWorld)
    requires Present(ev.pnrParam) && Present(ev.claimSub)
    ensures var pnr := ev.pnrParam.value;
            && (pnr !in db.mirror ==> Cancel(db, ev, w) == CancelStep(db, BookingNotFound))
            && (pnr in db.mirror && db.mirror[pnr].userId != ev.claimSub.value ==>
                  Cancel(db, ev, w) == CancelStep(db, NotOwner))
            && (pnr in db.mirror && db.mirror[pnr].userId == ev.claimSub.value && db.mirror[pnr].status == Cancelled ==>
                  Cancel(db, ev, w) == CancelStep(db, AlreadyCancelled))
  {
  }

  /** Without a CONFIRMED canonical row (none at all, PENDING or already
      CANCELLED) the transaction throws and rolls back: 500, nothing changed. */
  lemma CancelNeedsConfirmedRow(db: Db, ev: CancelEvent, w: CancelWorld)
    requires Present(ev.pnrParam) && Present(ev.claimSub)
    requires var pnr := ev.pnrParam.value;
             pnr in db.mirror && db.mirror[pnr].userId == ev.claimSub.value && db.mirror[pnr].status != Cancelled
    requires var pnr := ev.pnrParam.value;
             pnr !in db.bookings || db.bookings[pnr].status != Confirmed
    ensures Cancel(db, ev, w) == CancelStep(db, CancelFailed(NotFoundOrAlreadyCancelled))
  {
  }

  /** Only a committed cancellation changes anything; 200 needs the commit
      and the mirror update. */
  lemma CancelFailuresChangeNothing(db: Db, ev: CancelEvent, w: CancelWorld)
    ensures !CancelCommits(db, ev) ==> Cancel(db, ev, w).db == db
    ensures Cancel(db, ev, w).outcome.StatusCode() in {200, 400, 401, 403, 404, 409, 500}
    ensures Cancel(db, ev, w).outcome.CancelledOk? <==> CancelCommits(db, ev) && w.mirrorUpdateOk
  {
  }

  /** A committed cancellation makes the canonical row CANCELLED, changes
      no other row, and gives back exactly one seat of that booking's own
      schedule, leaving the other schedules alone. */
  lemma CancelCommitted(db: Db, ev: CancelEvent, w: CancelWorld)
    requires CancelCommits(db, ev)
    ensures var r := Cancel(db, ev, w);
            var pnr := ev.pnrParam.value;
            var key := db.bookings[pnr].Key();
            && r.db.bookings.Keys == db.bookings.Keys
            && r.db.bookings[pnr].status == Cancelled
            && r.db.bookings[pnr] == db.bookings[pnr].(status := Cancelled, cancelledAt := Some(w.now))
            && (forall p :: p in db.bookings && p != pnr ==> r.db.bookings[p] == db.bookings[p])
            && r.db.inventory.Keys == db.inventory.Keys
            && (key in db.inventory ==> r.db.inventory[key] == db.inventory[key] + 1)
            && (forall k :: k in db.inventory && k != key ==> r.db.inventory[k] == db.inventory[k])
  {
  }

  /** After the commit the mirror item becomes CANCELLED and the answer is
      200 with status CANCELLED; if that update fails the answer is 500
      and the mirror keeps its old item. */
  lemma CancelMirrored(db: Db, ev: CancelEvent, w: CancelWorld)
    requires CancelCommits(db, ev)
    ensures var r := Cancel(db, ev, w);
            var pnr := ev.pnrParam.value;
            && (w.mirrorUpdateOk ==>
                 && r.outcome == CancelledOk(pnr, Cancelled)
                 && r.db.mirror == db.mirror[pnr := db.mirror[pnr].(status := Cancelled, cancelledAt := Some(w.now))])
            && (!w.mirrorUpdateOk ==> r.outcome == CancelFailed(MirrorUpdateFailed) && r.db.mirror == db.mirror)
  {
  }

  /** Once the canonical row is CANCELLED, another cancel of it changes
      nothing, whoever asks. */
  lemma CancelOfCancelledIsNoOp(db: Db, ev: CancelEvent, w: CancelWorld)
    requires Present(ev.pnrParam) && ev.pnrParam.value in db.bookings
    requires db.bookings[ev.pnrParam.value].status == Cancelled
    ensures Cancel(db, ev, w).db == db
  {
  }

  /** A caller without a subject claim is refused with 401 and changes
      nothing, unlike the create handler, which books such a caller as
      'guest'. */
  lemma CancelRequiresSubject(db: Db, pnr: string, w: CancelWorld)
    ensures Cancel(db, CancelEvent(Some(pnr), None), w).db == db
    ensures pnr != "" ==> Cancel(db, CancelEvent(Some(pnr), None), w).outcome == Unauthorized
  {
  }

  /** The workflow keeps the stores consistent: a lagging mirror item may
      still say CONFIRMED but never says CANCELLED before the canonical row. */
  lemma CancelPreservesValid(db: Db, ev: CancelEvent, w: CancelWorld)
    requires Valid(db)
    ensures Valid(Cancel(db, ev, w).db)
  {
  }

  /** The workflow keeps every seat accounted for. */
  lemma CancelPreservesSeats(db: Db, ev: CancelEvent, w: CancelWorld, capacity: map<ScheduleKey, nat>)
    requires SeatsConserved(db, capacity)
    ensures SeatsConserved(Cancel(db, ev, w).db, capacity)
  {
    if CancelCommits(db, ev) {
      ReleaseSeatConserves(db, Cancel(db, ev, w).db, ev.pnrParam.value, Some(w.now), capacity);
    }
  }
}
