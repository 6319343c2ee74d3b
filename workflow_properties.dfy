/**
  Properties that relate several calls of the canonical create and cancel
  handlers: any sequence of calls keeps the stores consistent and never
  oversells a schedule, cancel gives back a seat at most once, create then
  cancel restores the inventory, and the capacity-one scenario.
 */
module WorkflowProperties {
  import opened Values
  import opened Requests
  import opened Pnr
  import opened Store
  import opened CreateFlow
  import opened CancelFlow

  /** One handler call together with what the outside world answered. */
  datatype Call = CreateCall(ev: CreateEvent, w: CreateWorld) | CancelCall(cev: CancelEvent, cw: CancelWorld)

  function Apply(db: Db, c: Call): Db {
    match c
    case CreateCall(ev, w) => Create(db, ev, w).db
    case CancelCall(ev, w) => Cancel(db, ev, w).db
  }

  /** The store after a sequence of calls, one after another. */
  function Run(db: Db, calls: seq<Call>): Db
    decreases |calls|
  {
    if calls == [] then db else Run(Apply(db, calls[0]), calls[1..])
  }

  /** Whatever the calls and whatever the outside world answers, the
      stores stay consistent and every seat is either free or held by one
      confirmed booking, so no schedule is ever oversold. */
  lemma {:induction false} RunKeepsInvariants(db: Db, calls: seq<Call>, capacity: map<ScheduleKey, nat>)
    requires Valid(db) && SeatsConserved(db, capacity)
    ensures Valid(Run(db, calls)) && SeatsConserved(Run(db, calls), capacity)
    ensures forall k :: k in capacity ==> |ConfirmedOn(Run(db, calls), k)| <= capacity[k]
    decreases |calls|
  {
    if calls != [] {
      match calls[0] {
        case CreateCall(ev, w) =>
          CreatePreservesValid(db, ev, w);
          CreatePreservesSeats(db, ev, w, capacity);
        case CancelCall(ev, w) =>
          CancelPreservesValid(db, ev, w);
          CancelPreservesSeats(db, ev, w, capacity);
      }
      RunKeepsInvariants(Apply(db, calls[0]), calls[1..], capacity);
    }
  }

  /** Cancelling the same PNR twice gives back at most one seat: if the
      first call committed, the second changes nothing (409 when the
      first one answered 200); if it did not, neither does the second. */
  lemma CancelTwice(db: Db, ev: CancelEvent, w1: CancelWorld, w2: CancelWorld)
    ensures var s1 := Cancel(db, ev, w1);
            var s2 := Cancel(s1.db, ev, w2);
            && s2.db.inventory == s1.db.inventory
            && (CancelCommits(db, ev) ==> s2.db == s1.db)
            && (!CancelCommits(db, ev) ==> s2.db == db)
            && (s1.outcome.CancelledOk? ==> s2.outcome == AlreadyCancelled)
  {
    if CancelCommits(db, ev) {
      CancelOfCancelledIsNoOp(Cancel(db, ev, w1).db, ev, w2);
    }
  }

  /** A booking made by a signed-in user and cancelled by the same user
      leaves the seat inventory exactly as it was before the booking. */
  lemma CreateThenCancelRestoresInventory(db: Db, ev: CreateEvent, w: CreateWorld, cw: CancelWorld)
    requires CreateCommits(db, ev, w) && w.mirrorWriteOk
    requires Present(ev.claimSub)
    ensures var created := Create(db, ev, w);
            var pnr := GeneratePnr(w.randomBytes);
            var cancelled := Cancel(created.db, CancelEvent(Some(pnr), ev.claimSub), cw);
            && cancelled.db.inventory == db.inventory
            && cancelled.db.bookings[pnr].status == Cancelled
            && (cw.mirrorUpdateOk ==> cancelled.outcome == CancelledOk(pnr, Cancelled))
  {
    var created := Create(db, ev, w);
    var pnr := GeneratePnr(w.randomBytes);
    var key := ScheduleOf(ev.body.req);
    CreateCommitted(db, ev, w);
    CreateMirrored(db, ev, w);
    var cev := CancelEvent(Some(pnr), ev.claimSub);
    assert CancelCommits(created.db, cev);
    CancelCommitted(created.db, cev, cw);
    var after := Cancel(created.db, cev, cw).db.inventory;
    assert after.Keys == db.inventory.Keys;
    assert forall k :: k in after ==> after[k] == db.inventory[k];
  }

  const ScenarioKey: ScheduleKey := ScheduleKey(Num(7), Str("2025-03-01"))

  /** Every field the booking form sends, so that neither the INSERT nor
      the mirror item has an undefined value. */
  const ScenarioRequest: BookingRequest :=
    BookingRequest(Num(7), Str("12001"), Str("Shatabdi Express"), Str("New Delhi"), Str("Mumbai Central"),
                   Str("2025-03-01"), Str("Asha"), Num(30), Str("Female"), Str("Lower"), Num(500),
                   Undefined)

  const ScenarioEvent: CreateEvent := CreateEvent(Some("user-1"), Parsed(ScenarioRequest))

  function ScenarioWorld(bytes: PnrBytes): CreateWorld {
    CreateWorld(bytes, PaymentResult(Str("SUCCESS"), Str("TXN1")), "now", true, true)
  }

  /** The capacity-one scenario: a booking takes the only seat, a second
      booking of the same schedule is refused with 409 and changes
      nothing, the owner's cancel gives the seat back, and a new booking
      then succeeds. */
  lemma CapacityOneScenario(b1: PnrBytes, b2: PnrBytes, b3: PnrBytes)
    requires b3 != b1
    ensures
      var db0 := Db(map[ScenarioKey := 1], map[], map[]);
      var pnr := GeneratePnr(b1);
      var s1 := Create(db0, ScenarioEvent, ScenarioWorld(b1));
      var s2 := Create(s1.db, ScenarioEvent, ScenarioWorld(b2));
      var s3 := Cancel(s2.db, CancelEvent(Some(pnr), Some("user-1")), CancelWorld("later", true));
      var s4 := Create(s3.db, ScenarioEvent, ScenarioWorld(b3));
      && s1.outcome == Created(pnr, Confirmed, Str("TXN1")) && s1.db.inventory[ScenarioKey] == 0
      && s2.outcome == SeatsUnavailable && s2.db == s1.db
      && s3.outcome == CancelledOk(pnr, Cancelled) && s3.db.inventory[ScenarioKey] == 1
      && s4.outcome.Created? && s4.db.inventory[ScenarioKey] == 0
  {
    var db0 := Db(map[ScenarioKey := 1], map[], map[]);
    var ev := ScenarioEvent;
    var pnr := GeneratePnr(b1);
    assert ScheduleOf(ev.body.req) == ScenarioKey;
    assert CreateCommits(db0, ev, ScenarioWorld(b1));
    CreateCommitted(db0, ev, ScenarioWorld(b1));
    CreateMirrored(db0, ev, ScenarioWorld(b1));
    CreateStatusCodes(db0, ev, ScenarioWorld(b1));
    var s1 := Create(db0, ev, ScenarioWorld(b1));
    assert s1.db.inventory[ScenarioKey] == 0;

    CreateSoldOut(s1.db, ev, ScenarioWorld(b2));
    var s2 := Create(s1.db, ev, ScenarioWorld(b2));

    var cev := CancelEvent(Some(pnr), Some("user-1"));
    assert s2.db.mirror[pnr].userId == "user-1";
    assert CancelCommits(s2.db, cev);
    CancelCommitted(s2.db, cev, CancelWorld("later", true));
    CancelMirrored(s2.db, cev, CancelWorld("later", true));
    var s3 := Cancel(s2.db, cev, CancelWorld("later", true));
    assert s3.db.bookings.Keys == {pnr};

    PnrRoundTrip(b1);
    PnrRoundTrip(b3);
    assert GeneratePnr(b3) !in s3.db.bookings;
    assert CreateCommits(s3.db, ev, ScenarioWorld(b3));
    CreateCommitted(s3.db, ev, ScenarioWorld(b3));
    CreateStatusCodes(s3.db, ev, ScenarioWorld(b3));
  }
}
