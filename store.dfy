/**
  The state the canonical handlers work on: the `train_schedules`
  inventory and the `bookings` table of the relational store, and the
  denormalised mirror table of bookings in the key-value store.
 */
module Store {
  import opened Values
  import opened Requests

  /** A `train_schedules` row is found by train and travel date. */
  datatype ScheduleKey = ScheduleKey(trainId: Val, travelDate: Val)

  /** A row of the relational `bookings` table. */
  datatype Booking = Booking(
    pnr: string,
    userId: string,
    trainId: Val,
    travelDate: Val,
    passengerName: Val,
    passengerAge: Val,
    passengerGender: Val,
    seatPreference: Val,
    fare: Val,
    transactionId: Val,
    status: Status,
    createdAt: string,
    cancelledAt: Option<string>)
  {
    function Key(): ScheduleKey {
      ScheduleKey(trainId, travelDate)
    }
  }

  /** An item of the mirror table, keyed by PNR. */
  datatype MirrorRecord = MirrorRecord(
    pnr: string,
    userId: string,
    trainNumber: Val,
    trainName: Val,
    travelDate: Val,
    from: Val,
    to: Val,
    passengerName: Val,
    passengerAge: Val,
    passengerGender: Val,
    seatPreference: Val,
    fare: Val,
    status: Status,
    transactionId: Val,
    createdAt: string,
    cancelledAt: Option<string>)

  /** Available seats per schedule, canonical bookings and mirror items by PNR. */
  datatype Db = Db(
    inventory: map<ScheduleKey, nat>,
    bookings: map<string, Booking>,
    mirror: map<string, MirrorRecord>)

  /** A mirror item is a copy of its canonical row that may lag behind a
      cancellation but never shows a status the canonical row does not
      have or has not had. */
  predicate Mirrors(m: MirrorRecord, b: Booking) {
    && m.pnr == b.pnr
    && m.userId == b.userId
    && m.travelDate == b.travelDate
    && m.passengerName == b.passengerName
    && m.passengerAge == b.passengerAge
    && m.passengerGender == b.passengerGender
    && m.seatPreference == b.seatPreference
    && m.fare == b.fare
    && m.transactionId == b.transactionId
    && (m.status == b.status || (m.status == Confirmed && b.status == Cancelled))
  }

  /** The consistency the two handlers keep between the stores. */
  predicate Valid(db: Db) {
    && (forall p :: p in db.bookings ==> db.bookings[p].pnr == p)
    && (forall p :: p in db.mirror ==> p in db.bookings && Mirrors(db.mirror[p], db.bookings[p]))
    && (forall p :: p in db.bookings && db.bookings[p].status == Cancelled ==> db.bookings[p].cancelledAt.Some?)
  }

  /** The confirmed bookings that hold a seat of schedule `k`. */
  function ConfirmedOn(db: Db, k: ScheduleKey): set<string> {
    set p | p in db.bookings && db.bookings[p].status == Confirmed && db.bookings[p].Key() == k
  }

  /** Every seat of every schedule is either available or held by exactly
      one confirmed booking. */
  predicate SeatsConserved(db: Db, capacity: map<ScheduleKey, nat>) {
    && db.inventory.Keys == capacity.Keys
    && forall k :: k in db.inventory ==> db.inventory[k] + |ConfirmedOn(db, k)| == capacity[k]
  }

  /** Hence a schedule is never oversold. */
  lemma NeverOversold(db: Db, capacity: map<ScheduleKey, nat>, k: ScheduleKey)
    requires SeatsConserved(db, capacity) && k in capacity
    ensures |ConfirmedOn(db, k)| <= capacity[k]
    ensures db.inventory[k] == capacity[k] - |ConfirmedOn(db, k)|
  {
  }

  lemma ConfirmedOnInsert(db: Db, db': Db, pnr: string, b: Booking, k: ScheduleKey)
    requires pnr !in db.bookings && b.status == Confirmed && db'.bookings == db.bookings[pnr := b]
    ensures ConfirmedOn(db', k) == if k == b.Key() then ConfirmedOn(db, k) + {pnr} else ConfirmedOn(db, k)
    ensures pnr !in ConfirmedOn(db, k)
  {
  }

  lemma ConfirmedOnCancel(db: Db, db': Db, pnr: string, c: Option<string>, k: ScheduleKey)
    requires pnr in db.bookings && db.bookings[pnr].status == Confirmed
    requires db'.bookings == db.bookings[pnr := db.bookings[pnr].(status := Cancelled, cancelledAt := c)]
    ensures ConfirmedOn(db, k) == if k == db.bookings[pnr].Key() then ConfirmedOn(db', k) + {pnr} else ConfirmedOn(db', k)
    ensures pnr !in ConfirmedOn(db', k)
  {
  }

  /** Taking a seat of `key` for a new confirmed booking keeps every seat accounted for. */
  lemma TakeSeatConserves(db: Db, db': Db, pnr: string, b: Booking, capacity: map<ScheduleKey, nat>)
    requires SeatsConserved(db, capacity)
    requires b.Key() in db.inventory && db.inventory[b.Key()] >= 1
    requires db'.inventory == db.inventory[b.Key() := db.inventory[b.Key()] - 1]
    requires pnr !in db.bookings && b.status == Confirmed && db'.bookings == db.bookings[pnr := b]
    ensures SeatsConserved(db', capacity)
  {
    forall k | k in db'.inventory
      ensures db'.inventory[k] + |ConfirmedOn(db', k)| == capacity[k]
    {
      ConfirmedOnInsert(db, db', pnr, b, k);
    }
  }

  /** Releasing the seat of a confirmed booking that is cancelled keeps
      every seat accounted for; a schedule row that is missing stays missing. */
  lemma ReleaseSeatConserves(db: Db, db': Db, pnr: string, c: Option<string>, capacity: map<ScheduleKey, nat>)
    requires SeatsConserved(db, capacity)
    requires pnr in db.bookings && db.bookings[pnr].status == Confirmed
    requires db'.bookings == db.bookings[pnr := db.bookings[pnr].(status := Cancelled, cancelledAt := c)]
    requires var k := db.bookings[pnr].Key();
             db'.inventory == if k in db.inventory then db.inventory[k := db.inventory[k] + 1] else db.inventory
    ensures SeatsConserved(db', capacity)
  {
    forall k | k in db'.inventory
      ensures db'.inventory[k] + |ConfirmedOn(db', k)| == capacity[k]
    {
      ConfirmedOnCancel(db, db', pnr, c, k);
    }
  }
}
