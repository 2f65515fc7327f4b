/**
 * The slots, events and bookings the reservation engine works on, the six
 * storage operations one reservation attempt performs inside its
 * transaction, and the attempt itself (service/slot.booking.js, the
 * `prisma.$transaction` callback of createSlotBookingOptimistic).
 *
 * Concurrency enters only through an `Env`: the other requests that commit
 * while this attempt sits between its reads and its first version-guarded
 * write, and an optional storage fault at a named step.
 */
module Store {
  import opened Classifier

  type SlotId = string
  type UserId = string
  type EventId = string

  datatype Option<T> = None | Some(value: T)

  datatype Status = Confirmed | Cancelled | Waitlisted

  /** A slot row; `currentBookings` is a cached counter and `version` the optimistic-concurrency guard. */
  datatype Slot = Slot(eventId: EventId, maxBookings: nat, currentBookings: nat, version: nat)

  datatype Event = Event(version: nat)

  datatype Booking = Booking(slotId: SlotId, eventId: EventId, userId: UserId, status: Status)

  /** A reservation request, and the unique key `slotId_userId` of a booking. */
  datatype Request = Request(slotId: SlotId, userId: UserId)

  /** The store: slot and event rows by id, and the booking rows in insertion order. */
  datatype Db = Db(slots: map<SlotId, Slot>, events: map<EventId, Event>, bookings: seq<Booking>)

  /** The storage calls of one attempt, in the order the attempt makes them. */
  datatype Op = ReadSlot | CountBookings | FindExisting | UpdateSlot | CreateBooking | UpdateEvent | Commit

  /** A storage or transport fault (timeout, lost connection, ...) thrown by the call `op` when it is reached. */
  datatype Fault = NoFault | FaultAt(op: Op, code: string, message: string)

  /**
   * What happens around one attempt: `racers` are other reservation requests
   * that commit, one after the other, between this attempt's duplicate check
   * and its guarded slot update; `fault` is an error the storage layer throws.
   */
  datatype Env = Env(racers: seq<Request>, fault: Fault)

  const Calm: Env := Env([], NoFault)

  datatype AttemptOutcome = Committed(booking: Booking) | Raised(error: Thrown)

  predicate IsConfirmed(b: Option<Booking>) {
    b.Some? && b.value.status == Confirmed
  }

  function Key(b: Booking): Request {
    Request(b.slotId, b.userId)
  }

  predicate Faults(env: Env, op: Op) {
    env.fault.FaultAt? && env.fault.op == op
  }

  function FaultError(env: Env): Thrown
    requires env.fault.FaultAt?
  {
    Storage(env.fault.code, env.fault.message)
  }

  // ---------------------------------------------------------------------
  // Queries on the booking rows

  /** The bookings of slot `s`, in insertion order. */
  function BookingsOf(bs: seq<Booking>, s: SlotId): seq<Booking> {
    if bs == [] then []
    else BookingsOf(bs[..|bs| - 1], s) + (if bs[|bs| - 1].slotId == s then [bs[|bs| - 1]] else [])
  }

  function CountConfirmed(bs: seq<Booking>): nat {
    if bs == [] then 0
    else CountConfirmed(bs[..|bs| - 1]) + (if bs[|bs| - 1].status == Confirmed then 1 else 0)
  }

  /** The `tx.booking.count` of the capacity check: the live number of CONFIRMED bookings of slot `s`. */
  function ConfirmedCount(bs: seq<Booking>, s: SlotId): nat {
    CountConfirmed(BookingsOf(bs, s))
  }

  function FindUser(bs: seq<Booking>, u: UserId): Option<Booking> {
    if bs == [] then None
    else if bs[|bs| - 1].userId == u then Some(bs[|bs| - 1])
    else FindUser(bs[..|bs| - 1], u)
  }

  /** The `tx.booking.findUnique` on the unique key (slotId, userId): the booking of user `u` for slot `s`, if any. */
  function FindBooking(bs: seq<Booking>, s: SlotId, u: UserId): (r: Option<Booking>)
    ensures r.Some? ==> Key(r.value) == Request(s, u)
  {
    BookingsOfMembers(bs, s);
    FindUserSound(BookingsOf(bs, s), s, u);
    FindUser(BookingsOf(bs, s), u)
  }

  // ---------------------------------------------------------------------
  // Integrity of the store

  /** The (slotId, userId) unique constraint of the booking table. */
  ghost predicate UniqueKeys(bs: seq<Booking>) {
    forall i, j :: 0 <= i < j < |bs| ==> Key(bs[i]) != Key(bs[j])
  }

  /** No slot holds more CONFIRMED bookings than its capacity. */
  ghost predicate WithinCapacity(db: Db) {
    forall t :: t in db.slots ==> ConfirmedCount(db.bookings, t) <= db.slots[t].maxBookings
  }

  /** At most one CONFIRMED booking per (slot, user). */
  ghost predicate OneConfirmedPerUser(bs: seq<Booking>) {
    forall i, j :: 0 <= i < j < |bs| && bs[i].status == Confirmed && bs[j].status == Confirmed ==> Key(bs[i]) != Key(bs[j])
  }

  /** Every slot's parent event exists (a foreign key of the schema). */
  ghost predicate Linked(db: Db) {
    forall t :: t in db.slots ==> db.slots[t].eventId in db.events
  }

  /** The same slot and event rows, each slot under the same event. */
  ghost predicate SameRows(db: Db, r: Db) {
    && r.slots.Keys == db.slots.Keys
    && r.events.Keys == db.events.Keys
    && forall t :: t in db.slots ==> r.slots[t].eventId == db.slots[t].eventId
  }

  /**
   * What the schema and the engine keep true: every slot's event exists, every
   * booking names an existing slot and that slot's event, the (slotId, userId) key is
   * unique, and no slot is over capacity.
   */
  ghost predicate Valid(db: Db) {
    && Linked(db)
    && (forall i :: 0 <= i < |db.bookings| ==>
          db.bookings[i].slotId in db.slots && db.bookings[i].eventId == db.slots[db.bookings[i].slotId].eventId)
    && UniqueKeys(db.bookings)
    && WithinCapacity(db)
  }

  /**
   * How the store may change from `db` to `r`: the same rows, slot capacities
   * and event links; versions never go down; booking rows are only appended;
   * and a slot whose version is unchanged has exactly the same bookings.
   */
  ghost predicate Evolves(db: Db, r: Db) {
    && r.slots.Keys == db.slots.Keys
    && r.events.Keys == db.events.Keys
    && db.bookings <= r.bookings
    && (forall t :: t in db.slots ==>
          && r.slots[t].eventId == db.slots[t].eventId
          && r.slots[t].maxBookings == db.slots[t].maxBookings
          && r.slots[t].version >= db.slots[t].version
          && (r.slots[t].version == db.slots[t].version ==> BookingsOf(r.bookings, t) == BookingsOf(db.bookings, t)))
    && (forall e :: e in db.events ==> r.events[e].version >= db.events[e].version)
  }

  // ---------------------------------------------------------------------
  // The attempt, as a function of the store

  /**
   * One reservation attempt, all or nothing. Reads the slot and its event's
   * version; rejects a missing slot, then a full slot (on the live CONFIRMED
   * count), then an existing CONFIRMED booking of the user; lets the racers
   * commit; then makes the version-guarded slot update, the booking insert
   * and the version-guarded event update. A failure before the racers'
   * window leaves the store as it was; a failure after it leaves the store
   * as the racers left it, none of this attempt's writes included.
   */
  function Transaction(db: Db, s: SlotId, u: UserId, env: Env): (res: (Db, AttemptOutcome))
    requires Linked(db)
    ensures Linked(res.0) && SameRows(db, res.0)
    ensures res.1.Raised? && res.1.error.Business? ==> res.0 == db
    decreases |env.racers|, 1
  {
    match Checks(db, s, u, env)
    case Some(e) => (db, Raised(e))
    case None => GuardedWrites(db, Interleave(db, env.racers), s, u, env)
  }

  /**
   * Steps 1 to 3, the reads and the business rules: the error they raise,
   * or None when the attempt goes on to write.
   */
  function Checks(db: Db, s: SlotId, u: UserId, env: Env): (e: Option<Thrown>)
    ensures e.None? <==>
      && !Faults(env, ReadSlot) && !Faults(env, CountBookings) && !Faults(env, FindExisting)
      && s in db.slots
      && ConfirmedCount(db.bookings, s) < db.slots[s].maxBookings
      && !IsConfirmed(FindBooking(db.bookings, s, u))
  {
    if Faults(env, ReadSlot) then Some(FaultError(env))
    else if s !in db.slots then Some(Business(SlotNotFound))
    else if Faults(env, CountBookings) then Some(FaultError(env))
    else if ConfirmedCount(db.bookings, s) >= db.slots[s].maxBookings then Some(Business(SlotFull))
    else if Faults(env, FindExisting) then Some(FaultError(env))
    else if IsConfirmed(FindBooking(db.bookings, s, u)) then Some(Business(DuplicateBooking))
    else None
  }

  /**
   * Steps 4 to 6 on the store `after` the racers committed, with the versions
   * read from `db` in step 1 as guards. On any failure the store stays
   * `after`: this attempt's own writes are rolled back.
   */
  function GuardedWrites(db: Db, after: Db, s: SlotId, u: UserId, env: Env): (res: (Db, AttemptOutcome))
    requires Linked(db) && Linked(after) && SameRows(db, after) && s in db.slots
    ensures Linked(res.0) && SameRows(db, res.0)
    ensures res.1.Raised? ==> res.0 == after && res.1.error.Storage?
  {
    var slot := db.slots[s];
    var eventVersion := db.events[slot.eventId].version;
    if Faults(env, UpdateSlot) then (after, Raised(FaultError(env)))
    else if after.slots[s].version != slot.version then (after, Raised(StaleGuardError))
    else if Faults(env, CreateBooking) then (after, Raised(FaultError(env)))
    else if FindBooking(after.bookings, s, u).Some? then (after, Raised(UniqueViolationError))
    else if Faults(env, UpdateEvent) then (after, Raised(FaultError(env)))
    else if after.events[slot.eventId].version != eventVersion then (after, Raised(StaleGuardError))
    else if Faults(env, Commit) then (after, Raised(FaultError(env)))
    else (Reserved(after, s, u), Committed(Booking(s, slot.eventId, u, Confirmed)))
  }

  /**
   * The writes of a successful attempt on the store `db` as it stands at the
   * guarded writes: bump the slot's counter and version, insert the CONFIRMED
   * booking and bump the event's version.
   */
  function Reserved(db: Db, s: SlotId, u: UserId): (r: Db)
    requires Linked(db) && s in db.slots
    ensures Linked(r) && SameRows(db, r)
  {
    var slot := db.slots[s];
    Db(db.slots[s := slot.(currentBookings := slot.currentBookings + 1, version := slot.version + 1)],
       db.events[slot.eventId := Event(db.events[slot.eventId].version + 1)],
       db.bookings + [Booking(s, slot.eventId, u, Confirmed)])
  }

  /** The racers' requests, each run as an undisturbed attempt and committed in turn. */
  function Interleave(db: Db, racers: seq<Request>): (r: Db)
    requires Linked(db)
    ensures Linked(r) && SameRows(db, r)
    decreases |racers|, 0
  {
    if racers == [] then db
    else Interleave(Transaction(db, racers[0].slotId, racers[0].userId, Calm).0, racers[1..])
  }

  // ---------------------------------------------------------------------
  // The invariants every attempt keeps

  /**
   * Capacity and the integrity of the store hold after every attempt, whatever the
   * racers and faults; versions never go down, and a slot's bookings change
   * only together with its version.
   */
  lemma {:induction false} TransactionKeepsInvariants(db: Db, s: SlotId, u: UserId, env: Env)
    requires Valid(db)
    ensures Valid(Transaction(db, s, u, env).0) && Evolves(db, Transaction(db, s, u, env).0)
    decreases |env.racers|, 1
  {
    match Checks(db, s, u, env)
    case Some(_) =>
    case None =>
      InterleaveKeepsInvariants(db, env.racers);
      GuardedWritesKeepInvariants(db, Interleave(db, env.racers), s, u, env);
  }

  lemma {:induction false} InterleaveKeepsInvariants(db: Db, racers: seq<Request>)
    requires Valid(db)
    ensures Valid(Interleave(db, racers)) && Evolves(db, Interleave(db, racers))
    decreases |racers|, 0
  {
    if racers != [] {
      var next := Transaction(db, racers[0].slotId, racers[0].userId, Calm).0;
      TransactionKeepsInvariants(db, racers[0].slotId, racers[0].userId, Calm);
      InterleaveKeepsInvariants(next, racers[1..]);
      EvolvesTransitive(db, next, Interleave(next, racers[1..]));
    }
  }

  /**
   * The version guard is what makes the earlier capacity check safe: if the
   * slot update goes through, no racer committed on this slot, so the count
   * read in step 2 is still the live count.
   */
  lemma GuardedWritesKeepInvariants(db: Db, after: Db, s: SlotId, u: UserId, env: Env)
    requires Valid(db) && Valid(after) && Evolves(db, after) && s in db.slots
    requires ConfirmedCount(db.bookings, s) < db.slots[s].maxBookings
    ensures Valid(GuardedWrites(db, after, s, u, env).0) && Evolves(db, GuardedWrites(db, after, s, u, env).0)
  {
    if GuardedWrites(db, after, s, u, env).1.Committed? {
      assert after.slots[s].version == db.slots[s].version;
      assert ConfirmedCount(after.bookings, s) == ConfirmedCount(db.bookings, s);
      ReservationIsValid(after, s, u);
      ReservationEvolves(after, s, u);
      EvolvesTransitive(db, after, Reserved(after, s, u));
    }
  }

  /** The cached `currentBookings` of every slot equals its live CONFIRMED count. */
  ghost predicate CounterInStep(db: Db) {
    forall t :: t in db.slots ==> db.slots[t].currentBookings == ConfirmedCount(db.bookings, t)
  }

  /**
   * The engine's own writes keep the cached counter in step with the live
   * count: a commit raises both by one, a rollback restores both.
   */
  lemma {:induction false} TransactionKeepsCounter(db: Db, s: SlotId, u: UserId, env: Env)
    requires Valid(db) && CounterInStep(db)
    ensures CounterInStep(Transaction(db, s, u, env).0)
    decreases |env.racers|, 1
  {
    match Checks(db, s, u, env)
    case Some(_) =>
    case None =>
      var after := Interleave(db, env.racers);
      InterleaveKeepsInvariants(db, env.racers);
      InterleaveKeepsCounter(db, env.racers);
      if GuardedWrites(db, after, s, u, env).1.Committed? {
        ReservationKeepsCounter(after, s, u);
      }
  }

  lemma {:induction false} InterleaveKeepsCounter(db: Db, racers: seq<Request>)
    requires Valid(db) && CounterInStep(db)
    ensures CounterInStep(Interleave(db, racers))
    decreases |racers|, 0
  {
    if racers != [] {
      TransactionKeepsInvariants(db, racers[0].slotId, racers[0].userId, Calm);
      TransactionKeepsCounter(db, racers[0].slotId, racers[0].userId, Calm);
      InterleaveKeepsCounter(Transaction(db, racers[0].slotId, racers[0].userId, Calm).0, racers[1..]);
    }
  }

  lemma ReservationKeepsCounter(db: Db, s: SlotId, u: UserId)
    requires Linked(db) && s in db.slots && CounterInStep(db)
    ensures CounterInStep(Reserved(db, s, u))
  {
    var r := Reserved(db, s, u);
    ReservationCounts(db, s, u);
    forall t | t in r.slots ensures r.slots[t].currentBookings == ConfirmedCount(r.bookings, t) {
      if t != s {
        assert ConfirmedCount(r.bookings, t) == ConfirmedCount(db.bookings, t);
      }
    }
  }

  lemma ReservationCounts(db: Db, s: SlotId, u: UserId)
    requires Linked(db) && s in db.slots
    ensures forall t ::
      BookingsOf(Reserved(db, s, u).bookings, t) ==
        if t == s then BookingsOf(db.bookings, t) + [Booking(s, db.slots[s].eventId, u, Confirmed)] else BookingsOf(db.bookings, t)
    ensures ConfirmedCount(Reserved(db, s, u).bookings, s) == ConfirmedCount(db.bookings, s) + 1
  {
    var b := Booking(s, db.slots[s].eventId, u, Confirmed);
    forall t {
      BookingsOfAppend(db.bookings, b, t);
    }
    CountConfirmedAppend(BookingsOf(db.bookings, s), b);
  }

  lemma ReservationIsValid(db: Db, s: SlotId, u: UserId)
    requires Valid(db) && s in db.slots
    requires ConfirmedCount(db.bookings, s) < db.slots[s].maxBookings
    requires FindBooking(db.bookings, s, u) == None
    ensures Valid(Reserved(db, s, u))
  {
    FindNoneMeansAbsent(db.bookings, s, u);
    AppendKeepsUnique(db.bookings, Booking(s, db.slots[s].eventId, u, Confirmed));
    ReservationWithinCapacity(db, s, u);
    ReservationLinksBookings(db, s, u);
  }

  lemma ReservationWithinCapacity(db: Db, s: SlotId, u: UserId)
    requires WithinCapacity(db) && Linked(db) && s in db.slots
    requires ConfirmedCount(db.bookings, s) < db.slots[s].maxBookings
    ensures WithinCapacity(Reserved(db, s, u))
  {
    var r := Reserved(db, s, u);
    forall t | t in r.slots ensures ConfirmedCount(r.bookings, t) <= r.slots[t].maxBookings {
      ReservedCountAt(db, s, u, t);
    }
  }

  /** A reservation adds one CONFIRMED booking to its own slot and none to any other. */
  lemma ReservedCountAt(db: Db, s: SlotId, u: UserId, t: SlotId)
    requires Linked(db) && s in db.slots
    ensures ConfirmedCount(Reserved(db, s, u).bookings, t) == ConfirmedCount(db.bookings, t) + (if t == s then 1 else 0)
  {
    var b := Booking(s, db.slots[s].eventId, u, Confirmed);
    BookingsOfAppend(db.bookings, b, t);
    if t == s {
      CountConfirmedAppend(BookingsOf(db.bookings, s), b);
    } else {
      assert BookingsOf(db.bookings, t) + [] == BookingsOf(db.bookings, t);
    }
  }

  lemma ReservationLinksBookings(db: Db, s: SlotId, u: UserId)
    requires Linked(db) && s in db.slots
    requires forall i :: 0 <= i < |db.bookings| ==>
      db.bookings[i].slotId in db.slots && db.bookings[i].eventId == db.slots[db.bookings[i].slotId].eventId
    ensures var r := Reserved(db, s, u);
      forall i :: 0 <= i < |r.bookings| ==>
        r.bookings[i].slotId in r.slots && r.bookings[i].eventId == r.slots[r.bookings[i].slotId].eventId
  {
    var r := Reserved(db, s, u);
    forall i | 0 <= i < |r.bookings|
      ensures r.bookings[i].slotId in r.slots && r.bookings[i].eventId == r.slots[r.bookings[i].slotId].eventId
    {
      if i < |db.bookings| {
        assert r.bookings[i] == db.bookings[i];
      }
    }
  }

  lemma ReservationEvolves(db: Db, s: SlotId, u: UserId)
    requires Linked(db) && s in db.slots
    ensures Evolves(db, Reserved(db, s, u))
  {
    ReservationCounts(db, s, u);
  }

  lemma AppendKeepsUnique(bs: seq<Booking>, b: Booking)
    requires UniqueKeys(bs)
    requires forall i :: 0 <= i < |bs| ==> Key(bs[i]) != Key(b)
    ensures UniqueKeys(bs + [b])
  {
    var r := bs + [b];
    forall i, j | 0 <= i < j < |r| ensures Key(r[i]) != Key(r[j]) {
      if j < |bs| {
        assert r[i] == bs[i] && r[j] == bs[j];
      } else {
        assert r[j] == b && r[i] == bs[i];
      }
    }
  }

  // ---------------------------------------------------------------------
  // Facts about the queries

  lemma EvolvesTransitive(a: Db, b: Db, c: Db)
    requires Evolves(a, b) && Evolves(b, c)
    ensures Evolves(a, c)
  {
  }

  lemma {:induction false} BookingsOfAppend(bs: seq<Booking>, b: Booking, t: SlotId)
    ensures BookingsOf(bs + [b], t) == BookingsOf(bs, t) + (if b.slotId == t then [b] else [])
  {
    assert (bs + [b])[..|bs + [b]| - 1] == bs;
  }

  lemma {:induction false} CountConfirmedAppend(bs: seq<Booking>, b: Booking)
    ensures CountConfirmed(bs + [b]) == CountConfirmed(bs) + (if b.status == Confirmed then 1 else 0)
  {
    assert (bs + [b])[..|bs + [b]| - 1] == bs;
  }

  lemma {:induction false} FindUserSound(bs: seq<Booking>, s: SlotId, u: UserId)
    requires forall i :: 0 <= i < |bs| ==> bs[i].slotId == s
    ensures FindUser(bs, u).Some? ==> Key(FindUser(bs, u).value) == Request(s, u)
    decreases |bs|
  {
    if bs != [] && bs[|bs| - 1].userId != u {
      FindUserSound(bs[..|bs| - 1], s, u);
    }
  }

  /** Every row of `BookingsOf(bs, s)` belongs to slot `s`, and every row of `bs` for slot `s` is among them. */
  lemma {:induction false} BookingsOfMembers(bs: seq<Booking>, s: SlotId)
    ensures forall i :: 0 <= i < |BookingsOf(bs, s)| ==> BookingsOf(bs, s)[i].slotId == s
    ensures forall i :: 0 <= i < |bs| && bs[i].slotId == s ==> bs[i] in BookingsOf(bs, s)
    decreases |bs|
  {
    if bs != [] {
      var init := bs[..|bs| - 1];
      BookingsOfMembers(init, s);
      forall i | 0 <= i < |bs| && bs[i].slotId == s ensures bs[i] in BookingsOf(bs, s) {
        if i < |bs| - 1 {
          assert bs[i] == init[i];
        }
      }
    }
  }

  lemma {:induction false} FindUserNone(bs: seq<Booking>, u: UserId)
    requires FindUser(bs, u) == None
    ensures forall b :: b in bs ==> b.userId != u
    decreases |bs|
  {
    if bs != [] {
      FindUserNone(bs[..|bs| - 1], u);
      assert bs == bs[..|bs| - 1] + [bs[|bs| - 1]];
    }
  }

  /** When the (slotId, userId) lookup finds nothing, no row carries that key. */
  lemma FindNoneMeansAbsent(bs: seq<Booking>, s: SlotId, u: UserId)
    requires FindBooking(bs, s, u) == None
    ensures forall i :: 0 <= i < |bs| ==> Key(bs[i]) != Request(s, u)
  {
    BookingsOfMembers(bs, s);
    FindUserNone(BookingsOf(bs, s), u);
  }

  // ---------------------------------------------------------------------
  // What one attempt guarantees

  /** A missing slot is rejected with SLOT_NOT_FOUND and nothing is written. */
  lemma MissingSlotRejected(db: Db, s: SlotId, u: UserId, env: Env)
    requires Valid(db) && s !in db.slots && !Faults(env, ReadSlot)
    ensures Transaction(db, s, u, env) == (db, Raised(Business(SlotNotFound)))
  {
  }

  /**
   * Capacity is decided on the live CONFIRMED count, whatever the cached
   * `currentBookings` says, and before the duplicate check: a full slot is
   * rejected with SLOT_FULL, even for a user who already holds a booking.
   */
  lemma FullSlotRejected(db: Db, s: SlotId, u: UserId, env: Env)
    requires Valid(db) && s in db.slots
    requires !Faults(env, ReadSlot) && !Faults(env, CountBookings)
    requires ConfirmedCount(db.bookings, s) >= db.slots[s].maxBookings
    ensures Transaction(db, s, u, env) == (db, Raised(Business(SlotFull)))
  {
  }

  /** A user who already holds a CONFIRMED booking for a slot with room left gets DUPLICATE_BOOKING. */
  lemma DuplicateRejected(db: Db, s: SlotId, u: UserId, env: Env)
    requires Valid(db) && s in db.slots
    requires env.fault.FaultAt? ==> env.fault.op !in {ReadSlot, CountBookings, FindExisting}
    requires ConfirmedCount(db.bookings, s) < db.slots[s].maxBookings
    requires exists i :: 0 <= i < |db.bookings| && db.bookings[i] == Booking(s, db.slots[s].eventId, u, Confirmed)
    ensures Transaction(db, s, u, env) == (db, Raised(Business(DuplicateBooking)))
  {
    var i :| 0 <= i < |db.bookings| && db.bookings[i] == Booking(s, db.slots[s].eventId, u, Confirmed);
    FoundWhenPresent(db.bookings, s, u, i);
  }

  /**
   * A committed attempt writes exactly this: the slot's version and cached
   * counter each go up by one from what it read, one CONFIRMED booking with
   * the slot's event and the user is appended, and the event's version goes
   * up by one; every other slot, event and booking is as the racers left it.
   */
  lemma CommitWritesExactly(db: Db, s: SlotId, u: UserId, env: Env)
    requires Valid(db)
    requires Transaction(db, s, u, env).1.Committed?
    ensures s in db.slots
    ensures WritesExactly(db, Interleave(db, env.racers), s, u, Transaction(db, s, u, env))
  {
    var after := Interleave(db, env.racers);
    assert Checks(db, s, u, env).None?;
    assert Transaction(db, s, u, env) == GuardedWrites(db, after, s, u, env);
    InterleaveKeepsSlot(db, env.racers, s);
    GuardedCommitWritesExactly(db, after, s, u, env);
  }

  /**
   * The result `res` of an attempt on `db` whose racers left the store as
   * `after` is the CONFIRMED booking of `u` for `s`, and the store `after`
   * with exactly that attempt's writes, the slot's version taken from what
   * the attempt read.
   */
  ghost predicate WritesExactly(db: Db, after: Db, s: SlotId, u: UserId, res: (Db, AttemptOutcome))
    requires s in db.slots && s in after.slots && db.slots[s].eventId in db.events
  {
    var slot := db.slots[s];
    && res.1 == Committed(Booking(s, slot.eventId, u, Confirmed))
    && res.0.slots == after.slots[s := slot.(currentBookings := after.slots[s].currentBookings + 1, version := slot.version + 1)]
    && res.0.events == after.events[slot.eventId := Event(db.events[slot.eventId].version + 1)]
    && res.0.bookings == after.bookings + [res.1.booking]
    && ConfirmedCount(res.0.bookings, s) == ConfirmedCount(db.bookings, s) + 1 <= slot.maxBookings
  }

  /** The racers leave a slot's capacity alone, and its bookings too unless they bump its version. */
  lemma InterleaveKeepsSlot(db: Db, racers: seq<Request>, s: SlotId)
    requires Valid(db) && s in db.slots
    ensures
      var after := Interleave(db, racers);
      && after.slots[s].maxBookings == db.slots[s].maxBookings
      && (after.slots[s].version == db.slots[s].version ==> BookingsOf(after.bookings, s) == BookingsOf(db.bookings, s))
  {
    InterleaveKeepsInvariants(db, racers);
  }

  lemma GuardedCommitWritesExactly(db: Db, after: Db, s: SlotId, u: UserId, env: Env)
    requires Linked(db) && Linked(after) && SameRows(db, after) && s in db.slots
    requires after.slots[s].version == db.slots[s].version ==> BookingsOf(after.bookings, s) == BookingsOf(db.bookings, s)
    requires after.slots[s].maxBookings == db.slots[s].maxBookings
    requires ConfirmedCount(db.bookings, s) < db.slots[s].maxBookings
    requires GuardedWrites(db, after, s, u, env).1.Committed?
    ensures WritesExactly(db, after, s, u, GuardedWrites(db, after, s, u, env))
  {
    GuardsPassed(db, after, s, u, env);
    PassedGuardsWriteExactly(db, after, s, u);
  }

  /** A committed guarded write found both versions as the attempt read them. */
  lemma GuardsPassed(db: Db, after: Db, s: SlotId, u: UserId, env: Env)
    requires Linked(db) && Linked(after) && SameRows(db, after) && s in db.slots
    requires GuardedWrites(db, after, s, u, env).1.Committed?
    ensures after.slots[s].version == db.slots[s].version
    ensures after.events[db.slots[s].eventId].version == db.events[db.slots[s].eventId].version
    ensures GuardedWrites(db, after, s, u, env) == (Reserved(after, s, u), Committed(Booking(s, db.slots[s].eventId, u, Confirmed)))
  {
  }

  lemma PassedGuardsWriteExactly(db: Db, after: Db, s: SlotId, u: UserId)
    requires Linked(after) && s in db.slots && s in after.slots && db.slots[s].eventId in db.events
    requires after.slots[s].eventId == db.slots[s].eventId
    requires after.slots[s].version == db.slots[s].version
    requires after.events[db.slots[s].eventId].version == db.events[db.slots[s].eventId].version
    requires BookingsOf(after.bookings, s) == BookingsOf(db.bookings, s)
    requires after.slots[s].maxBookings == db.slots[s].maxBookings
    requires ConfirmedCount(db.bookings, s) < db.slots[s].maxBookings
    ensures WritesExactly(db, after, s, u, (Reserved(after, s, u), Committed(Booking(s, db.slots[s].eventId, u, Confirmed))))
  {
    var slot := db.slots[s];
    var b := Booking(s, slot.eventId, u, Confirmed);
    var r := Reserved(after, s, u);
    assert r.slots == after.slots[s := slot.(currentBookings := after.slots[s].currentBookings + 1, version := slot.version + 1)] by {
      ReservedSlotRow(after, s, u, slot);
    }
    assert r.events == after.events[slot.eventId := Event(db.events[slot.eventId].version + 1)];
    assert r.bookings == after.bookings + [b];
    assert ConfirmedCount(r.bookings, s) == ConfirmedCount(db.bookings, s) + 1 by {
      PassedGuardsCount(db, after, s, u);
    }
    WritesExactlyFromParts(db, after, s, u, (r, Committed(b)));
  }

  lemma WritesExactlyFromParts(db: Db, after: Db, s: SlotId, u: UserId, res: (Db, AttemptOutcome))
    requires s in db.slots && s in after.slots && db.slots[s].eventId in db.events
    requires res.1 == Committed(Booking(s, db.slots[s].eventId, u, Confirmed))
    requires res.0.slots == after.slots[s := db.slots[s].(currentBookings := after.slots[s].currentBookings + 1, version := db.slots[s].version + 1)]
    requires res.0.events == after.events[db.slots[s].eventId := Event(db.events[db.slots[s].eventId].version + 1)]
    requires res.0.bookings == after.bookings + [res.1.booking]
    requires ConfirmedCount(res.0.bookings, s) == ConfirmedCount(db.bookings, s) + 1 <= db.slots[s].maxBookings
    ensures WritesExactly(db, after, s, u, res)
  {
  }

  lemma PassedGuardsCount(db: Db, after: Db, s: SlotId, u: UserId)
    requires Linked(after) && s in after.slots
    requires BookingsOf(after.bookings, s) == BookingsOf(db.bookings, s)
    ensures ConfirmedCount(Reserved(after, s, u).bookings, s) == ConfirmedCount(db.bookings, s) + 1
  {
    ReservedCountAt(after, s, u, s);
  }

  lemma ReservedSlotRow(after: Db, s: SlotId, u: UserId, slot: Slot)
    requires Linked(after) && s in after.slots
    requires after.slots[s] == slot.(currentBookings := after.slots[s].currentBookings)
    ensures Reserved(after, s, u).slots == after.slots[s := slot.(currentBookings := after.slots[s].currentBookings + 1, version := slot.version + 1)]
  {
  }

  /**
   * A stale version never writes: when the racers bumped the slot's version,
   * or the event's version, the attempt fails and every write of its own is
   * rolled back.
   */
  lemma StaleVersionNeverWrites(db: Db, s: SlotId, u: UserId, env: Env)
    requires Valid(db) && s in db.slots
    requires
      var after := Interleave(db, env.racers);
      || after.slots[s].version != db.slots[s].version
      || after.events[db.slots[s].eventId].version != db.events[db.slots[s].eventId].version
    ensures Transaction(db, s, u, env).1.Raised?
    ensures Transaction(db, s, u, env).0 in {db, Interleave(db, env.racers)}
  {
  }

  /**
   * The event's version guard makes bookings of sibling slots conflict: when
   * another slot of the same event takes a booking in the window, this
   * attempt's slot update goes through but its event update matches no row,
   * and the whole attempt rolls back.
   */
  lemma SiblingBookingConflicts(db: Db, s: SlotId, u: UserId, t: SlotId, a: UserId)
    requires Valid(db) && s in db.slots && t in db.slots && t != s
    requires db.slots[t].eventId == db.slots[s].eventId
    requires ConfirmedCount(db.bookings, s) < db.slots[s].maxBookings
    requires ConfirmedCount(db.bookings, t) < db.slots[t].maxBookings
    requires forall i :: 0 <= i < |db.bookings| ==> Key(db.bookings[i]) != Request(s, u) && Key(db.bookings[i]) != Request(t, a)
    ensures Transaction(db, s, u, Env([Request(t, a)], NoFault)) == (Reserved(db, t, a), Raised(StaleGuardError))
  {
    var env := Env([Request(t, a)], NoFault);
    CalmAttemptCommits(db, t, a);
    var after := Reserved(db, t, a);
    assert Interleave(db, env.racers) == after by {
      assert env.racers[1..] == [];
    }
    if FindBooking(db.bookings, s, u).Some? {
      FoundIsPresent(db.bookings, s, u);
      assert false;
    }
    ReservationCounts(db, t, a);
    assert BookingsOf(after.bookings, s) == BookingsOf(db.bookings, s);
    assert FindBooking(after.bookings, s, u) == FindBooking(db.bookings, s, u);
  }

  /** Every failed attempt leaves the store as it was or as the racers left it. */
  lemma FailureWritesNothing(db: Db, s: SlotId, u: UserId, env: Env)
    requires Valid(db)
    requires Transaction(db, s, u, env).1.Raised?
    ensures Transaction(db, s, u, env).0 in {db, Interleave(db, env.racers)}
  {
  }

  /** An undisturbed attempt on a slot with room and no booking of the user's commits. */
  lemma CalmAttemptCommits(db: Db, s: SlotId, u: UserId)
    requires Valid(db) && s in db.slots
    requires ConfirmedCount(db.bookings, s) < db.slots[s].maxBookings
    requires forall i :: 0 <= i < |db.bookings| ==> Key(db.bookings[i]) != Request(s, u)
    ensures Transaction(db, s, u, Calm) == (Reserved(db, s, u), Committed(Booking(s, db.slots[s].eventId, u, Confirmed)))
  {
    if FindBooking(db.bookings, s, u).Some? {
      FoundIsPresent(db.bookings, s, u);
      assert false;
    }
    assert Interleave(db, []) == db;
  }

  /** Success never creates a second CONFIRMED booking for the same (slot, user). */
  lemma ValidHasOneConfirmedPerUser(db: Db)
    requires Valid(db)
    ensures OneConfirmedPerUser(db.bookings)
  {
  }

  lemma {:induction false} FoundWhenPresent(bs: seq<Booking>, s: SlotId, u: UserId, i: int)
    requires UniqueKeys(bs) && 0 <= i < |bs| && Key(bs[i]) == Request(s, u)
    ensures FindBooking(bs, s, u) == Some(bs[i])
    decreases |bs|
  {
    var last := |bs| - 1;
    var init := bs[..last];
    assert bs == init + [bs[last]];
    BookingsOfAppend(init, bs[last], s);
    if i == last {
      assert BookingsOf(bs, s) == BookingsOf(init, s) + [bs[last]];
    } else {
      assert Key(init[i]) == Request(s, u);
      assert UniqueKeys(init) by {
        forall a, c | 0 <= a < c < |init| ensures Key(init[a]) != Key(init[c]) {
          assert init[a] == bs[a] && init[c] == bs[c];
        }
      }
      FoundWhenPresent(init, s, u, i);
      assert Key(bs[last]) != Key(bs[i]);
      if bs[last].slotId == s {
        assert BookingsOf(bs, s) == BookingsOf(init, s) + [bs[last]];
        FindUserSkips(BookingsOf(init, s), bs[last], u);
      } else {
        assert BookingsOf(bs, s) == BookingsOf(init, s);
      }
    }
  }

  lemma FindUserSkips(bs: seq<Booking>, b: Booking, u: UserId)
    requires b.userId != u
    ensures FindUser(bs + [b], u) == FindUser(bs, u)
  {
    assert (bs + [b])[..|bs + [b]| - 1] == bs;
  }

  lemma {:induction false} FoundIsPresent(bs: seq<Booking>, s: SlotId, u: UserId)
    requires FindBooking(bs, s, u).Some?
    ensures FindBooking(bs, s, u).value in bs
  {
    BookingsOfMembers(bs, s);
    FindUserMember(BookingsOf(bs, s), u);
    BookingsOfSubset(bs, s);
  }

  lemma {:induction false} FindUserMember(bs: seq<Booking>, u: UserId)
    requires FindUser(bs, u).Some?
    ensures FindUser(bs, u).value in bs
    decreases |bs|
  {
    if bs[|bs| - 1].userId != u {
      FindUserMember(bs[..|bs| - 1], u);
    }
  }

  lemma {:induction false} BookingsOfSubset(bs: seq<Booking>, s: SlotId)
    ensures forall b :: b in BookingsOf(bs, s) ==> b in bs
    decreases |bs|
  {
    if bs != [] {
      BookingsOfSubset(bs[..|bs| - 1], s);
    }
  }

  // ---------------------------------------------------------------------
  // The store as the transaction changes it in place

  /**
   * The slot, event and booking tables; `Attempt` runs one reservation
   * transaction on them, writing rows in place and restoring them when the
   * attempt fails.
   */
  class Store {
    var slots: map<SlotId, Slot>
    var events: map<EventId, Event>
    var bookings: seq<Booking>

    function State(): Db
      reads this
    {
      Db(slots, events, bookings)
    }

    constructor (db: Db)
      requires Valid(db)
      ensures State() == db
    {
      slots, events, bookings := db.slots, db.events, db.bookings;
    }

    /** The racers' requests commit against the live tables. */
    method LetRacersCommit(racers: seq<Request>)
      requires Linked(State())
      modifies this
      ensures State() == Interleave(old(State()), racers)
    {
      var next := Interleave(State(), racers);
      slots, events, bookings := next.slots, next.events, next.bookings;
    }

    /**
     * One reservation transaction on the live tables: the reads and business
     * checks, then the racers' window, then the guarded writes.
     */
    method Attempt(slotId: SlotId, userId: UserId, env: Env) returns (outcome: AttemptOutcome)
      requires Linked(State())
      modifies this
      ensures (State(), outcome) == Transaction(old(State()), slotId, userId, env)
    {
      ghost var db := State();
      // 1. read the slot with its version and its event's version
      if Faults(env, ReadSlot) {
        return Raised(FaultError(env));
      }
      if slotId !in slots {
        return Raised(Business(SlotNotFound));
      }
      var slot := slots[slotId];
      var eventVersion := events[slot.eventId].version;
      // 2. capacity, on the live count of CONFIRMED bookings
      if Faults(env, CountBookings) {
        return Raised(FaultError(env));
      }
      var currentBookingCount := ConfirmedCount(bookings, slotId);
      if currentBookingCount >= slot.maxBookings {
        return Raised(Business(SlotFull));
      }
      // 3. an existing booking under the (slotId, userId) key
      if Faults(env, FindExisting) {
        return Raised(FaultError(env));
      }
      var existing := FindBooking(bookings, slotId, userId);
      if IsConfirmed(existing) {
        return Raised(Business(DuplicateBooking));
      }
      assert Checks(db, slotId, userId, env).None?;
      LetRacersCommit(env.racers);
      outcome := WriteGuarded(db, slot, eventVersion, slotId, userId, env);
    }

    /**
     * Steps 4 to 6 in place: each write is made on the live tables, and a
     * failure restores the tables as they were before the first write.
     */
    method WriteGuarded(ghost db: Db, slot: Slot, eventVersion: nat, slotId: SlotId, userId: UserId, env: Env)
      returns (outcome: AttemptOutcome)
      requires Linked(db) && Linked(State()) && SameRows(db, State()) && slotId in db.slots
      requires slot == db.slots[slotId] && eventVersion == db.events[slot.eventId].version
      modifies this
      ensures (State(), outcome) == GuardedWrites(db, old(State()), slotId, userId, env)
    {
      var committedSlots, committedEvents, committedBookings := slots, events, bookings;
      // 4. update the slot, guarded by the version read in step 1
      if Faults(env, UpdateSlot) {
        return Raised(FaultError(env));
      }
      if slots[slotId].version != slot.version {
        return Raised(StaleGuardError);
      }
      var current := slots[slotId];
      slots := slots[slotId := current.(currentBookings := current.currentBookings + 1, version := current.version + 1)];
      // 5. create the booking
      if Faults(env, CreateBooking) {
        slots := committedSlots;
        return Raised(FaultError(env));
      }
      if FindBooking(bookings, slotId, userId).Some? {
        slots := committedSlots;
        return Raised(UniqueViolationError);
      }
      var newBooking := Booking(slotId, slot.eventId, userId, Confirmed);
      bookings := bookings + [newBooking];
      // 6. update the event, guarded by the event version read in step 1
      if Faults(env, UpdateEvent) {
        slots, bookings := committedSlots, committedBookings;
        return Raised(FaultError(env));
      }
      if events[slot.eventId].version != eventVersion {
        slots, bookings := committedSlots, committedBookings;
        return Raised(StaleGuardError);
      }
      events := events[slot.eventId := Event(events[slot.eventId].version + 1)];
      if Faults(env, Commit) {
        slots, events, bookings := committedSlots, committedEvents, committedBookings;
        return Raised(FaultError(env));
      }
      return Committed(newBooking);
    }
  }
}
