/**
 * The per-slot tally of booking requests in flight that the service keeps
 * in `concurrentRequests` (service/slot.booking.js, createSlotBooking): each
 * request adds one to its slot's entry when it starts and takes one away,
 * deleting the entry at the last one, when it finishes.
 */
module Tracker {

  type SlotId = string

  /** The tally: a slot with no entry has no request in flight. */
  type Tally = map<SlotId, nat>

  /** On entry: `get(slotId) || 0`, plus one. */
  function Acquire(m: Tally, s: SlotId): (r: Tally)
    ensures s in r && r[s] == (if s in m then m[s] else 0) + 1
    ensures r.Keys == m.Keys + {s}
    ensures forall t :: t in m && t != s ==> r[t] == m[t]
  {
    m[s := (if s in m then m[s] else 0) + 1]
  }

  /**
   * In the `finally` block: `get(slotId) || 1`, so a missing or zero entry
   * reads as one; at one or less the entry is deleted, otherwise it goes
   * down by one.
   */
  function Release(m: Tally, s: SlotId): (r: Tally)
    ensures s in m && m[s] >= 2 ==> s in r && r[s] == m[s] - 1
    ensures !(s in m && m[s] >= 2) ==> s !in r
    ensures r.Keys <= m.Keys
    ensures forall t :: t in m && t != s ==> t in r && r[t] == m[t]
  {
    var current := if s in m && m[s] != 0 then m[s] else 1;
    if current <= 1 then m - {s} else m[s := current - 1]
  }

  /** No entry holds zero: a slot is either absent or has a request in flight. */
  ghost predicate NoZero(m: Tally) {
    forall t :: t in m ==> m[t] >= 1
  }

  /** `m` counts exactly the requests of the multiset `inFlight`, one entry per slot that has any. */
  ghost predicate Represents(m: Tally, inFlight: multiset<SlotId>) {
    && (forall t :: t in m ==> m[t] == inFlight[t])
    && (forall t :: t !in m ==> inFlight[t] == 0)
  }

  lemma AcquireKeepsNoZero(m: Tally, s: SlotId)
    requires NoZero(m)
    ensures NoZero(Acquire(m, s))
  {
  }

  lemma ReleaseKeepsNoZero(m: Tally, s: SlotId)
    requires NoZero(m)
    ensures NoZero(Release(m, s))
  {
  }

  /** A request that starts and finishes with nothing in between leaves the tally as it found it. */
  lemma ReleaseUndoesAcquire(m: Tally, s: SlotId)
    requires NoZero(m)
    ensures Release(Acquire(m, s), s) == m
  {
    if s in m {
      assert Acquire(m, s)[s] >= 2;
    } else {
      assert Acquire(m, s) - {s} == m;
    }
  }

  /** Starting a request adds it to the multiset the tally counts. */
  lemma AcquireRepresents(m: Tally, inFlight: multiset<SlotId>, s: SlotId)
    requires Represents(m, inFlight) && NoZero(m)
    ensures Represents(Acquire(m, s), inFlight + multiset{s})
  {
  }

  /**
   * Finishing a request removes one copy of it, whatever other requests
   * started or finished in between: the tally stays exact under any
   * interleaving of the service's concurrent calls.
   */
  lemma ReleaseRepresents(m: Tally, inFlight: multiset<SlotId>, s: SlotId)
    requires Represents(m, inFlight) && NoZero(m) && s in inFlight
    ensures Represents(Release(m, s), inFlight - multiset{s})
  {
    assert s in m;
  }

  /** The service starts with an empty tally and no request in flight. */
  lemma EmptyRepresents()
    ensures Represents(map[], multiset{})
  {
  }
}
