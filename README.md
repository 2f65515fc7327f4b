# Slot booking engine with optimistic concurrency, in Dafny

This project models the slot-reservation engine of the booking back end (`SlotBookingService` in
`service/slot.booking.js`) and proves what it promises. The engine books capacity-bounded time slots
for many concurrent requesters. Each request has three parts:

- **A reservation transaction.** It reads the slot and the version of the slot's event. It rejects a
  missing slot, then a full slot, then a user who already holds a CONFIRMED booking. It then makes a
  version-guarded slot update, inserts the booking and makes a version-guarded event update, all or
  nothing.
- **A conflict classifier** (`isVersionConflictError`).
- **A retry loop** (`createSlotBookingOptimistic`). It retries a conflict after an exponential
  backoff with jitter, for up to `maxRetries` attempts. It then builds the result object
  `{ success, booking | error, retryCount }`.

The entry point `createSlotBooking` also keeps `concurrentRequests`, a per-slot tally of the
requests in flight.

The modules follow the program's parts:

- `Classifier` (classifier.dfy): `SlotBookingError` and the other errors an attempt can throw, the
  predicate `isVersionConflictError`, and how the catch block sorts errors.
- `Backoff` (backoff.dfy): the configuration with its defaults, and `calculateBackoffDelay`.
- `Store` (store.dfy):
  - the slot, event and booking rows;
  - the attempt as a function `Transaction` of the store;
  - the class `Store`, whose method `Attempt` performs the same steps on its tables in place and
    restores them on failure.
- `Tracker` (tracker.dfy): the increments and decrements of `concurrentRequests`, and an exact
  multiset view of them.
- `Service` (service.dfy):
  - the retry loop as two functions: `RunFrom` makes one loop iteration's attempt, and `AfterAttempt`
    returns its result or sleeps and retries, as the catch block decides;
  - the class `SlotBookingService`, whose `while` loop runs each attempt on the store in place, lets
    `Decide` sort its outcome as the catch block does, and is proved equal to that function;
  - the lemmas about whole runs.

**How concurrency is modelled.** Each attempt gets an `Env`. `Env.racers` lists other reservation
requests that commit, one after another, between this attempt's duplicate check and its guarded
slot update. Their commits stay even if this attempt rolls back. `Env.fault` is an optional storage
error with any code and message (a timeout, a lost connection, a serialization failure) thrown at a
named step. A failure before the racers' window leaves the store unchanged. A failure after it
leaves the store as the racers left it.

**The order of the checks.** The code checks capacity before duplicates. So a user who already
holds a CONFIRMED booking on a full slot is told `SLOT_FULL`, not `DUPLICATE_BOOKING`
(`Store.FullSlotRejected`). One might expect `DUPLICATE_BOOKING` whatever the remaining capacity;
the code answers `SLOT_FULL`, and the model follows the code.

**Other points where the code decides:**

- The write order is the slot update, then the booking insert, then the event update. The source's
  step numbers say otherwise, but this is the order the statements run in.
- A booking that exists but is not CONFIRMED passes the duplicate check. The insert then violates
  the `(slotId, userId)` unique key, and that error is neither a conflict nor a business error, so
  the caller gets the generic "unexpected" result.
- Every booking bumps the event's version. So a booking on a sibling slot of the same event makes a
  racing attempt fail its event guard and retry (`Store.SiblingBookingConflicts`).
- `maxRetries` is modelled as an integer, which a caller may override. When it is below one, the loop body never
  runs and the result is "Maximum retry attempts exceeded" with `retryCount` equal to `maxRetries`.

## Model

| member | source | states |
|---|---|---|
| Classifier.Classify | service/slot.booking.js:202-246 | the catch block's order of tests: conflict exactly when `isVersionConflictError` holds; otherwise a `SlotBookingError` is a business rejection of its own kind; any other error is unexpected |
| Classifier.IsVersionConflictError | service/slot.booking.js:257-261 | the predicate itself: code P2025, or a message that includes "Record to update not found" or "version"; `Classifier.StorageVerdict` gives its meaning by offsets and `Classifier.BusinessIsNeverConflict` shows no business error meets it |
| Classifier.Contains | service/slot.booking.js:259-260 | `message.includes(text)`, scanning the offsets from the left; `Classifier.ContainsMeansOccurs` proves it true exactly when the text occurs at some offset |
| Classifier.ContainsMeansOccurs | service/slot.booking.js:259-260 | the computed `includes` is true exactly when the text occurs at some offset of the message |
| Classifier.StorageVerdict | service/slot.booking.js:257-261 | a storage error is a conflict exactly when its code is P2025 or its message contains "Record to update not found" or "version"; otherwise it is unexpected |
| Classifier.BusinessIsNeverConflict | service/slot.booking.js:113-145 | none of the three business errors is ever taken for a version conflict; each is rejected with its own kind |
| Classifier.StaleGuardIsConflict | service/slot.booking.js:148-158 | the error of a version-guarded update that matches no row is retried as a conflict |
| Classifier.UniqueViolationIsUnexpected | service/slot.booking.js:160-174 | a clash on the (slotId, userId) unique key is not retried but reported as unexpected |
| Classifier.MissingFirstChar | service/slot.booking.js:259-260 | a text cannot occur in a message that lacks its first character |
| Backoff.BackoffDelay | service/slot.booking.js:266-270 | the delay never exceeds `maxDelayMs`, is at least the exponential delay capped at `maxDelayMs`, and is at most 10% above the exponential delay |
| Backoff.ExponentialDelay | service/slot.booking.js:267 | `baseDelayMs * 2^(attempt-1)` is never below `baseDelayMs` and equals it on the first attempt |
| Backoff.JitterBounds | service/slot.booking.js:268 | `Math.random() * 0.1 * e` adds between 0 and a tenth of `e` |
| Backoff.ExponentialDelayMonotone | service/slot.booking.js:267 | a later attempt's exponential delay, capped or not, is never shorter than an earlier one's |
| Backoff.ExponentialDelayDoubles | service/slot.booking.js:267 | before jitter and the cap, each attempt's exponential delay is exactly twice the previous one's |
| Backoff.Pow2Monotone | service/slot.booking.js:267 | `Math.pow(2, n)` grows with `n` |
| Backoff.DefaultDelays | service/slot.booking.js:25-31 | with the default delays, the backoff after attempt 1 lies in [100, 110) ms and after attempt 2 in [200, 220) ms (the two retries the default `maxRetries` of 3 allows); with a larger `maxRetries`, attempt 3 would wait [400, 440) ms and attempt 6 the 2000 ms cap |
| Store.FindBooking | service/slot.booking.js:137-141 | lookup by the (slotId, userId) key returns only a booking of that slot and that user |
| Store.FoundWhenPresent | service/slot.booking.js:137-141 | under the unique key, a booking of (slot, user) present in the table is the one the lookup finds |
| Store.FoundIsPresent | service/slot.booking.js:137-141 | the lookup finds only rows that are in the table |
| Store.Checks | service/slot.booking.js:98-145 | the checks let the attempt go on to write exactly when no fault hits the reads, the slot exists, the live CONFIRMED count is below `maxBookings` and the user holds no CONFIRMED booking for the slot |
| Store.ConfirmedCount | service/slot.booking.js:118-123 | the live count of CONFIRMED bookings of one slot; `Store.ReservationCounts` and `Store.ReservedCountAt` give how an insert changes it |
| Store.ReservedCountAt | service/slot.booking.js:160-172 | an insert raises its own slot's CONFIRMED count by one and leaves every other slot's count as it was |
| Store.Transaction | service/slot.booking.js:97-194 | an attempt changes no slot or event row set and no slot's event; a business rejection writes nothing |
| Store.GuardedWrites | service/slot.booking.js:146-189 | the guarded writes roll back to the store the racers left on every failure, and every failure is a storage error |
| Store.Reserved | service/slot.booking.js:146-187 | a successful attempt's writes keep every slot's parent event and change no row set |
| Store.Interleave | service/slot.booking.js:97-194 | committed racing requests change no row set and no slot's event |
| Store.TransactionKeepsInvariants | service/slot.booking.js:97-194 | after any attempt, whatever the racers and faults: no slot exceeds its capacity in CONFIRMED bookings, the (slotId, userId) key stays unique, every booking names its slot's event, versions never decrease, and a slot whose version is unchanged has the same bookings |
| Store.InterleaveKeepsInvariants | service/slot.booking.js:97-194 | the same for any sequence of committed racing requests |
| Store.GuardedWritesKeepInvariants | service/slot.booking.js:148-158 | when the slot's version guard passes, no racer booked the slot, so the count read earlier is still live and the commit stays within capacity |
| Store.ReservationIsValid | service/slot.booking.js:146-187 | adding a booking to a slot with room and no booking of the user keeps the store's integrity |
| Store.ReservationWithinCapacity | service/slot.booking.js:132-134 | a booking on a slot below capacity keeps every slot within capacity |
| Store.ReservationCounts | service/slot.booking.js:160-172 | the insert adds the booking to its own slot's bookings only, raising that slot's CONFIRMED count by one |
| Store.ReservationEvolves | service/slot.booking.js:146-187 | a commit only raises versions and appends a booking |
| Store.AppendKeepsUnique | service/slot.booking.js:160-172 | inserting a booking whose key is new keeps the (slotId, userId) key unique |
| Store.TransactionKeepsCounter | service/slot.booking.js:148-158 | if the cached `currentBookings` equalled the live CONFIRMED count before an attempt, it still does afterwards |
| Store.InterleaveKeepsCounter | service/slot.booking.js:148-158 | the same for any sequence of committed racing requests |
| Store.ReservationKeepsCounter | service/slot.booking.js:148-172 | a commit raises the cached counter and the live count of its slot together |
| Store.MissingSlotRejected | service/slot.booking.js:113-115 | a missing slot fails with SLOT_NOT_FOUND and nothing is written |
| Store.FullSlotRejected | service/slot.booking.js:117-134 | a slot whose live CONFIRMED count has reached `maxBookings` fails with SLOT_FULL and nothing is written, even when the user already holds a booking and whatever the cached counter says |
| Store.DuplicateRejected | service/slot.booking.js:136-145 | a user holding a CONFIRMED booking for a slot with room left fails with DUPLICATE_BOOKING and nothing is written |
| Store.CommitWritesExactly | service/slot.booking.js:146-189 | a committed attempt raises the slot's version by one from the version it read, raises the cached counter and the event version by one, and appends exactly the CONFIRMED booking of that user with the slot's event; everything else is as the racers left it, and the live count rises by one and stays within capacity |
| Store.GuardedCommitWritesExactly | service/slot.booking.js:146-189 | the same for the guarded writes alone |
| Store.StaleVersionNeverWrites | service/slot.booking.js:148-158 | when racers moved the slot's or the event's version, the attempt fails and none of its writes remain |
| Store.SiblingBookingConflicts | service/slot.booking.js:178-187 | a racer booking another slot of the same event makes this attempt fail its event guard and roll back |
| Store.FailureWritesNothing | service/slot.booking.js:97-194 | a failed attempt leaves the store as it was or as the racers left it |
| Store.CalmAttemptCommits | service/slot.booking.js:97-194 | an undisturbed attempt on a slot with room and no booking of the user commits that user's CONFIRMED booking |
| Store.ValidHasOneConfirmedPerUser | service/slot.booking.js:136-145 | no (slot, user) ever holds two CONFIRMED bookings |
| Store.Store.Attempt | service/slot.booking.js:97-194 | the in-place attempt leaves the tables and returns the outcome exactly as `Transaction` gives them |
| Store.Store.WriteGuarded | service/slot.booking.js:146-189 | the in-place guarded writes, with rollback of the tables on every failure, leave the tables and return the outcome exactly as `GuardedWrites` gives them |
| Tracker.Acquire | service/slot.booking.js:46-47 | the slot's entry becomes one more than before, counting a missing entry as 0; other entries are unchanged |
| Tracker.Release | service/slot.booking.js:76-81 | an entry of two or more goes down by one; an entry of one, a zero entry or a missing one is deleted (a missing or zero entry reads as one); no new entry appears and entries of other slots are unchanged |
| Tracker.ReleaseUndoesAcquire | service/slot.booking.js:46-81 | counting a request in and out restores the tally exactly, when no entry is zero |
| Tracker.AcquireKeepsNoZero | service/slot.booking.js:46-47 | no entry is ever zero after counting a request in |
| Tracker.ReleaseKeepsNoZero | service/slot.booking.js:76-81 | counting out deletes the last entry instead of leaving a zero |
| Tracker.AcquireRepresents | service/slot.booking.js:46-47 | counting a request in adds it to the multiset of requests in flight that the tally counts exactly |
| Tracker.ReleaseRepresents | service/slot.booking.js:76-81 | counting a request out removes one copy of it, however the calls of other requests interleave |
| Tracker.EmptyRepresents | service/slot.booking.js:32 | the empty tally counts no request in flight |
| Service.Decide | service/slot.booking.js:196-246 | an attempt is retried exactly when its error is a conflict and attempts remain; a committed attempt returns its booking with retryCount attempt - 1; a conflict on the last allowed attempt returns the high-demand text with retryCount attempt; any other error returns, with retryCount attempt - 1, the `SlotBookingError`'s own message or else the generic unexpected text |
| Service.RunBounds | service/slot.booking.js:89-253 | a run makes at most `maxRetries` attempts with one delay between consecutive attempts and never ends in "Maximum retry attempts exceeded" once inside the loop; past `maxRetries` it makes no attempt |
| Service.RunRetryCount | service/slot.booking.js:89-253 | retryCount is attempts - 1 for a booking, a business rejection and an unexpected error; the high-demand result reports `maxRetries` after exactly `maxRetries` attempts; the trailing "Maximum retry attempts exceeded" result, which reports `maxRetries` after no attempt, is left to `Service.WholeRunBounds` |
| Service.WholeRunBounds | service/slot.booking.js:89-253 | from the first attempt: "Maximum retry attempts exceeded" is returned exactly when `maxRetries` < 1, after no attempt and with no change to the store; otherwise the run makes 1 to `maxRetries` attempts with one delay between two of them, and a booking reports attempts - 1 retries |
| Service.WaitsAreBackoffs | service/slot.booking.js:205-213 | the delay slept before each retry lies within the backoff bounds of its attempt |
| Service.DelayWithinBackoff | service/slot.booking.js:206 | the delay computed before a retry lies within that attempt's backoff bounds |
| Service.PrependWait | service/slot.booking.js:205-214 | a delay within bounds, put before delays within bounds for the later attempts, keeps every delay within its attempt's bounds |
| Service.ConflictsExhaust | service/slot.booking.js:202-220 | when every remaining attempt ends in a conflict-classified error, for any reason (a stale guard after a racer's commit, a P2025 fault, a message mentioning "version"), the run retries to the last allowed attempt and gives up with the high-demand message and a retryCount of `maxRetries`, after exactly `maxRetries` attempts and one delay between two of them |
| Service.AfterConflictExhausts | service/slot.booking.js:202-220 | after a conflict-classified error, with conflicts on every remaining attempt, the run ends with the high-demand message and a retryCount of `maxRetries`, after `maxRetries` attempts and one delay per remaining retry |
| Service.ReadConflictsExhaust | service/slot.booking.js:202-220 | when the remaining attempts all fail with a conflict while reading the slot, the run ends the same way and nothing is written |
| Service.BusinessStops | service/slot.booking.js:223-230 | a business rejection ends the run at once with its own message, a retryCount of attempt - 1 and no write |
| Service.UnexpectedStops | service/slot.booking.js:232-245 | an error that is neither a conflict nor a `SlotBookingError` ends the run at once with "An unexpected error occurred. Please try again.", a retryCount of attempt - 1 and the store as the attempt left it |
| Service.FullSlotRun | service/slot.booking.js:117-134 | a full slot gives "Slot is fully booked" on the first attempt with a retryCount of 0 and no write |
| Service.LastPlaceTaken | service/slot.booking.js:148-158 | when a racer takes the last place, the request conflicts, backs off once and gets "Slot is fully booked" with a retryCount of 1, and the store holds only the racer's booking |
| Service.RunKeepsInvariants | service/slot.booking.js:89-253 | a whole run, whatever its attempts meet, keeps capacity, the unique key and the store's integrity |
| Service.BookedIsTheUsersBooking | service/slot.booking.js:196-200 | a successful run returns the user's CONFIRMED booking for the slot, and it is the user's one booking for the slot in the final store |
| Service.CommittedIsTheUsersBooking | service/slot.booking.js:189 | a committed attempt's booking is the user's CONFIRMED booking for the slot found in the new store |
| Service.MessagesDistinct | service/slot.booking.js:216-252 | the texts the failure paths return are pairwise different: the three `SlotBookingError` messages from each other, and each of them, the unexpected text, the high-demand text and "Maximum retry attempts exceeded" from one another, so a caller that sees only `result.error` can tell the paths apart |
| Service.RunFrom | service/slot.booking.js:89-253 | a run leaves a linked store: every slot's event still exists (that each slot keeps the same event is `Service.RunKeepsInvariants`) |
| Service.AfterAttempt | service/slot.booking.js:196-246 | the rest of a run after one attempt: the catch block's return, or the backoff delay and `continue`; `Service.ReturnEndsRun` and `Service.RetryContinuesRun` state the two cases |
| Service.ReturnEndsRun | service/slot.booking.js:196-245 | an attempt whose outcome is returned ends the run with that result, that attempt's count and no further delay |
| Service.RetryContinuesRun | service/slot.booking.js:204-214 | a retried attempt sleeps its backoff delay and the run goes on from the next attempt on the store it left |
| Service.BookingRun | service/slot.booking.js:87-254 | `createSlotBookingOptimistic` as the run from attempt 1; it leaves a linked store, in which every slot's event still exists |
| Service.WithDefaults | service/slot.booking.js:25-31 | each field is the caller's value where one is given and the default (3, 100, 2000, 10) otherwise; no override gives the defaults |
| Service.SlotBookingService.constructor | service/slot.booking.js:22-33 | the service starts with the merged configuration and an empty tally, so its invariant `Valid` (no zero entry in the tally) holds |
| Service.SlotBookingService.CreateSlotBookingOptimistic | service/slot.booking.js:87-254 | the in-place `while` loop over the store leaves the store, returns the result and sleeps the delays exactly as the run `BookingRun` gives them |
| Service.Resumed | service/slot.booking.js:89-253 | the loop invariant's view of a run: the delays slept so far come first, then those of the rest of the run from the current attempt |
| Service.ReturnEndsResumed | service/slot.booking.js:196-245 | an attempt whose outcome the catch block returns fixes the whole run: the store it left, that result and attempt count, and the delays slept before it |
| Service.RetryMovesResumed | service/slot.booking.js:204-214 | a retried attempt hands the run on to the next attempt on the store it left, with its backoff delay appended to those slept so far |
| Service.SlotBookingService.CreateSlotBooking | service/slot.booking.js:40-82 | the optimistic run's result and store, with the tally counted in and out for the slot around it; it keeps `Valid`, and a call on its own leaves the tally exactly as it found it |

## Left out

- Logging, the `requestId`, the start time and the duration metrics are left out. They are I/O and clocks, and nothing depends on them.
- `delay`: the run returns the delays (`waits`) instead of sleeping them. The timer is I/O.
- `Math.random()` is a parameter: a sequence of values in [0, 1), one per retry.
- Concurrency is modelled only through `Env`. This leaves out three things:
  - the database's serializable isolation;
  - the 5000 ms transaction timeout;
  - the interleaving of other requests at points other than between the duplicate check and the guarded slot update.
  A serialization failure or a timeout is a storage fault in `Env.fault`, with whatever code and message it carries.
- Prisma's `include` shapes are left out: the related slot, event and user returned with the booking, and the slot's included CONFIRMED bookings. The booking's generated `id` and `createdAt` are left out too. A booking is its slot, event, user and status.
- `result.method = 'optimistic'` is left out. It is a constant label on the result.
- `concurrencyThreshold` is carried in the configuration but never read, as in the source.
- Service.SlotBookingService.CreateSlotBooking: its contract covers one call from start to finish. Interleaving with other calls is covered, on the tally alone, by `Tracker.AcquireRepresents` and `Tracker.ReleaseRepresents`.
- Service.WithDefaults: a JavaScript override may hold a value of any type. The model takes an integer `maxRetries` and `concurrencyThreshold` and non-negative whole-number delays.
- Service.WholeRunBounds: it holds for an integer `maxRetries` only. A fractional one changes the loop. With 2.5 and a conflict on every attempt, the code makes attempts 1 and 2, retries after attempt 2 because 2 < 2.5, leaves the loop, and returns "Maximum retry attempts exceeded" with a retryCount of 2.5. The model has no such run.
- An error thrown without a `message` is left out. The model's storage errors always carry a message string, and a missing `code` is the empty string. In the code, `error.message.includes` then throws inside the catch block, and the promise of `createSlotBooking` rejects instead of returning a result.
- Delays are exact reals, not IEEE doubles. `Math.pow`, the jitter product and the sum are not rounded.
- The controllers, validators, routes, the mailing service and the logger are not part of this model.
