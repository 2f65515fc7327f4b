/**
 * The booking service (service/slot.booking.js, SlotBookingService): a
 * request for a slot runs reservation attempts against the store, retrying
 * an optimistic-locking conflict after an exponential backoff, up to
 * `maxRetries` attempts, and turns the final attempt's outcome into a result
 * object. It also keeps the per-slot tally of requests in flight.
 *
 * What happens around each attempt (the other requests that race it, a
 * storage fault) comes from a sequence of `Env`s, one per attempt; the value
 * of Math.random() drawn before each retry comes from a sequence of
 * `Fraction`s; the delays the service would sleep are returned as values.
 */
module Service {
  import opened Classifier
  import opened Backoff
  import opened Store
  import opened Tracker

  const HighDemandMessage: string := "Booking conflict due to high demand." + " Please try again."
  const UnexpectedMessage: string := "An unexpected error occurred." + " Please try again."
  const MaxRetriesMessage: string := "Maximum retry attempts exceeded"

  /** A value of Math.random(). */
  type Fraction = r: real | 0.0 <= r < 1.0

  /**
   * The result object: a success carries the booking, a failure the error
   * text, and both the retry count. `retryCount` is an int because
   * the exhausted path reports `maxRetries` itself.
   */
  datatype BookingResult =
    | Booked(booking: Booking, retryCount: int)
    | Failed(error: string, retryCount: int)

  /** What the catch block of attempt `attempt` does: return a result, or sleep and retry. */
  datatype Decision = Return(result: BookingResult) | RetryLater

  /**
   * The catch block of attempt `attempt` (and the success return before it):
   * retryCount is the number of retries made before this attempt, except
   * when a conflict exhausts the attempts, which reports the attempt itself.
   */
  function Decide(outcome: AttemptOutcome, attempt: int, maxRetries: int): (d: Decision)
    ensures d == RetryLater <==> outcome.Raised? && IsVersionConflictError(outcome.error) && attempt < maxRetries
    ensures d.Return? && d.result.Booked? <==> outcome.Committed?
    ensures d.Return? && d.result.Booked? ==> d.result.booking == outcome.booking
    ensures d.Return? ==> d.result.retryCount == if d.result == Failed(HighDemandMessage, attempt) then attempt else attempt - 1
    ensures outcome.Committed? ==> d == Return(Booked(outcome.booking, attempt - 1))
    ensures outcome.Raised? && IsVersionConflictError(outcome.error) && attempt >= maxRetries ==>
      d == Return(Failed(HighDemandMessage, attempt))
    ensures outcome.Raised? && !IsVersionConflictError(outcome.error) ==>
      d == Return(Failed(if outcome.error.Business? then Message(outcome.error) else UnexpectedMessage, attempt - 1))
  {
    match outcome
    case Committed(booking) => Return(Booked(booking, attempt - 1))
    case Raised(error) =>
      match Classify(error)
      case Conflict => if attempt < maxRetries then RetryLater else Return(Failed(HighDemandMessage, attempt))
      case Rejected(k) => Return(Failed(Message(error), attempt - 1))
      case Unexpected => Return(Failed(UnexpectedMessage, attempt - 1))
  }

  /** The surroundings of attempt number k + 1; past the given ones, nothing disturbs it. */
  function EnvAt(envs: seq<Env>, k: nat): Env {
    if k < |envs| then envs[k] else Calm
  }

  /** The value of Math.random() drawn before retry number k + 1. */
  function RandomAt(randoms: seq<Fraction>, k: nat): Fraction {
    if k < |randoms| then randoms[k] else 0.0
  }

  /** A request's run: the final store, the result, how many attempts it made and the delays it slept. */
  datatype Run = Run(db: Db, result: BookingResult, attempts: nat, waits: seq<real>)

  /** The run from attempt number `attempt` on, every earlier attempt having ended in a retry. */
  function RunFrom(cfg: Config, db: Db, s: SlotId, u: UserId, envs: seq<Env>, randoms: seq<Fraction>, attempt: nat): (run: Run)
    requires Linked(db) && attempt >= 1
    ensures Linked(run.db)
    decreases (if attempt <= cfg.maxRetries then cfg.maxRetries - attempt + 1 else 0), 1
  {
    if attempt > cfg.maxRetries then Run(db, Failed(MaxRetriesMessage, cfg.maxRetries), attempt - 1, [])
    else
      var step := Transaction(db, s, u, EnvAt(envs, attempt - 1));
      AfterAttempt(cfg, step.0, step.1, s, u, envs, randoms, attempt)
  }

  /**
   * The rest of the run once attempt number `attempt` has left the store as
   * `db` with `outcome`: return its result, or sleep the backoff and retry.
   */
  function AfterAttempt(cfg: Config, db: Db, outcome: AttemptOutcome, s: SlotId, u: UserId, envs: seq<Env>, randoms: seq<Fraction>, attempt: nat): (run: Run)
    requires Linked(db) && 1 <= attempt <= cfg.maxRetries
    ensures Linked(run.db)
    decreases cfg.maxRetries - attempt + 1, 0
  {
    match Decide(outcome, attempt, cfg.maxRetries)
    case Return(result) => Run(db, result, attempt, [])
    case RetryLater =>
      var rest := RunFrom(cfg, db, s, u, envs, randoms, attempt + 1);
      rest.(waits := [BackoffDelay(cfg, attempt, RandomAt(randoms, attempt - 1))] + rest.waits)
  }

  /** createSlotBookingOptimistic, as a function of the store it starts from. */
  function BookingRun(cfg: Config, db: Db, s: SlotId, u: UserId, envs: seq<Env>, randoms: seq<Fraction>): (run: Run)
    requires Linked(db)
    ensures Linked(run.db)
  {
    RunFrom(cfg, db, s, u, envs, randoms, 1)
  }

  // ---------------------------------------------------------------------
  // The retry loop's bookkeeping

  /**
   * The caller sees only the result's text, so every failure path answers
   * with a text of its own: the three business messages, the unexpected
   * text, the high-demand text and the exhaustion text are pairwise different.
   */
  lemma MessagesDistinct(k: BusinessCode)
    ensures BusinessMessage(k) != HighDemandMessage && BusinessMessage(k) != MaxRetriesMessage
    ensures BusinessMessage(k) != UnexpectedMessage
    ensures forall k1, k2 :: k1 != k2 ==> BusinessMessage(k1) != BusinessMessage(k2)
    ensures UnexpectedMessage != HighDemandMessage && UnexpectedMessage != MaxRetriesMessage
    ensures HighDemandMessage != MaxRetriesMessage
  {
    assert HighDemandMessage[0] == 'B' && UnexpectedMessage[0] == 'A' && MaxRetriesMessage[0] == 'M';
    assert BusinessMessage(k)[0] in {'S', 'U'};
    assert NotFoundMessage[5] == 'n' && FullMessage[5] == 'i' && DuplicateMessage[0] == 'U';
    assert NotFoundMessage[0] == 'S' && FullMessage[0] == 'S';
  }

  /**
   * How many attempts a run makes: past `maxRetries` the loop is not entered
   * at all; otherwise at most `maxRetries` attempts, one delay between
   * consecutive attempts, and never the "Maximum retry attempts exceeded" result.
   */
  lemma {:induction false} RunBounds(cfg: Config, db: Db, s: SlotId, u: UserId, envs: seq<Env>, randoms: seq<Fraction>, attempt: nat)
    requires Linked(db) && attempt >= 1
    ensures attempt > cfg.maxRetries ==>
      RunFrom(cfg, db, s, u, envs, randoms, attempt) == Run(db, Failed(MaxRetriesMessage, cfg.maxRetries), attempt - 1, [])
    ensures attempt <= cfg.maxRetries ==> Bounded(cfg, RunFrom(cfg, db, s, u, envs, randoms, attempt), attempt)
    decreases (if attempt <= cfg.maxRetries then cfg.maxRetries - attempt + 1 else 0), 1
  {
    if attempt <= cfg.maxRetries {
      var step := Transaction(db, s, u, EnvAt(envs, attempt - 1));
      AfterAttemptBounds(cfg, step.0, step.1, s, u, envs, randoms, attempt);
    }
  }

  lemma {:induction false} AfterAttemptBounds(cfg: Config, db: Db, outcome: AttemptOutcome, s: SlotId, u: UserId, envs: seq<Env>, randoms: seq<Fraction>, attempt: nat)
    requires Linked(db) && 1 <= attempt <= cfg.maxRetries
    ensures Bounded(cfg, AfterAttempt(cfg, db, outcome, s, u, envs, randoms, attempt), attempt)
    decreases cfg.maxRetries - attempt + 1, 0
  {
    if outcome.Raised? {
      DistinctFromLoopMessages(outcome.error);
    }
    if Decide(outcome, attempt, cfg.maxRetries) == RetryLater {
      RunBounds(cfg, db, s, u, envs, randoms, attempt + 1);
    }
  }

  /** A run entered at attempt `attempt` ends within the allowed attempts, sleeping once between two of them. */
  ghost predicate Bounded(cfg: Config, run: Run, attempt: nat) {
    && attempt <= run.attempts <= cfg.maxRetries
    && |run.waits| == run.attempts - attempt
    && run.result != Failed(MaxRetriesMessage, run.result.retryCount)
  }

  /**
   * What a run's retryCount reports: attempts - 1, except that the
   * high-demand result reports `maxRetries` after exactly `maxRetries` attempts.
   */
  lemma {:induction false} RunRetryCount(cfg: Config, db: Db, s: SlotId, u: UserId, envs: seq<Env>, randoms: seq<Fraction>, attempt: nat)
    requires Linked(db) && attempt >= 1
    ensures CountsRetries(cfg, RunFrom(cfg, db, s, u, envs, randoms, attempt))
    decreases (if attempt <= cfg.maxRetries then cfg.maxRetries - attempt + 1 else 0), 1
  {
    if attempt <= cfg.maxRetries {
      var step := Transaction(db, s, u, EnvAt(envs, attempt - 1));
      AfterAttemptRetryCount(cfg, step.0, step.1, s, u, envs, randoms, attempt);
    }
  }

  lemma {:induction false} AfterAttemptRetryCount(cfg: Config, db: Db, outcome: AttemptOutcome, s: SlotId, u: UserId, envs: seq<Env>, randoms: seq<Fraction>, attempt: nat)
    requires Linked(db) && 1 <= attempt <= cfg.maxRetries
    ensures CountsRetries(cfg, AfterAttempt(cfg, db, outcome, s, u, envs, randoms, attempt))
    decreases cfg.maxRetries - attempt + 1, 0
  {
    if outcome.Raised? {
      DistinctFromLoopMessages(outcome.error);
    }
    if Decide(outcome, attempt, cfg.maxRetries) == RetryLater {
      RunRetryCount(cfg, db, s, u, envs, randoms, attempt + 1);
    }
  }

  /** The retryCount a run's result reports, against the attempts it made. */
  ghost predicate CountsRetries(cfg: Config, run: Run) {
    && (run.result.Booked? ==> run.result.retryCount == run.attempts - 1)
    && (run.result.Failed? && run.result.error == HighDemandMessage ==> run.result.retryCount == run.attempts == cfg.maxRetries)
    && (run.result.Failed? && run.result.error != HighDemandMessage && run.result.error != MaxRetriesMessage ==>
          run.result.retryCount == run.attempts - 1)
  }

  /** Within the allowed attempts, a run makes its attempt and goes on from that attempt's outcome. */
  lemma RunStartsWithAttempt(cfg: Config, db: Db, s: SlotId, u: UserId, envs: seq<Env>, randoms: seq<Fraction>, attempt: nat)
    requires Linked(db) && 1 <= attempt <= cfg.maxRetries
    ensures RunFrom(cfg, db, s, u, envs, randoms, attempt) ==
      AfterAttempt(cfg, Transaction(db, s, u, EnvAt(envs, attempt - 1)).0, Transaction(db, s, u, EnvAt(envs, attempt - 1)).1, s, u, envs, randoms, attempt)
  {
  }

  /** An attempt whose outcome is returned ends the run there, with no further delay. */
  lemma ReturnEndsRun(cfg: Config, db: Db, outcome: AttemptOutcome, s: SlotId, u: UserId, envs: seq<Env>, randoms: seq<Fraction>, attempt: nat, result: BookingResult)
    requires Linked(db) && 1 <= attempt <= cfg.maxRetries
    requires Decide(outcome, attempt, cfg.maxRetries) == Return(result)
    ensures AfterAttempt(cfg, db, outcome, s, u, envs, randoms, attempt) == Run(db, result, attempt, [])
  {
  }

  /** A retried attempt sleeps its backoff delay, then the run goes on from the next attempt. */
  lemma RetryContinuesRun(cfg: Config, db: Db, outcome: AttemptOutcome, s: SlotId, u: UserId, envs: seq<Env>, randoms: seq<Fraction>, attempt: nat)
    requires Linked(db) && 1 <= attempt < cfg.maxRetries
    requires outcome.Raised? && IsVersionConflictError(outcome.error)
    ensures AfterAttempt(cfg, db, outcome, s, u, envs, randoms, attempt) ==
      RunFrom(cfg, db, s, u, envs, randoms, attempt + 1).(waits := [BackoffDelay(cfg, attempt, RandomAt(randoms, attempt - 1))] + RunFrom(cfg, db, s, u, envs, randoms, attempt + 1).waits)
  {
  }

  /**
   * The loop's view of a run: the delays slept so far, followed by the rest
   * of the run from attempt number `attempt` on the store as it now is.
   */
  function Resumed(cfg: Config, db: Db, s: SlotId, u: UserId, envs: seq<Env>, randoms: seq<Fraction>, attempt: nat, waits: seq<real>): (run: Run)
    requires Linked(db) && attempt >= 1
    ensures |run.waits| >= |waits| && run.waits[..|waits|] == waits
  {
    var rest := RunFrom(cfg, db, s, u, envs, randoms, attempt);
    assert (waits + rest.waits)[..|waits|] == waits;
    rest.(waits := waits + rest.waits)
  }

  /** An attempt whose outcome is returned leaves, as the whole run, its store and result after the delays slept so far. */
  lemma ReturnEndsResumed(cfg: Config, before: Db, after: Db, outcome: AttemptOutcome, s: SlotId, u: UserId, envs: seq<Env>, randoms: seq<Fraction>, attempt: nat, waits: seq<real>, result: BookingResult)
    requires Linked(before) && 1 <= attempt <= cfg.maxRetries
    requires (after, outcome) == Transaction(before, s, u, EnvAt(envs, attempt - 1))
    requires Decide(outcome, attempt, cfg.maxRetries) == Return(result)
    ensures Resumed(cfg, before, s, u, envs, randoms, attempt, waits) == Run(after, result, attempt, waits)
  {
    RunStartsWithAttempt(cfg, before, s, u, envs, randoms, attempt);
    ReturnEndsRun(cfg, after, outcome, s, u, envs, randoms, attempt, result);
    assert waits + [] == waits;
  }

  /** A retried attempt moves the run on to the next attempt, its backoff delay appended to those slept so far. */
  lemma RetryMovesResumed(cfg: Config, before: Db, after: Db, outcome: AttemptOutcome, s: SlotId, u: UserId, envs: seq<Env>, randoms: seq<Fraction>, attempt: nat, waits: seq<real>)
    requires Linked(before) && 1 <= attempt <= cfg.maxRetries
    requires (after, outcome) == Transaction(before, s, u, EnvAt(envs, attempt - 1))
    requires Decide(outcome, attempt, cfg.maxRetries) == RetryLater
    ensures Linked(after)
    ensures Resumed(cfg, before, s, u, envs, randoms, attempt, waits) ==
      Resumed(cfg, after, s, u, envs, randoms, attempt + 1, waits + [BackoffDelay(cfg, attempt, RandomAt(randoms, attempt - 1))])
  {
    RunStartsWithAttempt(cfg, before, s, u, envs, randoms, attempt);
    RetryContinuesRun(cfg, after, outcome, s, u, envs, randoms, attempt);
    var rest := RunFrom(cfg, after, s, u, envs, randoms, attempt + 1);
    var delay := BackoffDelay(cfg, attempt, RandomAt(randoms, attempt - 1));
    assert waits + ([delay] + rest.waits) == (waits + [delay]) + rest.waits;
  }

  /** The message an attempt's own failure returns is never one of the two the loop returns on exhaustion. */
  lemma DistinctFromLoopMessages(error: Thrown)
    ensures Classify(error).Rejected? ==> Message(error) != HighDemandMessage && Message(error) != MaxRetriesMessage
    ensures UnexpectedMessage != HighDemandMessage && UnexpectedMessage != MaxRetriesMessage
    ensures HighDemandMessage != MaxRetriesMessage
  {
    match Classify(error)
    case Conflict => MessagesDistinct(SlotFull);
    case Rejected(k) => MessagesDistinct(k);
    case Unexpected => MessagesDistinct(SlotFull);
  }

  /**
   * A whole run, from the first attempt: "Maximum retry attempts exceeded"
   * comes exactly when maxRetries < 1, with no attempt made; otherwise the
   * run makes 1 to maxRetries attempts with one delay between two of them,
   * and a booking reports attempts - 1 retries.
   */
  lemma WholeRunBounds(cfg: Config, db: Db, s: SlotId, u: UserId, envs: seq<Env>, randoms: seq<Fraction>)
    requires Linked(db)
    ensures
      var run := BookingRun(cfg, db, s, u, envs, randoms);
      && (run.result.Failed? && run.result.error == MaxRetriesMessage <==> cfg.maxRetries < 1)
      && (cfg.maxRetries < 1 ==> run == Run(db, Failed(MaxRetriesMessage, cfg.maxRetries), 0, []))
      && (cfg.maxRetries >= 1 ==> 1 <= run.attempts <= cfg.maxRetries && |run.waits| == run.attempts - 1)
      && (run.result.Booked? ==> run.result.retryCount == run.attempts - 1)
  {
    RunBounds(cfg, db, s, u, envs, randoms, 1);
    RunRetryCount(cfg, db, s, u, envs, randoms, 1);
    if cfg.maxRetries >= 1 {
      assert Bounded(cfg, BookingRun(cfg, db, s, u, envs, randoms), 1);
    }
  }

  /**
   * Every delay a run sleeps before its retry number k + 1 is the backoff of
   * that attempt: at least the capped exponential delay, at most the cap and
   * at most 10% above the exponential delay.
   */
  lemma {:induction false} WaitsAreBackoffs(cfg: Config, db: Db, s: SlotId, u: UserId, envs: seq<Env>, randoms: seq<Fraction>, attempt: nat)
    requires Linked(db) && attempt >= 1
    ensures forall k :: 0 <= k < |RunFrom(cfg, db, s, u, envs, randoms, attempt).waits| ==>
      WithinBackoff(cfg, attempt + k, RunFrom(cfg, db, s, u, envs, randoms, attempt).waits[k])
    decreases (if attempt <= cfg.maxRetries then cfg.maxRetries - attempt + 1 else 0), 1
  {
    if attempt <= cfg.maxRetries {
      var step := Transaction(db, s, u, EnvAt(envs, attempt - 1));
      AfterAttemptWaits(cfg, step.0, step.1, s, u, envs, randoms, attempt);
    }
  }

  lemma {:induction false} AfterAttemptWaits(cfg: Config, db: Db, outcome: AttemptOutcome, s: SlotId, u: UserId, envs: seq<Env>, randoms: seq<Fraction>, attempt: nat)
    requires Linked(db) && 1 <= attempt <= cfg.maxRetries
    ensures forall k :: 0 <= k < |AfterAttempt(cfg, db, outcome, s, u, envs, randoms, attempt).waits| ==>
      WithinBackoff(cfg, attempt + k, AfterAttempt(cfg, db, outcome, s, u, envs, randoms, attempt).waits[k])
    decreases cfg.maxRetries - attempt + 1, 0
  {
    if Decide(outcome, attempt, cfg.maxRetries) == RetryLater {
      var rest := RunFrom(cfg, db, s, u, envs, randoms, attempt + 1);
      WaitsAreBackoffs(cfg, db, s, u, envs, randoms, attempt + 1);
      var delay := BackoffDelay(cfg, attempt, RandomAt(randoms, attempt - 1));
      DelayWithinBackoff(cfg, attempt, RandomAt(randoms, attempt - 1));
      PrependWait(cfg, attempt, attempt + 1, delay, rest.waits);
    }
  }

  lemma DelayWithinBackoff(cfg: Config, attempt: nat, random: Fraction)
    requires attempt >= 1
    ensures WithinBackoff(cfg, attempt, BackoffDelay(cfg, attempt, random))
  {
  }

  lemma PrependWait(cfg: Config, attempt: nat, next: nat, delay: real, rest: seq<real>)
    requires attempt >= 1 && next == attempt + 1
    requires WithinBackoff(cfg, attempt, delay)
    requires forall k :: 0 <= k < |rest| ==> WithinBackoff(cfg, next + k, rest[k])
    ensures forall k :: 0 <= k < |[delay] + rest| ==> WithinBackoff(cfg, attempt + k, ([delay] + rest)[k])
  {
    forall k | 0 <= k < |[delay] + rest| ensures WithinBackoff(cfg, attempt + k, ([delay] + rest)[k]) {
      if k > 0 {
        assert ([delay] + rest)[k] == rest[k - 1];
        assert next + (k - 1) == attempt + k;
      }
    }
  }

  /** The bounds calculateBackoffDelay keeps for attempt number `attempt`. */
  ghost predicate WithinBackoff(cfg: Config, attempt: nat, d: real)
    requires attempt >= 1
  {
    && Min(ExponentialDelay(cfg, attempt), cfg.maxDelayMs as real) <= d <= cfg.maxDelayMs as real
    && d <= ExponentialDelay(cfg, attempt) * 1.1
  }

  /** An attempt that fails at once with a retryable conflict, e.g. a P2025 while reading the slot. */
  predicate ConflictAtRead(env: Env) {
    Faults(env, ReadSlot) && IsVersionConflictError(FaultError(env))
  }

  /**
   * Every attempt from `attempt` up to `maxRetries` ends in a conflict-classified
   * error, each on the store the previous attempt left: a stale version
   * guard because a racer committed first, a P2025 fault, a serialization
   * failure whose message mentions "version", and so on.
   */
  ghost predicate ConflictsThroughout(cfg: Config, db: Db, s: SlotId, u: UserId, envs: seq<Env>, attempt: nat)
    requires Linked(db) && attempt >= 1
    decreases if attempt <= cfg.maxRetries then cfg.maxRetries - attempt + 1 else 0
  {
    attempt > cfg.maxRetries ||
      var step := Transaction(db, s, u, EnvAt(envs, attempt - 1));
      && step.1.Raised? && IsVersionConflictError(step.1.error)
      && ConflictsThroughout(cfg, step.0, s, u, envs, attempt + 1)
  }

  /**
   * When every remaining attempt hits a conflict, the run retries until the
   * last allowed attempt and gives up with the high-demand message and a
   * retryCount of maxRetries, after sleeping once between two attempts.
   */
  lemma {:induction false} ConflictsExhaust(cfg: Config, db: Db, s: SlotId, u: UserId, envs: seq<Env>, randoms: seq<Fraction>, attempt: nat)
    requires Linked(db) && 1 <= attempt <= cfg.maxRetries
    requires ConflictsThroughout(cfg, db, s, u, envs, attempt)
    ensures
      var run := RunFrom(cfg, db, s, u, envs, randoms, attempt);
      && run.result == Failed(HighDemandMessage, cfg.maxRetries)
      && run.attempts == cfg.maxRetries
      && |run.waits| == cfg.maxRetries - attempt
    decreases cfg.maxRetries - attempt, 1
  {
    var step := Transaction(db, s, u, EnvAt(envs, attempt - 1));
    RunStartsWithAttempt(cfg, db, s, u, envs, randoms, attempt);
    AfterConflictExhausts(cfg, step.0, step.1, s, u, envs, randoms, attempt);
  }

  lemma {:induction false} AfterConflictExhausts(cfg: Config, db: Db, outcome: AttemptOutcome, s: SlotId, u: UserId, envs: seq<Env>, randoms: seq<Fraction>, attempt: nat)
    requires Linked(db) && 1 <= attempt <= cfg.maxRetries
    requires outcome.Raised? && IsVersionConflictError(outcome.error)
    requires ConflictsThroughout(cfg, db, s, u, envs, attempt + 1)
    ensures
      var run := AfterAttempt(cfg, db, outcome, s, u, envs, randoms, attempt);
      && run.result == Failed(HighDemandMessage, cfg.maxRetries)
      && run.attempts == cfg.maxRetries
      && |run.waits| == cfg.maxRetries - attempt
    decreases cfg.maxRetries - attempt, 0
  {
    if attempt < cfg.maxRetries {
      RetryContinuesRun(cfg, db, outcome, s, u, envs, randoms, attempt);
      ConflictsExhaust(cfg, db, s, u, envs, randoms, attempt + 1);
    } else {
      ReturnEndsRun(cfg, db, outcome, s, u, envs, randoms, attempt, Failed(HighDemandMessage, attempt));
    }
  }

  /**
   * When the remaining attempts all fail with a conflict while reading the
   * slot, nothing is ever written: the run ends as ConflictsExhaust says,
   * with the store as it was.
   */
  lemma {:induction false} ReadConflictsExhaust(cfg: Config, db: Db, s: SlotId, u: UserId, envs: seq<Env>, randoms: seq<Fraction>, attempt: nat)
    requires Linked(db) && 1 <= attempt <= cfg.maxRetries
    requires forall k :: attempt - 1 <= k < cfg.maxRetries ==> ConflictAtRead(EnvAt(envs, k))
    ensures
      var run := RunFrom(cfg, db, s, u, envs, randoms, attempt);
      && run.db == db
      && run.result == Failed(HighDemandMessage, cfg.maxRetries)
      && run.attempts == cfg.maxRetries
      && |run.waits| == cfg.maxRetries - attempt
    decreases cfg.maxRetries - attempt
  {
    assert ConflictAtRead(EnvAt(envs, attempt - 1));
    if attempt < cfg.maxRetries {
      ReadConflictsExhaust(cfg, db, s, u, envs, randoms, attempt + 1);
    }
  }

  /** A business rejection ends the run at once, with its own message and no further attempt. */
  lemma BusinessStops(cfg: Config, db: Db, s: SlotId, u: UserId, envs: seq<Env>, randoms: seq<Fraction>, attempt: nat, k: BusinessCode)
    requires Linked(db) && 1 <= attempt <= cfg.maxRetries
    requires Transaction(db, s, u, EnvAt(envs, attempt - 1)).1 == Raised(Business(k))
    ensures RunFrom(cfg, db, s, u, envs, randoms, attempt) == Run(db, Failed(BusinessMessage(k), attempt - 1), attempt, [])
  {
    BusinessIsNeverConflict(k);
  }

  /** An unexpected error ends the run at once, with the generic message and no further attempt. */
  lemma UnexpectedStops(cfg: Config, db: Db, s: SlotId, u: UserId, envs: seq<Env>, randoms: seq<Fraction>, attempt: nat)
    requires Linked(db) && 1 <= attempt <= cfg.maxRetries
    requires Transaction(db, s, u, EnvAt(envs, attempt - 1)).1.Raised?
    requires Classify(Transaction(db, s, u, EnvAt(envs, attempt - 1)).1.error) == Unexpected
    ensures RunFrom(cfg, db, s, u, envs, randoms, attempt) ==
      Run(Transaction(db, s, u, EnvAt(envs, attempt - 1)).0, Failed(UnexpectedMessage, attempt - 1), attempt, [])
  {
    var step := Transaction(db, s, u, EnvAt(envs, attempt - 1));
    RunStartsWithAttempt(cfg, db, s, u, envs, randoms, attempt);
    ReturnEndsRun(cfg, step.0, step.1, s, u, envs, randoms, attempt, Failed(UnexpectedMessage, attempt - 1));
  }

  /**
   * A full slot is refused on the first attempt with "Slot is fully booked"
   * and a retryCount of 0, and nothing is written.
   */
  lemma FullSlotRun(cfg: Config, db: Db, s: SlotId, u: UserId, envs: seq<Env>, randoms: seq<Fraction>)
    requires Valid(db) && s in db.slots && cfg.maxRetries >= 1
    requires ConfirmedCount(db.bookings, s) >= db.slots[s].maxBookings
    requires !Faults(EnvAt(envs, 0), ReadSlot) && !Faults(EnvAt(envs, 0), CountBookings)
    ensures BookingRun(cfg, db, s, u, envs, randoms) == Run(db, Failed(FullMessage, 0), 1, [])
  {
    FullSlotRejected(db, s, u, EnvAt(envs, 0));
    BusinessStops(cfg, db, s, u, envs, randoms, 1, SlotFull);
  }

  /**
   * Two requests for the last place: while this request sits between its
   * checks and its guarded update, the request of user `a` commits. This
   * request's slot update then matches no row, it backs off once, and its
   * retry sees the slot full: "Slot is fully booked" with a retryCount of 1,
   * the store holding the other user's booking only.
   */
  lemma LastPlaceTaken(cfg: Config, db: Db, s: SlotId, u: UserId, a: UserId, envs: seq<Env>, randoms: seq<Fraction>)
    requires Valid(db) && s in db.slots && cfg.maxRetries >= 2
    requires ConfirmedCount(db.bookings, s) + 1 == db.slots[s].maxBookings
    requires forall i :: 0 <= i < |db.bookings| ==> Key(db.bookings[i]) != Request(s, u) && Key(db.bookings[i]) != Request(s, a)
    requires EnvAt(envs, 0) == Env([Request(s, a)], NoFault) && EnvAt(envs, 1) == Calm
    ensures
      var run := BookingRun(cfg, db, s, u, envs, randoms);
      && run.result == Failed(FullMessage, 1)
      && run.attempts == 2
      && |run.waits| == 1
      && run.db == Reserved(db, s, a)
  {
    var after := Reserved(db, s, a);
    LastPlaceAttempts(db, s, u, a);
    assert RunFrom(cfg, db, s, u, envs, randoms, 1) == AfterAttempt(cfg, after, Raised(StaleGuardError), s, u, envs, randoms, 1);
    assert Decide(Raised(StaleGuardError), 1, cfg.maxRetries) == RetryLater by {
      StaleGuardIsConflict();
    }
    BusinessStops(cfg, after, s, u, envs, randoms, 2, SlotFull);
  }

  /** The first attempt loses the last place to the racer; the second finds the slot full. */
  lemma LastPlaceAttempts(db: Db, s: SlotId, u: UserId, a: UserId)
    requires Valid(db) && s in db.slots
    requires ConfirmedCount(db.bookings, s) + 1 == db.slots[s].maxBookings
    requires forall i :: 0 <= i < |db.bookings| ==> Key(db.bookings[i]) != Request(s, u) && Key(db.bookings[i]) != Request(s, a)
    ensures Transaction(db, s, u, Env([Request(s, a)], NoFault)) == (Reserved(db, s, a), Raised(StaleGuardError))
    ensures Transaction(Reserved(db, s, a), s, u, Calm) == (Reserved(db, s, a), Raised(Business(SlotFull)))
  {
    var env := Env([Request(s, a)], NoFault);
    CalmAttemptCommits(db, s, a);
    var after := Reserved(db, s, a);
    assert Interleave(db, env.racers) == after by {
      assert env.racers[1..] == [];
    }
    if FindBooking(db.bookings, s, u).Some? {
      FoundIsPresent(db.bookings, s, u);
      assert false;
    }
    ReservedCountAt(db, s, a, s);
  }

  // ---------------------------------------------------------------------
  // What a whole run keeps

  /** A run, however many attempts it makes, keeps the store's integrity and capacity invariant. */
  lemma {:induction false} RunKeepsInvariants(cfg: Config, db: Db, s: SlotId, u: UserId, envs: seq<Env>, randoms: seq<Fraction>, attempt: nat)
    requires Valid(db) && attempt >= 1
    ensures Valid(RunFrom(cfg, db, s, u, envs, randoms, attempt).db)
    ensures Evolves(db, RunFrom(cfg, db, s, u, envs, randoms, attempt).db)
    decreases if attempt <= cfg.maxRetries then cfg.maxRetries - attempt + 1 else 0
  {
    if attempt <= cfg.maxRetries {
      var step := Transaction(db, s, u, EnvAt(envs, attempt - 1));
      TransactionKeepsInvariants(db, s, u, EnvAt(envs, attempt - 1));
      if Decide(step.1, attempt, cfg.maxRetries) == RetryLater {
        RunKeepsInvariants(cfg, step.0, s, u, envs, randoms, attempt + 1);
        EvolvesTransitive(db, step.0, RunFrom(cfg, step.0, s, u, envs, randoms, attempt + 1).db);
      }
    }
  }

  /**
   * A successful run returns the user's CONFIRMED booking for the slot, and
   * it is that user's one booking for the slot in the final store.
   */
  lemma {:induction false} BookedIsTheUsersBooking(cfg: Config, db: Db, s: SlotId, u: UserId, envs: seq<Env>, randoms: seq<Fraction>, attempt: nat)
    requires Valid(db) && attempt >= 1
    requires RunFrom(cfg, db, s, u, envs, randoms, attempt).result.Booked?
    ensures
      var b := RunFrom(cfg, db, s, u, envs, randoms, attempt).result.booking;
      && b.slotId == s && b.userId == u && b.status == Confirmed
      && FindBooking(RunFrom(cfg, db, s, u, envs, randoms, attempt).db.bookings, s, u) == Some(b)
    decreases if attempt <= cfg.maxRetries then cfg.maxRetries - attempt + 1 else 0
  {
    var env := EnvAt(envs, attempt - 1);
    var step := Transaction(db, s, u, env);
    if step.1.Committed? {
      CommittedIsTheUsersBooking(db, s, u, env);
    } else {
      TransactionKeepsInvariants(db, s, u, env);
      BookedIsTheUsersBooking(cfg, step.0, s, u, envs, randoms, attempt + 1);
    }
  }

  lemma CommittedIsTheUsersBooking(db: Db, s: SlotId, u: UserId, env: Env)
    requires Valid(db) && Transaction(db, s, u, env).1.Committed?
    ensures
      var (r, outcome) := Transaction(db, s, u, env);
      && outcome.booking.slotId == s && outcome.booking.userId == u && outcome.booking.status == Confirmed
      && FindBooking(r.bookings, s, u) == Some(outcome.booking)
  {
    var (r, outcome) := Transaction(db, s, u, env);
    TransactionKeepsInvariants(db, s, u, env);
    CommitWritesExactly(db, s, u, env);
    assert r.bookings[|r.bookings| - 1] == outcome.booking;
    FoundWhenPresent(r.bookings, s, u, |r.bookings| - 1);
  }

  // ---------------------------------------------------------------------
  // The service object

  /** Caller overrides of the configuration, merged over the defaults. */
  datatype Overrides = Overrides(maxRetries: Option<int>, baseDelayMs: Option<nat>, maxDelayMs: Option<nat>, concurrencyThreshold: Option<int>)

  function Pick<T>(o: Option<T>, default: T): T {
    if o.Some? then o.value else default
  }

  /** The defaults, each field replaced by the caller's value where the caller gives one. */
  function WithDefaults(o: Overrides): (c: Config)
    ensures o == Overrides(None, None, None, None) ==> c == DefaultConfig
    ensures c.maxRetries == if o.maxRetries.Some? then o.maxRetries.value else DefaultConfig.maxRetries
    ensures c.baseDelayMs == if o.baseDelayMs.Some? then o.baseDelayMs.value else DefaultConfig.baseDelayMs
    ensures c.maxDelayMs == if o.maxDelayMs.Some? then o.maxDelayMs.value else DefaultConfig.maxDelayMs
    ensures c.concurrencyThreshold == if o.concurrencyThreshold.Some? then o.concurrencyThreshold.value else DefaultConfig.concurrencyThreshold
  {
    Config(Pick(o.maxRetries, DefaultConfig.maxRetries),
           Pick(o.baseDelayMs, DefaultConfig.baseDelayMs),
           Pick(o.maxDelayMs, DefaultConfig.maxDelayMs),
           Pick(o.concurrencyThreshold, DefaultConfig.concurrencyThreshold))
  }

  class SlotBookingService {
    const config: Config
    const store: Store
    var concurrentRequests: Tally

    /** The tally never holds a zero entry: a slot's last request deletes it. */
    ghost predicate Valid()
      reads this
    {
      NoZero(concurrentRequests)
    }

    constructor (store: Store, overrides: Overrides)
      ensures this.store == store
      ensures config == WithDefaults(overrides)
      ensures concurrentRequests == map[]
      ensures Valid()
    {
      this.store := store;
      config := WithDefaults(overrides);
      concurrentRequests := map[];
    }

    /**
     * createSlotBookingOptimistic: up to `maxRetries` attempts; a conflict
     * before the last attempt sleeps the backoff delay and retries, any
     * other outcome returns at once.
     */
    method CreateSlotBookingOptimistic(slotId: SlotId, userId: UserId, envs: seq<Env>, randoms: seq<Fraction>)
      returns (result: BookingResult, waits: seq<real>)
      requires Linked(store.State())
      modifies store
      ensures
        var run := BookingRun(config, old(store.State()), slotId, userId, envs, randoms);
        store.State() == run.db && result == run.result && waits == run.waits
    {
      ghost var db := store.State();
      var attempt := 1;
      waits := [];
      while attempt <= config.maxRetries
        invariant attempt >= 1
        invariant Linked(store.State())
        invariant BookingRun(config, db, slotId, userId, envs, randoms) ==
          Resumed(config, store.State(), slotId, userId, envs, randoms, attempt, waits)
        decreases config.maxRetries - attempt
      {
        ghost var before := store.State();
        var outcome := store.Attempt(slotId, userId, EnvAt(envs, attempt - 1));
        ghost var after := store.State();
        // the catch block's order of tests, as Decide states it
        var decision := Decide(outcome, attempt, config.maxRetries);
        match decision
        case Return(r) =>
          ReturnEndsResumed(config, before, after, outcome, slotId, userId, envs, randoms, attempt, waits, r);
          return r, waits;
        case RetryLater =>
          var delay := BackoffDelay(config, attempt, RandomAt(randoms, attempt - 1));
          RetryMovesResumed(config, before, after, outcome, slotId, userId, envs, randoms, attempt, waits);
          waits := waits + [delay];
          attempt := attempt + 1;
      }
      return Failed(MaxRetriesMessage, config.maxRetries), waits;
    }

    /**
     * createSlotBooking: count the request in for its slot, run the
     * optimistic booking, and count it out again.
     */
    method CreateSlotBooking(slotId: SlotId, userId: UserId, envs: seq<Env>, randoms: seq<Fraction>)
      returns (result: BookingResult, waits: seq<real>)
      requires Valid() && Linked(store.State())
      modifies this, store
      ensures
        var run := BookingRun(config, old(store.State()), slotId, userId, envs, randoms);
        store.State() == run.db && result == run.result && waits == run.waits
      ensures concurrentRequests == Release(Acquire(old(concurrentRequests), slotId), slotId)
      ensures Valid() && concurrentRequests == old(concurrentRequests)
    {
      var currentConcurrency := if slotId in concurrentRequests then concurrentRequests[slotId] else 0;
      concurrentRequests := concurrentRequests[slotId := currentConcurrency + 1];
      result, waits := CreateSlotBookingOptimistic(slotId, userId, envs, randoms);
      var current := if slotId in concurrentRequests && concurrentRequests[slotId] != 0 then concurrentRequests[slotId] else 1;
      if current <= 1 {
        concurrentRequests := concurrentRequests - {slotId};
      } else {
        concurrentRequests := concurrentRequests[slotId := current - 1];
      }
      ReleaseUndoesAcquire(old(concurrentRequests), slotId);
    }
  }
}
