/**
 * The engine's configuration and the exponential backoff with jitter that
 * spaces out retries (service/slot.booking.js, constructor and
 * calculateBackoffDelay).
 */
module Backoff {

  /**
   * The service configuration. `maxRetries` is an int because a caller's
   * override may set it to zero or below; the delays are non-negative
   * milliseconds. `concurrencyThreshold` is carried but never read.
   */
  datatype Config = Config(maxRetries: int, baseDelayMs: nat, maxDelayMs: nat, concurrencyThreshold: int)

  /** The defaults the constructor merges caller overrides into. */
  const DefaultConfig: Config := Config(3, 100, 2000, 10)

  function Pow2(n: nat): (r: nat)
    ensures r >= 1
  {
    if n == 0 then 1 else 2 * Pow2(n - 1)
  }

  /** `baseDelayMs * 2^(attempt-1)`, the delay before jitter and the cap. */
  function ExponentialDelay(cfg: Config, attempt: nat): (e: real)
    requires attempt >= 1
    ensures e >= cfg.baseDelayMs as real
    ensures attempt == 1 ==> e == cfg.baseDelayMs as real
  {
    MulMonotone(cfg.baseDelayMs, 1, Pow2(attempt - 1));
    (cfg.baseDelayMs * Pow2(attempt - 1)) as real
  }

  function Min(a: real, b: real): real {
    if a <= b then a else b
  }

  /**
   * calculateBackoffDelay: add up to 10% jitter to the exponential delay and
   * cap the sum at `maxDelayMs`. `random` stands for the value of
   * Math.random(), which lies in [0, 1).
   */
  function BackoffDelay(cfg: Config, attempt: nat, random: real): (d: real)
    requires attempt >= 1
    requires 0.0 <= random < 1.0
    ensures d <= cfg.maxDelayMs as real
    ensures d >= Min(ExponentialDelay(cfg, attempt), cfg.maxDelayMs as real)
    ensures d <= ExponentialDelay(cfg, attempt) * 1.1
  {
    var exponential := ExponentialDelay(cfg, attempt);
    var jitter := random * 0.1 * exponential;
    JitterBounds(random, exponential, jitter);
    Min(exponential + jitter, cfg.maxDelayMs as real)
  }

  /** Math.random() * 0.1 * e lies between 0 and a tenth of e. */
  lemma JitterBounds(random: real, e: real, jitter: real)
    requires 0.0 <= random < 1.0 && e >= 0.0
    requires jitter == random * 0.1 * e
    ensures e <= e + jitter <= e * 1.1
  {
    assert random * e <= e by {
      assert (1.0 - random) * e >= 0.0;
    }
    assert random * e >= 0.0;
    assert random * 0.1 * e == 0.1 * (random * e);
  }

  lemma {:induction false} Pow2Monotone(m: nat, n: nat)
    requires m <= n
    ensures Pow2(m) <= Pow2(n)
    decreases n
  {
    if m < n {
      Pow2Monotone(m, n - 1);
    }
  }

  /** Ignoring jitter, a later attempt never waits less than an earlier one. */
  lemma ExponentialDelayMonotone(cfg: Config, a: nat, b: nat)
    requires 1 <= a <= b
    ensures ExponentialDelay(cfg, a) <= ExponentialDelay(cfg, b)
    ensures Min(ExponentialDelay(cfg, a), cfg.maxDelayMs as real) <= Min(ExponentialDelay(cfg, b), cfg.maxDelayMs as real)
  {
    Pow2Monotone(a - 1, b - 1);
    MulMonotone(cfg.baseDelayMs, Pow2(a - 1), Pow2(b - 1));
  }

  lemma MulMonotone(k: nat, x: nat, y: nat)
    requires x <= y
    ensures k * x <= k * y
  {
  }

  /** Before jitter and the cap, each attempt's exponential delay is exactly twice the previous one's. */
  lemma ExponentialDelayDoubles(cfg: Config, attempt: nat)
    requires attempt >= 1
    ensures ExponentialDelay(cfg, attempt + 1) == 2.0 * ExponentialDelay(cfg, attempt)
  {
    assert Pow2(attempt) == 2 * Pow2(attempt - 1);
  }

  /**
   * With the default delays, the backoff after attempt 1 lies in [100, 110) ms
   * and after attempt 2 in [200, 220) ms: the two retries the default
   * maxRetries of 3 allows. A larger maxRetries would wait [400, 440) ms
   * after attempt 3 and the 2000 ms cap after attempt 6.
   */
  lemma DefaultDelays(random: real)
    requires 0.0 <= random < 1.0
    ensures 100.0 <= BackoffDelay(DefaultConfig, 1, random) < 110.0
    ensures 200.0 <= BackoffDelay(DefaultConfig, 2, random) < 220.0
    ensures 400.0 <= BackoffDelay(DefaultConfig, 3, random) < 440.0
    ensures BackoffDelay(DefaultConfig, 6, random) == 2000.0
  {
    assert Pow2(5) == 32;
  }
}
