/**
 * The retry and backoff arithmetic of the registry HTTP client: default
 * configuration, jitter on int64 nanosecond durations, the backoff strategy,
 * the documented retry classification and the attempt count.
 */
module Retry {
  import opened Wrappers

  newtype int64 = x: int | -0x8000_0000_0000_0000 <= x < 0x8000_0000_0000_0000

  const MinInt64: int := -0x8000_0000_0000_0000
  const MaxInt64: int := 0x7fff_ffff_ffff_ffff

  /** A duration counted in nanoseconds. */
  type Duration = int64

  const Millisecond: Duration := 1_000_000

  /** Two's complement wrap-around of an int64 result. */
  function Wrap(x: int): (w: int64)
    ensures MinInt64 <= x <= MaxInt64 ==> w as int == x
    ensures (w as int - x) % 0x1_0000_0000_0000_0000 == 0
  {
    ((x - MinInt64) % 0x1_0000_0000_0000_0000 + MinInt64) as int64
  }

  function Abs(x: int): nat
  {
    if x < 0 then -x else x
  }

  /** Integer division on int64: truncated toward zero, and wrapped (the
      quotient of the least int64 by -1 is the least int64 again). */
  function Quo(a: int64, b: int64): (q: int64)
    requires b != 0
    // truncation toward zero: the magnitude is the quotient of the magnitudes ...
    ensures !(a as int == MinInt64 && b == -1) ==> Abs(q as int) == Abs(a as int) / Abs(b as int)
    // ... and the quotient is negative exactly when the signs differ and it is not truncated to 0
    ensures !(a as int == MinInt64 && b == -1) ==>
      (q < 0 <==> (a < 0) != (b < 0) && Abs(a as int) >= Abs(b as int))
    // the one overflowing quotient wraps around
    ensures a as int == MinInt64 && b == -1 ==> q as int == MinInt64
    ensures a >= 0 && b > 0 ==> q as int == a as int / b as int
  {
    var x, y := Abs(a as int), Abs(b as int);
    var t: int := NatQuo(x, y);
    if (a < 0) != (b < 0) then (-t) as int64
    else if t <= MaxInt64 then t as int64
    else MinInt64 as int64
  }

  /** Division of magnitudes: at most the dividend, positive exactly when the
      divisor does not exceed the dividend, and smaller than a positive
      dividend once the divisor exceeds 1. */
  function NatQuo(x: nat, y: nat): (t: nat)
    requires y > 0
    ensures t == x / y && t <= x
    ensures t > 0 <==> x >= y
    ensures y > 1 && x > 0 ==> t < x
  {
    DivAtMost(x, y);
    x / y
  }

  /** Go's division truncates where a flooring division would round down. */
  lemma QuoTruncates()
    ensures Quo(-1, 8) == 0 && Quo(-9, 8) == -1 && Quo(9, -8) == -1 && Quo(-9, -8) == 1
    ensures Quo(MinInt64 as int64, -1) as int == MinInt64
  {
  }

  lemma DivAtMost(x: nat, y: nat)
    requires y > 0
    ensures x / y <= x
    ensures x / y > 0 <==> x >= y
    ensures y > 1 && x > 0 ==> x / y < x
  {
    var q := x / y;
    assert x == y * q + x % y;
    MulAtLeast(y, q);
    if y > 1 && q > 0 {
      MulAtLeast(y - 1, q);
      assert y * q == (y - 1) * q + q;
    }
  }

  lemma {:induction false} MulAtLeast(y: nat, q: nat)
    requires y >= 1
    ensures y * q >= q
  {
    if y > 1 {
      MulAtLeast(y - 1, q);
      assert y * q == (y - 1) * q + q;
    }
  }

  // ---------------------------------------------------------------------------
  // Configuration

  const DefaultDialTimeoutMsec := 3000
  const DefaultResponseHeaderTimeoutMsec := 3000
  const DefaultRequestTimeoutMsec := 30_000
  const DefaultMaxRetries := 8
  const DefaultMinWaitMsec := 30
  const DefaultMaxWaitMsec := 300_000

  datatype TimeoutConfig = TimeoutConfig(dialTimeout: Duration, responseHeaderTimeout: Duration, requestTimeout: Duration)

  /** `maxRetries` does not count the initial request. */
  datatype RetryConfig = RetryConfig(maxRetries: int, minWait: Duration, maxWait: Duration)

  datatype RetryableClientConfig = RetryableClientConfig(timeouts: TimeoutConfig, retries: RetryConfig)

  function NewRetryableClientConfig(): (c: RetryableClientConfig)
    // 3 s to connect, 3 s for the response headers, 30 s for the whole request
    ensures c.timeouts == TimeoutConfig(3_000_000_000, 3_000_000_000, 30_000_000_000)
    // 8 retries, waiting between 30 ms and 300 s
    ensures c.retries == RetryConfig(8, 30_000_000, 300_000_000_000)
    ensures c.retries.minWait <= c.retries.maxWait
    ensures c.timeouts.dialTimeout <= c.timeouts.requestTimeout
    ensures c.timeouts.responseHeaderTimeout <= c.timeouts.requestTimeout
  {
    RetryableClientConfig(
      TimeoutConfig(DefaultDialTimeoutMsec as int64 * Millisecond,
                    DefaultResponseHeaderTimeoutMsec as int64 * Millisecond,
                    DefaultRequestTimeoutMsec as int64 * Millisecond),
      RetryConfig(DefaultMaxRetries, DefaultMinWaitMsec as int64 * Millisecond, DefaultMaxWaitMsec as int64 * Millisecond))
  }

  // ---------------------------------------------------------------------------
  // Jitter and backoff

  /** `duration` plus the random draw `r` of `rand.Int63n(duration / divisor)`;
      the draw exists only when that quotient is positive (otherwise Int63n panics). */
  function Jitter(duration: Duration, divisor: int64, r: int64): (j: Duration)
    requires divisor != 0 && 0 <= r < Quo(duration, divisor)
    ensures duration as int + Quo(duration, divisor) as int - 1 <= MaxInt64 ==>
      duration <= j && j as int <= duration as int + Quo(duration, divisor) as int - 1
  {
    Wrap(r as int + duration as int)
  }

  /** Every value of the documented range is a possible jitter. */
  lemma JitterCoversRange(duration: Duration, divisor: int64, t: int)
    requires divisor != 0 && Quo(duration, divisor) > 0
    requires duration as int <= t <= duration as int + Quo(duration, divisor) as int - 1 <= MaxInt64
    ensures exists r: int64 :: 0 <= r < Quo(duration, divisor) && Jitter(duration, divisor, r) as int == t
  {
    var r := (t - duration as int) as int64;
    assert Jitter(duration, divisor, r) as int == t;
  }

  /** The backoff strategy as written, applied to the delay `base` chosen by
      the library's default backoff; `None` stands for the panic of
      `rand.Int63n` when `base / 8` is not positive. */
  function BackoffStrategy(base: Duration, r: int64): (d: Option<Duration>)
    requires Quo(base, 8) > 0 ==> 0 <= r < Quo(base, 8)
    ensures d.None? <==> Quo(base, 8) <= 0
    // the documented jitter range, with Go's integer division ...
    ensures d.Some? && base as int + base as int / 8 - 1 <= MaxInt64 ==>
      base <= d.value && d.value as int <= base as int + base as int / 8 - 1
    // ... which keeps the delay below 1.125 times the base
    ensures d.Some? && base as int + base as int / 8 - 1 <= MaxInt64 ==>
      d.value as int * 8 < base as int * 9
  {
    if Quo(base, 8) <= 0 then None else Some(Jitter(base, 8, r))
  }

  /** A delay below 8 ns, such as a zero delay, makes the strategy panic. */
  lemma BackoffPanicsOnShortDelay(base: Duration, r: int64)
    requires 0 <= base < 8
    ensures BackoffStrategy(base, r) == None
  {
  }

  /** A delay already capped at the default MaxWait is pushed past it by the jitter. */
  lemma BackoffCanExceedMaxWait()
    ensures var maxWait := NewRetryableClientConfig().retries.maxWait;
      BackoffStrategy(maxWait, 1) == Some(maxWait + 1)
  {
  }

  function Max(a: Duration, b: Duration): Duration
  {
    if a < b then b else a
  }

  /** The backoff as its documentation describes it: no jitter (and no panic)
      for a delay too short to jitter, and the jitter never carries the delay
      past MaxWait (a longer base delay, such as a server's Retry-After, is
      kept as it is). */
  function SafeBackoff(base: Duration, maxWait: Duration, r: int64): (d: Duration)
    requires 0 <= base
    requires base >= 8 ==> 0 <= r < base / 8
    ensures base <= d <= Max(base, maxWait)
    ensures base < 8 ==> d == base
    ensures base >= 8 ==> d as int <= base as int + base as int / 8 - 1
  {
    if base < 8 then base
    else
      var limit := Max(base, maxWait);
      var j := base as int + r as int;
      if j > limit as int then limit else j as int64
  }

  /** The correction changes nothing where the code as written is sound: for a
      delay long enough to jitter whose jitter stays within MaxWait, the safe
      backoff is the strategy's own delay. */
  lemma SafeBackoffAgrees(base: Duration, maxWait: Duration, r: int64)
    requires 8 <= base && 0 <= r < base / 8
    requires base as int + r as int <= maxWait as int
    ensures BackoffStrategy(base, r).Some?
    ensures SafeBackoff(base, maxWait, r) == BackoffStrategy(base, r).value
  {
  }

  // ---------------------------------------------------------------------------
  // Retry classification

  datatype TransportError = NonRetryableUrlError | OtherTransportError

  /** What one request attempt produced: a response status and/or a transport error. */
  datatype AttemptOutcome = AttemptOutcome(status: Option<int>, err: Option<TransportError>)

  /** The decision of the library's default retry policy, with the error it passes on. */
  type Policy = AttemptOutcome -> (bool, Option<string>)

  /** The classification the retry strategy's documentation states: retry on a
      transport error other than the non-retryable URL errors, and on status
      429 or 5xx other than 501. */
  function DocumentedRetry(a: AttemptOutcome): (retry: bool)
    // a non-retryable URL error is final, whatever the status
    ensures a.err == Some(NonRetryableUrlError) ==> !retry
    // any other transport error is retried
    ensures a.err == Some(OtherTransportError) ==> retry
    // without a transport error, only 429 and the 5xx statuses other than 501 are retried
    ensures a.err.None? ==> (retry <==> a.status.Some? && (a.status.value == 429 || (500 <= a.status.value < 600 && a.status.value != 501)))
  {
    if a.err.Some? then a.err.value != NonRetryableUrlError
    else a.status.Some? && (a.status.value == 429 || (500 <= a.status.value <= 599 && a.status.value != 501))
  }

  lemma DocumentedRetryStatuses(s: int)
    ensures s == 429 ==> DocumentedRetry(AttemptOutcome(Some(s), None))
    ensures 500 <= s <= 599 && s != 501 ==> DocumentedRetry(AttemptOutcome(Some(s), None))
    ensures s == 501 ==> !DocumentedRetry(AttemptOutcome(Some(s), None))
    ensures 200 <= s <= 399 ==> !DocumentedRetry(AttemptOutcome(Some(s), None))
    ensures DocumentedRetry(AttemptOutcome(Some(s), Some(OtherTransportError)))
  {
  }

  /** The retry check: the default policy's decision and error, unchanged by the logging. */
  function RetryStrategy(policy: Policy, a: AttemptOutcome): (d: (bool, Option<string>))
    ensures d == policy(a)
  {
    var (retry, err2) := policy(a);
    (retry, err2)
  }

  /** The classification belongs wholly to the library's default policy: the
      strategy classifies as documented exactly when the policy does. */
  lemma RetryStrategyClassifies(policy: Policy, a: AttemptOutcome)
    ensures (RetryStrategy(policy, a).0 <==> DocumentedRetry(a)) <==> (policy(a).0 <==> DocumentedRetry(a))
  {
  }

  // ---------------------------------------------------------------------------
  // Attempt count and retry budget

  /** How many requests a client configured with `maxRetries` sends when the
      retry check answers `wantsRetry[i]` after the i-th request; past the last
      recorded answer the retry check says stop. */
  function Attempts(maxRetries: int, wantsRetry: seq<bool>): (n: nat)
    // the initial request is always sent ...
    ensures n >= 1
    // ... and at most MaxRetries retries follow, each one asked for by the retry check
    ensures n <= 1 + (if maxRetries < 0 then 0 else maxRetries)
    ensures n <= 1 + |wantsRetry|
    ensures n > 1 ==> wantsRetry[0]
    decreases |wantsRetry|
  {
    if wantsRetry == [] || !wantsRetry[0] || maxRetries <= 0 then 1
    else 1 + Attempts(maxRetries - 1, wantsRetry[1..])
  }

  /** The number of answers before the first "stop". */
  function RetriesWanted(wantsRetry: seq<bool>): (k: nat)
    ensures k <= |wantsRetry|
  {
    if wantsRetry == [] || !wantsRetry[0] then 0 else 1 + RetriesWanted(wantsRetry[1..])
  }

  /** The initial request plus as many retries as are wanted, at most `maxRetries`. */
  lemma {:induction false} AttemptsCount(maxRetries: int, wantsRetry: seq<bool>)
    ensures var m := if maxRetries < 0 then 0 else maxRetries;
      var k := RetriesWanted(wantsRetry);
      Attempts(maxRetries, wantsRetry) == 1 + (if k < m then k else m)
    decreases |wantsRetry|
  {
    if wantsRetry != [] && wantsRetry[0] && maxRetries > 0 {
      AttemptsCount(maxRetries - 1, wantsRetry[1..]);
    }
  }

  /** When every attempt asks for a retry, the client sends MaxRetries + 1 requests. */
  lemma AttemptsWhenAlwaysRetrying(maxRetries: nat, wantsRetry: seq<bool>)
    requires |wantsRetry| > maxRetries
    requires forall i :: 0 <= i < |wantsRetry| ==> wantsRetry[i]
    ensures Attempts(maxRetries, wantsRetry) == maxRetries + 1
  {
    AllWanted(wantsRetry);
    AttemptsCount(maxRetries, wantsRetry);
  }

  lemma {:induction false} AllWanted(wantsRetry: seq<bool>)
    requires forall i :: 0 <= i < |wantsRetry| ==> wantsRetry[i]
    ensures RetriesWanted(wantsRetry) == |wantsRetry|
  {
    if wantsRetry != [] {
      AllWanted(wantsRetry[1..]);
    }
  }

  function Pow2(n: nat): (p: nat)
    ensures p >= 1
  {
    if n == 0 then 1 else 2 * Pow2(n - 1)
  }

  /** The exponential base delay before retry `attempt` (counting from 0):
      `minWait * 2^attempt`, bounded by `maxWait`. */
  function ExponentialDelay(minWait: int, maxWait: int, attempt: nat): (d: int)
    // never longer than MaxWait, and never shorter than MinWait when MinWait <= MaxWait
    ensures d <= maxWait
    ensures 0 <= minWait <= maxWait ==> minWait <= d
  {
    if minWait * Pow2(attempt) > maxWait then maxWait else minWait * Pow2(attempt)
  }

  /** The total base delay over `retries` retries. */
  function BackoffBudget(minWait: int, maxWait: int, retries: nat): int
  {
    if retries == 0 then 0 else BackoffBudget(minWait, maxWait, retries - 1) + ExponentialDelay(minWait, maxWait, retries - 1)
  }

  /** Each of the waits lies between MinWait and MaxWait, and so does their average. */
  lemma {:induction false} BackoffBudgetBounds(minWait: int, maxWait: int, retries: nat)
    ensures BackoffBudget(minWait, maxWait, retries) <= retries * maxWait
    ensures 0 <= minWait <= maxWait ==> retries * minWait <= BackoffBudget(minWait, maxWait, retries)
  {
    if retries > 0 {
      BackoffBudgetBounds(minWait, maxWait, retries - 1);
      assert retries * maxWait == (retries - 1) * maxWait + maxWait;
      assert retries * minWait == (retries - 1) * minWait + minWait;
    }
  }

  /** While no delay reaches the cap, the budget is `minWait * (2^retries - 1)`. */
  lemma {:induction false} BackoffBudgetUncapped(minWait: nat, maxWait: int, retries: nat)
    requires retries > 0 ==> minWait * Pow2(retries - 1) <= maxWait
    ensures BackoffBudget(minWait, maxWait, retries) == minWait * (Pow2(retries) - 1)
  {
    if retries > 0 {
      var n := retries - 1;
      if n > 0 {
        DelayDoubles(minWait, n);
      }
      BackoffBudgetUncapped(minWait, maxWait, n);
      BudgetStep(minWait, n);
    }
  }

  lemma DelayDoubles(minWait: nat, n: nat)
    requires n > 0
    ensures minWait * Pow2(n) == 2 * (minWait * Pow2(n - 1))
  {
    var p := Pow2(n - 1);
    assert Pow2(n) == 2 * p;
    assert minWait * (2 * p) == 2 * (minWait * p);
  }

  lemma BudgetStep(minWait: nat, n: nat)
    ensures minWait * (Pow2(n) - 1) + minWait * Pow2(n) == minWait * (Pow2(n + 1) - 1)
  {
    var p := Pow2(n);
    assert Pow2(n + 1) == 2 * p;
    assert minWait * (p - 1) + minWait * p == minWait * (2 * p - 1);
  }

  /** The defaults give at least 5 s of total backoff: 30 ms * (2^8 - 1) = 7650 ms. */
  lemma DefaultRetryBudget()
    ensures BackoffBudget(DefaultMinWaitMsec, DefaultMaxWaitMsec, DefaultMaxRetries) == 7650
    ensures BackoffBudget(DefaultMinWaitMsec, DefaultMaxWaitMsec, DefaultMaxRetries) > 5000
  {
    assert Pow2(8) == 256 && Pow2(7) == 128;
    BackoffBudgetUncapped(DefaultMinWaitMsec, DefaultMaxWaitMsec, DefaultMaxRetries);
  }
}
