/**
 * The rate limiter every catalog and library call goes through: a token bucket
 * refilled lazily from the elapsed clock time, and a retry loop with
 * exponential backoff around each call.
 *
 * The clock (`Date.now()`, milliseconds) is a parameter of every operation that
 * reads it. Rates and elapsed seconds are exact rationals (`real`).
 */
module Limiter {
  import opened Http

  /** The global instance is `new RateLimiter(19, 1)`. */
  const DefaultMaxTokens: nat := 19
  const DefaultPeriod: real := 1.0
  /** `callApi` retries with the defaults of `retry`. */
  const DefaultMaxRetries: nat := 3
  const DefaultBaseDelay: nat := 1000

  function Min(a: int, b: int): int { if a <= b then a else b }

  function Pow2(n: nat): (r: nat)
    ensures r >= 1
  {
    if n == 0 then 1 else 2 * Pow2(n - 1)
  }

  /** The sleep after failed attempt `n` (from 0): `baseDelay * Math.pow(2, n)` milliseconds. */
  function Backoff(baseDelay: nat, n: nat): nat
  {
    if n == 0 then baseDelay else 2 * Backoff(baseDelay, n - 1)
  }

  lemma {:induction false} BackoffDoubles(baseDelay: nat, n: nat)
    ensures Backoff(baseDelay, n) == baseDelay * Pow2(n)
  {
    if n > 0 {
      BackoffDoubles(baseDelay, n - 1);
      calc {
        Backoff(baseDelay, n);
        2 * (baseDelay * Pow2(n - 1));
        baseDelay * (2 * Pow2(n - 1));
      }
    }
  }

  /** The mutable state of a limiter: its token count and the time of its last refill. */
  datatype Bucket = Bucket(tokens: int, lastRefill: int)

  /** Whole tokens earned since `lastRefill`: `Math.floor(elapsedSeconds * rate)`. */
  function Earned(lastRefill: int, now: int, rate: real): int
  {
    (((now - lastRefill) as real / 1000.0) * rate).Floor
  }

  /**
   * `refillTokens` at clock `now`. Tokens are added only in whole units and never
   * beyond the capacity; the refill time moves only when a whole token was added,
   * so a fraction of a token's worth of elapsed time carries over.
   */
  function Refill(b: Bucket, now: int, maxTokens: nat, rate: real): (r: Bucket)
    ensures b.tokens <= maxTokens ==> b.tokens <= r.tokens <= maxTokens
    ensures r.lastRefill != b.lastRefill ==> r.lastRefill == now && Earned(b.lastRefill, now, rate) >= 1
    ensures Earned(b.lastRefill, now, rate) < 1 ==> r == b
    ensures Earned(b.lastRefill, now, rate) >= 1 ==>
              && r.lastRefill == now
              && (r.tokens == maxTokens || r.tokens == b.tokens + Earned(b.lastRefill, now, rate))
              && r.tokens <= b.tokens + Earned(b.lastRefill, now, rate)
              && (b.tokens + Earned(b.lastRefill, now, rate) >= maxTokens ==> r.tokens == maxTokens)
  {
    var added := Earned(b.lastRefill, now, rate);
    if added > 0 then Bucket(Min(maxTokens, b.tokens + added), now) else b
  }

  /** The length of the sleep in `wait`: the time one token takes to refill, in milliseconds. */
  function WaitTimeMs(rate: real): real
    requires rate > 0.0
  {
    (1.0 / rate) * 1000.0
  }

  datatype WaitOutcome = WaitOutcome(bucket: Bucket, slept: bool)

  /**
   * `wait` at clock `now`, where `wake` is the clock reading after its sleep (if
   * it sleeps). It sleeps exactly when fewer than one token remains after the
   * first refill, and it always consumes exactly one token.
   */
  function WaitStep(b: Bucket, now: int, wake: int, maxTokens: nat, rate: real): (w: WaitOutcome)
    ensures w.slept <==> Refill(b, now, maxTokens, rate).tokens < 1
    ensures !w.slept ==> w.bucket.tokens == Refill(b, now, maxTokens, rate).tokens - 1
    ensures w.slept ==> w.bucket.tokens == Refill(Refill(b, now, maxTokens, rate), wake, maxTokens, rate).tokens - 1
    ensures b.tokens <= maxTokens ==> w.bucket.tokens < maxTokens
    ensures !w.slept ==> w.bucket.lastRefill == Refill(b, now, maxTokens, rate).lastRefill
    ensures w.slept ==> w.bucket.lastRefill == Refill(Refill(b, now, maxTokens, rate), wake, maxTokens, rate).lastRefill
  {
    var first := Refill(b, now, maxTokens, rate);
    if first.tokens < 1 then
      var second := Refill(first, wake, maxTokens, rate);
      WaitOutcome(Bucket(second.tokens - 1, second.lastRefill), true)
    else
      WaitOutcome(Bucket(first.tokens - 1, first.lastRefill), false)
  }

  /**
   * A refill that adds nothing changes nothing: two refills, the first of which
   * earns no whole token, have the effect of the second alone.
   */
  lemma FractionCarriesOver(b: Bucket, t1: int, t2: int, maxTokens: nat, rate: real)
    requires Earned(b.lastRefill, t1, rate) < 1
    ensures Refill(Refill(b, t1, maxTokens, rate), t2, maxTokens, rate) == Refill(b, t2, maxTokens, rate)
  {
  }

  /**
   * Used sequentially, with the clock never running backwards and the sleep
   * lasting at least `WaitTimeMs`, a wait never overdraws the bucket.
   */
  lemma WaitKeepsTokensNonNegative(b: Bucket, now: int, wake: int, maxTokens: nat, rate: real)
    requires 0 <= b.tokens <= maxTokens && maxTokens >= 1 && rate > 0.0
    requires b.lastRefill <= now <= wake
    requires (wake - now) as real >= WaitTimeMs(rate)
    ensures WaitStep(b, now, wake, maxTokens, rate).bucket.tokens >= 0
  {
    var first := Refill(b, now, maxTokens, rate);
    if first.tokens < 1 {
      assert first.lastRefill <= now;
      WaitEarnsToken(first.lastRefill, wake, rate);
    }
  }

  /** A sleep of `WaitTimeMs` earns at least one whole token. */
  lemma WaitEarnsToken(last: int, wake: int, rate: real)
    requires rate > 0.0 && (wake - last) as real >= WaitTimeMs(rate)
    ensures Earned(last, wake, rate) >= 1
  {
    var x := (wake - last) as real / 1000.0;
    var period := 1.0 / rate;
    assert x >= period;
    assert x * rate - period * rate == (x - period) * rate;
    assert (x - period) * rate >= 0.0;
    assert period * rate == 1.0;
    assert x * rate >= 1.0;
  }

  /** The sleep flags of `n` waits issued at one instant `now`, with no time passing in between. */
  function Burst(b: Bucket, now: int, n: nat, maxTokens: nat, rate: real): (flags: seq<bool>)
    ensures |flags| == n
    decreases n
  {
    if n == 0 then []
    else
      var w := WaitStep(b, now, now, maxTokens, rate);
      [w.slept] + Burst(w.bucket, now, n - 1, maxTokens, rate)
  }

  /**
   * Calls at one instant, right after a refill: the first `tokens` of them pass
   * without sleeping and every later one sleeps. From a full bucket, call number
   * `maxTokens + 1` is the first to wait.
   */
  lemma {:induction false} BurstAtOneInstant(b: Bucket, now: int, n: nat, maxTokens: nat, rate: real)
    requires b.lastRefill == now && b.tokens <= maxTokens
    ensures forall k :: 0 <= k < n ==> Burst(b, now, n, maxTokens, rate)[k] == (k >= b.tokens)
    decreases n
  {
    if n > 0 {
      assert Earned(now, now, rate) == 0;
      var w := WaitStep(b, now, now, maxTokens, rate);
      assert w.bucket == Bucket(b.tokens - 1, now);
      BurstAtOneInstant(w.bucket, now, n - 1, maxTokens, rate);
      var flags := Burst(b, now, n, maxTokens, rate);
      forall k | 0 <= k < n ensures flags[k] == (k >= b.tokens) {
        if k > 0 {
          assert flags[k] == Burst(w.bucket, now, n - 1, maxTokens, rate)[k - 1];
        }
      }
    }
  }

  /** A token bucket; the clock reading is passed to each operation. */
  class RateLimiter {
    var tokens: int
    var lastRefill: int
    const maxTokens: nat
    /** Tokens per second. */
    const refillRate: real

    ghost predicate Valid()
      reads this
    {
      maxTokens >= 1 && refillRate > 0.0 && tokens <= maxTokens
    }

    function State(): Bucket
      reads this
    {
      Bucket(tokens, lastRefill)
    }

    /** A new limiter starts full, with `maxTokens / period` tokens per second. */
    constructor (maxTokens: nat, period: real, now: int)
      requires maxTokens >= 1 && period > 0.0
      ensures Valid()
      ensures this.maxTokens == maxTokens && refillRate == maxTokens as real / period
      ensures tokens == maxTokens && lastRefill == now
    {
      this.maxTokens := maxTokens;
      this.refillRate := maxTokens as real / period;
      this.tokens := maxTokens;
      this.lastRefill := now;
    }

    method RefillTokens(now: int)
      requires Valid()
      modifies this
      ensures Valid()
      ensures State() == Refill(old(State()), now, maxTokens, refillRate)
    {
      var elapsed := (now - lastRefill) as real / 1000.0;
      var newTokens := (elapsed * refillRate).Floor;
      if newTokens > 0 {
        tokens := Min(maxTokens, tokens + newTokens);
        lastRefill := now;
      }
    }

    /**
     * Takes one token, first sleeping `WaitTimeMs(refillRate)` when fewer than one
     * is left; `wake` is the clock reading when that sleep ends.
     */
    method Wait(now: int, wake: int) returns (slept: bool)
      requires Valid()
      modifies this
      ensures Valid()
      ensures WaitStep(old(State()), now, wake, maxTokens, refillRate) == WaitOutcome(State(), slept)
    {
      RefillTokens(now);
      slept := tokens < 1;
      if slept {
        RefillTokens(wake);
      }
      tokens := tokens - 1;
    }
  }

  /**
   * The bucket after `n` waits, the `i`-th of them with the clock readings
   * `clock(i)`.
   */
  function Waits(b: Bucket, clock: nat -> Tick, n: nat, maxTokens: nat, rate: real): Bucket
  {
    if n == 0 then b
    else WaitStep(Waits(b, clock, n - 1, maxTokens, rate), clock(n - 1).now, clock(n - 1).wake, maxTokens, rate).bucket
  }

  /** The outcome of one call of the wrapped network action. */
  datatype Attempt<+T> = Succeeded(value: T) | Threw(error: Failure)

  /** A thrown `Response` with status 404 or 400 is rethrown at once. */
  predicate NonRetryable(e: Failure)
  {
    e.ThrownResponse? && (e.status == 404 || e.status == 400)
  }

  /** Clock readings around one `wait`: when it starts, and when its sleep (if any) ends. */
  datatype Tick = Tick(now: int, wake: int)

  /**
   * What `retry` did: how it settled, how many attempts it made, and the
   * deterministic part (`baseDelay * 2^i`) of each backoff sleep, in order.
   */
  datatype RetryRun<+T> = RetryRun(result: Settled<T>, attempts: nat, backoffs: seq<nat>)

  /**
   * `retry` from attempt `i` on, `lastError` being the error of attempt `i - 1`.
   * `fn(i)` is the outcome of the `i`-th call of the wrapped action.
   */
  function RetryFrom<T>(fn: nat -> Attempt<T>, maxRetries: nat, baseDelay: nat, i: nat, lastError: Option<Failure>): (r: RetryRun<T>)
    requires i <= maxRetries
    decreases maxRetries - i
    ensures i <= r.attempts <= maxRetries
    ensures r.attempts == i <==> i == maxRetries
    ensures r.attempts == i ==> r.result == Raised(lastError) && r.backoffs == []
    ensures r.attempts > i ==> |r.backoffs| == r.attempts - i - 1
    ensures forall k :: 0 <= k < |r.backoffs| ==> r.backoffs[k] == Backoff(baseDelay, i + k)
    ensures forall j :: i <= j < r.attempts - 1 ==> fn(j).Threw? && !NonRetryable(fn(j).error)
    ensures r.result.Returned? ==> r.attempts > i && fn(r.attempts - 1) == Succeeded(r.result.value)
    ensures r.result.Raised? && r.attempts > i ==>
              fn(r.attempts - 1).Threw? && r.result.error == Some(fn(r.attempts - 1).error)
    ensures r.result.Raised? && r.attempts < maxRetries ==> NonRetryable(fn(r.attempts - 1).error)
  {
    if i == maxRetries then RetryRun(Raised(lastError), i, [])
    else
      match fn(i)
      case Succeeded(v) => RetryRun(Returned(v), i + 1, [])
      case Threw(e) =>
        if NonRetryable(e) then RetryRun(Raised(Some(e)), i + 1, [])
        else
          var rest := RetryFrom(fn, maxRetries, baseDelay, i + 1, Some(e));
          if i < maxRetries - 1 then RetryRun(rest.result, rest.attempts, [Backoff(baseDelay, i)] + rest.backoffs)
          else rest
  }

  /**
   * `retry(fn, maxRetries, baseDelay)`: at most `maxRetries` attempts; the first
   * success is returned; a 404 or 400 thrown as a `Response` ends it at once;
   * a backoff sleep lies between consecutive attempts and never follows the
   * last one; after `maxRetries` failures the last error is thrown.
   */
  function RetryOutcome<T>(fn: nat -> Attempt<T>, maxRetries: nat, baseDelay: nat): (r: RetryRun<T>)
    ensures r.attempts <= maxRetries
    ensures maxRetries > 0 ==> r.attempts >= 1 && |r.backoffs| == r.attempts - 1
    ensures forall k :: 0 <= k < |r.backoffs| ==> r.backoffs[k] == Backoff(baseDelay, k)
    ensures r.result.Returned? ==> r.attempts >= 1 && fn(r.attempts - 1) == Succeeded(r.result.value)
    ensures forall j :: 0 <= j < r.attempts - 1 ==> fn(j).Threw? && !NonRetryable(fn(j).error)
    ensures r.result.Raised? && maxRetries > 0 ==>
              fn(r.attempts - 1).Threw? && r.result.error == Some(fn(r.attempts - 1).error)
    ensures r.result.Raised? && 0 < r.attempts < maxRetries ==> NonRetryable(fn(r.attempts - 1).error)
    ensures maxRetries == 0 ==> r == RetryRun(Raised(None), 0, [])
  {
    RetryFrom(fn, maxRetries, baseDelay, 0, None)
  }

  /** `r` with the backoff sleeps `earlier` in front of its own. */
  function WithBackoffs<T>(earlier: seq<nat>, r: RetryRun<T>): RetryRun<T>
  {
    RetryRun(r.result, r.attempts, earlier + r.backoffs)
  }

  /** Attempts `0` to `n - 1` each threw an error that `retry` retries. */
  ghost predicate AllRetried<T>(fn: nat -> Attempt<T>, n: nat)
  {
    forall j :: 0 <= j < n ==> fn(j).Threw? && !NonRetryable(fn(j).error)
  }

  /** `backoffs` are the sleeps after the first `|backoffs|` attempts. */
  ghost predicate DoublingBackoffs(backoffs: seq<nat>, baseDelay: nat)
  {
    forall k :: 0 <= k < |backoffs| ==> backoffs[k] == Backoff(baseDelay, k)
  }

  /**
   * The contract of `RetryOutcome` pins it down: a run that stops at the first
   * success or non-retryable error (or after `maxRetries` attempts), with the
   * error or value of its last attempt and the doubling backoffs, is that outcome.
   */
  lemma RetryOutcomeDetermined<T>(fn: nat -> Attempt<T>, maxRetries: nat, baseDelay: nat, run: RetryRun<T>)
    requires 1 <= run.attempts <= maxRetries
    requires |run.backoffs| == run.attempts - 1 && DoublingBackoffs(run.backoffs, baseDelay)
    requires AllRetried(fn, run.attempts - 1)
    requires run.result.Returned? ==> fn(run.attempts - 1) == Succeeded(run.result.value)
    requires run.result.Raised? ==>
               && fn(run.attempts - 1).Threw?
               && run.result.error == Some(fn(run.attempts - 1).error)
               && (run.attempts < maxRetries ==> NonRetryable(fn(run.attempts - 1).error))
    ensures run == RetryOutcome(fn, maxRetries, baseDelay)
  {
    var r := RetryOutcome(fn, maxRetries, baseDelay);
    assert r.attempts == run.attempts;
    assert r.backoffs == run.backoffs;
  }

  /**
   * The loop of `retry`, waiting on `limiter` before each attempt; `clock(i)`
   * gives the clock readings around the wait of attempt `i`. `waits` is the
   * number of `wait` calls made.
   */
  method Retry<T>(limiter: RateLimiter, fn: nat -> Attempt<T>, clock: nat -> Tick, maxRetries: nat, baseDelay: nat)
    returns (run: RetryRun<T>, waits: nat)
    requires limiter.Valid()
    modifies limiter
    ensures limiter.Valid()
    ensures run == RetryOutcome(fn, maxRetries, baseDelay)
    ensures waits == run.attempts
    ensures limiter.State() == Waits(old(limiter.State()), clock, run.attempts, limiter.maxTokens, limiter.refillRate)
  {
    ghost var start := limiter.State();
    var lastError: Option<Failure> := None;
    var backoffs: seq<nat> := [];
    var i := 0;
    waits := 0;
    while i < maxRetries
      invariant i <= maxRetries && waits == i
      invariant limiter.Valid()
      invariant limiter.State() == Waits(start, clock, i, limiter.maxTokens, limiter.refillRate)
      invariant AllRetried(fn, i)
      invariant lastError == if i == 0 then None else Some(fn(i - 1).error)
      invariant |backoffs| == (if 0 < i == maxRetries then i - 1 else i) && DoublingBackoffs(backoffs, baseDelay)
    {
      var finished;
      finished, run, lastError, backoffs := RetryAttempt(limiter, fn, clock, maxRetries, baseDelay, i, backoffs, start);
      waits := waits + 1;
      if finished {
        return;
      }
      i := i + 1;
    }
    run := RetryRun(Raised(lastError), i, backoffs);
    if maxRetries > 0 {
      RetryOutcomeDetermined(fn, maxRetries, baseDelay, run);
    }
  }

  /**
   * One pass of the loop of `retry`: wait and call. A success or a
   * non-retryable error finishes the run; any other error becomes the last
   * error, and a backoff follows unless this was the last attempt.
   */
  method RetryAttempt<T>(limiter: RateLimiter, fn: nat -> Attempt<T>, clock: nat -> Tick, maxRetries: nat, baseDelay: nat,
                         i: nat, backoffs: seq<nat>, ghost start: Bucket)
    returns (finished: bool, run: RetryRun<T>, lastError: Option<Failure>, nextBackoffs: seq<nat>)
    requires limiter.Valid() && i < maxRetries
    requires limiter.State() == Waits(start, clock, i, limiter.maxTokens, limiter.refillRate)
    requires AllRetried(fn, i) && |backoffs| == i && DoublingBackoffs(backoffs, baseDelay)
    modifies limiter
    ensures limiter.Valid()
    ensures limiter.State() == Waits(start, clock, i + 1, limiter.maxTokens, limiter.refillRate)
    ensures finished ==> run == RetryOutcome(fn, maxRetries, baseDelay) && run.attempts == i + 1
    ensures !finished ==>
              && AllRetried(fn, i + 1)
              && lastError == Some(fn(i).error)
              && nextBackoffs == backoffs + (if i < maxRetries - 1 then [Backoff(baseDelay, i)] else [])
  {
    var outcome := WaitThenCall(limiter, fn, i, clock(i));
    WaitsNext(start, clock, i, limiter.maxTokens, limiter.refillRate);
    match outcome {
      case Succeeded(v) =>
        run := RetryRun(Returned(v), i + 1, backoffs);
        RetryOutcomeDetermined(fn, maxRetries, baseDelay, run);
        return true, run, None, backoffs;
      case Threw(e) =>
        if NonRetryable(e) {
          run := RetryRun(Raised(Some(e)), i + 1, backoffs);
          RetryOutcomeDetermined(fn, maxRetries, baseDelay, run);
          return true, run, Some(e), backoffs;
        }
        var pause := if i < maxRetries - 1 then [Backoff(baseDelay, i)] else [];
        finished, run, lastError, nextBackoffs := false, RetryRun(Raised(Some(e)), i + 1, backoffs), Some(e), backoffs + pause;
    }
  }

  /** The body of the `try` in `retry`: `await rateLimiter.wait(); return await fn();`. */
  method WaitThenCall<T>(limiter: RateLimiter, fn: nat -> Attempt<T>, i: nat, tick: Tick) returns (outcome: Attempt<T>)
    requires limiter.Valid()
    modifies limiter
    ensures limiter.Valid()
    ensures outcome == fn(i)
    ensures limiter.State() == WaitStep(old(limiter.State()), tick.now, tick.wake, limiter.maxTokens, limiter.refillRate).bucket
  {
    var _ := limiter.Wait(tick.now, tick.wake);
    outcome := fn(i);
  }

  lemma WaitsNext(b: Bucket, clock: nat -> Tick, i: nat, maxTokens: nat, rate: real)
    ensures Waits(b, clock, i + 1, maxTokens, rate)
         == WaitStep(Waits(b, clock, i, maxTokens, rate), clock(i).now, clock(i).wake, maxTokens, rate).bucket
  {
  }

  /** One retryable failure: a backoff (unless it was the last attempt), then the rest of the attempts. */
  lemma RetryStep<T>(fn: nat -> Attempt<T>, maxRetries: nat, baseDelay: nat, i: nat, lastError: Option<Failure>, e: Failure)
    requires i < maxRetries && fn(i) == Threw(e) && !NonRetryable(e)
    ensures RetryFrom(fn, maxRetries, baseDelay, i, lastError)
         == WithBackoffs(if i < maxRetries - 1 then [Backoff(baseDelay, i)] else [],
                         RetryFrom(fn, maxRetries, baseDelay, i + 1, Some(e)))
  {
  }

  /** `callApi(fn)`: `retry(fn)` with three attempts and a one-second base delay. */
  method CallApi<T>(limiter: RateLimiter, fn: nat -> Attempt<T>, clock: nat -> Tick) returns (run: RetryRun<T>)
    requires limiter.Valid()
    modifies limiter
    ensures limiter.Valid()
    ensures run == RetryOutcome(fn, DefaultMaxRetries, DefaultBaseDelay)
    ensures 1 <= run.attempts <= 3 && |run.backoffs| == run.attempts - 1
    ensures limiter.State() == Waits(old(limiter.State()), clock, run.attempts, limiter.maxTokens, limiter.refillRate)
  {
    var waits;
    run, waits := Retry(limiter, fn, clock, DefaultMaxRetries, DefaultBaseDelay);
  }
}
