/** The client configuration of sdk/config.go, and the retry budget sdk/native.go derives from it. */
module Config {
  import opened Options
  import opened Errors
  import CB = CircuitBreaker
  import RetryLoop
  import Backoff

  const MILLISECOND: int := 1_000_000
  const SECOND: int := 1_000 * MILLISECOND

  datatype Retry = Retry(maxRetries: int, initialInterval: int, maxInterval: int, multiplier: real)

  const ERR_INVALID_CONFIG: GoError := Plain(OtherSentinel("invalid configuration"))

  function OrDefault(value: int, default: int): int {
    if value <= 0 then default else value
  }

  /** What validation leaves in each field. */
  function ClampRetry(r: Retry): Retry {
    Retry(if r.maxRetries < 0 then 0 else r.maxRetries,
          OrDefault(r.initialInterval, 100 * MILLISECOND),
          OrDefault(r.maxInterval, 5 * SECOND),
          if r.multiplier <= 1.0 then 2.0 else r.multiplier)
  }

  function ClampBreaker(c: CB.Settings): CB.Settings {
    CB.Settings(OrDefault(c.failureThreshold, 5), OrDefault(c.successThreshold, 2),
                OrDefault(c.timeout, 30 * SECOND), OrDefault(c.halfOpenRequests, 3))
  }

  predicate SaneRetry(r: Retry) {
    r.maxRetries >= 0 && r.initialInterval > 0 && r.maxInterval > 0 && r.multiplier > 1.0
  }

  class Config {
    var baseURL: string
    var timeout: int
    var retry: Retry
    var breaker: Option<CB.Settings>
    var hasObserver: bool

    constructor (baseURL: string, timeout: int, retry: Retry, breaker: Option<CB.Settings>, hasObserver: bool)
      ensures this.baseURL == baseURL && this.timeout == timeout && this.retry == retry
      ensures this.breaker == breaker && this.hasObserver == hasObserver
    {
      this.baseURL, this.timeout, this.retry := baseURL, timeout, retry;
      this.breaker, this.hasObserver := breaker, hasObserver;
    }

    predicate Sane()
      reads this
    {
      && baseURL != "" && timeout > 0 && SaneRetry(retry) && hasObserver
      && (breaker.Some? ==> CB.Positive(breaker.value))
    }

    static method ValidateBreaker(given: CB.Settings) returns (c: CB.Settings)
      ensures c == ClampBreaker(given) && CB.Positive(c)
    {
      c := given;
      if c.failureThreshold <= 0 {
        c := c.(failureThreshold := 5);
      }
      if c.successThreshold <= 0 {
        c := c.(successThreshold := 2);
      }
      if c.timeout <= 0 {
        c := c.(timeout := 30 * SECOND);
      }
      if c.halfOpenRequests <= 0 {
        c := c.(halfOpenRequests := 3);
      }
    }

    static method ValidateRetry(given: Retry) returns (r: Retry)
      ensures r == ClampRetry(given) && SaneRetry(r)
    {
      r := given;
      if r.maxRetries < 0 {
        r := r.(maxRetries := 0);
      }
      if r.initialInterval <= 0 {
        r := r.(initialInterval := 100 * MILLISECOND);
      }
      if r.maxInterval <= 0 {
        r := r.(maxInterval := 5 * SECOND);
      }
      if r.multiplier <= 1.0 {
        r := r.(multiplier := 2.0);
      }
    }

    /** Rejects an empty base URL; otherwise puts every field in range, leaving good values alone. */
    method Validate() returns (err: Option<GoError>)
      modifies this
      ensures baseURL == old(baseURL) && (err.Some? <==> baseURL == "")
      ensures err.Some? ==> err == Some(ERR_INVALID_CONFIG) && timeout == old(timeout) && retry == old(retry)
                            && breaker == old(breaker) && hasObserver == old(hasObserver)
      ensures err.None? ==> Sane()
      ensures err.None? ==> timeout == OrDefault(old(timeout), 30 * SECOND)
      ensures err.None? ==> retry == ClampRetry(old(retry))
      ensures err.None? ==> breaker == match old(breaker) case None => None case Some(c) => Some(ClampBreaker(c))
    {
      if baseURL == "" {
        return Some(ERR_INVALID_CONFIG);
      }
      if timeout <= 0 {
        timeout := 30 * SECOND;
      }
      retry := ValidateRetry(retry);
      hasObserver := true;
      if breaker.Some? {
        var c := ValidateBreaker(breaker.value);
        breaker := Some(c);
      }
      return None;
    }
  }

  /** The strategy newHTTPTransport builds when the user supplied none. */
  function DefaultStrategy(r: Retry): RetryLoop.Strategy {
    RetryLoop.ExponentialStrategy(
      Backoff.Exponential(r.initialInterval, r.maxInterval, r.multiplier, 0.3),
      RetryLoop.Budget(r.maxRetries + 1, 0, []))
  }

  /** Validation reaches the range the other proofs need, and changes nothing already in it. */
  lemma ClampSane(r: Retry, c: CB.Settings)
    ensures SaneRetry(ClampRetry(r)) && (SaneRetry(r) <==> ClampRetry(r) == r)
    ensures CB.Positive(ClampBreaker(c)) && (CB.Positive(c) <==> ClampBreaker(c) == c)
  {
  }

  /**
    A value out of range is replaced by a fixed one: no retries, 100 milliseconds to 5 seconds
    doubling, 5 failures, 2 successes, 30 seconds, 3 trial calls.
   */
  lemma ClampDefaults(r: Retry, c: CB.Settings)
    ensures var k := ClampRetry(r);
            && k.maxRetries == (if r.maxRetries >= 0 then r.maxRetries else 0)
            && k.initialInterval == (if r.initialInterval > 0 then r.initialInterval else 100_000_000)
            && k.maxInterval == (if r.maxInterval > 0 then r.maxInterval else 5_000_000_000)
            && k.multiplier == (if r.multiplier > 1.0 then r.multiplier else 2.0)
    ensures var k := ClampBreaker(c);
            && k.failureThreshold == (if c.failureThreshold > 0 then c.failureThreshold else 5)
            && k.successThreshold == (if c.successThreshold > 0 then c.successThreshold else 2)
            && k.timeout == (if c.timeout > 0 then c.timeout else 30_000_000_000)
            && k.halfOpenRequests == (if c.halfOpenRequests > 0 then c.halfOpenRequests else 3)
  {
  }

  /**
    When every call fails with a retryable error and nobody cancels, the default strategy makes
    exactly MaxRetries + 1 calls, waiting between 0.7 and 1.3 times the capped power of the
    multiplier, short of that by less than a nanosecond.
   */
  lemma DefaultStrategySpends(r: Retry, w: RetryLoop.World, horizon: nat, calls: nat, outcome: RetryLoop.Outcome)
    requires SaneRetry(r) && RetryLoop.Ran(DefaultStrategy(r), w, horizon, calls, outcome)
    requires RetryLoop.AlwaysRetryable(DefaultStrategy(r), w) && horizon > r.maxRetries
    ensures calls == r.maxRetries + 1 && outcome == RetryLoop.Finished(w.call(r.maxRetries))
  {
    RetryLoop.AttemptsSpent(DefaultStrategy(r), w, horizon, calls, outcome);
  }

  lemma DefaultStrategyDelays(r: Retry, attempt: nat, draw: real)
    requires SaneRetry(r) && attempt >= 1 && 0.0 <= draw < 1.0
    ensures var grown := r.initialInterval as real * Backoff.Power(r.multiplier, attempt - 1);
            var base := if grown > r.maxInterval as real then r.maxInterval as real else grown;
            var delay := RetryLoop.Interval(DefaultStrategy(r), attempt, draw) as real;
            base - base * 0.3 - 1.0 < delay <= base + base * 0.3
  {
    Backoff.JitterBounds(DefaultStrategy(r).shape, attempt, draw);
  }

  /**
    A validated configuration makes at most MaxRetries + 1 HTTP attempts per call, the
    loop ends, and its delays are those bounded by RetryLoop.WaitedBelowCap.
   */
  lemma DefaultStrategyBounds(r: Retry, w: RetryLoop.World, horizon: nat, calls: nat, outcome: RetryLoop.Outcome)
    requires SaneRetry(r) && RetryLoop.Ran(DefaultStrategy(r), w, horizon, calls, outcome)
    ensures calls <= r.maxRetries + 1
    ensures horizon > r.maxRetries ==> outcome.Finished?
    ensures (forall k: nat {:trigger w.draw(k)} :: 0.0 <= w.draw(k) < 1.0) ==> RetryLoop.Sensible(DefaultStrategy(r), w)
  {
    RetryLoop.AttemptBound(DefaultStrategy(r), w, horizon, calls, outcome);
  }
}
