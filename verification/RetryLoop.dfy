/**
  The retry executor of sdk/retry.go: one call, then as many more as the strategy, the
  budget and the caller's context allow.

  The function being retried, the clock, the context and the random numbers are the
  environment: a World scripts what each call returns and what the loop observes after it.
 */
module RetryLoop {
  import opened Options
  import opened Errors
  import Backoff

  /** maxAttempts and maxDuration apply when positive; an empty list allows every retryable type. */
  datatype Budget = Budget(maxAttempts: int, maxDuration: int, retryable: seq<ErrorType>)

  datatype Strategy =
    | ExponentialStrategy(shape: Backoff.Exponential, budget: Budget)
    | LinearStrategy(interval: int, jitter: real, budget: Budget)
    | ConstantStrategy(interval: int, budget: Budget)
    | NoRetry

  /** What happens at call k (counted from 0) and right after it. */
  datatype World = World(
    call: nat -> Option<GoError>,
    elapsed: nat -> int,
    cancelled: nat -> Option<Sentinel>,
    cancelledWaiting: nat -> Option<Sentinel>,
    draw: nat -> real)

  predicate IsExhausted(b: Budget, attempt: int, elapsed: int) {
    || (b.maxAttempts > 0 && attempt >= b.maxAttempts)
    || (b.maxDuration > 0 && elapsed >= b.maxDuration)
  }

  predicate Allows(b: Budget, e: GoError) {
    && IsRetryable(e)
    && (b.retryable == [] ||
        match AsEnhanced(e)
        case Some(x) => x.Enhanced? && x.kind in b.retryable
        case None => false)
  }

  predicate ShouldRetry(s: Strategy, e: GoError) {
    !s.NoRetry? && Allows(s.budget, e)
  }

  /** The interval asked for before retry number `attempt`. */
  function Interval(s: Strategy, attempt: int, draw: real): int {
    match s
    case ExponentialStrategy(shape, _) => Backoff.NextInterval(shape, attempt, draw)
    case LinearStrategy(interval, jitter, _) => Backoff.LinearInterval(interval, jitter, attempt, draw)
    case ConstantStrategy(interval, _) => if attempt <= 0 then 0 else interval
    case NoRetry => 0
  }

  function Cancellation(cause: Sentinel, waiting: bool): GoError {
    WrapError(Plain(cause), TimeoutType,
              if waiting then "context canceled during retry wait" else "context canceled during retry")
  }

  /** What the loop decides after a call: end with a result, or wait and go round again. */
  datatype Verdict = Stop(result: Option<GoError>) | Retry(wait: int)

  function Judge(s: Strategy, w: World, k: nat): Verdict {
    match w.call(k)
    case None => Stop(None)
    case Some(e) =>
      if !ShouldRetry(s, e) then Stop(Some(e))
      else if w.cancelled(k).Some? then Stop(Some(Cancellation(w.cancelled(k).value, false)))
      else if IsExhausted(s.budget, k + 1, w.elapsed(k)) then Stop(Some(e))
      else
        var interval := Interval(s, k + 1, w.draw(k + 1));
        if interval <= 0 then Stop(Some(e))
        else if w.cancelledWaiting(k).Some? then Stop(Some(Cancellation(w.cancelledWaiting(k).value, true)))
        else Retry(interval)
  }

  datatype Outcome = Running | Finished(result: Option<GoError>)

  /** The loop has made exactly `calls` calls, of at most `horizon`. */
  ghost predicate Ran(s: Strategy, w: World, horizon: nat, calls: nat, outcome: Outcome) {
    && calls <= horizon
    && (forall k: nat :: k + 1 < calls ==> Judge(s, w, k).Retry?)
    && match outcome
       case Finished(r) => calls > 0 && Judge(s, w, calls - 1) == Stop(r)
       case Running => calls == horizon && (calls > 0 ==> Judge(s, w, calls - 1).Retry?)
  }

  /**
    Runs the loop for at most `horizon` calls, so that a loop without a budget can be
    observed too; `waits(k)` is the delay taken before retry k.
   */
  method Execute(s: Strategy, w: World, horizon: nat)
    returns (outcome: Outcome, calls: nat, waited: int)
    ensures Ran(s, w, horizon, calls, outcome)
    ensures waited == Backoff.Total(Waits(s, w), if outcome.Running? || calls == 0 then calls else calls - 1)
  {
    calls, waited := 0, 0;
    var attempt := 0;
    while attempt < horizon
      invariant attempt <= horizon && calls == attempt
      invariant forall k: nat :: k < calls ==> Judge(s, w, k).Retry?
      invariant waited == Backoff.Total(Waits(s, w), calls)
    {
      var err := w.call(attempt);
      calls := calls + 1;
      if err.None? {
        return Finished(None), calls, waited;
      }
      var lastErr := err.value;
      if !ShouldRetry(s, lastErr) {
        return Finished(Some(lastErr)), calls, waited;
      }
      var done := w.cancelled(attempt);
      if done.Some? {
        return Finished(Some(Cancellation(done.value, false))), calls, waited;
      }
      if IsExhausted(s.budget, attempt + 1, w.elapsed(attempt)) {
        return Finished(Some(lastErr)), calls, waited;
      }
      var interval := Interval(s, attempt + 1, w.draw(attempt + 1));
      if interval <= 0 {
        return Finished(Some(lastErr)), calls, waited;
      }
      done := w.cancelledWaiting(attempt);
      if done.Some? {
        return Finished(Some(Cancellation(done.value, true))), calls, waited;
      }
      waited := waited + interval;
      attempt := attempt + 1;
    }
    outcome := Running;
  }

  function Waits(s: Strategy, w: World): nat -> int {
    (k: nat) => Interval(s, k, w.draw(k))
  }

  // ----- outcome -----

  /** A result of nil means the last call succeeded; otherwise the result is the last error or wraps a cancellation. */
  lemma OutcomeMeaning(s: Strategy, w: World, horizon: nat, calls: nat, result: Option<GoError>)
    requires Ran(s, w, horizon, calls, Finished(result))
    ensures result == None <==> w.call(calls - 1) == None
    ensures result.None? || result == w.call(calls - 1)
            || (exists c, waiting :: result == Some(Cancellation(c, waiting)) && CancelledBy(result.value, c))
    ensures forall k: nat :: k + 1 < calls ==> w.call(k).Some? && IsRetryable(w.call(k).value)
  {
    forall k: nat | k + 1 < calls ensures w.call(k).Some? && IsRetryable(w.call(k).value) {
      assert Judge(s, w, k).Retry?;
    }
    var k := calls - 1;
    if w.call(k).Some? && result != w.call(k) {
      if w.cancelled(k).Some? {
        CancellationWrapper(w.cancelled(k).value, "context canceled during retry");
        assert result == Some(Cancellation(w.cancelled(k).value, false));
      } else {
        CancellationWrapper(w.cancelledWaiting(k).value, "context canceled during retry wait");
        assert result == Some(Cancellation(w.cancelledWaiting(k).value, true));
      }
    }
  }

  /** Two observations of the same world agree once the loop has finished. */
  lemma OutcomeUnique(s: Strategy, w: World, h1: nat, c1: nat, o1: Outcome, h2: nat, c2: nat, o2: Outcome)
    requires Ran(s, w, h1, c1, o1) && Ran(s, w, h2, c2, o2) && o1.Finished? && h1 <= h2
    ensures c1 == c2 && o1 == o2
  {
  }

  /**
    What a failed last call ends with.  A caller that gives up during the call is told so even
    when the budget is spent; one that gives up while waiting, only when a wait was due.
   */
  lemma EndsWith(s: Strategy, w: World, horizon: nat, calls: nat, result: Option<GoError>, e: GoError)
    requires Ran(s, w, horizon, calls, Finished(result)) && w.call(calls - 1) == Some(e)
    ensures var k := calls - 1;
            var b := if s.NoRetry? then Budget(0, 0, []) else s.budget;
            var due := && (b.maxAttempts <= 0 || calls < b.maxAttempts)
                       && (b.maxDuration <= 0 || w.elapsed(k) < b.maxDuration)
                       && Interval(s, calls, w.draw(calls)) > 0;
            if !ShouldRetry(s, e) then result == Some(e)
            else if w.cancelled(k).Some? then result == Some(Cancellation(w.cancelled(k).value, false))
            else if due then
              w.cancelledWaiting(k).Some? && result == Some(Cancellation(w.cancelledWaiting(k).value, true))
            else result == Some(e)
  {
  }

  /** An error is retried exactly when it is retryable and, where the budget lists types, of a listed type. */
  lemma RetriedTypes(s: Strategy, e: GoError)
    requires !s.NoRetry?
    ensures ShouldRetry(s, e) <==>
              && IsRetryable(e)
              && (s.budget.retryable == [] || exists kind :: kind in s.budget.retryable && HasType(e, kind))
  {
    if AsEnhanced(e).Some? {
      EnhancedCarriesSentinels(e, ErrTimeout);
      assert AsEnhanced(e).value.kind in s.budget.retryable ==> HasType(e, AsEnhanced(e).value.kind);
    }
  }

  /** The first enhanced error of the chain has this type. */
  predicate HasType(e: GoError, kind: ErrorType) {
    match AsEnhanced(e)
    case Some(x) => x.Enhanced? && x.kind == kind
    case None => false
  }

  /** With a draw of one half a strategy waits its base interval, with a draw of zero the lower end of its jitter. */
  lemma ExponentialDraws(shape: Backoff.Exponential, budget: Budget, attempt: int)
    requires attempt >= 1 && shape.initial >= 0 && shape.maximum >= 0
    requires shape.multiplier >= 1.0 && 0.0 <= shape.jitter <= 1.0
    ensures var s, base := ExponentialStrategy(shape, budget), Backoff.Base(shape, attempt);
            && Interval(s, attempt, 0.5) == Backoff.Truncate(base)
            && Interval(s, attempt, 0.0) == Backoff.Truncate(base - base * shape.jitter)
  {
    Backoff.DrawExactly(shape, attempt);
  }

  lemma OtherDraws(interval: int, jitter: real, budget: Budget, attempt: int)
    requires attempt >= 1 && interval >= 0 && 0.0 <= jitter <= 1.0
    ensures var s, base := LinearStrategy(interval, jitter, budget), interval as real;
            && Interval(s, attempt, 0.5) == interval
            && Interval(s, attempt, 0.0) == Backoff.Truncate(base - base * jitter)
    ensures forall draw :: Interval(ConstantStrategy(interval, budget), attempt, draw) == interval
  {
    Backoff.LinearDraws(interval, jitter, attempt);
  }

  /** Nothing is waited for before a first call. */
  lemma NoRetryNoWait(s: Strategy, attempt: int, draw: real)
    ensures attempt <= 0 || s.NoRetry? ==> Interval(s, attempt, draw) == 0
    ensures s.NoRetry? ==> forall e :: !ShouldRetry(s, e)
  {
  }

  // ----- how many calls -----

  /** With MaxAttempts M > 0 the function is called at most M times, and the loop ends. */
  lemma AttemptBound(s: Strategy, w: World, horizon: nat, calls: nat, outcome: Outcome)
    requires Ran(s, w, horizon, calls, outcome)
    requires !s.NoRetry? && s.budget.maxAttempts > 0
    ensures calls <= s.budget.maxAttempts
    ensures horizon >= s.budget.maxAttempts ==> outcome.Finished?
  {
    assert !Judge(s, w, s.budget.maxAttempts - 1).Retry?;
  }

  /** Every call fails with an error the budget allows, nothing is cancelled, and every delay is positive. */
  ghost predicate AlwaysRetryable(s: Strategy, w: World) {
    forall k: nat :: w.call(k).Some? && ShouldRetry(s, w.call(k).value) && w.cancelled(k).None?
                     && w.cancelledWaiting(k).None? && Interval(s, k + 1, w.draw(k + 1)) > 0
  }

  /** The bound is exact when nothing else ends the loop: M calls, and the M-th error is returned. */
  lemma AttemptsSpent(s: Strategy, w: World, horizon: nat, calls: nat, outcome: Outcome)
    requires Ran(s, w, horizon, calls, outcome) && AlwaysRetryable(s, w)
    requires !s.NoRetry? && 0 < s.budget.maxAttempts <= horizon && s.budget.maxDuration <= 0
    ensures calls == s.budget.maxAttempts && outcome == Finished(w.call(calls - 1))
  {
    AttemptBound(s, w, horizon, calls, outcome);
  }

  /**
    When only the budget ends the loop, it ends exactly at a limit: MaxAttempts calls made or
    MaxDuration passed, and neither before that.
   */
  lemma StopsAtLimit(s: Strategy, w: World, horizon: nat, calls: nat, result: Option<GoError>)
    requires Ran(s, w, horizon, calls, Finished(result)) && AlwaysRetryable(s, w) && !s.NoRetry?
    ensures result == w.call(calls - 1)
    ensures || (s.budget.maxAttempts > 0 && calls == s.budget.maxAttempts)
            || (s.budget.maxDuration > 0 && w.elapsed(calls - 1) >= s.budget.maxDuration)
    ensures forall k: nat :: k + 1 < calls ==>
              && (s.budget.maxAttempts <= 0 || k + 1 < s.budget.maxAttempts)
              && (s.budget.maxDuration <= 0 || w.elapsed(k) < s.budget.maxDuration)
  {
    forall k: nat | k + 1 < calls
      ensures s.budget.maxAttempts <= 0 || k + 1 < s.budget.maxAttempts
      ensures s.budget.maxDuration <= 0 || w.elapsed(k) < s.budget.maxDuration
    {
      assert Judge(s, w, k).Retry?;
    }
    if s.budget.maxAttempts > 0 && calls > 1 {
      assert Judge(s, w, calls - 2).Retry?;
    }
  }

  /** Elapsed time covers at least the delays waited so far. */
  ghost predicate ClockCoversWaits(s: Strategy, w: World) {
    && w.elapsed(0) >= 0
    && forall k: nat :: w.elapsed(k + 1) >= w.elapsed(k) + Interval(s, k + 1, w.draw(k + 1))
  }

  lemma {:induction false} ElapsedGrows(s: Strategy, w: World, k: nat)
    requires s.ConstantStrategy? && s.interval > 0 && ClockCoversWaits(s, w)
    ensures w.elapsed(k) >= k * s.interval
  {
    if k > 0 {
      ElapsedGrows(s, w, k - 1);
      assert w.elapsed((k - 1) + 1) >= w.elapsed(k - 1) + Interval(s, (k - 1) + 1, w.draw((k - 1) + 1));
    }
  }

  function CeilDiv(a: int, b: int): int
    requires b > 0
  {
    (a + b - 1) / b
  }

  /**
    Without an attempt limit, a duration limit D and a constant delay c still bound the calls:
    at most ceil(D/c) + 1.
   */
  lemma DurationBound(s: Strategy, w: World, horizon: nat, calls: nat, outcome: Outcome)
    requires Ran(s, w, horizon, calls, outcome)
    requires s.ConstantStrategy? && s.interval > 0 && s.budget.maxDuration > 0 && ClockCoversWaits(s, w)
    ensures calls <= CeilDiv(s.budget.maxDuration, s.interval) + 1
    ensures horizon >= CeilDiv(s.budget.maxDuration, s.interval) + 1 ==> outcome.Finished?
  {
    var n := CeilDiv(s.budget.maxDuration, s.interval);
    CeilDivCovers(s.budget.maxDuration, s.interval);
    ElapsedGrows(s, w, n);
    assert !Judge(s, w, n).Retry?;
  }

  lemma {:induction false} ElapsedOutrunsCalls(s: Strategy, w: World, k: nat)
    requires ClockCoversWaits(s, w) && forall j: nat :: j < k ==> Judge(s, w, j).Retry?
    ensures w.elapsed(k) >= k
  {
    if k > 0 {
      ElapsedOutrunsCalls(s, w, k - 1);
      assert Judge(s, w, k - 1).Retry?;
      assert w.elapsed((k - 1) + 1) >= w.elapsed(k - 1) + Interval(s, (k - 1) + 1, w.draw((k - 1) + 1));
    }
  }

  /**
    A duration limit D alone bounds the calls of every strategy: a retry waits at least one
    nanosecond, so there are at most D + 1 calls, and the loop ends.
   */
  lemma DurationEnds(s: Strategy, w: World, horizon: nat, calls: nat, outcome: Outcome)
    requires Ran(s, w, horizon, calls, outcome)
    requires !s.NoRetry? && s.budget.maxDuration > 0 && ClockCoversWaits(s, w)
    ensures calls <= s.budget.maxDuration + 1
    ensures horizon >= s.budget.maxDuration + 1 ==> outcome.Finished?
  {
    var d := s.budget.maxDuration;
    if calls > d {
      forall j: nat | j < d ensures Judge(s, w, j).Retry? { }
      ElapsedOutrunsCalls(s, w, d);
      assert !Judge(s, w, d).Retry?;
    }
  }

  /** However it is observed up to h calls, the loop has ended. */
  ghost predicate EndsBy(s: Strategy, w: World, h: nat) {
    forall calls, outcome :: Ran(s, w, h, calls, outcome) ==> outcome.Finished?
  }

  /** When only a limit can end the loop, it ends if and only if there is one. */
  lemma EndsExactly(s: Strategy, w: World)
    requires !s.NoRetry? && AlwaysRetryable(s, w) && ClockCoversWaits(s, w)
    ensures s.budget.maxAttempts > 0 || s.budget.maxDuration > 0 <==> exists h: nat :: EndsBy(s, w, h)
  {
    var a: nat := if s.budget.maxAttempts > 0 then s.budget.maxAttempts else 0;
    var d: nat := if s.budget.maxDuration > 0 then s.budget.maxDuration + 1 else 0;
    if s.budget.maxAttempts > 0 {
      forall calls, outcome | Ran(s, w, a, calls, outcome) ensures outcome.Finished? {
        AttemptBound(s, w, a, calls, outcome);
      }
      assert EndsBy(s, w, a);
    } else if s.budget.maxDuration > 0 {
      forall calls, outcome | Ran(s, w, d, calls, outcome) ensures outcome.Finished? {
        DurationEnds(s, w, d, calls, outcome);
      }
      assert EndsBy(s, w, d);
    } else {
      forall h: nat ensures !EndsBy(s, w, h) {
        assert Ran(s, w, h, h, Running);
      }
    }
  }

  lemma CeilDivCovers(a: int, b: int)
    requires a > 0 && b > 0
    ensures CeilDiv(a, b) * b >= a && CeilDiv(a, b) >= 1
  {
  }

  /** With neither limit a world that keeps failing is retried for ever. */
  lemma UnlimitedNeverEnds(s: Strategy, w: World, horizon: nat, calls: nat, outcome: Outcome)
    requires Ran(s, w, horizon, calls, outcome) && AlwaysRetryable(s, w)
    requires !s.NoRetry? && s.budget.maxAttempts <= 0 && s.budget.maxDuration <= 0
    ensures outcome == Running && calls == horizon
  {
  }

  // ----- how long it waits -----

  /** The settings Config.Validate guarantees, and random numbers from [0, 1). */
  ghost predicate Sensible(s: Strategy, w: World) {
    && s.ExponentialStrategy?
    && s.shape.initial > 0 && s.shape.maximum > 0 && s.shape.multiplier > 1.0 && 0.0 <= s.shape.jitter <= 1.0
    && forall k: nat {:trigger w.draw(k)} :: 0.0 <= w.draw(k) < 1.0
  }

  lemma WaitsAreIntervals(s: Strategy, w: World, n: nat)
    requires Sensible(s, w)
    ensures Backoff.WaitsOf(s.shape, Waits(s, w), w.draw, n)
  {
  }

  /** n retries under exponential backoff wait at most (1 + J) * n * Max in total; k is 1 + J. */
  lemma WaitedBelowCap(s: Strategy, w: World, n: nat, waits: nat -> int, k: real, capped: real)
    requires Sensible(s, w) && waits == Waits(s, w)
    requires k == 1.0 + s.shape.jitter && capped == n as real * s.shape.maximum as real
    ensures Backoff.Total(waits, n) as real <= k * capped
  {
    WaitsAreIntervals(s, w, n);
    Backoff.WaitBelowCap(s.shape, waits, w.draw, n, k, capped);
  }

  /** ... and at most (1 + J) * Initial * (1 + m + ... + m^(n-1)). */
  lemma WaitedBelowGeometric(s: Strategy, w: World, n: nat, waits: nat -> int, k: real, summed: real)
    requires Sensible(s, w) && waits == Waits(s, w)
    requires k == 1.0 + s.shape.jitter && summed == s.shape.initial as real * Backoff.Geometric(s.shape.multiplier, n)
    ensures Backoff.Total(waits, n) as real <= k * summed
  {
    WaitsAreIntervals(s, w, n);
    Backoff.WaitBelowGeometric(s.shape, waits, w.draw, n, k, summed);
  }

  /**
    The waiting a run reports: with at most n calls it is within (1 + J) times the smaller
    of (n - 1) * Max and Initial * (m^(n-1) - 1)/(m - 1), whatever is drawn.
   */
  lemma WaitedWithin(s: Strategy, w: World, horizon: nat, calls: nat, outcome: Outcome, n: nat, waited: int)
    requires Ran(s, w, horizon, calls, outcome) && outcome.Finished? && calls <= n && Sensible(s, w)
    requires waited == Backoff.Total(Waits(s, w), calls - 1)
    ensures waited as real <= Backoff.WaitLimit(s.shape, n - 1)
  {
    WaitsAreIntervals(s, w, n - 1);
    Backoff.WaitWithin(s.shape, Waits(s, w), w.draw, calls - 1, n - 1);
  }
}
