/**
  The half-open limit can block a breaker for ever: exactly when the success threshold is
  above the number of half-open requests, some run reaches a state in which every call is
  rejected until somebody resets the breaker.
 */
module BreakerWedge {
  import opened Options
  import opened Errors
  import opened CircuitBreaker
  import opened BreakerRuns
  import RetryLoop

  /** A call that fails at once with an error nobody retries, and one that succeeds at once. */
  function Script(fails: bool): RetryLoop.World {
    RetryLoop.World(_ => if fails then Some(Plain(ErrCircuitOpen)) else None, _ => 0, _ => None, _ => None, _ => 0.0)
  }

  /** Admission, one HTTP attempt and the recording of call number i, with nothing in between. */
  function Trial(i: nat, fails: bool): seq<Event> {
    [Begin(Script(fails)), Attempt(i), Complete(i)]
  }

  lemma {:induction false} RunConcat(s: System, a: seq<Event>, b: seq<Event>)
    requires Possible(s, a) && Possible(Run(s, a), b)
    ensures Possible(s, a + b) && Run(s, a + b) == Run(Run(s, a), b)
    decreases |a|
  {
    if a == [] {
      assert a + b == b;
    } else {
      assert (a + b)[0] == a[0] && (a + b)[1..] == a[1..] + b;
      RunConcat(Step(s, a[0]), a[1..], b);
    }
  }

  /** No call is waiting for its result. */
  ghost predicate Quiet(s: System) {
    forall i: nat :: !InFlight(s, i)
  }

  lemma ScriptVerdict(s: System, fails: bool)
    ensures RetryLoop.Judge(s.strategy, Script(fails), 0)
            == RetryLoop.Stop(if fails then Some(Plain(ErrCircuitOpen)) else None)
  {
    if fails {
      assert !IsRetryable(Plain(ErrCircuitOpen));
    }
  }

  /** One call with nothing else in flight. */
  lemma OneTrial(s: System, fails: bool) returns (s': System)
    requires Quiet(s) && Admit(s.settings, s.breaker, s.clock).1.Admitted?
    ensures Possible(s, Trial(|s.calls|, fails)) && s' == Run(s, Trial(|s.calls|, fails))
    ensures Quiet(s') && |s'.calls| == |s.calls| + 1
    ensures s'.breaker == Record(s.settings, Admit(s.settings, s.breaker, s.clock).0, fails, s.clock)
    ensures s'.settings == s.settings && s'.strategy == s.strategy && s'.clock == s.clock
  {
    var i := |s.calls|;
    var s1 := Step(s, Begin(Script(fails)));
    var s2 := Step(s1, Attempt(i));
    ScriptVerdict(s, fails);
    s' := Step(s2, Complete(i));
    OneStep(s2, Complete(i), []);
    OneStep(s1, Attempt(i), [Complete(i)]);
    OneStep(s, Begin(Script(fails)), [Attempt(i), Complete(i)]);
    forall k: nat ensures !InFlight(s', k) {
      if k < i {
        assert !InFlight(s, k) && s'.calls[k] == s.calls[k];
      }
    }
  }

  lemma OneStep(s: System, e: Event, rest: seq<Event>)
    requires Enabled(s, e) && Possible(Step(s, e), rest)
    ensures Possible(s, [e] + rest) && Run(s, [e] + rest) == Run(Step(s, e), rest)
    ensures rest == [] ==> Possible(s, [e]) && Run(s, [e]) == Step(s, e)
  {
    assert ([e] + rest)[1..] == rest;
    assert rest == [] ==> [e] + rest == [e];
  }

  /** A run from the initial state to s. */
  ghost predicate Leads(c: Settings, st: RetryLoop.Strategy, events: seq<Event>, s: System) {
    Possible(Init(c, st, 0), events) && s == Run(Init(c, st, 0), events)
  }

  lemma {:induction false} FailTrials(c: Settings, st: RetryLoop.Strategy, n: nat)
    returns (events: seq<Event>, s: System)
    requires Positive(c) && n <= c.failureThreshold
    ensures Leads(c, st, events, s) && Quiet(s) && s.settings == c && s.strategy == st && s.clock == 0
    ensures s.breaker.lastFailureTime == 0
    ensures n < c.failureThreshold ==> s.breaker.state == Closed && s.breaker.failures == n
    ensures n == c.failureThreshold ==> s.breaker.state == Open
  {
    if n == 0 {
      events, s := [], Init(c, st, 0);
    } else {
      var before, b := FailTrials(c, st, n - 1);
      s := OneTrial(b, true);
      events := before + Trial(|b.calls|, true);
      RunConcat(Init(c, st, 0), before, Trial(|b.calls|, true));
    }
  }

  /** Opens the breaker, waits for the timeout, and lets `n` trial calls succeed one by one. */
  lemma {:induction false} HalfOpenTrials(c: Settings, st: RetryLoop.Strategy, n: nat)
    returns (events: seq<Event>, s: System)
    requires Positive(c) && n < c.successThreshold && n <= c.halfOpenRequests
    ensures Leads(c, st, events, s) && Quiet(s) && s.settings == c && s.strategy == st
    ensures s.breaker.state == HalfOpen && s.breaker.successes == s.breaker.halfOpenRequests == n
  {
    if n == 0 {
      var before, b := FailTrials(c, st, c.failureThreshold);
      var ticked := Step(b, Tick(c.timeout));
      s := Step(ticked, Poll);
      OneStep(ticked, Poll, []);
      OneStep(b, Tick(c.timeout), [Poll]);
      var tail := [Tick(c.timeout)] + [Poll];
      events := before + tail;
      RunConcat(Init(c, st, 0), before, tail);
      forall k: nat ensures !InFlight(s, k) {
        assert !InFlight(b, k);
      }
    } else {
      var before, b := HalfOpenTrials(c, st, n - 1);
      s := OneTrial(b, false);
      events := before + Trial(|b.calls|, false);
      RunConcat(Init(c, st, 0), before, Trial(|b.calls|, false));
    }
  }

  /**
    With SuccessThreshold > HalfOpenRequests, calls made strictly one after the other can
    use up the half-open limit without closing the breaker; from then on every run without
    a reset keeps it there and every call is rejected.
   */
  lemma WedgeReachable(c: Settings, st: RetryLoop.Strategy) returns (s: System)
    requires Positive(c) && c.successThreshold > c.halfOpenRequests
    ensures Reachable(s) && s.settings == c && s.strategy == st && Wedged(s) && Quiet(s)
    ensures forall events: seq<Event> :: Possible(s, events) && (forall e: Event :: e in events ==> !e.Reset?) ==>
              Wedged(Run(s, events)) && Admit(c, Run(s, events).breaker, Run(s, events).clock).1.Rejected?
  {
    var events;
    events, s := HalfOpenTrials(c, st, c.halfOpenRequests);
    assert Possible(Init(s.settings, s.strategy, 0), events);
    forall more: seq<Event> | Possible(s, more) && (forall e: Event :: e in more ==> !e.Reset?)
      ensures Wedged(Run(s, more)) && Admit(c, Run(s, more).breaker, Run(s, more).clock).1.Rejected?
    {
      WedgeLasts(s, more);
    }
  }

  /** The breaker can never wedge if and only if SuccessThreshold <= HalfOpenRequests. */
  lemma WedgeFreeExactly(c: Settings, st: RetryLoop.Strategy)
    requires Positive(c)
    ensures c.successThreshold <= c.halfOpenRequests
            <==> forall s :: Reachable(s) && s.settings == c && s.strategy == st ==> !Wedged(s)
  {
    if c.successThreshold <= c.halfOpenRequests {
      forall s | Reachable(s) && s.settings == c && s.strategy == st ensures !Wedged(s) {
        if s.breaker.state == HalfOpen && s.breaker.halfOpenRequests >= c.halfOpenRequests {
          var _, _ := NeverWedges(s);
        }
      }
    } else {
      var s := WedgeReachable(c, st);
    }
  }
}
