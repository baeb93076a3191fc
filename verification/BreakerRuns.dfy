/**
  Whole runs of a circuit breaker shared by overlapping calls (sdk/circuit_breaker.go),
  each call being a retry loop of HTTP attempts (sdk/native.go).

  A call is admitted in one critical section and recorded in another, so it may finish in
  a different state than it started in.  An episode is the time the breaker spends in one
  state between two transitions or resets; every call carries the episode it was admitted
  in.
 */
module BreakerRuns {
  import opened Options
  import opened Errors
  import opened Counting
  import opened CircuitBreaker
  import RetryLoop
  import Config

  /** An admitted call: its script, the HTTP attempts made so far, and whether it was recorded. */
  datatype Call = Call(episode: nat, world: RetryLoop.World, made: nat, finished: bool)

  /**
    `kinds` lists the state of every episode so far; `trail` holds the outcomes (true for a
    failure) recorded in the current episode; `failureTimes` the times of all recorded
    failures.
   */
  datatype System = System(settings: Settings, strategy: RetryLoop.Strategy, breaker: Breaker, clock: int,
                           episode: nat, kinds: seq<CircuitState>, calls: seq<Call>,
                           trail: seq<bool>, failureTimes: seq<int>)

  datatype Event =
    | Begin(world: RetryLoop.World)
    | Attempt(index: nat)
    | Complete(index: nat)
    | Poll
    | Reset
    | Tick(duration: nat)

  function Init(c: Settings, st: RetryLoop.Strategy, now: int): System {
    System(c, st, Fresh(now), now, 0, [Closed], [], [], [])
  }

  /** How many HTTP attempts one call can make, when the strategy bounds their number. */
  function AttemptLimit(st: RetryLoop.Strategy): Option<nat> {
    if st.NoRetry? then Some(1)
    else if st.budget.maxAttempts > 0 then Some(st.budget.maxAttempts)
    else None
  }

  function Judged(s: System, i: nat): RetryLoop.Verdict
    requires i < |s.calls| && s.calls[i].made > 0
  {
    RetryLoop.Judge(s.strategy, s.calls[i].world, s.calls[i].made - 1)
  }

  predicate InFlight(s: System, i: nat) {
    i < |s.calls| && !s.calls[i].finished
  }

  predicate Enabled(s: System, e: Event) {
    match e
    case Attempt(i) => InFlight(s, i) && (s.calls[i].made == 0 || Judged(s, i).Retry?)
    case Complete(i) => InFlight(s, i) && s.calls[i].made > 0 && Judged(s, i).Stop?
    case _ => true
  }

  /** Puts a new breaker value in place, opening a new episode when the state changed or on a reset. */
  function Place(s: System, b: Breaker, reset: bool): System {
    if reset || b.state != s.breaker.state then
      s.(breaker := b, episode := s.episode + 1, kinds := s.kinds + [b.state], trail := [])
    else s.(breaker := b)
  }

  function Failed(s: System, i: nat): bool
    requires i < |s.calls| && s.calls[i].made > 0 && Judged(s, i).Stop?
  {
    Judged(s, i).result.Some?
  }

  /** The system once the outcome of call i has been noted, before the breaker reacts. */
  function Noted(s: System, i: nat, failed: bool): System
    requires i < |s.calls|
  {
    s.(calls := s.calls[i := s.calls[i].(finished := true)],
       trail := s.trail + [failed],
       failureTimes := if failed then s.failureTimes + [s.clock] else s.failureTimes)
  }

  function Step(s: System, e: Event): System
    requires Enabled(s, e)
  {
    match e
    case Begin(w) =>
      var (b, a) := Admit(s.settings, s.breaker, s.clock);
      var s' := Place(s, b, false);
      if a.Admitted? then s'.(calls := s'.calls + [Call(s'.episode, w, 0, false)]) else s'
    case Attempt(i) => s.(calls := s.calls[i := s.calls[i].(made := s.calls[i].made + 1)])
    case Complete(i) =>
      Place(Noted(s, i, Failed(s, i)), Record(s.settings, s.breaker, Failed(s, i), s.clock), false)
    case Poll => Place(s, Refresh(s.settings, s.breaker, s.clock), false)
    case Reset => Place(s, Cleared(s.breaker, s.clock), true)
    case Tick(d) => s.(clock := s.clock + d)
  }

  ghost predicate Possible(s: System, events: seq<Event>)
    decreases |events|
  {
    events == [] || (Enabled(s, events[0]) && Possible(Step(s, events[0]), events[1..]))
  }

  ghost function Run(s: System, events: seq<Event>): System
    requires Possible(s, events)
    decreases |events|
  {
    if events == [] then s else Run(Step(s, events[0]), events[1..])
  }

  // ----- counting calls of an episode -----

  function In(e: nat): Call -> bool { (c: Call) => c.episode == e }

  function FinishedIn(e: nat): Call -> bool { (c: Call) => c.episode == e && c.finished }

  /** HTTP attempts made by all calls admitted in an episode, running or recorded. */
  function AttemptsIn(calls: seq<Call>, e: nat): nat {
    if calls == [] then 0
    else AttemptsIn(calls[..|calls| - 1], e) + if calls[|calls| - 1].episode == e then calls[|calls| - 1].made else 0
  }

  /** How many outcomes at the end of the trail are failures. */
  function Streak(trail: seq<bool>): nat {
    if trail == [] || !trail[|trail| - 1] then 0 else 1 + Streak(trail[..|trail| - 1])
  }

  /** How many outcomes of the trail are successes. */
  function Successes(trail: seq<bool>): nat {
    if trail == [] then 0 else Successes(trail[..|trail| - 1]) + if trail[|trail| - 1] then 0 else 1
  }

  // ----- the invariant -----

  /** The breaker knows the time of the last recorded failure, across resets too. */
  predicate LastFailure(s: System) {
    s.failureTimes != [] ==> s.breaker.lastFailureTime == s.failureTimes[|s.failureTimes| - 1]
  }

  ghost predicate ClosedInv(s: System) {
    LastFailure(s)
    && s.breaker.failures == Streak(s.trail) < s.settings.failureThreshold
    && s.breaker.successes == 0 && s.breaker.halfOpenRequests == 0
  }

  ghost predicate OpenInv(s: System) {
    s.breaker.failures == 0 && s.breaker.successes == 0 && s.breaker.halfOpenRequests == 0
    && s.failureTimes != [] && LastFailure(s)
  }

  ghost predicate HalfOpenInv(s: System) {
    s.breaker.failures == 0
    && s.breaker.successes == Successes(s.trail) < s.settings.successThreshold
    && 0 <= s.breaker.halfOpenRequests <= s.settings.halfOpenRequests
    && s.breaker.halfOpenRequests == Count(s.calls, In(s.episode))
    && Count(s.calls, FinishedIn(s.episode)) <= s.breaker.successes
    && s.failureTimes != [] && LastFailure(s)
  }

  ghost predicate CallsInv(s: System) {
    var limit := AttemptLimit(s.strategy);
    forall c :: c in s.calls ==> c.episode <= s.episode && (limit.Some? ==> c.made <= limit.value)
  }

  ghost predicate EpisodesInv(s: System) {
    && |s.kinds| == s.episode + 1 && s.kinds[s.episode] == s.breaker.state
    && forall e: nat :: e < |s.kinds| ==>
         && (s.kinds[e] == HalfOpen ==> Count(s.calls, In(e)) <= s.settings.halfOpenRequests)
         && (s.kinds[e] == Open ==> Count(s.calls, In(e)) == 0)
  }

  ghost predicate StateInv(s: System) {
    match s.breaker.state
    case Closed => ClosedInv(s)
    case Open => OpenInv(s)
    case HalfOpen => HalfOpenInv(s)
  }

  ghost predicate Inv(s: System)
  {
    Positive(s.settings) && CallsInv(s) && EpisodesInv(s) && StateInv(s)
  }

  /** A new episode has no calls yet. */
  lemma PlaceInv(s: System, b: Breaker, reset: bool)
    requires CallsInv(s) && EpisodesInv(s) && s.settings.halfOpenRequests > 0
    ensures CallsInv(Place(s, b, reset)) && EpisodesInv(Place(s, b, reset))
    ensures Place(s, b, reset).episode == s.episode + 1 ==>
              Count(s.calls, In(s.episode + 1)) == 0 && Count(s.calls, FinishedIn(s.episode + 1)) == 0
  {
    CountNone(s.calls, In(s.episode + 1));
    CountNone(s.calls, FinishedIn(s.episode + 1));
    var s' := Place(s, b, reset);
    forall e: nat | e < |s'.kinds|
      ensures s'.kinds[e] == HalfOpen ==> Count(s'.calls, In(e)) <= s'.settings.halfOpenRequests
      ensures s'.kinds[e] == Open ==> Count(s'.calls, In(e)) == 0
    {
      if e < |s.kinds| {
        assert s'.kinds[e] == s.kinds[e];
      }
    }
  }

  lemma RefreshInv(s: System)
    requires Inv(s)
    ensures Inv(Place(s, Refresh(s.settings, s.breaker, s.clock), false))
  {
    PlaceInv(s, Refresh(s.settings, s.breaker, s.clock), false);
  }

  /** Admitting one more call into the current episode. */
  lemma AdmitInv(s: System, c: Call)
    requires Inv(s) && c.episode == s.episode && c.made == 0 && !c.finished && s.breaker.state != Open
    requires s.breaker.state == HalfOpen ==> s.breaker.halfOpenRequests < s.settings.halfOpenRequests
    ensures Inv(s.(calls := s.calls + [c],
                   breaker := if s.breaker.state == HalfOpen
                              then s.breaker.(halfOpenRequests := s.breaker.halfOpenRequests + 1) else s.breaker))
  {
    CountAppend(s.calls, FinishedIn(s.episode), c);
    forall e: nat ensures Count(s.calls + [c], In(e)) == Count(s.calls, In(e)) + if e == s.episode then 1 else 0 {
      CountAppend(s.calls, In(e), c);
    }
  }

  lemma BeginInv(s: System, w: RetryLoop.World)
    requires Inv(s)
    ensures Inv(Step(s, Begin(w)))
  {
    RefreshInv(s);
    var r := Place(s, Refresh(s.settings, s.breaker, s.clock), false);
    var (b, a) := Admit(s.settings, s.breaker, s.clock);
    if a.Admitted? {
      AdmitInv(r, Call(r.episode, w, 0, false));
    }
  }

  /** Changing one call's progress without touching its episode. */
  lemma CallChanged(s: System, i: nat, c: Call)
    requires i < |s.calls| && c.episode == s.calls[i].episode
    ensures forall e: nat :: Count(s.calls[i := c], In(e)) == Count(s.calls, In(e))
    ensures forall e: nat :: Count(s.calls[i := c], FinishedIn(e)) == Count(s.calls, FinishedIn(e))
              + if c.episode == e then (if c.finished then 1 else 0) - (if s.calls[i].finished then 1 else 0) else 0
  {
    forall e: nat ensures Count(s.calls[i := c], In(e)) == Count(s.calls, In(e)) {
      CountUpdate(s.calls, In(e), i, c);
    }
    forall e: nat ensures Count(s.calls[i := c], FinishedIn(e)) == Count(s.calls, FinishedIn(e))
              + if c.episode == e then (if c.finished then 1 else 0) - (if s.calls[i].finished then 1 else 0) else 0 {
      CountUpdate(s.calls, FinishedIn(e), i, c);
    }
  }

  lemma AttemptInv(s: System, i: nat)
    requires Inv(s) && Enabled(s, Attempt(i))
    ensures Inv(Step(s, Attempt(i)))
  {
    CallChanged(s, i, s.calls[i].(made := s.calls[i].made + 1));
  }

  lemma NotedInv(s: System, i: nat)
    requires Inv(s) && Enabled(s, Complete(i))
    ensures var n := Noted(s, i, Failed(s, i));
            && CallsInv(n) && EpisodesInv(n)
            && Count(n.calls, In(s.episode)) == Count(s.calls, In(s.episode))
            && Count(n.calls, FinishedIn(s.episode)) ==
               Count(s.calls, FinishedIn(s.episode)) + if s.calls[i].episode == s.episode then 1 else 0
  {
    CallChanged(s, i, s.calls[i].(finished := true));
  }

  /** Recording an outcome once the calls and the trail have taken note of it. */
  lemma RecordState(s: System, n: System, failed: bool)
    requires Positive(s.settings) && StateInv(s)
    requires n.settings == s.settings && n.breaker == s.breaker && n.episode == s.episode
    requires n.trail == s.trail + [failed]
    requires n.failureTimes == if failed then s.failureTimes + [s.clock] else s.failureTimes
    requires Count(n.calls, In(n.episode)) == Count(s.calls, In(s.episode))
    requires Count(n.calls, FinishedIn(n.episode)) <= Count(s.calls, FinishedIn(s.episode)) + 1
    ensures StateInv(Place(n, Record(s.settings, s.breaker, failed, s.clock), false))
  {
    assert (s.trail + [failed])[..|s.trail|] == s.trail;
  }

  lemma CompleteInv(s: System, i: nat)
    requires Inv(s) && Enabled(s, Complete(i))
    ensures Inv(Step(s, Complete(i)))
  {
    var failed := Failed(s, i);
    NotedInv(s, i);
    RecordState(s, Noted(s, i, failed), failed);
    PlaceInv(Noted(s, i, failed), Record(s.settings, s.breaker, failed, s.clock), false);
  }

  lemma StepInv(s: System, e: Event)
    requires Inv(s) && Enabled(s, e)
    ensures Inv(Step(s, e))
  {
    match e
    case Begin(w) => BeginInv(s, w);
    case Attempt(i) => AttemptInv(s, i);
    case Complete(i) => CompleteInv(s, i);
    case Poll => RefreshInv(s);
    case Reset => PlaceInv(s, Cleared(s.breaker, s.clock), true);
    case Tick(_) =>
  }

  lemma {:induction false} RunInv(s: System, events: seq<Event>)
    requires Inv(s) && Possible(s, events)
    ensures Inv(Run(s, events))
    ensures Run(s, events).settings == s.settings && Run(s, events).strategy == s.strategy
    decreases |events|
  {
    if events != [] {
      StepInv(s, events[0]);
      RunInv(Step(s, events[0]), events[1..]);
    }
  }

  /** A state some run of a validated breaker can be in. */
  ghost predicate Reachable(s: System) {
    exists now, events ::
      && Positive(s.settings)
      && Possible(Init(s.settings, s.strategy, now), events)
      && s == Run(Init(s.settings, s.strategy, now), events)
  }

  lemma ReachableInv(s: System)
    requires Reachable(s)
    ensures Inv(s)
  {
    var now, events :| Possible(Init(s.settings, s.strategy, now), events)
                       && s == Run(Init(s.settings, s.strategy, now), events);
    RunInv(Init(s.settings, s.strategy, now), events);
  }

  // ----- what holds in every run -----

  /**
    The counters mean what they say.  Closed: `failures` is the length of the run of failed
    completions that ends the record since the breaker last closed or was reset, and is
    below the threshold.  Elsewhere it is zero.  HalfOpen: `successes` counts the successes
    recorded in this episode, `halfOpenRequests` the calls admitted in it.
   */
  lemma CountersMean(s: System)
    requires Reachable(s)
    ensures s.breaker.state == Closed ==> s.breaker.failures == Streak(s.trail) < s.settings.failureThreshold
    ensures s.breaker.state != Closed ==> s.breaker.failures == 0
    ensures s.breaker.state == HalfOpen ==>
              && s.breaker.successes == Successes(s.trail) < s.settings.successThreshold
              && s.breaker.halfOpenRequests == Count(s.calls, In(s.episode)) <= s.settings.halfOpenRequests
    ensures s.breaker.state != HalfOpen ==> s.breaker.successes == 0 && s.breaker.halfOpenRequests == 0
    ensures s.failureTimes != [] ==> s.breaker.lastFailureTime == s.failureTimes[|s.failureTimes| - 1]
  {
    ReachableInv(s);
  }

  /**
    A closed breaker opens exactly on the completion that makes FailureThreshold failures in a
    row, and leaves Closed no other way.
   */
  lemma OpensOnThreshold(s: System, e: Event)
    requires Reachable(s) && s.breaker.state == Closed && Enabled(s, e)
    ensures Step(s, e).breaker.state ==
              if e.Complete? && Streak(s.trail + [Failed(s, e.index)]) == s.settings.failureThreshold
              then Open else Closed
  {
    ReachableInv(s);
    if e.Complete? {
      assert (s.trail + [Failed(s, e.index)])[..|s.trail|] == s.trail;
    }
  }

  /** The time of the last state change moves to the present exactly when an episode begins. */
  lemma ChangeStamped(s: System, e: Event)
    requires Reachable(s) && Enabled(s, e)
    ensures Step(s, e).breaker.lastStateChange ==
              if Step(s, e).episode != s.episode then s.clock else s.breaker.lastStateChange
  {
    ReachableInv(s);
  }

  /**
    A half-open breaker opens exactly on the completion that failed, closes exactly on a reset
    or on the completion that brings the successes of this episode to SuccessThreshold, and
    otherwise stays half-open.
   */
  lemma HalfOpenEnds(s: System, e: Event)
    requires Reachable(s) && s.breaker.state == HalfOpen && Enabled(s, e)
    ensures var after := Step(s, e).breaker;
            && (after.state == Open <==> e.Complete? && Failed(s, e.index))
            && (after.state == Open ==> after.lastFailureTime == s.clock)
            && (after.state == Closed <==>
                  e.Reset? || (e.Complete? && !Failed(s, e.index)
                               && Successes(s.trail + [false]) == s.settings.successThreshold))
  {
    ReachableInv(s);
    assert (s.trail + [false])[..|s.trail|] == s.trail;
  }

  /**
    While open, nothing is admitted.  A reset closes the breaker; once Timeout has passed since
    the last recorded failure, the next call or poll makes it half-open, and nothing else ends
    the episode.  A failure recorded meanwhile extends it.
   */
  lemma OpenPeriod(s: System, e: Event)
    requires Reachable(s) && s.breaker.state == Open && Enabled(s, e)
    ensures s.failureTimes != [] && Count(s.calls, In(s.episode)) == 0
    ensures var last := s.failureTimes[|s.failureTimes| - 1];
            Step(s, e).breaker.state ==
              if e.Reset? then Closed
              else if (e.Begin? || e.Poll?) && s.clock - last >= s.settings.timeout then HalfOpen
              else Open
    ensures Step(s, e).breaker.state == Open ==> |Step(s, e).calls| == |s.calls| && Step(s, e).episode == s.episode
  {
    ReachableInv(s);
  }

  /**
    A call is admitted exactly when the breaker is closed, or open for Timeout since the last
    recorded failure, or half-open with fewer than HalfOpenRequests calls admitted in this
    episode.  A rejected caller gets an error that matches ErrCircuitOpen and is not retried.
   */
  lemma AdmitsExactly(s: System, w: RetryLoop.World)
    requires Reachable(s)
    ensures var admitted := || s.breaker.state == Closed
                            || (s.breaker.state == Open && s.failureTimes != []
                                && s.clock - s.failureTimes[|s.failureTimes| - 1] >= s.settings.timeout)
                            || (s.breaker.state == HalfOpen
                                && Count(s.calls, In(s.episode)) < s.settings.halfOpenRequests);
            var s', answer := Step(s, Begin(w)), Admit(s.settings, s.breaker, s.clock).1;
            && (answer.Admitted? <==> admitted)
            && s'.calls == (if admitted then s.calls + [Call(s'.episode, w, 0, false)] else s.calls)
            && (answer.Rejected? ==> Is(answer.error, ErrCircuitOpen) && !IsRetryable(answer.error))
  {
    ReachableInv(s);
    NetworkRetriedRejectionNot("", Plain(ErrCircuitOpen), "circuit breaker is open");
    NetworkRetriedRejectionNot("", Plain(ErrCircuitOpen), "circuit breaker half-open limit reached");
  }

  /**
    In any run and any half-open episode its calls make at most HalfOpenRequests times as many
    HTTP attempts as the strategy allows one call; calls admitted while open make none.
   */
  lemma EpisodeLoad(s: System, e: nat)
    requires Reachable(s) && e < |s.kinds|
    ensures s.kinds[e] == HalfOpen && AttemptLimit(s.strategy).Some? ==>
              AttemptsIn(s.calls, e) <= s.settings.halfOpenRequests * AttemptLimit(s.strategy).value
    ensures s.kinds[e] == Open ==> AttemptsIn(s.calls, e) == 0
  {
    ReachableInv(s);
    if s.kinds[e] == Open {
      NoAttempts(s.calls, e);
    } else if s.kinds[e] == HalfOpen && AttemptLimit(s.strategy).Some? {
      var limit := AttemptLimit(s.strategy).value;
      AttemptsPerCall(s.calls, e, limit);
      Scale(Count(s.calls, In(e)), s.settings.halfOpenRequests, limit);
    }
  }

  /** A validated configuration without a strategy of its own: at most HalfOpenRequests * (MaxRetries + 1). */
  lemma ConfiguredEpisodeLoad(s: System, e: nat, retry: Config.Retry, breaker: Settings)
    requires Reachable(s) && e < |s.kinds| && s.kinds[e] == HalfOpen
    requires s.strategy == Config.DefaultStrategy(Config.ClampRetry(retry))
    requires s.settings == Config.ClampBreaker(breaker)
    ensures AttemptsIn(s.calls, e)
            <= Config.ClampBreaker(breaker).halfOpenRequests * (Config.ClampRetry(retry).maxRetries + 1)
  {
    EpisodeLoad(s, e);
  }

  lemma {:induction false} NoAttempts(calls: seq<Call>, e: nat)
    requires Count(calls, In(e)) == 0
    ensures AttemptsIn(calls, e) == 0
  {
    if calls != [] {
      NoAttempts(calls[..|calls| - 1], e);
    }
  }

  lemma Scale(a: int, b: int, k: int)
    requires a <= b && k >= 0
    ensures a * k <= b * k
  {
  }

  lemma {:induction false} AttemptsPerCall(calls: seq<Call>, e: nat, limit: nat)
    requires forall c :: c in calls ==> c.made <= limit
    ensures AttemptsIn(calls, e) <= Count(calls, In(e)) * limit
  {
    if calls != [] {
      AttemptsPerCall(calls[..|calls| - 1], e, limit);
      assert calls[|calls| - 1] in calls;
      var n := Count(calls[..|calls| - 1], In(e));
      assert (n + 1) * limit == n * limit + limit;
    }
  }

  // ----- the half-open limit -----

  /** Half-open, at its admission limit, and no call of the episode left to report a result. */
  ghost predicate Wedged(s: System) {
    && s.breaker.state == HalfOpen
    && s.breaker.halfOpenRequests >= s.settings.halfOpenRequests
    && forall i: nat :: InFlight(s, i) ==> s.calls[i].episode != s.episode
  }

  /**
    When SuccessThreshold <= HalfOpenRequests the breaker never wedges: at its limit it
    still waits for a call admitted in this episode, and that call can move.  Results of
    calls from earlier episodes may have been recorded here; they only help.
   */
  lemma NeverWedges(s: System) returns (i: nat, e: Event)
    requires Reachable(s) && s.settings.successThreshold <= s.settings.halfOpenRequests
    requires s.breaker.state == HalfOpen && s.breaker.halfOpenRequests >= s.settings.halfOpenRequests
    ensures InFlight(s, i) && s.calls[i].episode == s.episode && !Wedged(s)
    ensures Enabled(s, e) && (e == Attempt(i) || e == Complete(i))
  {
    ReachableInv(s);
    i := CountSeparates(s.calls, FinishedIn(s.episode), In(s.episode));
    e := if s.calls[i].made == 0 || Judged(s, i).Retry? then Attempt(i) else Complete(i);
  }

  /** A wedged breaker with no call in flight at all stays wedged, rejecting everything, until it is reset. */
  lemma {:induction false} WedgeLasts(s: System, events: seq<Event>)
    requires Wedged(s) && (forall i: nat :: !InFlight(s, i)) && Possible(s, events)
    requires forall e :: e in events ==> !e.Reset?
    ensures var s' := Run(s, events);
            && Wedged(s') && s'.breaker == s.breaker && |s'.calls| == |s.calls|
            && Admit(s'.settings, s'.breaker, s'.clock).1.Rejected?
    decreases |events|
  {
    if events != [] {
      assert events[0] in events;
      forall e | e in events[1..] ensures !e.Reset? {
        assert e in events;
      }
      var s1 := Step(s, events[0]);
      assert s1.calls == s.calls && s1.breaker == s.breaker && s1.settings == s.settings;
      forall i: nat ensures !InFlight(s1, i) {
        assert !InFlight(s, i);
      }
      WedgeLasts(s1, events[1..]);
    }
  }
}
