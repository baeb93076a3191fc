/**
  Hedged execution (sdk/retry.go): one main goroutine launches up to N copies of a call,
  each of which sends its result on a channel of capacity N; the first success wins,
  otherwise every result is collected and the first error received is returned.

  The main goroutine is written twice: as the loops of the source (method Execute) and as
  one step per observation (Observe).  The protocol interleaves those steps with the
  launched goroutines and with cancellation of the caller's context.
 */
module Hedging {
  import opened Options
  import opened Errors
  import opened Counting

  // ----- the main goroutine -----

  /** What a select statement of the main goroutine can see. */
  datatype Observation = Got(err: Option<GoError>) | TimerFired | ContextDone(cause: Sentinel)

  datatype Result = Pending | Returned(err: Option<GoError>) | Cancelled(error: GoError)

  /** The main goroutine's local variables. */
  datatype Main = Main(launched: nat, received: nat, firstErr: Option<GoError>, result: Result)

  function CancelError(cause: Sentinel): GoError {
    WrapError(Plain(cause), TimeoutType, "context canceled during hedged request")
  }

  const LAUNCHED: Main := Main(1, 0, None, Pending)

  /** One select of the main goroutine: launching while launched < n, draining afterwards. */
  function Observe(n: nat, m: Main, o: Observation): Main
    requires m.result.Pending?
    requires o.TimerFired? ==> m.launched < n
  {
    match o
    case ContextDone(cause) => m.(result := Cancelled(CancelError(cause)))
    case TimerFired => m.(launched := m.launched + 1)
    case Got(None) => m.(received := m.received + 1, result := Returned(None))
    case Got(Some(e)) =>
      var noted := m.(received := m.received + 1, firstErr := if m.firstErr.None? then Some(e) else m.firstErr);
      if m.launched < n then noted.(launched := m.launched + 1)
      else if noted.received >= n then noted.(result := Returned(noted.firstErr))
      else noted
  }

  /** The timer runs only while there are calls left to launch. */
  predicate TimersFit(n: int, launched: nat, os: seq<Observation>) {
    forall k :: 0 <= k < |os| && launched + k >= n ==> !os[k].TimerFired?
  }

  /** The main goroutine after a sequence of observations; it ignores what comes after its return. */
  function ObserveAll(n: nat, m: Main, os: seq<Observation>): Main
    requires TimersFit(n, m.launched, os)
    decreases |os|
  {
    if os == [] || !m.result.Pending? then m
    else ObserveAll(n, Observe(n, m, os[0]), os[1..])
  }

  /**
    hedgedExecutor.Execute, given what its selects observe; `direct` is the result of the
    single call made when hedging is off.  Pending means it is still waiting for more.
   */
  method Execute(maxRequests: int, direct: Option<GoError>, os: seq<Observation>) returns (m: Main)
    requires TimersFit(maxRequests, 1, os)
    ensures maxRequests <= 1 ==> m.result == Returned(direct) && m.launched == 1
    ensures maxRequests >= 2 ==> m == ObserveAll(maxRequests, LAUNCHED, os)
  {
    if maxRequests <= 1 {
      return Main(1, 1, None, Returned(direct));
    }
    var n: nat := maxRequests;
    var firstErr: Option<GoError> := None;
    var resultsReceived, launched, k := 0, 1, 0;
    // Launch additional requests, one per timer tick or failed result.
    while launched < n
      invariant 1 <= launched <= n && k == launched - 1 <= |os| && resultsReceived <= k
      invariant ObserveAll(n, LAUNCHED, os)
                == ObserveAll(n, Main(launched, resultsReceived, firstErr, Pending), os[k..])
    {
      if k == |os| {
        return Main(launched, resultsReceived, firstErr, Pending);
      }
      match os[k] {
        case Got(err) =>
          resultsReceived := resultsReceived + 1;
          if err.None? {
            return Main(launched, resultsReceived, firstErr, Returned(None));
          }
          if firstErr.None? {
            firstErr := err;
          }
        case TimerFired =>
        case ContextDone(cause) =>
          return Main(launched, resultsReceived, firstErr, Cancelled(CancelError(cause)));
      }
      assert os[k..][1..] == os[k + 1..];
      launched := launched + 1;
      k := k + 1;
    }
    m := Drain(n, resultsReceived, firstErr, os[k..]);
  }

  /** Waits for the remaining results of n launched calls. */
  method Drain(n: nat, received: nat, first: Option<GoError>, os: seq<Observation>) returns (m: Main)
    requires received < n && TimersFit(n, n, os)
    ensures m == ObserveAll(n, Main(n, received, first, Pending), os)
  {
    var firstErr, resultsReceived, k := first, received, 0;
    while resultsReceived < n
      invariant 0 <= k <= |os| && resultsReceived <= n
      invariant ObserveAll(n, Main(n, received, first, Pending), os)
                == if resultsReceived == n then Main(n, n, firstErr, Returned(firstErr))
                   else ObserveAll(n, Main(n, resultsReceived, firstErr, Pending), os[k..])
      decreases n - resultsReceived
    {
      if k == |os| {
        return Main(n, resultsReceived, firstErr, Pending);
      }
      match os[k] {
        case Got(err) =>
          resultsReceived := resultsReceived + 1;
          if err.None? {
            return Main(n, resultsReceived, firstErr, Returned(None));
          }
          if firstErr.None? {
            firstErr := err;
          }
        case ContextDone(cause) =>
          return Main(n, resultsReceived, firstErr, Cancelled(CancelError(cause)));
      }
      assert os[k..][1..] == os[k + 1..];
      k := k + 1;
    }
    return Main(n, resultsReceived, firstErr, Returned(firstErr));
  }

  // ----- the whole protocol -----

  /** A launched goroutine: inside the call, about to send, or finished one way or the other. */
  datatype Call =
    | Active
    | Sending(err: Option<GoError>)
    | Delivered(err: Option<GoError>)
    | Discarded(err: Option<GoError>)

  datatype Message = Message(err: Option<GoError>, index: nat)

  /** `log` keeps the results received so far, in order; `cancelled` is the caller's context. */
  datatype State = State(n: nat, main: Main, calls: seq<Call>, channel: seq<Message>,
                         log: seq<Message>, cancelled: Option<Sentinel>)

  datatype Event =
    | Finish(index: nat, err: Option<GoError>)
    | Send(index: nat)
    | Discard(index: nat)
    | Receive
    | Timer
    | CancelCaller(cause: Sentinel)
    | NoticeCancel

  function Init(n: nat): State {
    State(n, LAUNCHED, [Active], [], [], None)
  }

  /** The hedge context ends with the caller's context or when Execute returns. */
  predicate HedgeDone(s: State) {
    s.cancelled.Some? || !s.main.result.Pending?
  }

  predicate Enabled(s: State, e: Event) {
    match e
    case Finish(i, _) => i < |s.calls| && s.calls[i].Active?
    case Send(i) => i < |s.calls| && s.calls[i].Sending? && |s.channel| < s.n
    case Discard(i) => i < |s.calls| && s.calls[i].Sending? && HedgeDone(s)
    case Receive => s.main.result.Pending? && s.channel != []
    case Timer => s.main.result.Pending? && s.main.launched < s.n
    case CancelCaller(_) => s.cancelled.None?
    case NoticeCancel => s.main.result.Pending? && s.cancelled.Some?
  }

  /** Moves the main goroutine, starting the goroutine it launches, if any. */
  function Advance(s: State, o: Observation): State
    requires s.main.result.Pending? && (o.TimerFired? ==> s.main.launched < s.n)
  {
    var main := Observe(s.n, s.main, o);
    s.(main := main, calls := if main.launched > s.main.launched then s.calls + [Active] else s.calls)
  }

  function Step(s: State, e: Event): State
    requires Enabled(s, e)
  {
    match e
    case Finish(i, err) => s.(calls := s.calls[i := Sending(err)])
    case Send(i) =>
      s.(calls := s.calls[i := Delivered(s.calls[i].err)], channel := s.channel + [Message(s.calls[i].err, i)])
    case Discard(i) => s.(calls := s.calls[i := Discarded(s.calls[i].err)])
    case Receive =>
      Advance(s, Got(s.channel[0].err)).(channel := s.channel[1..], log := s.log + [s.channel[0]])
    case Timer => Advance(s, TimerFired)
    case CancelCaller(cause) => s.(cancelled := Some(cause))
    case NoticeCancel => Advance(s, ContextDone(s.cancelled.value))
  }

  /** The events can happen one after the other from s. */
  predicate Possible(s: State, events: seq<Event>)
    decreases |events|
  {
    events == [] || (Enabled(s, events[0]) && Possible(Step(s, events[0]), events[1..]))
  }

  function Run(s: State, events: seq<Event>): State
    requires Possible(s, events)
    decreases |events|
  {
    if events == [] then s else Run(Step(s, events[0]), events[1..])
  }

  /** What the main goroutine's selects observe in a run. */
  function Observed(s: State, events: seq<Event>): seq<Observation>
    requires Possible(s, events)
    decreases |events|
  {
    if events == [] then []
    else
      var rest := Observed(Step(s, events[0]), events[1..]);
      match events[0]
      case Receive => [Got(s.channel[0].err)] + rest
      case Timer => [TimerFired] + rest
      case NoticeCancel => [ContextDone(s.cancelled.value)] + rest
      case _ => rest
  }

  /** After its return the main goroutine observes nothing. */
  lemma {:induction false} NothingAfterReturn(s: State, events: seq<Event>)
    requires Possible(s, events) && !s.main.result.Pending?
    ensures Observed(s, events) == [] && Run(s, events).main == s.main
    decreases |events|
  {
    if events != [] {
      NothingAfterReturn(Step(s, events[0]), events[1..]);
    }
  }

  /** In every interleaving the main goroutine is where Execute is after the same observations. */
  lemma {:induction false} ExecuteFollowsProtocol(s: State, events: seq<Event>)
    requires Possible(s, events) && s.main.launched <= s.n
    ensures TimersFit(s.n, s.main.launched, Observed(s, events))
    ensures Run(s, events).main == ObserveAll(s.n, s.main, Observed(s, events))
    decreases |events|
  {
    if !s.main.result.Pending? {
      NothingAfterReturn(s, events);
    } else if events != [] {
      var e := events[0];
      var s' := Step(s, e);
      ExecuteFollowsProtocol(s', events[1..]);
      if e.Receive? || e.Timer? || e.NoticeCancel? {
        var os := Observed(s, events);
        assert os[1..] == Observed(s', events[1..]);
        if !s'.main.result.Pending? {
          NothingAfterReturn(s', events[1..]);
        }
        assert s'.main == Observe(s.n, s.main, os[0]);
      }
    }
  }

  // ----- counting goroutines -----

  predicate IsActive(c: Call) { c.Active? }
  predicate IsSending(c: Call) { c.Sending? }
  predicate IsDelivered(c: Call) { c.Delivered? }
  predicate IsDiscarded(c: Call) { c.Discarded? }

  /** Every goroutine is in exactly one of the four stages. */
  lemma {:induction false} StagesPartition(calls: seq<Call>)
    ensures Count(calls, IsActive) + Count(calls, IsSending) + Count(calls, IsDelivered) + Count(calls, IsDiscarded)
            == |calls|
  {
    if calls != [] {
      StagesPartition(calls[..|calls| - 1]);
    }
  }

  // ----- the invariant -----

  /** A message reports what its goroutine delivered. */
  predicate Honest(s: State, m: Message) {
    m.index < |s.calls| && s.calls[m.index] == Delivered(m.err)
  }

  /** Every delivered result is still buffered or has been received. */
  predicate Accounted(s: State) {
    forall i :: 0 <= i < |s.calls| && s.calls[i].Delivered? ==>
      exists m :: m in s.channel + s.log && m.index == i
  }

  /** The main goroutine's locals describe what it has received. */
  predicate MainTracksLog(s: State) {
    && s.main.received == |s.log|
    && (s.main.result.Pending? ==>
          && (forall k :: 0 <= k < |s.log| ==> s.log[k].err.Some?)
          && s.main.firstErr == (if s.log == [] then None else s.log[0].err)
          && s.main.received < s.main.launched)
    && (s.main.result == Returned(None) ==> s.log != [] && s.log[|s.log| - 1].err == None)
    && (s.main.result.Returned? && s.main.result.err.Some? ==>
          && s.log != [] && |s.log| == s.n == s.main.launched
          && (forall k :: 0 <= k < |s.log| ==> s.log[k].err.Some?)
          && s.main.result.err == s.log[0].err)
    && (s.main.result.Cancelled? ==>
          s.cancelled.Some? && s.main.result.error == CancelError(s.cancelled.value))
  }

  predicate Inv(s: State) {
    && 2 <= s.n && 1 <= s.main.launched <= s.n
    && |s.calls| == s.main.launched
    && (forall m :: m in s.channel + s.log ==> Honest(s, m))
    && Accounted(s)
    && Count(s.calls, IsDelivered) == |s.channel| + |s.log|
    && (Count(s.calls, IsDiscarded) > 0 ==> HedgeDone(s))
    && MainTracksLog(s)
  }

  lemma InitInv(n: nat)
    requires n >= 2
    ensures Inv(Init(n))
  {
    CountAppend([], IsDelivered, Active);
    CountAppend([], IsDiscarded, Active);
    assert [] + [Active] == [Active];
  }

  /** A goroutine that changes stage without a message involved. */
  lemma StageInv(s: State, i: nat, c: Call)
    requires Inv(s) && i < |s.calls| && !s.calls[i].Delivered? && !c.Delivered?
    requires c.Discarded? ==> HedgeDone(s)
    ensures Inv(s.(calls := s.calls[i := c]))
  {
    CountUpdate(s.calls, IsDelivered, i, c);
    CountUpdate(s.calls, IsDiscarded, i, c);
    var s' := s.(calls := s.calls[i := c]);
    forall k | 0 <= k < |s'.calls| && s'.calls[k].Delivered?
      ensures exists m :: m in s'.channel + s'.log && m.index == k
    {
      assert s.calls[k].Delivered?;
    }
  }

  lemma SendInv(s: State, i: nat)
    requires Inv(s) && Enabled(s, Send(i))
    ensures Inv(Step(s, Send(i)))
  {
    var s' := Step(s, Send(i));
    var sent := Message(s.calls[i].err, i);
    CountUpdate(s.calls, IsDelivered, i, Delivered(s.calls[i].err));
    CountUpdate(s.calls, IsDiscarded, i, Delivered(s.calls[i].err));
    forall m | m in s'.channel + s'.log ensures Honest(s', m) {
      assert m == sent || m in s.channel + s.log;
    }
    forall k | 0 <= k < |s'.calls| && s'.calls[k].Delivered?
      ensures exists m :: m in s'.channel + s'.log && m.index == k
    {
      if k == i {
        assert sent in s'.channel + s'.log;
      } else {
        var m :| m in s.channel + s.log && m.index == k;
        assert m in s'.channel + s'.log;
      }
    }
  }

  /** The main goroutine launches one more call, or leaves, without receiving. */
  lemma TimerInv(s: State)
    requires Inv(s) && Enabled(s, Timer)
    ensures Inv(Step(s, Timer))
  {
    var s' := Step(s, Timer);
    CountAppend(s.calls, IsDelivered, Active);
    CountAppend(s.calls, IsDiscarded, Active);
    assert s'.channel + s'.log == s.channel + s.log;
    forall k | 0 <= k < |s'.calls| && s'.calls[k].Delivered? ensures s.calls[k] == s'.calls[k] { }
  }

  lemma NoticeInv(s: State)
    requires Inv(s) && Enabled(s, NoticeCancel)
    ensures Inv(Step(s, NoticeCancel))
  {
    assert Step(s, NoticeCancel).channel + Step(s, NoticeCancel).log == s.channel + s.log;
  }

  lemma ReceiveTracks(s: State)
    requires Inv(s) && Enabled(s, Receive)
    ensures MainTracksLog(Step(s, Receive)) && s.main.launched <= Step(s, Receive).main.launched <= s.n
  {
  }

  lemma ReceiveAccounts(s: State)
    requires Inv(s) && Enabled(s, Receive)
    ensures Accounted(Step(s, Receive))
    ensures forall m :: m in Step(s, Receive).channel + Step(s, Receive).log ==> Honest(Step(s, Receive), m)
  {
    var s' := Step(s, Receive);
    assert s.channel == [s.channel[0]] + s.channel[1..];
    assert forall m :: m in s'.channel + s'.log <==> m in s.channel + s.log;
    forall k | 0 <= k < |s'.calls| && s'.calls[k].Delivered?
      ensures exists m :: m in s'.channel + s'.log && m.index == k
    {
      assert s.calls[k].Delivered?;
    }
  }

  lemma ReceiveInv(s: State)
    requires Inv(s) && Enabled(s, Receive)
    ensures Inv(Step(s, Receive))
  {
    CountAppend(s.calls, IsDelivered, Active);
    CountAppend(s.calls, IsDiscarded, Active);
    ReceiveTracks(s);
    ReceiveAccounts(s);
  }

  lemma StepInv(s: State, e: Event)
    requires Inv(s) && Enabled(s, e)
    ensures Inv(Step(s, e))
  {
    match e
    case Finish(i, err) => StageInv(s, i, Sending(err));
    case Send(i) => SendInv(s, i);
    case Discard(i) => StageInv(s, i, Discarded(s.calls[i].err));
    case Receive => ReceiveInv(s);
    case Timer => TimerInv(s);
    case NoticeCancel => NoticeInv(s);
    case CancelCaller(_) =>
  }

  /** The invariant holds after every interleaving. */
  lemma {:induction false} RunInv(s: State, events: seq<Event>)
    requires Inv(s) && Possible(s, events)
    ensures Inv(Run(s, events)) && Run(s, events).n == s.n
    decreases |events|
  {
    if events != [] {
      StepInv(s, events[0]);
      RunInv(Step(s, events[0]), events[1..]);
    }
  }

  // ----- what holds after every interleaving -----

  /** Until the caller cancels or Execute returns, every launched call is running, buffered or received. */
  lemma Conservation(n: nat, events: seq<Event>)
    requires n >= 2 && Possible(Init(n), events)
    ensures var s := Run(Init(n), events);
            !HedgeDone(s) ==>
              Count(s.calls, IsActive) + Count(s.calls, IsSending) + |s.channel| + s.main.received
              == s.main.launched <= n
  {
    InitInv(n);
    RunInv(Init(n), events);
    StagesPartition(Run(Init(n), events).calls);
  }

  /** A goroutine about to send always finds room in the channel. */
  lemma NoSendBlocks(n: nat, events: seq<Event>, i: nat)
    requires n >= 2 && Possible(Init(n), events)
    requires i < |Run(Init(n), events).calls| && Run(Init(n), events).calls[i].Sending?
    ensures Enabled(Run(Init(n), events), Send(i))
  {
    InitInv(n);
    RunInv(Init(n), events);
    var s := Run(Init(n), events);
    StagesPartition(s.calls);
    CountPositive(s.calls, IsSending, i);
  }

  /**
    A nil result means some call returned nil.  A non-nil one means all N calls were
    launched and failed, and it is the first error received; or the caller cancelled.
   */
  lemma ResultMeaning(n: nat, events: seq<Event>)
    requires n >= 2 && Possible(Init(n), events)
    ensures var s := Run(Init(n), events);
            match s.main.result
            case Pending => true
            case Returned(None) => exists i :: 0 <= i < |s.calls| && s.calls[i] == Delivered(None)
            case Returned(Some(e)) =>
              && |s.calls| == n == |s.log| && s.log[0].err == Some(e)
              && (forall i :: 0 <= i < n ==> s.calls[i].Delivered? && s.calls[i].err.Some?)
            case Cancelled(e) => s.cancelled.Some? && CancelledBy(e, s.cancelled.value)
  {
    InitInv(n);
    RunInv(Init(n), events);
    var s := Run(Init(n), events);
    match s.main.result
    case Pending =>
    case Returned(None) =>
      assert Honest(s, s.log[|s.log| - 1]);
    case Returned(Some(e)) =>
      AllDelivered(s);
    case Cancelled(e) =>
      CancellationWrapper(s.cancelled.value, "context canceled during hedged request");
  }

  /**
    What each select does while the result is pending: the first success returns at once; a
    failure or the timer launches one more call while there is one left; after that the N-th
    failure returns the first one.  No success has been received before.
   */
  lemma SelectMeans(n: nat, events: seq<Event>, s: State, e: Event)
    requires n >= 2 && Possible(Init(n), events) && s == Run(Init(n), events)
    requires s.main.result.Pending? && Enabled(s, e) && (e.Receive? || e.Timer?)
    ensures forall k :: 0 <= k < |s.log| ==> s.log[k].err.Some?
    ensures e.Receive? && s.channel[0].err.None? ==>
              Step(s, e).main.result == Returned(None) && Step(s, e).calls == s.calls
    ensures e.Timer? || (s.channel[0].err.Some? && s.main.launched < n) ==>
              && Step(s, e).main.result.Pending?
              && Step(s, e).main.launched == s.main.launched + 1
              && Step(s, e).calls == s.calls + [Active]
    ensures e.Receive? && s.channel[0].err.Some? && s.main.launched == n ==>
              && Step(s, e).calls == s.calls
              && Step(s, e).main.result == if |s.log| + 1 == n then Returned(Step(s, e).log[0].err) else Pending
  {
    InitInv(n);
    RunInv(Init(n), events);
  }

  /** When N results have been received, all N goroutines delivered, and only to the log. */
  lemma AllDelivered(s: State)
    requires Inv(s) && |s.log| == s.n
    requires forall k :: 0 <= k < |s.log| ==> s.log[k].err.Some?
    ensures forall i :: 0 <= i < |s.calls| ==> s.calls[i].Delivered? && s.calls[i].err.Some?
  {
    StagesPartition(s.calls);
    assert s.channel + s.log == s.log;
    forall i | 0 <= i < |s.calls| ensures s.calls[i].Delivered? && s.calls[i].err.Some? {
      if s.calls[i].Active? { CountPositive(s.calls, IsActive, i); }
      if s.calls[i].Sending? { CountPositive(s.calls, IsSending, i); }
      if s.calls[i].Discarded? { CountPositive(s.calls, IsDiscarded, i); }
      var m :| m in s.channel + s.log && m.index == i;
      assert Honest(s, m);
    }
  }

  // ----- progress and termination -----

  /** Work left: launches, calls, sends, receives, the return and one possible cancellation. */
  function Measure(s: State): int {
    4 * (s.n - s.main.launched) + 3 * Count(s.calls, IsActive) + 2 * Count(s.calls, IsSending) + |s.channel|
    + (if s.main.result.Pending? then 1 else 0) + (if s.cancelled.None? then 1 else 0)
  }

  lemma MeasureDecreases(s: State, e: Event)
    requires Inv(s) && Enabled(s, e)
    ensures 0 <= Measure(Step(s, e)) < Measure(s)
  {
    StepInv(s, e);
    match e
    case Finish(i, err) => CallMoves(s, e, i, Sending(err));
    case Send(i) => CallMoves(s, e, i, Delivered(s.calls[i].err));
    case Discard(i) => CallMoves(s, e, i, Discarded(s.calls[i].err));
    case _ => MainMoved(s, e);
  }

  /** A goroutine's step uses up work of its own. */
  lemma CallMoves(s: State, e: Event, i: nat, c: Call)
    requires Enabled(s, e) && i < |s.calls| && !c.Active?
    requires e == Send(i) || e == Discard(i) || (e.Finish? && e.index == i)
    requires Step(s, e).calls == s.calls[i := c] && (c.Sending? ==> s.calls[i].Active?)
    ensures Measure(Step(s, e)) < Measure(s)
  {
    CountUpdate(s.calls, IsActive, i, c);
    CountUpdate(s.calls, IsSending, i, c);
  }

  lemma MainMoved(s: State, e: Event)
    requires Enabled(s, e) && (e.Receive? || e.Timer? || e.NoticeCancel? || e.CancelCaller?)
    ensures Measure(Step(s, e)) < Measure(s)
  {
    CountAppend(s.calls, IsActive, Active);
    CountAppend(s.calls, IsSending, Active);
  }

  /** Every run is finite: with N requests there are never more than 4N + 1 events. */
  lemma {:induction false} RunLength(s: State, events: seq<Event>)
    requires Inv(s) && Possible(s, events)
    ensures |events| <= Measure(s)
    decreases |events|
  {
    if events != [] {
      MeasureDecreases(s, events[0]);
      StepInv(s, events[0]);
      RunLength(Step(s, events[0]), events[1..]);
    }
  }

  lemma Termination(n: nat, events: seq<Event>)
    requires n >= 2 && Possible(Init(n), events)
    ensures |events| <= 4 * n + 1
  {
    InitInv(n);
    RunLength(Init(n), events);
    CountAppend([], IsActive, Active);
    CountAppend([], IsSending, Active);
    assert [] + [Active] == [Active];
  }

  /** A goroutine that has not finished can always move. */
  lemma GoroutineMoves(s: State, i: nat) returns (e: Event)
    requires Inv(s) && i < |s.calls| && (s.calls[i].Active? || s.calls[i].Sending?)
    ensures Enabled(s, e) && (e.Finish? || e.Send? || e.Discard?)
  {
    if s.calls[i].Active? {
      e := Finish(i, None);
    } else if HedgeDone(s) {
      e := Discard(i);
    } else {
      StagesPartition(s.calls);
      CountPositive(s.calls, IsSending, i);
      e := Send(i);
    }
  }

  /** While Execute has not returned and nobody cancels, something else than a cancellation can happen. */
  lemma MainMoves(s: State) returns (e: Event)
    requires Inv(s) && s.main.result.Pending? && s.cancelled.None?
    ensures Enabled(s, e) && !e.CancelCaller?
    ensures s.main.launched == s.n ==> !e.Timer?
  {
    if s.main.launched < s.n {
      e := Timer;
    } else if s.channel != [] {
      e := Receive;
    } else {
      StagesPartition(s.calls);
      var i := CountFinds(s.calls, if Count(s.calls, IsActive) > 0 then IsActive else IsSending);
      e := GoroutineMoves(s, i);
    }
  }

  /**
    No reachable state is stuck: while Execute has not returned or some goroutine has not
    finished, an event other than a new cancellation is possible.  In the draining phase
    that is a buffered result or an unfinished call.  Since runs are finite, every run
    can be completed, and then Execute has returned and no goroutine is left behind.
   */
  lemma Progress(n: nat, events: seq<Event>) returns (e: Event)
    requires n >= 2 && Possible(Init(n), events)
    requires var s := Run(Init(n), events);
             s.main.result.Pending? || exists i :: 0 <= i < |s.calls| && (s.calls[i].Active? || s.calls[i].Sending?)
    ensures Enabled(Run(Init(n), events), e) && !e.CancelCaller?
  {
    InitInv(n);
    RunInv(Init(n), events);
    var s := Run(Init(n), events);
    if i :| 0 <= i < |s.calls| && (s.calls[i].Active? || s.calls[i].Sending?) {
      e := GoroutineMoves(s, i);
    } else if s.cancelled.Some? {
      e := NoticeCancel;
    } else {
      e := MainMoves(s);
    }
  }
}
