/**
  What the registry promises over whole runs (internal/instance/registry.go:59-302): the
  memory cache never shows in the answers, creation times stick, activity moves forward.
 */
module RegistryRuns {
  import opened Options
  import opened InstanceContext
  import opened RegistryState

  datatype Op = DoGet(id: string) | DoGetOrCreate(id: string) | DoRegister(r: Record) | DoUpdate(r: Record)
              | DoDelete(id: string) | DoUpdateLastActive(id: string) | DoClearMemory

  datatype Event = Event(op: Op, now: int, f: Faults)

  function Step(s: State, e: Event): State {
    match e.op
    case DoGet(id) => Get(s, id, e.now, e.f).0
    case DoGetOrCreate(id) => GetOrCreate(s, id, e.now, e.f).0
    case DoRegister(r) => Register(s, r, e.now, e.f).0
    case DoUpdate(r) => Update(s, r, e.now, e.f).0
    case DoDelete(id) => Delete(s, id, e.now, e.f).0
    case DoUpdateLastActive(id) => UpdateLastActive(s, id, e.now, e.f).0
    case DoClearMemory => s.(mem := map[])
  }

  function Run(s: State, es: seq<Event>): State
    decreases |es|
  {
    if es == [] then s else Run(Step(s, es[0]), es[1..])
  }

  /** The clock never runs backwards. */
  predicate Ordered(start: int, es: seq<Event>)
    decreases |es|
  {
    es == [] || (start <= es[0].now && Ordered(es[0].now, es[1..]))
  }

  function LastTime(start: int, es: seq<Event>): int {
    if es == [] then start else es[|es| - 1].now
  }

  const EMPTY: State := State(map[], map[], map[])

  // ---------- The two levels agree ----------

  /** A remembered record is the stored one, up to cloning, and expires first. */
  ghost predicate Agrees(s: State, id: string) {
    id in s.mem ==>
      id in s.store && s.mem[id].value == Normalize(s.store[id].value) && s.mem[id].expires < s.store[id].expires
  }

  ghost predicate Consistent(s: State, now: int) {
    (forall id | id in s.mem :: Agrees(s, id)) &&
    (forall id | id in s.store :: Sound(s.store[id], id, now))
  }

  predicate Sound(entry: Stamped, id: string, now: int) {
    entry.value.instanceID == id && id != "" && entry.value.lastActive <= now && entry.expires <= now + DEFAULT_TTL
  }

  /** This read reaches the store. */
  predicate ReadsStore(s: State, id: string, now: int, f: Faults) {
    id != "" && Remembered(s, id, now).None? && f.read.Works? && Direct(s, id, now).Some?
  }

  /** This read remembers a record for at least as long as the store keeps it. */
  predicate Outlives(s: State, id: string, now: int, f: Faults) {
    ReadsStore(s, id, now, f) && !f.refresh && s.store[id].expires <= now + CACHE_TTL
  }

  /** The two levels stay consistent over a read exactly when it does not remember a record too long. */
  lemma ReadKeeps(s: State, id: string, was: int, now: int, f: Faults)
    requires Consistent(s, was) && was <= now
    ensures Consistent(Get(s, id, now, f).0, now) <==> !Outlives(s, id, now, f)
  {
    var t := Get(s, id, now, f).0;
    forall k | k in s.store ensures Sound(s.store[k], k, was) { }
    if Outlives(s, id, now, f) {
      assert !Agrees(t, id);
    }
  }

  lemma WriteKeeps(s: State, r: Record, was: int, now: int, f: Faults)
    requires Consistent(s, was) && was <= now
    ensures Consistent(Register(s, r, now, f).0, now)
  {
  }

  /** A write of the record that was read repairs what the read may have done. */
  lemma ReadWriteKeeps(s: State, r: Record, was: int, now: int, f: Faults)
    requires Consistent(s, was) && was <= now && Get(s, r.instanceID, now, f).1.Ok?
    ensures Consistent(Register(Get(s, r.instanceID, now, f).0, r, now, f).0, now)
            <==> f.write || !Outlives(s, r.instanceID, now, f)
  {
    var id := r.instanceID;
    ReadKeeps(s, id, was, now, f);
    var (s1, _) := Get(s, id, now, f);
    if f.write {
      var t := Register(s1, r, now, f).0;
      forall k | k in t.mem ensures Agrees(t, k) {
        assert k != id ==> Agrees(s, k);
      }
      forall k | k in t.store ensures Sound(t.store[k], k, now) {
        assert k != id ==> Sound(s.store[k], k, was);
      }
    }
  }

  /** The id a failed refresh of this event may leave remembered too long. */
  predicate Overstays(s: State, e: Event) {
    match e.op
    case DoGet(id) => Outlives(s, id, e.now, e.f)
    case DoGetOrCreate(id) => Outlives(s, id, e.now, e.f)
    case DoUpdate(r) => !e.f.write && Outlives(s, r.instanceID, e.now, e.f)
    case DoUpdateLastActive(id) => !e.f.write && !Throttled(s, id, e.now) && Outlives(s, id, e.now, e.f)
    case _ => false
  }

  lemma UpdateKeeps(s: State, r: Record, was: int, now: int, f: Faults)
    requires Consistent(s, was) && was <= now
    ensures Consistent(Update(s, r, now, f).0, now) <==> f.write || !Outlives(s, r.instanceID, now, f)
  {
    ReadKeeps(s, r.instanceID, was, now, f);
    var (s1, existing) := Get(s, r.instanceID, now, f);
    if r.instanceID != "" && existing.Ok? {
      ReadWriteKeeps(s, r.(createdAt := existing.value.createdAt), was, now, f);
    }
  }

  lemma ActivityKeeps(s: State, id: string, was: int, now: int, f: Faults)
    requires Consistent(s, was) && was <= now && !Throttled(s, id, now)
    ensures Consistent(UpdateLastActive(s, id, now, f).0, now) <==> f.write || !Outlives(s, id, now, f)
  {
    var active := s.(activity := s.activity[id := now]);
    assert forall k | k in s.mem :: Agrees(s, k) ==> Agrees(active, k);
    ReadKeeps(active, id, was, now, f);
    ReadNames(active, id, was, now, f);
    var (s1, got) := Get(active, id, now, f);
    if got.Ok? {
      ReadWriteKeeps(active, got.value, was, now, f);
    }
  }

  lemma ReadNames(s: State, id: string, was: int, now: int, f: Faults)
    requires Consistent(s, was)
    ensures Get(s, id, now, f).1.Ok? ==> Get(s, id, now, f).1.value.instanceID == id
  {
    assert id in s.mem ==> Agrees(s, id);
  }

  /** Every step keeps the two levels consistent, exactly when no failed refresh lets a record overstay. */
  lemma StepConsistent(s: State, was: int, e: Event)
    requires Consistent(s, was) && was <= e.now
    ensures Consistent(Step(s, e), e.now) <==> !Overstays(s, e)
  {
    match e.op
    case DoGet(id) => ReadKeeps(s, id, was, e.now, e.f);
    case DoGetOrCreate(id) =>
      ReadKeeps(s, id, was, e.now, e.f);
      if Get(s, id, e.now, e.f).1 == Err(InstanceNotFound) {
        WriteKeeps(Get(s, id, e.now, e.f).0, NewRecord(id, e.now), e.now, e.now, e.f);
      }
    case DoRegister(r) => WriteKeeps(s, r, was, e.now, e.f);
    case DoUpdate(r) => UpdateKeeps(s, r, was, e.now, e.f);
    case DoDelete(id) => DeleteKeeps(s, id, was, e.now, e.f);
    case DoUpdateLastActive(id) =>
      if Throttled(s, id, e.now) {
        Later(s, was, e.now);
      } else {
        ActivityKeeps(s, id, was, e.now, e.f);
      }
    case DoClearMemory => Later(s, was, e.now);
  }

  lemma DeleteKeeps(s: State, id: string, was: int, now: int, f: Faults)
    requires Consistent(s, was) && was <= now
    ensures Consistent(Delete(s, id, now, f).0, now)
  {
    Later(s, was, now);
    var t := Delete(s, id, now, f).0;
    assert forall k | k in t.mem :: Agrees(s, k) ==> Agrees(t, k);
  }

  lemma Later(s: State, was: int, now: int)
    requires Consistent(s, was) && was <= now
    ensures Consistent(s, now)
  {
    forall k | k in s.store ensures Sound(s.store[k], k, now) {
      assert Sound(s.store[k], k, was);
    }
  }

  /** No refresh that fails in this run lets a remembered record overstay. */
  predicate Refreshed(s: State, es: seq<Event>)
    decreases |es|
  {
    es == [] || (!Overstays(s, es[0]) && Refreshed(Step(s, es[0]), es[1..]))
  }

  /** The two levels are consistent after every event. */
  ghost predicate StaysConsistent(s: State, es: seq<Event>)
    decreases |es|
  {
    es == [] || (Consistent(Step(s, es[0]), es[0].now) && StaysConsistent(Step(s, es[0]), es[1..]))
  }

  lemma {:induction false} ConsistentExactly(s: State, start: int, es: seq<Event>)
    requires Consistent(s, start) && Ordered(start, es)
    decreases |es|
    ensures StaysConsistent(s, es) <==> Refreshed(s, es)
  {
    if es != [] {
      StepConsistent(s, start, es[0]);
      if !Overstays(s, es[0]) {
        ConsistentExactly(Step(s, es[0]), es[0].now, es[1..]);
      }
    }
  }

  lemma {:induction false} RunConsistent(s: State, start: int, es: seq<Event>)
    requires Consistent(s, start) && Ordered(start, es) && Refreshed(s, es)
    decreases |es|
    ensures Consistent(Run(s, es), LastTime(start, es))
  {
    if es != [] {
      StepConsistent(s, start, es[0]);
      RunConsistent(Step(s, es[0]), es[0].now, es[1..]);
      assert LastTime(es[0].now, es[1..]) == LastTime(start, es);
    }
  }

  /** Refreshes that succeed are enough. */
  lemma {:induction false} RefreshesWork(s: State, es: seq<Event>)
    requires forall k | 0 <= k < |es| :: es[k].f.refresh
    decreases |es|
    ensures Refreshed(s, es)
  {
    if es != [] {
      RefreshesWork(Step(s, es[0]), es[1..]);
    }
  }

  /** What a read of the shared store alone would answer. */
  function StoreAnswer(s: State, id: string, now: int): Result<Record, Error> {
    if id == "" then Err(EmptyInstanceID)
    else if Direct(s, id, now).None? then Err(InstanceNotFound)
    else Ok(Direct(s, id, now).value)
  }

  predicate SameAnswer(a: Result<Record, Error>, b: Result<Record, Error>) {
    match (a, b)
    case (Ok(x), Ok(y)) => Normalize(x) == Normalize(y)
    case _ => a == b
  }

  /**
    After every run from a consistent state a read answers as the shared store would, up to the nil
    metadata map; the two differ exactly for a remembered record stored with nil metadata.
    A store that cannot be reached changes only the answers that are not remembered.
   */
  lemma Transparent(s0: State, start: int, es: seq<Event>, id: string, now: int, f: Faults)
    requires Consistent(s0, start) && Ordered(start, es) && LastTime(start, es) <= now && Refreshed(s0, es)
    ensures var s := Run(s0, es); var got := Get(s, id, now, f).1;
            && (f.read.Works? || Remembered(s, id, now).Some? ==> SameAnswer(got, StoreAnswer(s, id, now)))
            && (f.read.Works? ==> (got == StoreAnswer(s, id, now) <==>
                 !(id != "" && Remembered(s, id, now).Some? && Direct(s, id, now).value.metadata.None?)))
            && (Remembered(s, id, now).Some? ==> Direct(s, id, now).Some?)
  {
    RunConsistent(s0, start, es);
    var s := Run(s0, es);
    assert id in s.mem ==> Agrees(s, id);
  }

  /**
    After a read of the store the memory cache answers only while the store does, exactly
    when the refresh worked or the stored record had more than the cache's five minutes left.
   */
  lemma RefreshFailureExactly(s: State, id: string, was: int, now: int, f: Faults)
    requires Consistent(s, was) && was <= now && ReadsStore(s, id, now, f)
    ensures var t := Get(s, id, now, f).0;
            (forall later: int :: later >= now && Remembered(t, id, later).Some? ==> Direct(t, id, later).Some?)
            <==> f.refresh || s.store[id].expires > now + CACHE_TTL
  {
    var t := Get(s, id, now, f).0;
    assert Sound(s.store[id], id, was);
    if !f.refresh && s.store[id].expires <= now + CACHE_TTL {
      var later := s.store[id].expires;
      assert later >= now && Remembered(t, id, later).Some? && Direct(t, id, later).None?;
    }
  }

  /**
    A refresh that fails lets a remembered record outlive the stored one: reads then find what
    the store has dropped.
   */
  lemma RefreshFailureShows(r: Record)
    requires r.instanceID != ""
    ensures var id := r.instanceID;
            var es := [Event(DoRegister(r), 0, HEALTHY), Event(DoClearMemory, 1, HEALTHY),
                       Event(DoGet(id), DEFAULT_TTL - 1, Faults(Works, false, true))];
            var s := Run(EMPTY, es);
            && StoreAnswer(s, id, DEFAULT_TTL) == Err(InstanceNotFound)
            && Get(s, id, DEFAULT_TTL, HEALTHY).1.Ok?
  {
    var id := r.instanceID;
    var e0, e1, e2 := Event(DoRegister(r), 0, HEALTHY), Event(DoClearMemory, 1, HEALTHY),
                      Event(DoGet(id), DEFAULT_TTL - 1, Faults(Works, false, true));
    var s0 := EMPTY;
    var s1 := Step(s0, e0);
    var s2 := Step(s1, e1);
    var s3 := Step(s2, e2);
    assert [e0, e1, e2][1..] == [e1, e2] && [e1, e2][1..] == [e2] && [e2][1..] == [];
    assert Run(s0, [e0, e1, e2]) == Run(s1, [e1, e2]) == Run(s2, [e2]) == Run(s3, []) == s3;
  }

  // ---------- Creation times and activity ----------

  /** This event neither registers over nor deletes `id`, and no outage passes for an absent record. */
  predicate KeepsRecord(e: Event, id: string) {
    && !(e.op.DoRegister? && e.op.r.instanceID == id)
    && !(e.op.DoDelete? && e.op.id == id)
    && e.f.read != Fails(true)
  }

  /** The stored record is unexpired whenever an event starts. */
  predicate StaysLive(s: State, es: seq<Event>, id: string)
    decreases |es|
  {
    es == [] || (Direct(s, id, es[0].now).Some? && StaysLive(Step(s, es[0]), es[1..], id))
  }

  /** Both states hold the record, created at the same time, active and expiring no earlier in the second. */
  predicate Forward(s: State, t: State, id: string) {
    id in s.store && id in t.store && s.store[id].expires <= t.store[id].expires
    && t.store[id].value.createdAt == s.store[id].value.createdAt
    && t.store[id].value.lastActive >= s.store[id].value.lastActive
  }

  lemma ReadForward(s: State, other: string, id: string, was: int, now: int, f: Faults)
    requires Consistent(s, was) && was <= now && f.read != Fails(true) && Direct(s, id, now).Some?
    ensures var (t, got) := Get(s, other, now, f);
            Forward(s, t, id)
            && (got.Ok? ==> got.value.instanceID == other)
            && (other == id && got.Ok? ==> got.value.createdAt == s.store[id].value.createdAt)
            && (got == Err(InstanceNotFound) ==> other != id)
  {
    assert other in s.mem ==> Agrees(s, other);
    assert Sound(s.store[id], id, was);
  }

  lemma StepForward(s: State, was: int, e: Event, id: string)
    requires Consistent(s, was) && was <= e.now && KeepsRecord(e, id) && Direct(s, id, e.now).Some?
    ensures Forward(s, Step(s, e), id)
  {
    assert Sound(s.store[id], id, was);
    match e.op
    case DoGet(other) => ReadForward(s, other, id, was, e.now, e.f);
    case DoGetOrCreate(other) => ReadForward(s, other, id, was, e.now, e.f);
    case DoRegister(r) =>
    case DoUpdate(r) => ReadForward(s, r.instanceID, id, was, e.now, e.f);
    case DoDelete(other) =>
    case DoUpdateLastActive(other) =>
      var active := s.(activity := s.activity[other := e.now]);
      assert forall k | k in s.mem :: Agrees(s, k) ==> Agrees(active, k);
      ReadForward(active, other, id, was, e.now, e.f);
    case DoClearMemory =>
  }

  lemma {:induction false} RunForward(s: State, start: int, es: seq<Event>, id: string)
    requires Consistent(s, start) && Ordered(start, es) && id in s.store && StaysLive(s, es, id) && Refreshed(s, es)
    requires forall k | 0 <= k < |es| :: KeepsRecord(es[k], id)
    decreases |es|
    ensures Forward(s, Run(s, es), id)
  {
    if es != [] {
      StepForward(s, start, es[0], id);
      StepConsistent(s, start, es[0]);
      RunForward(Step(s, es[0]), es[0].now, es[1..], id);
    }
  }

  /**
    After any run, while the record stays live and nobody registers over or
    deletes it, its creation time is fixed and its activity never goes back.
   */
  lemma CreationSticks(s0: State, start: int, before: seq<Event>, after: seq<Event>, id: string)
    requires Consistent(s0, start) && Ordered(start, before) && Ordered(LastTime(start, before), after)
    requires Refreshed(s0, before) && Refreshed(Run(s0, before), after)
    requires forall k | 0 <= k < |after| :: KeepsRecord(after[k], id)
    requires var s := Run(s0, before); id in s.store && StaysLive(s, after, id)
    ensures Forward(Run(s0, before), Run(Run(s0, before), after), id)
  {
    RunConsistent(s0, start, before);
    RunForward(Run(s0, before), LastTime(start, before), after, id);
  }

  /** The first expiry time is enough: a run that ends before it keeps the record live throughout. */
  lemma {:induction false} LiveUntilExpiry(s: State, start: int, es: seq<Event>, id: string)
    requires Consistent(s, start) && Ordered(start, es) && id in s.store && Refreshed(s, es)
    requires forall k | 0 <= k < |es| :: KeepsRecord(es[k], id) && es[k].now < s.store[id].expires
    decreases |es|
    ensures StaysLive(s, es, id)
  {
    if es != [] {
      StepForward(s, start, es[0], id);
      StepConsistent(s, start, es[0]);
      LiveUntilExpiry(Step(s, es[0]), es[0].now, es[1..], id);
    }
  }

  /**
    GetOrCreate replaces a live record exactly when it is not remembered, the read meets an
    outage that looks like an absent key, and the write goes through.
   */
  lemma RecreatesExactly(s: State, id: string, was: int, now: int, f: Faults)
    requires Consistent(s, was) && was <= now && Direct(s, id, now).Some?
    ensures var t := GetOrCreate(s, id, now, f).0;
            id in t.store && t.store[id].value ==
              (if Remembered(s, id, now).None? && f.read == Fails(true) && f.write then NewRecord(id, now)
               else s.store[id].value)
  {
    assert Sound(s.store[id], id, was);
    assert id in s.mem ==> Agrees(s, id);
  }

  // ---------- The activity throttle ----------

  lemma StepActivity(s: State, e: Event, id: string)
    requires id in s.activity && e.now - s.activity[id] < ACTIVITY_UPDATE_INTERVAL
    requires e.op != DoDelete(id)
    ensures id in Step(s, e).activity && Step(s, e).activity[id] == s.activity[id]
  {
  }

  /**
    One pass per minute: after an unthrottled call, whatever it met, every call for the same
    instance less than a minute later reports success and does nothing, until a Delete.
   */
  lemma {:induction false} OncePerMinute(s: State, id: string, t: int, es: seq<Event>, now: int, f: Faults)
    requires id in s.activity && s.activity[id] == t
    requires Ordered(t, es) && LastTime(t, es) <= now < t + ACTIVITY_UPDATE_INTERVAL
    requires forall k | 0 <= k < |es| :: es[k].op != DoDelete(id)
    decreases |es|
    ensures UpdateLastActive(Run(s, es), id, now, f) == (Run(s, es), None)
  {
    if es != [] {
      LastIsLatest(t, es);
      StepActivity(s, es[0], id);
      Unordered(t, es);
      OncePerMinute(Step(s, es[0]), id, t, es[1..], now, f);
    }
  }

  lemma {:induction false} LastIsLatest(start: int, es: seq<Event>)
    requires Ordered(start, es)
    decreases |es|
    ensures start <= LastTime(start, es) && (es != [] ==> es[0].now <= LastTime(start, es))
  {
    if es != [] {
      LastIsLatest(es[0].now, es[1..]);
    }
  }

  lemma Unordered(t: int, es: seq<Event>)
    requires es != [] && Ordered(t, es)
    ensures Ordered(t, es[1..]) && LastTime(t, es[1..]) <= LastTime(t, es)
  {
    LastIsLatest(t, es);
    LastIsLatest(es[0].now, es[1..]);
  }

  /** The stored activity time never lags behind the throttle's. */
  ghost predicate Tracked(s: State, now: int) {
    forall id | id in s.activity ::
      s.activity[id] <= now && (Direct(s, id, now).Some? ==> s.activity[id] <= s.store[id].value.lastActive)
  }

  lemma ReadTracked(s: State, id: string, was: int, now: int)
    requires Consistent(s, was) && was <= now && Tracked(s, now)
    ensures var (t, got) := Get(s, id, now, HEALTHY); Tracked(t, now) && (got.Ok? ==> got.value.instanceID == id)
  {
    assert id in s.mem ==> Agrees(s, id);
    assert id in s.store ==> Sound(s.store[id], id, was);
  }

  lemma WriteTracked(s: State, r: Record, now: int)
    requires forall id | id in s.activity ::
               && s.activity[id] <= now
               && (id != r.instanceID && Direct(s, id, now).Some? ==> s.activity[id] <= s.store[id].value.lastActive)
    ensures r.instanceID != "" ==> Tracked(Register(s, r, now, HEALTHY).0, now)
  {
  }

  lemma StepTracked(s: State, was: int, e: Event)
    requires Consistent(s, was) && Tracked(s, was) && was <= e.now && e.f == HEALTHY
    ensures Tracked(Step(s, e), e.now)
  {
    assert Tracked(s, e.now);
    match e.op
    case DoGet(id) => ReadTracked(s, id, was, e.now);
    case DoGetOrCreate(id) =>
      ReadTracked(s, id, was, e.now);
      WriteTracked(Get(s, id, e.now, e.f).0, NewRecord(id, e.now), e.now);
    case DoRegister(r) => WriteTracked(s, r, e.now);
    case DoUpdate(r) =>
      ReadTracked(s, r.instanceID, was, e.now);
      var (s1, existing) := Get(s, r.instanceID, e.now, e.f);
      if existing.Ok? {
        WriteTracked(s1, r.(createdAt := existing.value.createdAt), e.now);
      }
    case DoDelete(_) =>
    case DoUpdateLastActive(id) => PassTracked(s, id, was, e.now);
    case DoClearMemory =>
  }

  /** The throttle's mark may run ahead of the record only until the write that follows it. */
  lemma PassTracked(s: State, id: string, was: int, now: int)
    requires Consistent(s, was) && Tracked(s, now) && was <= now
    ensures Tracked(UpdateLastActive(s, id, now, HEALTHY).0, now)
  {
    if !Throttled(s, id, now) {
      var active := s.(activity := s.activity[id := now]);
      assert id in s.mem ==> Agrees(s, id);
      assert id in s.store ==> Sound(s.store[id], id, was);
      var (s1, got) := Get(active, id, now, HEALTHY);
      if got.Ok? {
        WriteTracked(s1, got.value, now);
      }
    }
  }

  lemma {:induction false} RunTracked(s: State, start: int, es: seq<Event>)
    requires Consistent(s, start) && Tracked(s, start) && Ordered(start, es)
    requires forall k | 0 <= k < |es| :: es[k].f == HEALTHY
    decreases |es|
    ensures Tracked(Run(s, es), LastTime(start, es))
  {
    if es != [] {
      StepConsistent(s, start, es[0]);
      StepTracked(s, start, es[0]);
      RunTracked(Step(s, es[0]), es[0].now, es[1..]);
      assert LastTime(es[0].now, es[1..]) == LastTime(start, es);
    }
  }

  /**
    With a healthy store, a successful activity update leaves a live record's stored activity
    less than a minute old.
   */
  lemma ActivityIsRecent(s0: State, start: int, es: seq<Event>, id: string, now: int)
    requires Consistent(s0, start) && Tracked(s0, start)
    requires Ordered(start, es) && LastTime(start, es) <= now
    requires forall k | 0 <= k < |es| :: es[k].f == HEALTHY
    ensures var (t, err) := UpdateLastActive(Run(s0, es), id, now, HEALTHY);
            err.None? && Direct(t, id, now).Some? ==> now - t.store[id].value.lastActive < ACTIVITY_UPDATE_INTERVAL
  {
    RefreshesWork(s0, es);
    RunConsistent(s0, start, es);
    RunTracked(s0, start, es);
    var s := Run(s0, es);
    assert id in s.mem ==> Agrees(s, id);
    assert id in s.store ==> Sound(s.store[id], id, LastTime(start, es));
  }

  /**
    An unthrottled update of a live record reports success and moves its stored activity
    exactly when the record could be read, from memory or store, and written; otherwise it
    leaves the record as it was.
   */
  lemma ActivityExactly(s: State, id: string, was: int, now: int, f: Faults)
    requires Consistent(s, was) && was < now && Direct(s, id, now).Some? && !Throttled(s, id, now)
    ensures var (t, err) := UpdateLastActive(s, id, now, f);
            var works := (Remembered(s, id, now).Some? || f.read.Works?) && f.write;
            && id in t.store && (t.store[id].value.lastActive == now <==> works)
            && (err.None? <==> works)
            && (!works ==> t.store[id].value == s.store[id].value)
            && id in t.activity && t.activity[id] == now
  {
    assert Sound(s.store[id], id, was);
    assert id in s.mem ==> Agrees(s, id);
  }

  /** The events are all activity updates of one instance. */
  predicate OnlyUpdates(es: seq<Event>, id: string) {
    forall k | 0 <= k < |es| :: es[k].op == DoUpdateLastActive(id)
  }

  lemma {:induction false} UpdatesDoNothing(t: State, id: string, now: int, es: seq<Event>)
    requires id in t.activity && t.activity[id] == now && OnlyUpdates(es, id)
    requires Ordered(now, es) && LastTime(now, es) < now + ACTIVITY_UPDATE_INTERVAL
    decreases |es|
    ensures Run(t, es) == t
  {
    if es != [] {
      LastIsLatest(now, es);
      assert Step(t, es[0]) == t;
      Sooner(now, es[0].now, es[1..]);
      Unordered(now, es);
      UpdatesDoNothing(t, id, now, es[1..]);
    }
  }

  lemma Sooner(start: int, later: int, es: seq<Event>)
    requires start <= later && Ordered(later, es)
    ensures Ordered(start, es)
  {
  }

  /** A process that starts over the store of a consistent one, or over an empty store, starts consistent. */
  lemma RestartsConsistent(s: State, now: int)
    requires Consistent(s, now)
    ensures Consistent(s.(mem := map[], activity := map[]), now) && Tracked(s.(mem := map[], activity := map[]), now)
    ensures Consistent(EMPTY, now) && Tracked(EMPTY, now)
  {
    forall id | id in s.store ensures Sound(s.store[id], id, now) { }
  }

  /**
    The updates of the following minute all report success, and they are hollow exactly when
    the first one could not read or could not write: then the record is as old as before.
   */
  lemma HollowExactly(s: State, id: string, was: int, now: int, f: Faults, es: seq<Event>, later: int, g: Faults)
    requires Consistent(s, was) && was < now && Direct(s, id, now).Some? && !Throttled(s, id, now)
    requires OnlyUpdates(es, id) && Ordered(now, es) && LastTime(now, es) <= later < now + ACTIVITY_UPDATE_INTERVAL
    ensures var t := UpdateLastActive(s, id, now, f).0;
            var (end, err) := UpdateLastActive(Run(t, es), id, later, g);
            && err == None && id in end.store
            && (end.store[id].value == s.store[id].value
                <==> !((Remembered(s, id, now).Some? || f.read.Works?) && f.write))
  {
    var t := UpdateLastActive(s, id, now, f).0;
    ActivityExactly(s, id, was, now, f);
    assert Sound(s.store[id], id, was);
    UpdatesDoNothing(t, id, now, es);
    OncePerMinute(t, id, now, es, later, g);
  }
}
