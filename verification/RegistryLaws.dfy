/**
  What each registry operation means for later reads (internal/instance/registry.go:59-302),
  with the times written out: five minutes in memory, a day in the store, one activity update
  a minute.
 */
module RegistryLaws {
  import opened Options
  import opened InstanceContext
  import opened RegistryState
  import opened RegistryRuns

  // ---------- What concerns an id ----------

  /** The id an event is about; clearing the memory cache is about none. */
  function About(e: Event): Option<string> {
    match e.op
    case DoGet(id) => Some(id)
    case DoGetOrCreate(id) => Some(id)
    case DoRegister(r) => Some(r.instanceID)
    case DoUpdate(r) => Some(r.instanceID)
    case DoDelete(id) => Some(id)
    case DoUpdateLastActive(id) => Some(id)
    case DoClearMemory => None
  }

  /** Nothing in the two states differs for this id. */
  predicate SameFor(s: State, t: State, id: string) {
    && (id in s.store <==> id in t.store) && (id in s.store ==> s.store[id] == t.store[id])
    && (id in s.mem <==> id in t.mem) && (id in s.mem ==> s.mem[id] == t.mem[id])
    && (id in s.activity <==> id in t.activity) && (id in s.activity ==> s.activity[id] == t.activity[id])
  }

  lemma ReadNamed(s: State, id: string, now: int, f: Faults)
    requires Named(s)
    ensures var (t, got) := Get(s, id, now, f);
            && Named(t) && SameRecords(s, t)
            && (got.Ok? <==> CanRead(s, id, now, f))
            && (got.Ok? ==> got.value.instanceID == id)
  {
  }

  lemma ReadElsewhere(s: State, id: string, now: int, f: Faults, other: string)
    requires Named(s) && other != id
    ensures SameFor(s, Get(s, id, now, f).0, other)
  {
  }

  lemma WriteNamed(s: State, r: Record, now: int, f: Faults, other: string)
    requires Named(s)
    ensures Named(Register(s, r, now, f).0)
    ensures other != r.instanceID ==> SameFor(s, Register(s, r, now, f).0, other)
  {
  }

  lemma CreateNamed(s: State, id: string, now: int, f: Faults, other: string)
    requires Named(s)
    ensures var t := GetOrCreate(s, id, now, f).0;
            Named(t) && (other != id ==> SameFor(s, t, other))
  {
    ReadNamed(s, id, now, f);
    if other != id {
      ReadElsewhere(s, id, now, f, other);
    }
    WriteNamed(Get(s, id, now, f).0, NewRecord(id, now), now, f, other);
  }

  lemma UpdateNamed(s: State, r: Record, now: int, f: Faults, other: string)
    requires Named(s)
    ensures var t := Update(s, r, now, f).0;
            Named(t) && (other != r.instanceID ==> SameFor(s, t, other))
  {
    ReadNamed(s, r.instanceID, now, f);
    if other != r.instanceID {
      ReadElsewhere(s, r.instanceID, now, f, other);
    }
    var (s1, got) := Get(s, r.instanceID, now, f);
    if got.Ok? {
      WriteNamed(s1, r.(createdAt := got.value.createdAt), now, f, other);
    }
  }

  lemma ActivityNamed(s: State, id: string, now: int, f: Faults, other: string)
    requires Named(s)
    ensures var t := UpdateLastActive(s, id, now, f).0;
            Named(t) && (other != id ==> SameFor(s, t, other))
  {
    var active := s.(activity := s.activity[id := now]);
    ReadNamed(active, id, now, f);
    if other != id {
      ReadElsewhere(active, id, now, f, other);
    }
    var (s1, got) := Get(active, id, now, f);
    if got.Ok? {
      WriteNamed(s1, got.value, now, f, other);
    }
  }

  /** Every step keeps records under their ids, and what it is about apart from everything else. */
  lemma StepNamed(s: State, e: Event, other: string)
    requires Named(s)
    ensures Named(Step(s, e))
    ensures About(e).Some? && other != About(e).value ==> SameFor(s, Step(s, e), other)
  {
    match e.op
    case DoGet(id) =>
      ReadNamed(s, id, e.now, e.f);
      if other != id {
        ReadElsewhere(s, id, e.now, e.f, other);
      }
    case DoGetOrCreate(id) => CreateNamed(s, id, e.now, e.f, other);
    case DoRegister(r) => WriteNamed(s, r, e.now, e.f, other);
    case DoUpdate(r) => UpdateNamed(s, r, e.now, e.f, other);
    case DoDelete(_) =>
    case DoUpdateLastActive(id) => ActivityNamed(s, id, e.now, e.f, other);
    case DoClearMemory =>
  }

  // ---------- Reading and registering ----------

  /** Registering succeeds exactly for a named record the store accepts, and changes nothing otherwise. */
  lemma RegistersExactly(s: State, r: Record, now: int, f: Faults)
    ensures var (t, err) := Register(s, r, now, f);
            && err == (if r.instanceID == "" then Some(EmptyInstanceID)
                       else if !f.write then Some(Unavailable)
                       else None)
            && (err.Some? ==> t == s)
  {
  }

  /**
    A registered record is what later reads find, with its activity set to the time of
    registering: from memory for five minutes whatever the store does, with a nil metadata map
    made an empty one; then from the store until a day has passed.
   */
  lemma RegisteredIsFound(s: State, r: Record, now: int, f: Faults, later: int, g: Faults)
    requires r.instanceID != "" && f.write && now <= later
    ensures var t, want := Register(s, r, now, f).0, r.(lastActive := now);
            Get(t, r.instanceID, later, g).1 ==
              if later <= now + 300_000_000_000 then
                Ok(if want.metadata.Some? then want else want.(metadata := Some(map[])))
              else match g.read
                case Fails(looksAbsent) => Err(if looksAbsent then InstanceNotFound else Unavailable)
                case Works =>
                  if later < now + 86_400_000_000_000 then Ok(want) else Err(InstanceNotFound)
  {
  }

  /** A read of the store is remembered for five minutes and, when the refresh works, keeps the record for a day. */
  lemma ReadExtends(s: State, id: string, now: int, f: Faults, later: int)
    requires ReadsStore(s, id, now, f) && s.store[id].value.instanceID == id && now <= later
    ensures var t, r := Get(s, id, now, f).0, s.store[id].value;
            && (Remembered(t, id, later) == if later <= now + 300_000_000_000 then Some(Normalize(r)) else None)
            && (f.refresh ==> (Direct(t, id, later) == if later < now + 86_400_000_000_000 then Some(r) else None))
            && (!f.refresh ==> t.store == s.store)
  {
  }

  /**
    GetOrCreate hands out what a read finds; for an absent key it creates and stores an active,
    empty record of that id and time; any other failure creates nothing.
   */
  lemma CreatesExactly(s: State, id: string, now: int, f: Faults)
    ensures var (t, got) := GetOrCreate(s, id, now, f);
            var (read, found) := Get(s, id, now, f);
            if found != Err(InstanceNotFound) then (t, got) == (read, found)
            else if !f.write then got == Err(Unavailable) && t == read
            else
              && got == Ok(Record(id, "default", "default", now, now, Active, Some(map[]),
                                  Some(Quota(8192, 100, 4, 10000)), false))
              && id in t.store && t.store[id] == Stamped(got.value, now + 86_400_000_000_000)
  {
  }

  /**
    Update succeeds exactly when the record can be read and written.  It then stores the
    caller's record with the stored creation time and the present as activity; otherwise every
    stored record stays.
   */
  lemma UpdatesExactly(s: State, r: Record, was: int, now: int, f: Faults)
    requires Consistent(s, was) && Named(s) && was <= now
    ensures var (t, err) := Update(s, r, now, f); var id := r.instanceID;
            && (err.None? <==> CanRead(s, id, now, f) && f.write)
            && (err.Some? ==> err.value == match Get(s, id, now, f).1 case Err(e) => e case Ok(_) => Unavailable)
            && (err.None? ==>
                  && id in s.store && id in t.store
                  && t.store[id] == Stamped(r.(createdAt := s.store[id].value.createdAt, lastActive := now),
                                            now + 86_400_000_000_000))
            && (err.Some? ==> SameRecords(s, t))
  {
    ReadNamed(s, r.instanceID, now, f);
    assert r.instanceID in s.mem ==> Agrees(s, r.instanceID);
  }

  // ---------- Deleting ----------

  /**
    Delete succeeds exactly for a live record and a working store.  It then leaves nothing of
    that id and everything of the others; otherwise it changes nothing.
   */
  lemma DeletesExactly(s: State, id: string, now: int, f: Faults)
    ensures var (t, err) := Delete(s, id, now, f);
            && (err.None? <==> id != "" && f.write && Direct(s, id, now).Some?)
            && (err.Some? ==> t == s && err.value == if id == "" then EmptyInstanceID else Unavailable)
            && (err.None? ==>
                  && id !in t.store && id !in t.mem && id !in t.activity
                  && forall other :: other != id ==> SameFor(s, t, other))
  {
  }

  /** A step that can bring a record of this id into being. */
  predicate Creates(e: Event, id: string) {
    (e.op.DoRegister? && e.op.r.instanceID == id) || (e.op.DoGetOrCreate? && e.op.id == id)
  }

  predicate Gone(s: State, id: string) {
    id !in s.store && id !in s.mem
  }

  lemma StepGone(s: State, e: Event, id: string)
    requires Named(s) && Gone(s, id) && !Creates(e, id)
    ensures Gone(Step(s, e), id)
  {
    if About(e) != Some(id) {
      StepNamed(s, e, id);
    }
  }

  lemma {:induction false} StaysGone(s: State, es: seq<Event>, id: string)
    requires Named(s) && Gone(s, id) && forall e | e in es :: !Creates(e, id)
    decreases |es|
    ensures Gone(Run(s, es), id)
  {
    if es != [] {
      assert es[0] in es;
      StepNamed(s, es[0], id);
      StepGone(s, es[0], id);
      StaysGone(Step(s, es[0]), es[1..], id);
    }
  }

  /**
    After a Delete that reports success no read finds the record, at any time and under any
    faults, until a step creates it.
   */
  lemma DeletedIsGone(s: State, id: string, now: int, f: Faults, es: seq<Event>, later: int, g: Faults)
    requires Named(s) && Delete(s, id, now, f).1.None? && forall e | e in es :: !Creates(e, id)
    ensures var t := Run(Delete(s, id, now, f).0, es);
            Get(t, id, later, g).1.Err? && StoreAnswer(t, id, later) == Err(InstanceNotFound)
  {
    DeletesExactly(s, id, now, f);
    StaysGone(Delete(s, id, now, f).0, es, id);
  }

  // ---------- The throttle's minute ----------

  /** After an unthrottled update, calls are throttled for exactly a minute. */
  lemma ThrottledForAMinute(s: State, id: string, now: int, f: Faults, later: int)
    requires !Throttled(s, id, now) && now <= later
    ensures Throttled(UpdateLastActive(s, id, now, f).0, id, later) <==> later < now + 60_000_000_000
  {
  }
}
