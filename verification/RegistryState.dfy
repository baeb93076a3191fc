/**
  The instance registry (internal/instance/registry.go): records kept in a shared store
  for a day and cloned into process memory for five minutes.

  Times are nanoseconds. One call reads the clock once; the store calls it makes succeed
  or fail as its Faults say; the TTL refresh of a store read finishes inside that read.
 */
module RegistryState {
  import opened Options
  import opened InstanceContext

  const MINUTE: int := 60_000_000_000
  const DEFAULT_TTL: int := 1440 * MINUTE
  const CACHE_TTL: int := 5 * MINUTE
  const ACTIVITY_UPDATE_INTERVAL: int := MINUTE

  datatype Error = EmptyInstanceID | InstanceNotFound | Unavailable

  /** How the store answers a read: an outage is taken for an absent key when its text says "not found" or "nil". */
  datatype Access = Works | Fails(looksAbsent: bool)

  datatype Faults = Faults(read: Access, refresh: bool, write: bool)

  const HEALTHY: Faults := Faults(Works, true, true)

  datatype Stamped = Stamped(value: Record, expires: int)

  datatype State = State(store: map<string, Stamped>, mem: map<string, Stamped>, activity: map<string, int>)

  // ---------- What each operation does, on values ----------

  /** The store's own answer: a key is there until its expiry instant. */
  function Direct(s: State, id: string, now: int): Option<Record> {
    if id in s.store && now < s.store[id].expires then Some(s.store[id].value) else None
  }

  /** The memory cache's answer: an entry is stale only once its expiry lies in the past. */
  function Remembered(s: State, id: string, now: int): Option<Record> {
    if id in s.mem && s.mem[id].expires >= now then Some(s.mem[id].value) else None
  }

  function Remember(s: State, r: Record, now: int): State {
    s.(mem := s.mem[r.instanceID := Stamped(Normalize(r), now + CACHE_TTL)])
  }

  function Get(s: State, id: string, now: int, f: Faults): (State, Result<Record, Error>) {
    if id == "" then (s, Err(EmptyInstanceID))
    else if Remembered(s, id, now).Some? then (s, Ok(Remembered(s, id, now).value))
    else match f.read
      case Fails(looksAbsent) => (s, Err(if looksAbsent then InstanceNotFound else Unavailable))
      case Works =>
        if Direct(s, id, now).None? then (s, Err(InstanceNotFound))
        else
          var r := Direct(s, id, now).value;
          var kept := if f.refresh then s.store[id := Stamped(r, now + DEFAULT_TTL)] else s.store;
          (Remember(s.(store := kept), r, now), Ok(r))
  }

  function Register(s: State, r: Record, now: int, f: Faults): (State, Option<Error>) {
    if r.instanceID == "" then (s, Some(EmptyInstanceID))
    else if !f.write then (s, Some(Unavailable))
    else
      var active := r.(lastActive := now);
      (Remember(s.(store := s.store[r.instanceID := Stamped(active, now + DEFAULT_TTL)]), active, now), None)
  }

  function GetOrCreate(s: State, id: string, now: int, f: Faults): (State, Result<Record, Error>) {
    var (s1, got) := Get(s, id, now, f);
    if got == Err(InstanceNotFound) then
      var (s2, err) := Register(s1, NewRecord(id, now), now, f);
      (s2, if err.Some? then Err(err.value) else Ok(NewRecord(id, now)))
    else (s1, got)
  }

  function Update(s: State, r: Record, now: int, f: Faults): (State, Option<Error>) {
    if r.instanceID == "" then (s, Some(EmptyInstanceID))
    else
      var (s1, existing) := Get(s, r.instanceID, now, f);
      match existing
      case Err(e) => (s1, Some(e))
      case Ok(e) => Register(s1, r.(createdAt := e.createdAt), now, f)
  }

  function Delete(s: State, id: string, now: int, f: Faults): (State, Option<Error>) {
    if id == "" then (s, Some(EmptyInstanceID))
    else if !f.write || Direct(s, id, now).None? then (s, Some(Unavailable))
    else (State(s.store - {id}, s.mem - {id}, s.activity - {id}), None)
  }

  predicate Throttled(s: State, id: string, now: int) {
    id in s.activity && now - s.activity[id] < ACTIVITY_UPDATE_INTERVAL
  }

  function UpdateLastActive(s: State, id: string, now: int, f: Faults): (State, Option<Error>) {
    if Throttled(s, id, now) then (s, None)
    else
      var (s1, got) := Get(s.(activity := s.activity[id := now]), id, now, f);
      match got
      case Err(e) => (s1, Some(e))
      case Ok(r) => Register(s1, r, now, f)
  }

  // ---------- What states and reads have in common ----------

  /** Records are filed under their own ids. */
  ghost predicate Named(s: State) {
    (forall id | id in s.store :: s.store[id].value.instanceID == id && id != "") &&
    (forall id | id in s.mem :: s.mem[id].value.instanceID == id && id != "")
  }

  /** The stored records are the same; only their expiry may differ. */
  ghost predicate SameRecords(s: State, t: State) {
    s.store.Keys == t.store.Keys && forall id | id in s.store :: s.store[id].value == t.store[id].value
  }

  /** A read finds the record. */
  predicate CanRead(s: State, id: string, now: int, f: Faults) {
    id != "" && (Remembered(s, id, now).Some? || (f.read.Works? && Direct(s, id, now).Some?))
  }
}
