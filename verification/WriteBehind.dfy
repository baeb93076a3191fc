/**
  A primary node as a whole (internal/api/handlers_instance.go over
  internal/api/async_writer.go): a set writes Redis and then the write queue, a get reads
  Redis and falls back to the database, whose answer it puts back into Redis. Sets and gets
  overlap, so a set is two steps and a get up to three.

  The proofs compare this with one plain map, the latest value written to Redis for every key.
 */
module WriteBehind {
  import opened Options
  import opened AsyncWriter

  /** What a handler between its two steps still has to write. */
  datatype Binding = Binding(key: Key, value: Value)

  /**
    `latest` is the specification: the map of latest sets, starting as the database.
    `halfDone` holds the sets that have written Redis and not yet queued their write,
    `misses` the gets that have missed in Redis and not yet read the database, `lookups`
    those that have read it and not yet repopulated Redis.
   */
  datatype Node = Node(redis: map<Key, Value>, pipeline: Pipeline, latest: map<Key, Value>,
                       halfDone: map<nat, Binding>, misses: map<nat, Key>, lookups: map<nat, Binding>)

  /**
    A set is Store and then Queue; a get is Look, and after a miss Fetch and Repopulate.
    `waiting` is a worker blocked on an unbuffered queue; `cacheOk` says whether Redis could
    be read.
   */
  datatype Action =
    | Store(setter: nat, key: Key, value: Value)
    | Queue(setter: nat, waiting: Option<nat>)
    | Look(reader: nat, key: Key, cacheOk: bool)
    | Fetch(reader: nat)
    | Repopulate(reader: nat)
    | Evict(key: Key)
    | Background(event: Event)

  function Boot(capacity: nat, workers: nat, db: map<Key, Value>): Node {
    Node(map[], Start(capacity, workers, db), db, map[], map[], map[])
  }

  /** A node with no handler between its steps. */
  function Resting(redis: map<Key, Value>, p: Pipeline): Node {
    Node(redis, p, map[], map[], map[], map[])
  }

  function Lookup(m: map<Key, Value>, k: Key): Option<Value> {
    if k in m then Some(m[k]) else None
  }

  /** What a get answers: Redis first, then the database; a Redis that cannot be read counts as a miss. */
  function Answer(n: Node, k: Key, cacheOk: bool): Option<Value> {
    if cacheOk && k in n.redis then Some(n.redis[k]) else Lookup(n.pipeline.db, k)
  }

  function Reply(n: Node, k: Key): Option<Value> {
    Answer(n, k, true)
  }

  predicate CanDo(n: Node, a: Action) {
    match a
    case Store(s, _, _) => s !in n.halfDone
    case Queue(s, waiting) => s in n.halfDone && (waiting.Some? ==> CanHandOff(n.pipeline, waiting.value))
    case Look(r, _, _) => r !in n.misses && r !in n.lookups
    case Fetch(r) => r in n.misses
    case Repopulate(r) => r in n.lookups
    case Background(e) => !IsWrite(e) && Enabled(n.pipeline, e)
    case _ => true
  }

  function Send(p: Pipeline, k: Key, v: Value, waiting: Option<nat>): Pipeline
    requires waiting.Some? ==> CanHandOff(p, waiting.value)
  {
    match waiting
    case None => Issue(p, k, v)
    case Some(w) => HandOff(p, k, v, w)
  }

  function Do(n: Node, a: Action): Node
    requires CanDo(n, a)
  {
    match a
    case Store(s, k, v) =>
      n.(redis := n.redis[k := v], latest := n.latest[k := v], halfDone := n.halfDone[s := Binding(k, v)])
    case Queue(s, waiting) =>
      var b := n.halfDone[s];
      n.(pipeline := Send(n.pipeline, b.key, b.value, waiting), halfDone := n.halfDone - {s})
    case Look(r, k, cacheOk) => if cacheOk && k in n.redis then n else n.(misses := n.misses[r := k])
    case Fetch(r) =>
      var k := n.misses[r];
      var m := n.(misses := n.misses - {r});
      if k in n.pipeline.db then m.(lookups := n.lookups[r := Binding(k, n.pipeline.db[k])]) else m
    case Repopulate(r) => n.(redis := n.redis[n.lookups[r].key := n.lookups[r].value], lookups := n.lookups - {r})
    case Evict(k) => n.(redis := n.redis - {k})
    case Background(e) => n.(pipeline := Step(n.pipeline, e))
  }

  predicate Feasible(n: Node, actions: seq<Action>)
    decreases |actions|
  {
    actions == [] || (CanDo(n, actions[0]) && Feasible(Do(n, actions[0]), actions[1..]))
  }

  function After(n: Node, actions: seq<Action>): Node
    requires Feasible(n, actions)
    decreases |actions|
  {
    if actions == [] then n else After(Do(n, actions[0]), actions[1..])
  }

  // ----- the handlers -----

  class Handlers {
    var redis: map<Key, Value>
    const writer: AsyncWriter

    constructor (writer: AsyncWriter)
      ensures this.writer == writer && redis == map[]
    {
      this.writer := writer;
      redis := map[];
    }

    /** PUT with nothing in between its two steps: an HTTP status; `cacheOk` says whether Redis accepted the value. */
    method Set(k: Key, v: Value, cacheOk: bool, waiting: Option<nat>) returns (status: int)
      requires waiting.Some? ==> CanHandOff(writer.Value(), waiting.value)
      modifies this, writer
      ensures k.name == "" || !cacheOk ==>
                status == (if k.name == "" then 400 else 500) && redis == old(redis)
                    && writer.Value() == old(writer.Value())
      ensures k.name != "" && cacheOk ==>
                var stored := Do(Resting(old(redis), old(writer.Value())), Store(0, k, v));
                var after := Do(stored, Queue(0, waiting));
                status == 200 && redis == after.redis && writer.Value() == after.pipeline
    {
      if k.name == "" {
        return 400;
      }
      if !cacheOk {
        return 500;
      }
      redis := redis[k := v];
      writer.Write(k, v, waiting);
      return 200;
    }

    /**
      GET with nothing else going on: the read and the repopulation follow each other, and a
      failed repopulation is ignored. A database that cannot be read answers like an absent key.
     */
    method Get(k: Key, cacheOk: bool, dbOk: bool, repopulated: bool) returns (status: int, value: Option<Value>)
      modifies this
      ensures k.name == "" ==> status == 400 && value == None && redis == old(redis)
      ensures k.name != "" ==>
                var hit := cacheOk && k in old(redis);
                && value == (if hit || dbOk then Answer(Resting(old(redis), writer.Value()), k, cacheOk) else None)
                && status == (if value.Some? then 200 else 404)
                && redis == if value.Some? && !hit && repopulated then old(redis)[k := value.value] else old(redis)
    {
      if k.name == "" {
        return 400, None;
      }
      if cacheOk && k in redis {
        return 200, Some(redis[k]);
      }
      if !dbOk || k !in writer.db {
        return 404, None;
      }
      value := Some(writer.db[k]);
      if repopulated {
        redis := redis[k := value.value];
      }
      return 200, value;
    }
  }

  // ----- the simulation -----

  /** The write in the only worker's hands, then the queue, oldest first. */
  function Pending(p: Pipeline): seq<WriteRequest> {
    (if |p.workers| > 0 && !p.workers[0].Idle? then [p.workers[0].req] else []) + p.queue
  }

  function Replay(db: map<Key, Value>, writes: seq<WriteRequest>): map<Key, Value> {
    if writes == [] then db
    else Replay(db, writes[..|writes| - 1])[writes[|writes| - 1].key := writes[|writes| - 1].value]
  }

  /** A set of this key is between its two steps. */
  predicate HalfDone(n: Node, k: Key) {
    exists s :: s in n.halfDone && n.halfDone[s].key == k
  }

  /** A write of this key has not reached the database yet. */
  predicate HasPending(n: Node, k: Key) {
    || HalfDone(n, k)
    || (exists x :: x in n.pipeline.workers && !x.Idle? && x.req.key == k)
    || (exists w :: w in n.pipeline.queue && w.key == k)
  }

  /** A get of this key is between its miss and its repopulation. */
  predicate Reading(n: Node, k: Key) {
    (exists r :: r in n.misses && n.misses[r] == k) || (exists r :: r in n.lookups && n.lookups[r].key == k)
  }

  /** What may happen in a run besides sets, gets, evictions and successful database writes. */
  datatype Trouble = Trouble(mayFail: bool, mayOverflow: bool, mayMissPending: bool, mayOvertake: bool, mayCross: bool)

  const CALM: Trouble := Trouble(false, false, false, false, false)

  /**
    mayFail: database calls; mayOverflow: sets that find the queue full; mayMissPending:
    eviction of a key, or a failed Redis read of it, while its write is pending; mayOvertake:
    a set between a get's miss and its repopulation of the same key; mayCross: a set of a key
    that begins while another one is half done.
   */
  predicate Permits(t: Trouble, n: Node, a: Action) {
    match a
    case Store(_, k, _) =>
      && (t.mayCross || !HalfDone(n, k))
      && (t.mayOvertake || !Reading(n, k))
    case Queue(_, waiting) => t.mayOverflow || waiting.Some? || |n.pipeline.queue| < n.pipeline.capacity
    case Look(_, k, cacheOk) => cacheOk || t.mayMissPending || !HasPending(n, k)
    case Fetch(_) => true
    case Evict(k) => t.mayMissPending || !HasPending(n, k)
    case Background(e) => e.DoFail? ==> t.mayFail
    case Repopulate(_) => true
  }

  predicate Permitted(t: Trouble, n: Node, actions: seq<Action>)
    requires Feasible(n, actions)
    decreases |actions|
  {
    actions == [] || (Permits(t, n, actions[0]) && Permitted(t, Do(n, actions[0]), actions[1..]))
  }

  // ----- the invariant -----

  predicate OneWorker(p: Pipeline) {
    |p.workers| <= 1 && forall x :: x in p.workers ==> !x.Sleeping?
  }

  /** No two sets of one key are half done, and each of them wrote the latest value. */
  predicate SetsApart(n: Node) {
    && (forall r, s :: r in n.halfDone && s in n.halfDone && n.halfDone[r].key == n.halfDone[s].key ==> r == s)
    && (forall s :: s in n.halfDone ==> Lookup(n.latest, n.halfDone[s].key) == Some(n.halfDone[s].value))
  }

  /** Where no set is half done, replaying the pending writes gives the latest value. */
  ghost predicate ReplaysTo(n: Node, k: Key) {
    HalfDone(n, k) || Lookup(Replay(n.pipeline.db, Pending(n.pipeline)), k) == Lookup(n.latest, k)
  }

  /** The database side. */
  ghost predicate Replays(n: Node) {
    OneWorker(n.pipeline) && SetsApart(n) && forall k :: ReplaysTo(n, k)
  }

  predicate RedisAgrees(n: Node) {
    forall k :: k in n.redis ==> k in n.latest && n.redis[k] == n.latest[k]
  }

  ghost predicate PendingInRedis(n: Node) {
    forall k :: HasPending(n, k) ==> k in n.redis
  }

  predicate LookupsAgree(n: Node) {
    forall r :: r in n.lookups ==> Lookup(n.latest, n.lookups[r].key) == Some(n.lookups[r].value)
  }

  /** Whoever missed a key will find its latest value in the database. */
  predicate MissesSettled(n: Node) {
    forall r :: r in n.misses ==> !HasPending(n, n.misses[r])
  }

  ghost predicate Simulates(n: Node) {
    Replays(n) && RedisAgrees(n) && PendingInRedis(n) && LookupsAgree(n) && MissesSettled(n)
  }

  /** Replaying a later write on top. */
  lemma ReplayAppend(db: map<Key, Value>, writes: seq<WriteRequest>, w: WriteRequest)
    ensures Replay(db, writes + [w]) == Replay(db, writes)[w.key := w.value]
  {
    assert (writes + [w])[..|writes|] == writes;
  }

  /** Persisting the oldest pending write does not change what the replay gives. */
  lemma {:induction false} ReplayHead(db: map<Key, Value>, w: WriteRequest, writes: seq<WriteRequest>)
    ensures Replay(db, [w] + writes) == Replay(db[w.key := w.value], writes)
  {
    if writes == [] {
      assert [w] + writes == [w] && [w][..0] == [];
    } else {
      assert ([w] + writes)[..|writes|] == [w] + writes[..|writes| - 1];
      ReplayHead(db, w, writes[..|writes| - 1]);
    }
  }

  /** The value of the last pending write of a key. */
  function LastWrite(writes: seq<WriteRequest>, k: Key): Option<Value> {
    if writes == [] then None
    else if writes[|writes| - 1].key == k then Some(writes[|writes| - 1].value)
    else LastWrite(writes[..|writes| - 1], k)
  }

  /** The last pending write of a key decides its value; without one the database does. */
  lemma {:induction false} ReplayLast(db: map<Key, Value>, writes: seq<WriteRequest>, k: Key)
    ensures Lookup(Replay(db, writes), k) == if LastWrite(writes, k).Some? then LastWrite(writes, k) else Lookup(db, k)
    ensures LastWrite(writes, k).Some? <==> exists w :: w in writes && w.key == k
  {
    if writes != [] {
      var init, last := writes[..|writes| - 1], writes[|writes| - 1];
      ReplayLast(db, init, k);
      assert forall w :: w in writes <==> w in init || w == last;
    }
  }

  /** With at most one worker, a key has a pending write exactly when a set of it is half done or one is replayed. */
  lemma PendingOfOne(n: Node, k: Key)
    requires |n.pipeline.workers| <= 1
    ensures HasPending(n, k) <==> HalfDone(n, k) || LastWrite(Pending(n.pipeline), k).Some?
  {
    ReplayLast(n.pipeline.db, Pending(n.pipeline), k);
    if |n.pipeline.workers| == 1 {
      var x := n.pipeline.workers[0];
      assert x in n.pipeline.workers && forall y :: y in n.pipeline.workers ==> y == x;
      assert forall w :: w in Pending(n.pipeline) <==> w in n.pipeline.queue || (!x.Idle? && w == x.req);
    } else {
      assert Pending(n.pipeline) == n.pipeline.queue;
    }
  }

  lemma HandOffPending(p: Pipeline, k: Key, v: Value, w: nat)
    requires |p.workers| == 1 && CanHandOff(p, w)
    ensures HandOff(p, k, v, w).workers == [Calling(WriteRequest(p.tally.issued, k, v, 0))]
              && HandOff(p, k, v, w).queue == []
  {
    assert Enqueue(p, k, v).queue == [WriteRequest(p.tally.issued, k, v, 0)];
  }

  /** A sent write becomes the last pending one. */
  lemma SendPending(p: Pipeline, k: Key, v: Value, waiting: Option<nat>)
    requires |p.workers| <= 1
    requires if waiting.Some? then CanHandOff(p, waiting.value) else |p.queue| < p.capacity
    ensures Pending(Send(p, k, v, waiting)) == Pending(p) + [WriteRequest(p.tally.issued, k, v, 0)]
    ensures Send(p, k, v, waiting).db == p.db
  {
    if waiting.Some? {
      HandOffPending(p, k, v, waiting.value);
    }
  }

  // ----- the steps, one conjunct at a time -----

  lemma StoreReplays(n: Node, s: nat, k: Key, v: Value)
    requires Replays(n) && s !in n.halfDone && !HalfDone(n, k)
    ensures Replays(Do(n, Store(s, k, v)))
  {
    var n' := Do(n, Store(s, k, v));
    assert n'.halfDone[s].key == k;
    forall j ensures ReplaysTo(n', j) {
      assert ReplaysTo(n, j);
      if r :| r in n.halfDone && n.halfDone[r].key == j {
        assert n'.halfDone[r].key == j;
      }
    }
  }

  /** A sent write decides the replay for its own key only. */
  lemma SendReplayed(p: Pipeline, k: Key, v: Value, waiting: Option<nat>, j: Key)
    requires |p.workers| <= 1
    requires if waiting.Some? then CanHandOff(p, waiting.value) else |p.queue| < p.capacity
    ensures var q := Send(p, k, v, waiting);
            Lookup(Replay(q.db, Pending(q)), j) == if j == k then Some(v) else Lookup(Replay(p.db, Pending(p)), j)
  {
    SendPending(p, k, v, waiting);
    ReplayAppend(p.db, Pending(p), WriteRequest(p.tally.issued, k, v, 0));
  }

  lemma QueueReplaysTo(n: Node, s: nat, waiting: Option<nat>, j: Key)
    requires OneWorker(n.pipeline) && SetsApart(n) && ReplaysTo(n, j)
    requires CanDo(n, Queue(s, waiting)) && (waiting.Some? || |n.pipeline.queue| < n.pipeline.capacity)
    ensures ReplaysTo(Do(n, Queue(s, waiting)), j)
  {
    var b := n.halfDone[s];
    SendReplayed(n.pipeline, b.key, b.value, waiting, j);
    if r :| r in n.halfDone && n.halfDone[r].key == j && j != b.key {
      assert r in Do(n, Queue(s, waiting)).halfDone;
    }
  }

  lemma QueueReplays(n: Node, s: nat, waiting: Option<nat>)
    requires Replays(n) && CanDo(n, Queue(s, waiting)) && (waiting.Some? || |n.pipeline.queue| < n.pipeline.capacity)
    ensures Replays(Do(n, Queue(s, waiting)))
  {
    SendKeepsWorker(n.pipeline, n.halfDone[s].key, n.halfDone[s].value, waiting);
    forall j ensures ReplaysTo(Do(n, Queue(s, waiting)), j) {
      QueueReplaysTo(n, s, waiting, j);
    }
  }

  lemma SendKeepsWorker(p: Pipeline, k: Key, v: Value, waiting: Option<nat>)
    requires OneWorker(p) && (waiting.Some? ==> CanHandOff(p, waiting.value))
    ensures OneWorker(Send(p, k, v, waiting))
  {
    if waiting.Some? {
      HandOffPending(p, k, v, waiting.value);
    }
  }

  lemma TakeReplays(n: Node, w: nat)
    requires Replays(n) && CanTake(n.pipeline, w)
    ensures Replays(n.(pipeline := Take(n.pipeline, w)))
  {
    var n' := n.(pipeline := Take(n.pipeline, w));
    assert n.pipeline.queue == [n.pipeline.queue[0]] + n.pipeline.queue[1..];
    assert Pending(n'.pipeline) == Pending(n.pipeline);
    forall j ensures ReplaysTo(n', j) {
      assert ReplaysTo(n, j);
    }
  }

  lemma SucceedReplays(n: Node, w: nat)
    requires Replays(n) && CanReturn(n.pipeline, w)
    ensures Replays(n.(pipeline := Succeed(n.pipeline, w)))
  {
    var n' := n.(pipeline := Succeed(n.pipeline, w));
    assert n'.pipeline.workers == [Idle] && Pending(n'.pipeline) == n.pipeline.queue;
    ReplayHead(n.pipeline.db, n.pipeline.workers[w].req, n.pipeline.queue);
    forall j ensures ReplaysTo(n', j) {
      assert ReplaysTo(n, j);
    }
  }

  lemma BackgroundReplays(n: Node, e: Event)
    requires Replays(n) && CanDo(n, Background(e)) && !e.DoFail?
    ensures Replays(Do(n, Background(e)))
  {
    assert n.pipeline.workers[e.worker] in n.pipeline.workers;
    if e.DoTake? {
      TakeReplays(n, e.worker);
    } else {
      SucceedReplays(n, e.worker);
    }
  }

  /** A step that touches Redis or the gets only. */
  lemma OtherReplays(n: Node, n': Node)
    requires Replays(n) && n'.pipeline == n.pipeline && n'.latest == n.latest && n'.halfDone == n.halfDone
    ensures Replays(n')
  {
    forall j ensures ReplaysTo(n', j) {
      assert ReplaysTo(n, j);
    }
  }

  /** Without database failures, overflow and crossing sets, whatever else happens. */
  lemma ActionReplays(n: Node, t: Trouble, a: Action)
    requires Replays(n) && CanDo(n, a) && Permits(t, n, a) && !t.mayFail && !t.mayOverflow && !t.mayCross
    ensures Replays(Do(n, a))
  {
    match a
    case Store(s, k, v) => StoreReplays(n, s, k, v);
    case Queue(s, waiting) => QueueReplays(n, s, waiting);
    case Background(e) => BackgroundReplays(n, e);
    case _ => OtherReplays(n, Do(n, a));
  }

  /** Queueing a half-done set and the worker's steps leave no new key pending. */
  lemma SendPends(p: Pipeline, k: Key, v: Value, waiting: Option<nat>, r: WriteRequest)
    requires waiting.Some? ==> CanHandOff(p, waiting.value)
    requires var p' := Send(p, k, v, waiting);
             r in p'.queue || exists x :: x in p'.workers && !x.Idle? && x.req == r
    ensures r.key == k || r in p.queue || exists x :: x in p.workers && !x.Idle? && x.req == r
  {
  }

  lemma QueuePends(n: Node, s: nat, waiting: Option<nat>, k: Key)
    requires CanDo(n, Queue(s, waiting)) && HasPending(Do(n, Queue(s, waiting)), k)
    ensures HasPending(n, k)
  {
    var n', b := Do(n, Queue(s, waiting)), n.halfDone[s];
    if r :| r in n'.halfDone && n'.halfDone[r].key == k {
      assert r in n.halfDone && n.halfDone[r].key == k;
    } else {
      var w;
      if x :| x in n'.pipeline.workers && !x.Idle? && x.req.key == k {
        w := x.req;
      } else {
        w :| w in n'.pipeline.queue && w.key == k;
      }
      SendPends(n.pipeline, b.key, b.value, waiting, w);
    }
  }

  lemma BackgroundPends(n: Node, e: Event, k: Key)
    requires CanDo(n, Background(e)) && HasPending(Do(n, Background(e)), k)
    ensures HasPending(n, k)
  {
    var n' := Do(n, Background(e));
    assert n.pipeline.workers[e.worker] in n.pipeline.workers;
    if x :| x in n'.pipeline.workers && !x.Idle? && x.req.key == k {
      if x !in n.pipeline.workers {
        assert e.DoTake? ==> n.pipeline.queue[0] in n.pipeline.queue;
      }
    }
  }

  lemma StorePends(n: Node, s: nat, k: Key, v: Value, j: Key)
    requires s !in n.halfDone && HasPending(Do(n, Store(s, k, v)), j)
    ensures j == k || HasPending(n, j)
  {
    var n' := Do(n, Store(s, k, v));
    if r :| r in n'.halfDone && n'.halfDone[r].key == j && j != k {
      assert n.halfDone[r].key == j;
    }
  }

  /** Only a Store makes a key pending. */
  lemma ActionPends(n: Node, a: Action, k: Key)
    requires CanDo(n, a) && HasPending(Do(n, a), k)
    ensures HasPending(n, k) || (a.Store? && a.key == k)
  {
    match a
    case Store(s, j, v) => StorePends(n, s, j, v, k);
    case Queue(s, waiting) => QueuePends(n, s, waiting, k);
    case Background(e) => BackgroundPends(n, e, k);
    case _ => assert HasPending(n, k);
  }

  /** Pending keys stay in Redis over every step that evicts none of them. */
  lemma ActionCovers(n: Node, a: Action)
    requires PendingInRedis(n) && CanDo(n, a) && (a.Evict? ==> !HasPending(n, a.key))
    ensures PendingInRedis(Do(n, a))
  {
    forall k | HasPending(Do(n, a), k) ensures k in Do(n, a).redis {
      ActionPends(n, a, k);
    }
  }

  /** A key that was missed gets no pending write while nobody overtakes. */
  lemma ActionSettles(n: Node, t: Trouble, a: Action)
    requires MissesSettled(n) && PendingInRedis(n) && CanDo(n, a) && Permits(t, n, a)
    requires !t.mayOvertake && !t.mayMissPending
    ensures MissesSettled(Do(n, a))
  {
    var n' := Do(n, a);
    forall r | r in n'.misses ensures !HasPending(n', n'.misses[r]) {
      if HasPending(n', n'.misses[r]) {
        ActionPends(n, a, n'.misses[r]);
      }
    }
  }

  /** A get answers with the latest value, from Redis always, from the database when no write of the key is pending. */
  lemma GetIsLatest(n: Node, k: Key)
    requires Simulates(n)
    ensures Reply(n, k) == Lookup(n.latest, k)
    ensures !HasPending(n, k) ==> Lookup(n.pipeline.db, k) == Lookup(n.latest, k)
  {
    ReplayLast(n.pipeline.db, Pending(n.pipeline), k);
    PendingOfOne(n, k);
    assert ReplaysTo(n, k);
  }

  lemma RedisStays(n: Node, a: Action)
    requires RedisAgrees(n) && LookupsAgree(n) && CanDo(n, a)
    ensures RedisAgrees(Do(n, a))
  {
  }

  lemma LookupsStay(n: Node, a: Action)
    requires LookupsAgree(n) && CanDo(n, a)
    requires a.Store? ==> forall r :: r in n.lookups ==> n.lookups[r].key != a.key
    requires a.Fetch? ==>
               var k := n.misses[a.reader]; k in n.pipeline.db ==> Lookup(n.latest, k) == Some(n.pipeline.db[k])
    ensures LookupsAgree(Do(n, a))
  {
  }

  /** Redis and the gets on their way keep the latest values. */
  lemma ActionAgrees(n: Node, a: Action)
    requires Simulates(n) && CanDo(n, a) && Permits(CALM, n, a)
    ensures RedisAgrees(Do(n, a)) && LookupsAgree(Do(n, a))
  {
    if a.Fetch? {
      GetIsLatest(n, n.misses[a.reader]);
    }
    RedisStays(n, a);
    LookupsStay(n, a);
  }

  lemma ActionKeeps(n: Node, a: Action)
    requires Simulates(n) && CanDo(n, a) && Permits(CALM, n, a)
    ensures Simulates(Do(n, a))
  {
    ActionReplays(n, CALM, a);
    ActionCovers(n, a);
    ActionSettles(n, CALM, a);
    ActionAgrees(n, a);
  }

  lemma BootSimulates(capacity: nat, workers: nat, db: map<Key, Value>)
    requires workers <= 1
    ensures Simulates(Boot(capacity, workers, db))
  {
    var boot := Boot(capacity, workers, db);
    assert Pending(boot.pipeline) == [];
    forall k ensures ReplaysTo(boot, k) { }
  }

  /**
    In every calm run with at most one worker, replaying the worker's write and then the queue
    onto the database gives the latest value of every key whose set is not half done, and
    every get, begun now or on its way to the database, answers from the map of latest sets.
   */
  lemma {:induction false} Simulation(n: Node, actions: seq<Action>)
    requires Simulates(n) && Feasible(n, actions) && Permitted(CALM, n, actions)
    ensures Simulates(After(n, actions))
    ensures var m := After(n, actions);
            && (forall k :: Reply(m, k) == Lookup(m.latest, k))
            && (forall r :: r in m.misses ==> Lookup(m.pipeline.db, m.misses[r]) == Lookup(m.latest, m.misses[r]))
    decreases |actions|
  {
    if actions != [] {
      ActionKeeps(n, actions[0]);
      Simulation(Do(n, actions[0]), actions[1..]);
    }
    AnswersLatest(After(n, actions));
  }

  lemma AnswersLatest(n: Node)
    requires Simulates(n)
    ensures forall k :: Reply(n, k) == Lookup(n.latest, k)
    ensures forall r :: r in n.misses ==> Lookup(n.pipeline.db, n.misses[r]) == Lookup(n.latest, n.misses[r])
  {
    forall k ensures Reply(n, k) == Lookup(n.latest, k) {
      GetIsLatest(n, k);
    }
    forall r | r in n.misses ensures Lookup(n.pipeline.db, n.misses[r]) == Lookup(n.latest, n.misses[r]) {
      GetIsLatest(n, n.misses[r]);
    }
  }

  lemma SameMap(a: map<Key, Value>, b: map<Key, Value>)
    requires forall k :: Lookup(a, k) == Lookup(b, k)
    ensures a == b
  {
    assert forall k :: k in a <==> Lookup(a, k).Some?;
    assert forall k :: k in b <==> Lookup(b, k).Some?;
  }

  /** With no set half done, the replay is the map of latest sets. */
  lemma ReplayIsLatest(n: Node)
    requires Replays(n) && n.halfDone == map[]
    ensures Replay(n.pipeline.db, Pending(n.pipeline)) == n.latest
  {
    forall k ensures Lookup(Replay(n.pipeline.db, Pending(n.pipeline)), k) == Lookup(n.latest, k) {
      assert ReplaysTo(n, k);
    }
    SameMap(Replay(n.pipeline.db, Pending(n.pipeline)), n.latest);
  }

  /** Once nothing is half done or pending, the database is the map of latest sets. */
  lemma QuiescentDatabase(capacity: nat, db: map<Key, Value>, actions: seq<Action>)
    requires Feasible(Boot(capacity, 1, db), actions) && Permitted(CALM, Boot(capacity, 1, db), actions)
    ensures var n := After(Boot(capacity, 1, db), actions);
            && (n.halfDone == map[] ==> Replay(n.pipeline.db, Pending(n.pipeline)) == n.latest)
            && (n.halfDone == map[] && Pending(n.pipeline) == [] ==> n.pipeline.db == n.latest)
  {
    BootSimulates(capacity, 1, db);
    Simulation(Boot(capacity, 1, db), actions);
    if After(Boot(capacity, 1, db), actions).halfDone == map[] {
      ReplayIsLatest(After(Boot(capacity, 1, db), actions));
    }
  }

  lemma {:induction false} RunReplays(n: Node, t: Trouble, actions: seq<Action>)
    requires Replays(n) && Feasible(n, actions) && Permitted(t, n, actions)
    requires !t.mayFail && !t.mayOverflow && !t.mayCross
    ensures Replays(After(n, actions))
    decreases |actions|
  {
    if actions != [] {
      ActionReplays(n, t, actions[0]);
      RunReplays(Do(n, actions[0]), t, actions[1..]);
    }
  }

  // ----- one step that breaks it, exactly -----

  /** The value of the last write of a key that has not reached the database. */
  ghost function LastPending(n: Node, k: Key): Option<Value> {
    if HalfDone(n, k) then
      var s :| s in n.halfDone && n.halfDone[s].key == k;
      Some(n.halfDone[s].value)
    else LastWrite(Pending(n.pipeline), k)
  }

  lemma LastIsLatest(n: Node, k: Key)
    requires Simulates(n)
    ensures Lookup(n.latest, k) == if LastPending(n, k).Some? then LastPending(n, k) else Lookup(n.pipeline.db, k)
  {
    ReplayLast(n.pipeline.db, Pending(n.pipeline), k);
    assert ReplaysTo(n, k);
  }

  /**
    Evicting a key keeps every answer right exactly when the last pending write of that key,
    if there is one, repeats what the database already holds.
   */
  lemma EvictExactly(n: Node, k: Key)
    requires Simulates(n)
    ensures (forall j :: Reply(Do(n, Evict(k)), j) == Lookup(n.latest, j))
            <==> LastPending(n, k) == None || LastPending(n, k) == Lookup(n.pipeline.db, k)
  {
    LastIsLatest(n, k);
    var n' := Do(n, Evict(k));
    forall j ensures j != k ==> Reply(n', j) == Lookup(n.latest, j) {
      GetIsLatest(n, j);
    }
    assert Reply(n', k) == Lookup(n.pipeline.db, k);
  }

  /** The same decides whether a get that cannot read Redis answers right. */
  lemma BlindGetExactly(n: Node, k: Key)
    requires Simulates(n)
    ensures Answer(n, k, false) == Lookup(n.latest, k)
            <==> LastPending(n, k) == None || LastPending(n, k) == Lookup(n.pipeline.db, k)
  {
    LastIsLatest(n, k);
  }

  /**
    A set overtaken by an older repopulation leaves every answer right exactly when it is for
    another key or the same value.
   */
  lemma OvertakenExactly(n: Node, s: nat, k: Key, v: Value, r: nat)
    requires Simulates(n) && s !in n.halfDone && r in n.lookups
    ensures var after := Do(Do(n, Store(s, k, v)), Repopulate(r));
            (forall j :: Reply(after, j) == Lookup(after.latest, j))
            <==> n.lookups[r].key != k || n.lookups[r].value == v
  {
    var after := Do(Do(n, Store(s, k, v)), Repopulate(r));
    forall j ensures j != k && j != n.lookups[r].key ==> Reply(after, j) == Lookup(after.latest, j) {
      GetIsLatest(n, j);
    }
    assert Reply(after, n.lookups[r].key) == Some(n.lookups[r].value);
    assert Lookup(after.latest, k) == Some(v);
  }

  /** A set, then the database read and the repopulation of a get that had missed before it. */
  function Overtaken(n: Node, s: nat, k: Key, v: Value, r: nat): Node
    requires s !in n.halfDone && r in n.misses && r !in n.lookups
  {
    var fetched := Do(Do(n, Store(s, k, v)), Fetch(r));
    if r in fetched.lookups then Do(fetched, Repopulate(r)) else fetched
  }

  lemma OvertakenValues(n: Node, s: nat, k: Key, v: Value, r: nat)
    requires s !in n.halfDone && r in n.misses && r !in n.lookups && n.misses[r] == k
    ensures var after := Overtaken(n, s, k, v, r);
            && after.latest == n.latest[k := v] && after.pipeline.db == n.pipeline.db
            && after.redis == n.redis[k := if k in n.pipeline.db then n.pipeline.db[k] else v]
  {
  }

  /** The same for a set that comes before the database read: it matters what that read will find. */
  lemma OvertakenEarly(n: Node, s: nat, k: Key, v: Value, r: nat)
    requires Simulates(n) && s !in n.halfDone && r in n.misses && r !in n.lookups && n.misses[r] == k
    ensures var after := Overtaken(n, s, k, v, r);
            (forall j :: Reply(after, j) == Lookup(after.latest, j))
            <==> Lookup(n.pipeline.db, k) == None || Lookup(n.pipeline.db, k) == Some(v)
  {
    var after := Overtaken(n, s, k, v, r);
    OvertakenValues(n, s, k, v, r);
    forall j ensures j != k ==> Reply(after, j) == Lookup(after.latest, j) {
      GetIsLatest(n, j);
    }
    assert Reply(after, k) == Some(if k in n.pipeline.db then n.pipeline.db[k] else v);
  }

  /** A second set of a half-done set's key, whose write is queued before the first one's. */
  function Crossed(n: Node, first: nat, second: nat, v: Value): Node
    requires first in n.halfDone && second !in n.halfDone
  {
    var stored := Do(n, Store(second, n.halfDone[first].key, v));
    Do(Do(stored, Queue(second, None)), Queue(first, None))
  }

  /** What then reaches the database is the latest value exactly when both sets wrote the same one. */
  lemma CrossedExactly(n: Node, first: nat, second: nat, v: Value)
    requires OneWorker(n.pipeline) && first in n.halfDone && second !in n.halfDone
    requires |n.pipeline.queue| + 1 < n.pipeline.capacity
    ensures var k, after := n.halfDone[first].key, Crossed(n, first, second, v);
            Lookup(Replay(after.pipeline.db, Pending(after.pipeline)), k) == Lookup(after.latest, k)
            <==> n.halfDone[first].value == v
  {
    var b := n.halfDone[first];
    var after := Crossed(n, first, second, v);
    assert after.pipeline == Issue(Issue(n.pipeline, b.key, v), b.key, b.value);
    assert Lookup(after.latest, b.key) == Some(v);
    SendReplayed(Issue(n.pipeline, b.key, v), b.key, b.value, None, b.key);
  }
}
