/**
  Exactly when write-behind keeps its two promises (internal/api/async_writer.go:55-126
  with internal/api/handlers_instance.go:86-104 and 133-152), for every queue capacity,
  number of workers and starting database.
 */
module WriteBehindLimits {
  import opened Options
  import opened AsyncWriter
  import opened WriteBehind

  // ----- the two promises -----

  predicate Quiet(n: Node) {
    n.halfDone == map[] && n.pipeline.queue == [] && forall x :: x in n.pipeline.workers ==> x.Idle?
  }

  /** Whenever nothing is half done or pending, the database is the map of latest sets. */
  ghost predicate DatabaseFaithful(boot: Node, t: Trouble) {
    forall actions :: Feasible(boot, actions) && Permitted(t, boot, actions) && Quiet(After(boot, actions)) ==>
      After(boot, actions).pipeline.db == After(boot, actions).latest
  }

  /** Every get that may happen answers with the latest set. */
  ghost predicate AnswersRight(n: Node, t: Trouble) {
    forall k, cacheOk :: cacheOk || t.mayMissPending || !HasPending(n, k) ==>
      Answer(n, k, cacheOk) == Lookup(n.latest, k)
  }

  ghost predicate GetsFresh(boot: Node, t: Trouble) {
    forall actions :: Feasible(boot, actions) && Permitted(t, boot, actions) ==> AnswersRight(After(boot, actions), t)
  }

  // ----- reaching a state -----

  ghost predicate Reaches(t: Trouble, from: Node, to: Node) {
    exists actions :: Feasible(from, actions) && Permitted(t, from, actions) && After(from, actions) == to
  }

  lemma {:induction false} OneMore(t: Trouble, from: Node, actions: seq<Action>, a: Action)
    requires Feasible(from, actions) && Permitted(t, from, actions)
    requires CanDo(After(from, actions), a) && Permits(t, After(from, actions), a)
    ensures Feasible(from, actions + [a]) && Permitted(t, from, actions + [a])
    ensures After(from, actions + [a]) == Do(After(from, actions), a)
    decreases |actions|
  {
    if actions == [] {
      assert [] + [a] == [a];
    } else {
      assert (actions + [a])[1..] == actions[1..] + [a];
      OneMore(t, Do(from, actions[0]), actions[1..], a);
    }
  }

  lemma Next(t: Trouble, from: Node, n: Node, a: Action) returns (n': Node)
    requires Reaches(t, from, n) && CanDo(n, a) && Permits(t, n, a)
    ensures n' == Do(n, a) && Reaches(t, from, n')
  {
    var actions :| Feasible(from, actions) && Permitted(t, from, actions) && After(from, actions) == n;
    OneMore(t, from, actions, a);
    n' := Do(n, a);
  }

  lemma Begin(t: Trouble, n: Node)
    ensures Reaches(t, n, n)
  {
    assert Feasible(n, []) && Permitted(t, n, []) && After(n, []) == n;
  }

  // ----- runs that break the promises -----

  const X: Key := Key("global", "x")

  /** No get is between its steps. */
  predicate NoReaders(n: Node) {
    n.misses == map[] && n.lookups == map[]
  }

  /** Two states that differ in queue, workers and accounts only. */
  predicate SameValues(n: Node, m: Node) {
    && n.redis == m.redis && n.latest == m.latest && n.halfDone == m.halfDone
    && n.misses == m.misses && n.lookups == m.lookups
    && n.pipeline.db == m.pipeline.db
    && n.pipeline.capacity == m.pipeline.capacity && n.pipeline.maxRetry == m.pipeline.maxRetry
  }

  /** Nothing is pending, and the database does not hold the latest value of X. */
  predicate Stale(n: Node) {
    Quiet(n) && NoReaders(n) && Lookup(n.pipeline.db, X) != Lookup(n.latest, X)
  }

  /** A set with nothing between its two steps. */
  lemma SetThrough(t: Trouble, boot: Node, n: Node, k: Key, v: Value) returns (n': Node)
    requires Reaches(t, boot, n) && n.halfDone == map[] && (t.mayOvertake || NoReaders(n))
    requires t.mayOverflow || |n.pipeline.queue| < n.pipeline.capacity
    ensures Reaches(t, boot, n')
    ensures n' == n.(redis := n.redis[k := v], latest := n.latest[k := v], pipeline := Issue(n.pipeline, k, v))
  {
    n' := Next(t, boot, n, Store(0, k, v));
    n' := Next(t, boot, n', Queue(0, None));
    assert n'.halfDone == map[];
  }

  /** An idle worker takes the write of a half-done set, over a buffered or an unbuffered queue. */
  lemma QueueAndTake(t: Trouble, boot: Node, n: Node, s: nat, w: nat) returns (n': Node)
    requires Reaches(t, boot, n) && n.pipeline.queue == [] && w < |n.pipeline.workers| && n.pipeline.workers[w].Idle?
    requires s in n.halfDone
    ensures Reaches(t, boot, n') && n'.pipeline.queue == []
    ensures var b := n.halfDone[s];
            var req := WriteRequest(n.pipeline.tally.issued, b.key, b.value, 0);
            n'.pipeline.workers == n.pipeline.workers[w := Calling(req)]
    ensures SameValues(n', n.(halfDone := n.halfDone - {s}))
  {
    if n.pipeline.capacity == 0 {
      n' := Next(t, boot, n, Queue(s, Some(w)));
    } else {
      n' := Next(t, boot, n, Queue(s, None));
      n' := Next(t, boot, n', Background(DoTake(w)));
    }
  }

  /** Sets X and lets an idle worker take the write. */
  lemma SetAndTake(t: Trouble, boot: Node, n: Node, w: nat, v: Value) returns (n': Node)
    requires Reaches(t, boot, n) && n.pipeline.queue == [] && w < |n.pipeline.workers| && n.pipeline.workers[w].Idle?
    requires n.halfDone == map[] && (t.mayOvertake || NoReaders(n))
    ensures Reaches(t, boot, n') && n'.pipeline.queue == []
    ensures w < |n'.pipeline.workers| && n'.pipeline.workers == n.pipeline.workers[w := n'.pipeline.workers[w]]
    ensures n'.pipeline.workers[w].Calling?
    ensures var req := n'.pipeline.workers[w].req; req.key == X && req.value == v && req.retries == 0
    ensures SameValues(n', n.(redis := n.redis[X := v], latest := n.latest[X := v]))
  {
    n' := Next(t, boot, n, Store(0, X, v));
    n' := QueueAndTake(t, boot, n', 0, w);
    assert n'.halfDone == map[];
  }

  lemma Succeeds(t: Trouble, boot: Node, n: Node, w: nat) returns (n': Node)
    requires Reaches(t, boot, n) && w < |n.pipeline.workers| && n.pipeline.workers[w].Calling?
    ensures Reaches(t, boot, n') && n'.pipeline.queue == n.pipeline.queue
    ensures n'.pipeline.workers == n.pipeline.workers[w := Idle]
    ensures var req := n.pipeline.workers[w].req;
            SameValues(n', n.(pipeline := n.pipeline.(db := n.pipeline.db[req.key := req.value])))
  {
    n' := Next(t, boot, n, Background(DoSucceed(w)));
  }

  /** A value that the database does not hold for X. */
  function Unlike(db: map<Key, Value>): Value {
    if X in db && db[X] == "new" then "newer" else "new"
  }

  /** Two workers can persist two writes of one key in the wrong order. */
  lemma TwoWorkersReorder(t: Trouble, capacity: nat, workers: nat, db: map<Key, Value>) returns (n: Node)
    requires workers >= 2
    ensures Reaches(t, Boot(capacity, workers, db), n) && Stale(n)
  {
    var boot := Boot(capacity, workers, db);
    Begin(t, boot);
    n := SetAndTake(t, boot, boot, 0, "old");
    n := SetAndTake(t, boot, n, 1, "new");
    n := Succeeds(t, boot, n, 1);
    n := Succeeds(t, boot, n, 0);
    assert n.pipeline.workers == boot.pipeline.workers;
  }

  lemma Fails(t: Trouble, boot: Node, n: Node) returns (n': Node)
    requires t.mayFail && Reaches(t, boot, n) && |n.pipeline.workers| > 0 && n.pipeline.workers[0].Calling?
    ensures Reaches(t, boot, n') && SameValues(n', n) && n'.pipeline.queue == n.pipeline.queue
    ensures var req := n.pipeline.workers[0].req;
            n'.pipeline.workers == n.pipeline.workers[0 := if req.retries < n.pipeline.maxRetry
                                                           then Sleeping(req.(retries := req.retries + 1)) else Idle]
  {
    n' := Next(t, boot, n, Background(DoFail(0, false)));
  }

  lemma Requeues(t: Trouble, boot: Node, n: Node) returns (n': Node)
    requires Reaches(t, boot, n) && |n.pipeline.workers| > 0 && n.pipeline.workers[0].Sleeping?
    ensures Reaches(t, boot, n') && SameValues(n', n) && n'.pipeline.workers == n.pipeline.workers[0 := Idle]
    ensures n'.pipeline.queue == n.pipeline.queue
              + if |n.pipeline.queue| < n.pipeline.capacity then [n.pipeline.workers[0].req] else []
  {
    n' := Next(t, boot, n, Background(DoRequeue(0)));
  }

  lemma Takes(t: Trouble, boot: Node, n: Node) returns (n': Node)
    requires Reaches(t, boot, n) && |n.pipeline.workers| > 0 && n.pipeline.workers[0].Idle? && n.pipeline.queue != []
    ensures Reaches(t, boot, n') && SameValues(n', n) && n'.pipeline.queue == n.pipeline.queue[1..]
    ensures n'.pipeline.workers == n.pipeline.workers[0 := Calling(n.pipeline.queue[0])]
  {
    n' := Next(t, boot, n, Background(DoTake(0)));
  }

  /** The first worker, idle, takes the oldest write and persists it. */
  lemma TakesAndPersists(t: Trouble, boot: Node, n: Node) returns (n': Node)
    requires Reaches(t, boot, n) && |n.pipeline.workers| > 0 && n.pipeline.workers[0].Idle? && n.pipeline.queue != []
    ensures Reaches(t, boot, n') && n'.pipeline.queue == n.pipeline.queue[1..]
              && n'.pipeline.workers == n.pipeline.workers
    ensures var req := n.pipeline.queue[0];
            SameValues(n', n.(pipeline := n.pipeline.(db := n.pipeline.db[req.key := req.value])))
  {
    n' := Takes(t, boot, n);
    n' := Succeeds(t, boot, n', 0);
    assert n'.pipeline.workers == n.pipeline.workers;
  }

  /** A worker whose every call fails gives the write up, after four calls or when it cannot be put back. */
  lemma {:induction false} GivesUp(t: Trouble, boot: Node, n: Node) returns (n': Node)
    requires t.mayFail && Reaches(t, boot, n) && n.pipeline.queue == [] && |n.pipeline.workers| > 0
    requires n.pipeline.workers[0].Calling?
    ensures Reaches(t, boot, n') && n'.pipeline.queue == [] && SameValues(n', n)
    ensures n'.pipeline.workers == n.pipeline.workers[0 := Idle]
    decreases n.pipeline.maxRetry - n.pipeline.workers[0].req.retries
  {
    n' := Fails(t, boot, n);
    if n.pipeline.workers[0].req.retries < n.pipeline.maxRetry {
      n' := Requeues(t, boot, n');
      if n.pipeline.capacity > 0 {
        n' := Takes(t, boot, n');
        n' := GivesUp(t, boot, n');
      }
    }
  }

  /** Database failures can lose the only write of a key. */
  lemma FailuresLose(t: Trouble, capacity: nat, workers: nat, db: map<Key, Value>) returns (n: Node)
    requires workers >= 1 && t.mayFail
    ensures Reaches(t, Boot(capacity, workers, db), n) && Stale(n)
  {
    var boot := Boot(capacity, workers, db);
    Begin(t, boot);
    n := SetAndTake(t, boot, boot, 0, Unlike(db));
    n := GivesUp(t, boot, n);
    assert n.pipeline.workers == boot.pipeline.workers;
  }

  /** From capacity two on, one failed call is enough: the older write goes back behind the newer one. */
  lemma RetryReorders(t: Trouble, capacity: nat, workers: nat, db: map<Key, Value>) returns (n: Node)
    requires workers >= 1 && capacity >= 2 && t.mayFail
    ensures Reaches(t, Boot(capacity, workers, db), n) && Stale(n) && Lookup(n.pipeline.db, X) == Some("old")
  {
    var boot := Boot(capacity, workers, db);
    Begin(t, boot);
    n := SetAndTake(t, boot, boot, 0, "old");
    n := SetThrough(t, boot, n, X, "new");
    assert |n.pipeline.queue| == 1 && n.pipeline.queue[0].key == X;
    n := Fails(t, boot, n);
    n := Requeues(t, boot, n);
    n := TakesAndPersists(t, boot, n);
    n := TakesAndPersists(t, boot, n);
    assert n.pipeline.workers == boot.pipeline.workers;
  }

  /** Fills the queue with writes of one old value. */
  lemma {:induction false} Fill(t: Trouble, boot: Node, n: Node) returns (n': Node)
    requires Reaches(t, boot, n) && NoReaders(n) && n.halfDone == map[]
    requires |n.pipeline.queue| <= n.pipeline.capacity
    requires forall w :: w in n.pipeline.queue ==> w.key == X && w.value == "old"
    ensures Reaches(t, boot, n') && NoReaders(n') && n'.halfDone == map[]
    ensures n'.pipeline.workers == n.pipeline.workers && n'.pipeline.db == n.pipeline.db
    ensures |n'.pipeline.queue| == n'.pipeline.capacity == n.pipeline.capacity
    ensures forall w :: w in n'.pipeline.queue ==> w.key == X && w.value == "old"
    decreases n.pipeline.capacity - |n.pipeline.queue|
  {
    n' := n;
    if |n.pipeline.queue| < n.pipeline.capacity {
      n' := SetThrough(t, boot, n, X, "old");
      n' := Fill(t, boot, n');
    }
  }

  /** One worker persists a queue of old values. */
  lemma {:induction false} Empty(t: Trouble, boot: Node, n: Node) returns (n': Node)
    requires Reaches(t, boot, n) && |n.pipeline.workers| > 0 && n.pipeline.workers[0].Idle?
    requires forall w :: w in n.pipeline.queue ==> w.key == X && w.value == "old"
    ensures Reaches(t, boot, n') && n'.pipeline.queue == [] && n'.pipeline.workers == n.pipeline.workers
    ensures n'.latest == n.latest && n'.halfDone == n.halfDone && n'.misses == n.misses && n'.lookups == n.lookups
    ensures (n.pipeline.queue != [] || Lookup(n.pipeline.db, X) == Some("old")) ==>
              Lookup(n'.pipeline.db, X) == Some("old")
    decreases |n.pipeline.queue|
  {
    n' := n;
    if n.pipeline.queue != [] {
      assert n.pipeline.queue[0] in n.pipeline.queue;
      n' := TakesAndPersists(t, boot, n);
      n' := Empty(t, boot, n');
    }
  }

  /** A full queue loses the newest write. */
  lemma OverflowLoses(t: Trouble, capacity: nat, workers: nat, db: map<Key, Value>) returns (n: Node)
    requires t.mayOverflow && (workers >= 1 || capacity == 0)
    ensures Reaches(t, Boot(capacity, workers, db), n) && Stale(n)
  {
    var boot := Boot(capacity, workers, db);
    Begin(t, boot);
    if capacity == 0 {
      n := SetThrough(t, boot, boot, X, Unlike(db));
    } else {
      n := Fill(t, boot, boot);
      n := SetThrough(t, boot, n, X, "new");
      n := Empty(t, boot, n);
    }
  }

  /** From a stale state an eviction shows the stale value. */
  lemma StaleShows(t: Trouble, boot: Node, n: Node)
    requires Reaches(t, boot, n) && Stale(n)
    ensures !DatabaseFaithful(boot, t) && !GetsFresh(boot, t)
  {
    var actions :| Feasible(boot, actions) && Permitted(t, boot, actions) && After(boot, actions) == n;
    assert n.pipeline.db != n.latest;
    var n' := Next(t, boot, n, Evict(X));
    WrongAnswer(t, boot, n', X);
  }

  lemma WrongAnswer(t: Trouble, boot: Node, n: Node, k: Key)
    requires Reaches(t, boot, n) && Reply(n, k) != Lookup(n.latest, k)
    ensures !GetsFresh(boot, t)
  {
    var actions :| Feasible(boot, actions) && Permitted(t, boot, actions) && After(boot, actions) == n;
    assert Answer(n, k, true) != Lookup(n.latest, k);
  }

  /** Evicting a key whose write is pending makes a get miss it. */
  lemma EvictionHides(t: Trouble, capacity: nat, workers: nat, db: map<Key, Value>)
    requires workers >= 1 && t.mayMissPending
    ensures !GetsFresh(Boot(capacity, workers, db), t)
  {
    var boot := Boot(capacity, workers, db);
    Begin(t, boot);
    var n := SetAndTake(t, boot, boot, 0, Unlike(db));
    n := Next(t, boot, n, Evict(X));
    WrongAnswer(t, boot, n, X);
  }

  /** A set between a get's read and its repopulation is overwritten in Redis by the older value. */
  lemma RepopulationOvertaken(t: Trouble, capacity: nat, workers: nat, db: map<Key, Value>)
    requires workers >= 1 && t.mayOvertake
    ensures !GetsFresh(Boot(capacity, workers, db), t)
  {
    var boot := Boot(capacity, workers, db);
    Begin(t, boot);
    var n := SetAndTake(t, boot, boot, 0, "old");
    n := Succeeds(t, boot, n, 0);
    assert n.pipeline.workers == boot.pipeline.workers;
    n := Next(t, boot, n, Evict(X));
    n := Next(t, boot, n, Look(0, X, true));
    n := Next(t, boot, n, Fetch(0));
    assert n.lookups == map[0 := Binding(X, "old")];
    n := Next(t, boot, n, Store(0, X, "new"));
    n := Next(t, boot, n, Repopulate(0));
    WrongAnswer(t, boot, n, X);
  }

  /** Two sets of one key that cross between Redis and the queue leave the older value in the database. */
  lemma CrossingReorders(t: Trouble, capacity: nat, workers: nat, db: map<Key, Value>) returns (n: Node)
    requires workers >= 1 && t.mayCross
    ensures Reaches(t, Boot(capacity, workers, db), n) && Stale(n)
  {
    var boot := Boot(capacity, workers, db);
    Begin(t, boot);
    n := Next(t, boot, boot, Store(0, X, "old"));
    n := Next(t, boot, n, Store(1, X, "new"));
    assert n.halfDone == map[0 := Binding(X, "old"), 1 := Binding(X, "new")];
    n := QueueAndPersist(t, boot, n, 1);
    n := QueueAndPersist(t, boot, n, 0);
    assert n.halfDone == map[];
  }

  /** The first worker, idle, takes and persists the write of a half-done set. */
  lemma QueueAndPersist(t: Trouble, boot: Node, n: Node, s: nat) returns (n': Node)
    requires Reaches(t, boot, n) && n.pipeline.queue == [] && 0 < |n.pipeline.workers| && n.pipeline.workers[0].Idle?
    requires s in n.halfDone
    ensures Reaches(t, boot, n') && n'.pipeline.queue == [] && n'.pipeline.workers == n.pipeline.workers
    ensures var b := n.halfDone[s];
            var persisted := n.pipeline.(db := n.pipeline.db[b.key := b.value]);
            SameValues(n', n.(halfDone := n.halfDone - {s}, pipeline := persisted))
  {
    n' := QueueAndTake(t, boot, n, s, 0);
    n' := Succeeds(t, boot, n', 0);
    assert n'.pipeline.workers == n.pipeline.workers;
  }

  // ----- a node without workers -----

  /** Nothing leaves the queue, so a node that has accepted a write is never quiet again. */
  predicate Frozen(n: Node) {
    n.pipeline.workers == [] && (n.pipeline.queue == [] && n.halfDone == map[] ==> n.pipeline.db == n.latest)
  }

  lemma StepFrozen(n: Node, t: Trouble, a: Action)
    requires Frozen(n) && CanDo(n, a) && Permits(t, n, a) && (n.pipeline.capacity > 0 || !t.mayOverflow)
    ensures Frozen(Do(n, a)) && Do(n, a).pipeline.capacity == n.pipeline.capacity
  {
    if a.Store? {
      assert a.setter in Do(n, a).halfDone;
    }
  }

  lemma {:induction false} StaysFrozen(n: Node, t: Trouble, actions: seq<Action>)
    requires Frozen(n) && Feasible(n, actions) && Permitted(t, n, actions)
    requires n.pipeline.capacity > 0 || !t.mayOverflow
    ensures Frozen(After(n, actions))
    decreases |actions|
  {
    if actions != [] {
      StepFrozen(n, t, actions[0]);
      StaysFrozen(Do(n, actions[0]), t, actions[1..]);
    }
  }

  /** Every key the database is behind on is pending, and stays so. */
  ghost predicate Kept(n: Node) {
    && n.pipeline.workers == [] && RedisAgrees(n) && PendingInRedis(n) && LookupsAgree(n)
    && forall k :: Behind(n, k)
  }

  /** The database holds the latest value of this key, or a write of it is pending. */
  predicate Behind(n: Node, k: Key) {
    HasPending(n, k) || Lookup(n.pipeline.db, k) == Lookup(n.latest, k)
  }

  lemma StaysPending(n: Node, a: Action, k: Key)
    requires n.pipeline.workers == [] && CanDo(n, a) && HasPending(n, k)
    requires a.Queue? ==> |n.pipeline.queue| < n.pipeline.capacity
    ensures HasPending(Do(n, a), k)
  {
    var n' := Do(n, a);
    if s :| s in n.halfDone && n.halfDone[s].key == k {
      if s in n'.halfDone {
        assert n'.halfDone[s].key == k;
      } else {
        assert n'.pipeline.queue[|n.pipeline.queue|].key == k;
      }
    } else {
      var w :| w in n.pipeline.queue && w.key == k;
      assert w in n'.pipeline.queue;
    }
  }

  lemma StepKept(n: Node, t: Trouble, a: Action)
    requires Kept(n) && CanDo(n, a) && Permits(t, n, a) && !t.mayOverflow && !t.mayMissPending
    requires if t.mayOvertake then n.pipeline.db == map[] && n.lookups == map[] else MissesSettled(n)
    ensures Kept(Do(n, a))
    ensures if t.mayOvertake then Do(n, a).pipeline.db == map[]
              && Do(n, a).lookups == map[] else MissesSettled(Do(n, a))
  {
    ActionCovers(n, a);
    KeptAgrees(n, t, a);
    if !t.mayOvertake {
      ActionSettles(n, t, a);
    }
    forall k ensures Behind(Do(n, a), k) {
      StepBehind(n, a, k);
    }
  }

  lemma StepBehind(n: Node, a: Action, k: Key)
    requires n.pipeline.workers == [] && CanDo(n, a) && Behind(n, k)
    requires a.Queue? ==> |n.pipeline.queue| < n.pipeline.capacity
    ensures Behind(Do(n, a), k)
  {
    if HasPending(n, k) {
      StaysPending(n, a, k);
    } else if a.Store? && a.key == k {
      assert Do(n, a).halfDone[a.setter].key == k;
    }
  }

  lemma KeptAgrees(n: Node, t: Trouble, a: Action)
    requires Kept(n) && CanDo(n, a) && Permits(t, n, a)
    requires if t.mayOvertake then n.pipeline.db == map[] && n.lookups == map[] else MissesSettled(n)
    ensures RedisAgrees(Do(n, a)) && LookupsAgree(Do(n, a))
    ensures t.mayOvertake ==> Do(n, a).lookups == map[]
  {
    if a.Fetch? {
      assert Behind(n, n.misses[a.reader]);
    }
    RedisStays(n, a);
    LookupsStay(n, a);
  }

  lemma {:induction false} StaysKept(n: Node, t: Trouble, actions: seq<Action>)
    requires Kept(n) && Feasible(n, actions) && Permitted(t, n, actions) && !t.mayOverflow && !t.mayMissPending
    requires if t.mayOvertake then n.pipeline.db == map[] && n.lookups == map[] else MissesSettled(n)
    ensures Kept(After(n, actions))
    decreases |actions|
  {
    if actions != [] {
      StepKept(n, t, actions[0]);
      StaysKept(Do(n, actions[0]), t, actions[1..]);
    }
  }

  /** Without workers a write stays pending; missing it, overtaking a get or dropping another write shows. */
  lemma FrozenBreaks(capacity: nat, db: map<Key, Value>, t: Trouble)
    requires t.mayOverflow || t.mayMissPending || (t.mayOvertake && db != map[])
    ensures !GetsFresh(Boot(capacity, 0, db), t)
  {
    var boot := Boot(capacity, 0, db);
    Begin(t, boot);
    if t.mayMissPending {
      var n := Next(t, boot, boot, Store(0, X, Unlike(db)));
      n := Next(t, boot, n, Evict(X));
      WrongAnswer(t, boot, n, X);
    } else if t.mayOverflow && capacity == 0 {
      var n := OverflowLoses(t, capacity, 0, db);
      StaleShows(t, boot, n);
    } else if t.mayOverflow {
      var y := Key("global", "y");
      var n := Fill(t, boot, boot);
      n := SetThrough(t, boot, n, y, if y in db && db[y] == "new" then "newer" else "new");
      n := Next(t, boot, n, Evict(y));
      WrongAnswer(t, boot, n, y);
    } else {
      var k :| k in db;
      var n := Next(t, boot, boot, Look(0, k, true));
      n := Next(t, boot, n, Fetch(0));
      n := Next(t, boot, n, Store(0, k, if db[k] == "new" then "newer" else "new"));
      n := Next(t, boot, n, Repopulate(0));
      WrongAnswer(t, boot, n, k);
    }
  }

  // ----- exactly when the promises hold -----

  /**
    The database is faithful at every quiet moment if and only if there is one worker and
    neither failures, overflow nor crossing sets, or no worker at all and no write can vanish.
   */
  lemma DatabaseFaithfulExactly(capacity: nat, workers: nat, db: map<Key, Value>, t: Trouble)
    ensures DatabaseFaithful(Boot(capacity, workers, db), t)
            <==> || (workers == 1 && !t.mayFail && !t.mayOverflow && !t.mayCross)
                 || (workers == 0 && (capacity > 0 || !t.mayOverflow))
  {
    var boot := Boot(capacity, workers, db);
    if workers == 1 && !t.mayFail && !t.mayOverflow && !t.mayCross {
      BootSimulates(capacity, workers, db);
      forall actions | Feasible(boot, actions) && Permitted(t, boot, actions) && Quiet(After(boot, actions))
        ensures After(boot, actions).pipeline.db == After(boot, actions).latest
      {
        RunReplays(boot, t, actions);
        var n := After(boot, actions);
        if n.pipeline.workers != [] {
          assert n.pipeline.workers[0] in n.pipeline.workers;
        }
        ReplayIsLatest(n);
      }
    } else if workers == 0 && (capacity > 0 || !t.mayOverflow) {
      forall actions | Feasible(boot, actions) && Permitted(t, boot, actions) && Quiet(After(boot, actions))
        ensures After(boot, actions).pipeline.db == After(boot, actions).latest
      {
        StaysFrozen(boot, t, actions);
      }
    } else {
      SomeRunIsStale(capacity, workers, db, t);
    }
  }

  lemma SomeRunIsStale(capacity: nat, workers: nat, db: map<Key, Value>, t: Trouble)
    requires || workers >= 2 || (workers == 1 && (t.mayFail || t.mayCross))
             || (t.mayOverflow && (workers == 1 || capacity == 0))
    ensures !DatabaseFaithful(Boot(capacity, workers, db), t) && !GetsFresh(Boot(capacity, workers, db), t)
  {
    var boot := Boot(capacity, workers, db);
    var n;
    if workers >= 2 {
      n := TwoWorkersReorder(t, capacity, workers, db);
    } else if workers == 1 && t.mayFail {
      n := FailuresLose(t, capacity, workers, db);
    } else if workers == 1 && t.mayCross {
      n := CrossingReorders(t, capacity, workers, db);
    } else {
      n := OverflowLoses(t, capacity, workers, db);
    }
    StaleShows(t, boot, n);
  }

  /**
    With a worker, every get is right if and only if there is one worker and none of the
    five troubles. Without one, the troubles that need a worker or a filled database drop out.
   */
  lemma GetsFreshExactly(capacity: nat, workers: nat, db: map<Key, Value>, t: Trouble)
    ensures GetsFresh(Boot(capacity, workers, db), t)
            <==> if workers > 0 then workers == 1 && t == CALM
                 else !t.mayOverflow && !t.mayMissPending && (!t.mayOvertake || db == map[])
  {
    var boot := Boot(capacity, workers, db);
    if workers == 0 {
      FrozenExactly(capacity, db, t);
    } else if workers == 1 && t == CALM {
      BootSimulates(capacity, workers, db);
      forall actions | Feasible(boot, actions) && Permitted(t, boot, actions)
        ensures AnswersRight(After(boot, actions), t)
      {
        Simulation(boot, actions);
        CalmIsFresh(After(boot, actions), t);
      }
    } else if workers >= 2 || t.mayFail || t.mayOverflow || t.mayCross {
      SomeRunIsStale(capacity, workers, db, t);
    } else if t.mayMissPending {
      EvictionHides(t, capacity, workers, db);
    } else {
      RepopulationOvertaken(t, capacity, workers, db);
    }
  }

  lemma CalmIsFresh(n: Node, t: Trouble)
    requires Simulates(n) && !t.mayMissPending
    ensures AnswersRight(n, t)
  {
    forall k, cacheOk | cacheOk || !HasPending(n, k) ensures Answer(n, k, cacheOk) == Lookup(n.latest, k) {
      GetIsLatest(n, k);
    }
  }

  lemma KeptIsFresh(n: Node, t: Trouble)
    requires Kept(n) && !t.mayMissPending
    ensures AnswersRight(n, t)
  {
    forall k, cacheOk | cacheOk || !HasPending(n, k) ensures Answer(n, k, cacheOk) == Lookup(n.latest, k) {
      assert Behind(n, k);
    }
  }

  lemma FrozenExactly(capacity: nat, db: map<Key, Value>, t: Trouble)
    ensures GetsFresh(Boot(capacity, 0, db), t)
            <==> !t.mayOverflow && !t.mayMissPending && (!t.mayOvertake || db == map[])
  {
    var boot := Boot(capacity, 0, db);
    if t.mayOverflow || t.mayMissPending || (t.mayOvertake && db != map[]) {
      FrozenBreaks(capacity, db, t);
    } else {
      forall actions | Feasible(boot, actions) && Permitted(t, boot, actions)
        ensures AnswersRight(After(boot, actions), t)
      {
        StaysKept(boot, t, actions);
        KeptIsFresh(After(boot, actions), t);
      }
    }
  }
}
