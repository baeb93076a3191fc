/**
  How the write-behind queue of internal/api/async_writer.go retries: a write is given up
  after four database calls and not before, whatever else goes on.
 */
module AsyncRetries {
  import opened Options
  import opened Counting
  import opened AsyncWriter

  // ----- how many calls before giving up -----

  function HasId(id: nat): WriteRequest -> bool {
    (r: WriteRequest) => r.id == id
  }

  function HoldsId(id: nat): Worker -> bool {
    (x: Worker) => !x.Idle? && x.req.id == id
  }

  /** Where the request of this id is: at most one place. */
  function Places(p: Pipeline, id: nat): nat {
    Count(p.queue, HasId(id)) + Count(p.workers, HoldsId(id))
  }

  /** Database calls begun for the request of this id, as its place and retries tell. */
  function MadeInQueue(id: nat): WriteRequest -> nat {
    (r: WriteRequest) => if r.id == id then r.retries else 0
  }

  function MadeAtWorker(id: nat): Worker -> nat {
    (x: Worker) =>
      if x.Idle? || x.req.id != id then 0 else if x.Calling? then x.req.retries + 1 else x.req.retries
  }

  function Made(p: Pipeline, id: nat): nat {
    Sum(p.queue, MadeInQueue(id)) + Sum(p.workers, MadeAtWorker(id))
  }

  predicate CallsKnown(p: Pipeline, id: nat) {
    && Places(p, id) <= 1
    && (Places(p, id) == 1 ==> id < p.tally.issued && p.tally.attempts[id] == Made(p, id))
    && (id >= p.tally.issued ==> p.tally.attempts[id] == 0)
    && (id in p.tally.givenUp ==>
          id < p.tally.issued && Places(p, id) == 0 && p.tally.attempts[id] == p.maxRetry + 1)
  }

  lemma StartKnown(capacity: nat, workers: nat, db: map<Key, Value>, id: nat)
    ensures CallsKnown(Start(capacity, workers, db), id)
  {
    CountNone(Start(capacity, workers, db).workers, HoldsId(id));
  }

  /** A request that is nowhere has made no calls that anybody still counts. */
  lemma NowhereMade(p: Pipeline, id: nat)
    requires Places(p, id) == 0
    ensures Made(p, id) == 0
  {
    NoneWeighs(p.queue, HasId(id), MadeInQueue(id));
    NoneWeighs(p.workers, HoldsId(id), MadeAtWorker(id));
  }

  lemma {:induction false} NoneWeighs<T>(s: seq<T>, pick: T -> bool, weight: T -> nat)
    requires Count(s, pick) == 0 && forall x :: !pick(x) ==> weight(x) == 0
    ensures Sum(s, weight) == 0
  {
    if s != [] {
      NoneWeighs(s[..|s| - 1], pick, weight);
    }
  }

  lemma EnqueueKnown(p: Pipeline, k: Key, v: Value, id: nat)
    requires CallsKnown(p, id)
    ensures CallsKnown(Enqueue(p, k, v), id) && CallsKnown(Issue(p, k, v), id)
  {
    var req := WriteRequest(p.tally.issued, k, v, 0);
    CountAppend(p.queue, HasId(id), req);
    SumAppend(p.queue, MadeInQueue(id), req);
    if id == p.tally.issued {
      NowhereMade(p, id);
    }
  }

  lemma TakeKnown(p: Pipeline, w: nat, id: nat)
    requires CallsKnown(p, id) && CanTake(p, w)
    ensures CallsKnown(Take(p, w), id)
  {
    var req := p.queue[0];
    CountHead(p.queue, HasId(id));
    SumHead(p.queue, MadeInQueue(id));
    CountUpdate(p.workers, HoldsId(id), w, Calling(req));
    SumUpdate(p.workers, MadeAtWorker(id), w, Calling(req));
  }

  lemma ReturnKnown(p: Pipeline, w: nat, id: nat)
    requires CallsKnown(p, id) && CanRequeue(p, w)
    ensures CallsKnown(Return(p, w), id) && CallsKnown(Requeue(p, w), id)
  {
    var req := p.workers[w].req;
    CountUpdate(p.workers, HoldsId(id), w, Idle);
    CountAppend(p.queue, HasId(id), req);
    ReturnSums(p, w, MadeInQueue(id), MadeAtWorker(id));
  }

  /** The end of a call: the worker keeps the request for another try, or lets it go for good. */
  lemma EndKnown(p: Pipeline, w: nat, id: nat, written: bool)
    requires CallsKnown(p, id) && CanReturn(p, w) && p.workers[w].req.retries <= p.maxRetry
    ensures CallsKnown(Succeed(p, w), id) && CallsKnown(Fail(p, w, written), id)
  {
    var req := p.workers[w].req;
    var gone := p.(workers := p.workers[w := Idle]);
    CountUpdate(p.workers, HoldsId(id), w, Idle);
    SumUpdate(p.workers, MadeAtWorker(id), w, Idle);
    if req.id == id {
      NowhereMade(gone, id);
    }
    if req.retries < p.maxRetry {
      var again := Sleeping(req.(retries := req.retries + 1));
      CountUpdate(p.workers, HoldsId(id), w, again);
      SumUpdate(p.workers, MadeAtWorker(id), w, again);
    }
  }

  lemma StepKnown(p: Pipeline, e: Event, id: nat)
    requires CallsKnown(p, id) && RequestsInv(p) && Enabled(p, e)
    ensures CallsKnown(Step(p, e), id)
  {
    match e
    case DoWrite(k, v) => EnqueueKnown(p, k, v, id);
    case DoHandOff(k, v, w) =>
      EnqueueKnown(p, k, v, id);
      TakeKnown(Enqueue(p, k, v), w, id);
    case DoTake(w) => TakeKnown(p, w, id);
    case DoSucceed(w) =>
      assert Genuine(p, p.workers[w].req) by { assert p.workers[w] in p.workers; }
      EndKnown(p, w, id, false);
    case DoFail(w, written) =>
      assert Genuine(p, p.workers[w].req) by { assert p.workers[w] in p.workers; }
      EndKnown(p, w, id, written);
    case DoRequeue(w) => ReturnKnown(p, w, id);
    case DoPassOn(w, to) =>
      ReturnKnown(p, w, id);
      TakeKnown(Return(p, w), to, id);
  }

  lemma {:induction false} RunKnown(p: Pipeline, events: seq<Event>, id: nat)
    requires CallsKnown(p, id) && RequestsInv(p) && Possible(p, events)
    ensures CallsKnown(Run(p, events), id)
    ensures Run(p, events).maxRetry == p.maxRetry
    decreases |events|
  {
    if events != [] {
      StepKnown(p, events[0], id);
      StepRequests(p, events[0], p.db);
      RunKnown(Step(p, events[0]), events[1..], id);
    }
  }

  /** A write that was given up has had exactly four database calls, in every interleaving. */
  lemma GivenUpAfterFour(capacity: nat, workers: nat, initial: map<Key, Value>, events: seq<Event>, id: nat)
    requires Possible(Start(capacity, workers, initial), events)
    requires id in Run(Start(capacity, workers, initial), events).tally.givenUp
    ensures Run(Start(capacity, workers, initial), events).tally.attempts[id] == 4
  {
    StartKnown(capacity, workers, initial, id);
    StartInv(capacity, workers, initial);
    RunKnown(Start(capacity, workers, initial), events, id);
  }

  /** Each exhausted write is one that was given up. */
  lemma {:induction false} ExhaustedAreGivenUp(p: Pipeline, events: seq<Event>)
    requires (forall id: nat :: CallsKnown(p, id)) && RequestsInv(p) && Possible(p, events)
    requires p.tally.exhausted == |p.tally.givenUp|
    ensures Run(p, events).tally.exhausted == |Run(p, events).tally.givenUp|
    decreases |events|
  {
    if events != [] {
      forall id: nat ensures CallsKnown(Step(p, events[0]), id) {
        StepKnown(p, events[0], id);
      }
      if events[0].DoFail? {
        var x := p.workers[events[0].worker];
        assert CallsKnown(p, x.req.id);
        CountPositive(p.workers, HoldsId(x.req.id), events[0].worker);
      }
      StepRequests(p, events[0], p.db);
      ExhaustedAreGivenUp(Step(p, events[0]), events[1..]);
    }
  }

  /** Exhausted writes are counted exactly, each after four calls. */
  lemma ExhaustedExactly(capacity: nat, workers: nat, initial: map<Key, Value>, events: seq<Event>)
    requires Possible(Start(capacity, workers, initial), events)
    ensures var t := Run(Start(capacity, workers, initial), events).tally;
            t.exhausted == |t.givenUp| && forall id :: id in t.givenUp ==> t.attempts[id] == 4
  {
    var start := Start(capacity, workers, initial);
    StartInv(capacity, workers, initial);
    forall id: nat ensures CallsKnown(start, id) {
      StartKnown(capacity, workers, initial, id);
    }
    ExhaustedAreGivenUp(start, events);
    forall id | id in Run(start, events).tally.givenUp ensures Run(start, events).tally.attempts[id] == 4 {
      GivenUpAfterFour(capacity, workers, initial, events, id);
    }
  }

  // ----- the fate of a single write -----

  /** The database refuses the first n calls. */
  predicate Refusals(script: seq<Outcome>, n: nat) {
    n <= |script| && forall i :: 0 <= i < n ==> script[i].Refused?
  }

  /** One write in the queue and an idle worker. */
  predicate Single(p: Pipeline, w: nat, req: WriteRequest) {
    p.queue == [req] && p.capacity >= 1 && w < |p.workers| && p.workers[w].Idle?
  }

  lemma RefusedOnce(p: Pipeline, w: nat, req: WriteRequest, written: bool)
    requires Single(p, w, req) && req.retries < p.maxRetry
    ensures var q := Handled(p, w, Refused(written));
            && Single(q, w, req.(retries := req.retries + 1)) && q.maxRetry == p.maxRetry
            && q.tally.persisted == p.tally.persisted && q.tally.exhausted == p.tally.exhausted
            && q.db == if written then p.db[req.key := req.value] else p.db
  {
    assert p.workers[w := Calling(req)][w].Calling?;
  }

  lemma RefusedLast(p: Pipeline, w: nat, req: WriteRequest, written: bool)
    requires Single(p, w, req) && req.retries >= p.maxRetry
    ensures var q := Handled(p, w, Refused(written));
            && q.queue == [] && w < |q.workers| && q.workers[w].Idle?
            && q.tally.persisted == p.tally.persisted && q.tally.exhausted == p.tally.exhausted + 1
            && q.db == if written then p.db[req.key := req.value] else p.db
  {
  }

  /** A write whose call is accepted after n refusals, with at most four calls in all, is persisted. */
  lemma {:induction false} PersistedFrom(p: Pipeline, w: nat, req: WriteRequest, script: seq<Outcome>, n: nat)
    requires Single(p, w, req) && p.maxRetry == MAX_RETRY && req.retries + n <= 3
    requires n < |script| && Refusals(script, n) && script[n].Stored?
    ensures var q := Worked(p, w, script);
            && q.queue == [] && q.db == p.db[req.key := req.value]
            && q.tally.persisted == p.tally.persisted + 1 && q.tally.exhausted == p.tally.exhausted
    decreases n
  {
    if n > 0 {
      RefusedOnce(p, w, req, script[0].written);
      PersistedFrom(Handled(p, w, script[0]), w, req.(retries := req.retries + 1), script[1..], n - 1);
    }
  }

  /** A write refused on all its remaining calls is exhausted; at most a refused call may have stored it. */
  lemma {:induction false} ExhaustedFrom(p: Pipeline, w: nat, req: WriteRequest, script: seq<Outcome>, n: nat)
    requires Single(p, w, req) && p.maxRetry == MAX_RETRY && req.retries + n == 4 && n > 0 && Refusals(script, n)
    ensures var q := Worked(p, w, script);
            && q.queue == [] && (q.db == p.db || q.db == p.db[req.key := req.value])
            && q.tally.persisted == p.tally.persisted && q.tally.exhausted == p.tally.exhausted + 1
    decreases n
  {
    if n > 1 {
      RefusedOnce(p, w, req, script[0].written);
      ExhaustedFrom(Handled(p, w, script[0]), w, req.(retries := req.retries + 1), script[1..], n - 1);
    } else {
      RefusedLast(p, w, req, script[0].written);
    }
  }

  /**
    A single write is persisted when one of its first four calls is accepted, and exhausted
    when all four are refused, for every queue and every number of workers.
   */
  lemma SingleWrite(capacity: nat, workers: nat, db: map<Key, Value>, k: Key, v: Value, script: seq<Outcome>, n: nat)
    requires capacity >= 1 && workers >= 1 && Refusals(script, n)
    requires n == 4 || (n < 4 && n < |script| && script[n].Stored?)
    ensures var q := Worked(Issue(Start(capacity, workers, db), k, v), 0, script);
            && q.queue == []
            && (n < 4 ==> q.tally.persisted == 1 && q.tally.exhausted == 0 && q.db == db[k := v])
            && (n == 4 ==> q.tally.persisted == 0 && q.tally.exhausted == 1 && (q.db == db || q.db == db[k := v]))
  {
    var p := Issue(Start(capacity, workers, db), k, v);
    var req := WriteRequest(0, k, v, 0);
    assert p.queue == [req];
    if n < 4 {
      PersistedFrom(p, 0, req, script, n);
    } else {
      ExhaustedFrom(p, 0, req, script, n);
    }
  }
}
