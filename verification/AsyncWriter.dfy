/**
  The write-behind queue of internal/api/async_writer.go: writes enter a bounded queue
  without waiting, workers take them and write to the database, a failed write is retried
  by putting it back at the end of the queue, and writes are dropped when the queue is
  full or the retries are used up.

  Queue, workers and database form one value, the pipeline; each atomic step is a function
  on it, and the class performs the same steps on its fields.
 */
module AsyncWriter {
  import opened Options
  import opened Counting

  /** A database row is addressed by instance and key. */
  datatype Key = Key(instance: string, name: string)

  type Value = string

  /** `id` numbers the calls of Write; the source tells requests apart by identity. */
  datatype WriteRequest = WriteRequest(id: nat, key: Key, value: Value, retries: nat)

  /** A worker waits for work, is inside the database call, or sleeps before putting a failed write back. */
  datatype Worker = Idle | Calling(req: WriteRequest) | Sleeping(req: WriteRequest)

  /**
    How writes have ended, how often the database was called for each of them, and which of
    them were given up after their last call.
   */
  datatype Tally = Tally(issued: nat, persisted: nat, dropped: nat, requeueFailed: nat, exhausted: nat,
                         attempts: multiset<nat>, givenUp: set<nat>)

  datatype Pipeline = Pipeline(capacity: nat, maxRetry: nat, queue: seq<WriteRequest>, workers: seq<Worker>,
                               db: map<Key, Value>, accepted: set<(Key, Value)>, tally: Tally)

  const MAX_RETRY: nat := 3

  function Start(capacity: nat, workers: nat, db: map<Key, Value>): Pipeline {
    Pipeline(capacity, MAX_RETRY, [], seq(workers, _ => Idle), db, {}, Tally(0, 0, 0, 0, 0, multiset{}, {}))
  }

  /** A new request at the end of the queue. */
  function Enqueue(p: Pipeline, key: Key, value: Value): Pipeline {
    p.(queue := p.queue + [WriteRequest(p.tally.issued, key, value, 0)],
       accepted := p.accepted + {(key, value)},
       tally := p.tally.(issued := p.tally.issued + 1))
  }

  /** Write: the request is queued, or dropped at once when the queue is full. */
  function Issue(p: Pipeline, key: Key, value: Value): Pipeline {
    if |p.queue| < p.capacity then Enqueue(p, key, value)
    else p.(tally := p.tally.(issued := p.tally.issued + 1, dropped := p.tally.dropped + 1))
  }

  predicate CanTake(p: Pipeline, w: nat) {
    w < |p.workers| && p.workers[w].Idle? && p.queue != []
  }

  /** A worker receives the oldest request and calls the database. */
  function Take(p: Pipeline, w: nat): Pipeline
    requires CanTake(p, w)
  {
    p.(queue := p.queue[1..], workers := p.workers[w := Calling(p.queue[0])],
       tally := p.tally.(attempts := p.tally.attempts + multiset{p.queue[0].id}))
  }

  /** A queue of capacity zero is an unbuffered channel: a send meets a worker that already waits. */
  predicate CanHandOff(p: Pipeline, w: nat) {
    p.capacity == 0 && p.queue == [] && w < |p.workers| && p.workers[w].Idle?
  }

  /** Write on such a channel while worker w waits; while none does, Issue drops the request. */
  function HandOff(p: Pipeline, key: Key, value: Value, w: nat): Pipeline
    requires CanHandOff(p, w)
  {
    Take(Enqueue(p, key, value), w)
  }

  predicate CanReturn(p: Pipeline, w: nat) {
    w < |p.workers| && p.workers[w].Calling?
  }

  function Succeed(p: Pipeline, w: nat): Pipeline
    requires CanReturn(p, w)
  {
    var req := p.workers[w].req;
    p.(workers := p.workers[w := Idle], db := p.db[req.key := req.value],
       tally := p.tally.(persisted := p.tally.persisted + 1))
  }

  /** The call reports an error; a timed-out call may have written the row all the same. */
  function Fail(p: Pipeline, w: nat, written: bool): Pipeline
    requires CanReturn(p, w)
  {
    var req := p.workers[w].req;
    var q := if written then p.(db := p.db[req.key := req.value]) else p;
    if req.retries < p.maxRetry then q.(workers := p.workers[w := Sleeping(req.(retries := req.retries + 1))])
    else q.(workers := p.workers[w := Idle],
                tally := p.tally.(exhausted := p.tally.exhausted + 1, givenUp := p.tally.givenUp + {req.id}))
  }

  predicate CanRequeue(p: Pipeline, w: nat) {
    w < |p.workers| && p.workers[w].Sleeping?
  }

  /** The worker's request at the end of the queue. */
  function Return(p: Pipeline, w: nat): Pipeline
    requires CanRequeue(p, w)
  {
    p.(workers := p.workers[w := Idle], queue := p.queue + [p.workers[w].req])
  }

  /** After the pause the request goes to the end of the queue, or is lost when the queue is full. */
  function Requeue(p: Pipeline, w: nat): Pipeline
    requires CanRequeue(p, w)
  {
    if |p.queue| < p.capacity then Return(p, w)
    else p.(workers := p.workers[w := Idle], tally := p.tally.(requeueFailed := p.tally.requeueFailed + 1))
  }

  predicate CanPassOn(p: Pipeline, w: nat, to: nat) {
    CanRequeue(p, w) && CanHandOff(p, to)
  }

  /** The same on an unbuffered channel while worker `to` waits. */
  function PassOn(p: Pipeline, w: nat, to: nat): Pipeline
    requires CanPassOn(p, w, to)
  {
    Take(Return(p, w), to)
  }

  datatype Event =
    | DoWrite(key: Key, value: Value)
    | DoHandOff(key: Key, value: Value, worker: nat)
    | DoTake(worker: nat)
    | DoSucceed(worker: nat)
    | DoFail(worker: nat, written: bool)
    | DoRequeue(worker: nat)
    | DoPassOn(worker: nat, to: nat)

  predicate Enabled(p: Pipeline, e: Event) {
    match e
    case DoWrite(_, _) => true
    case DoHandOff(_, _, w) => CanHandOff(p, w)
    case DoTake(w) => CanTake(p, w)
    case DoSucceed(w) => CanReturn(p, w)
    case DoFail(w, _) => CanReturn(p, w)
    case DoRequeue(w) => CanRequeue(p, w)
    case DoPassOn(w, to) => CanPassOn(p, w, to)
  }

  function Step(p: Pipeline, e: Event): Pipeline
    requires Enabled(p, e)
  {
    match e
    case DoWrite(k, v) => Issue(p, k, v)
    case DoHandOff(k, v, w) => HandOff(p, k, v, w)
    case DoTake(w) => Take(p, w)
    case DoSucceed(w) => Succeed(p, w)
    case DoFail(w, written) => Fail(p, w, written)
    case DoRequeue(w) => Requeue(p, w)
    case DoPassOn(w, to) => PassOn(p, w, to)
  }

  predicate Possible(p: Pipeline, events: seq<Event>)
    decreases |events|
  {
    events == [] || (Enabled(p, events[0]) && Possible(Step(p, events[0]), events[1..]))
  }

  function Run(p: Pipeline, events: seq<Event>): Pipeline
    requires Possible(p, events)
    decreases |events|
  {
    if events == [] then p else Run(Step(p, events[0]), events[1..])
  }

  // ----- the class -----

  /** What the database reports for one call. */
  datatype Outcome = Stored | Refused(written: bool)

  class AsyncWriter {
    const capacity: nat
    const maxRetry: nat
    var queue: seq<WriteRequest>
    var workers: seq<Worker>
    var db: map<Key, Value>
    var accepted: set<(Key, Value)>
    var tally: Tally

    constructor (queueSize: nat, workers: nat, db: map<Key, Value>)
      ensures Value() == Start(queueSize, workers, db)
    {
      this.capacity, this.maxRetry := queueSize, MAX_RETRY;
      this.queue, this.workers, this.db := [], seq(workers, _ => Idle), db;
      this.accepted, this.tally := {}, Tally(0, 0, 0, 0, 0, multiset{}, {});
    }

    function Value(): Pipeline
      reads this
    {
      Pipeline(capacity, maxRetry, queue, workers, db, accepted, tally)
    }

    /** `waiting` is a worker blocked on an unbuffered queue, if there is one. */
    method Write(key: Key, value: Value, waiting: Option<nat>)
      requires waiting.Some? ==> CanHandOff(Value(), waiting.value)
      modifies this
      ensures Value() == match waiting
                         case None => Issue(old(Value()), key, value)
                         case Some(w) => HandOff(old(Value()), key, value, w)
    {
      if waiting.Some? || |queue| < capacity {
        queue := queue + [WriteRequest(tally.issued, key, value, 0)];
        accepted := accepted + {(key, value)};
      } else {
        tally := tally.(dropped := tally.dropped + 1);
      }
      tally := tally.(issued := tally.issued + 1);
      if waiting.Some? {
        Receive(waiting.value);
      }
    }

    /** A worker receives from the queue and starts the database call. */
    method Receive(w: nat)
      requires CanTake(Value(), w)
      modifies this
      ensures Value() == Take(old(Value()), w)
    {
      var req := queue[0];
      queue := queue[1..];
      workers := workers[w := Calling(req)];
      tally := tally.(attempts := tally.attempts + multiset{req.id});
    }

    /** The database call of a worker ends. */
    method Finish(w: nat, outcome: Outcome)
      requires CanReturn(Value(), w)
      modifies this
      ensures Value() == if outcome.Stored? then Succeed(old(Value()), w) else Fail(old(Value()), w, outcome.written)
    {
      var req := workers[w].req;
      if outcome.Stored? || outcome.written {
        db := db[req.key := req.value];
      }
      if outcome.Refused? {
        if req.retries < maxRetry {
          workers := workers[w := Sleeping(req.(retries := req.retries + 1))];
          return;
        }
        tally := tally.(exhausted := tally.exhausted + 1, givenUp := tally.givenUp + {req.id});
      } else {
        tally := tally.(persisted := tally.persisted + 1);
      }
      workers := workers[w := Idle];
    }

    /** A worker wakes up and puts its failed request back, if there is room or another worker waits. */
    method PutBack(w: nat, waiting: Option<nat>)
      requires CanRequeue(Value(), w) && (waiting.Some? ==> CanHandOff(Value(), waiting.value))
      modifies this
      ensures Value() == match waiting
                         case None => Requeue(old(Value()), w)
                         case Some(to) => PassOn(old(Value()), w, to)
    {
      var req := workers[w].req;
      workers := workers[w := Idle];
      if waiting.Some? || |queue| < capacity {
        queue := queue + [req];
      } else {
        tally := tally.(requeueFailed := tally.requeueFailed + 1);
      }
      if waiting.Some? {
        Receive(waiting.value);
      }
    }

    /**
      The loop of one worker while no other goroutine moves: it handles one request per
      scripted database outcome until the queue or the script is empty.
     */
    method Work(w: nat, script: seq<Outcome>)
      requires w < |workers| && workers[w].Idle?
      modifies this
      ensures Value() == Worked(old(Value()), w, script)
    {
      var i := 0;
      while i < |script| && queue != []
        invariant 0 <= i <= |script| && w < |workers| && workers[w].Idle?
        invariant Worked(Value(), w, script[i..]) == Worked(old(Value()), w, script)
      {
        Receive(w);
        Finish(w, script[i]);
        if workers[w].Sleeping? {
          PutBack(w, None);
        }
        assert script[i..][1..] == script[i + 1..];
        i := i + 1;
      }
    }
  }

  /** One request taken, called and, if need be, put back, in terms of the atomic steps. */
  function Handled(p: Pipeline, w: nat, outcome: Outcome): Pipeline
    requires CanTake(p, w)
  {
    var taken := Take(p, w);
    match outcome
    case Stored => Succeed(taken, w)
    case Refused(written) =>
      var failed := Fail(taken, w, written);
      if CanRequeue(failed, w) then Requeue(failed, w) else failed
  }

  function Worked(p: Pipeline, w: nat, script: seq<Outcome>): Pipeline
    requires w < |p.workers| && p.workers[w].Idle?
    decreases |script|
  {
    if script == [] || p.queue == [] then p else Worked(Handled(p, w, script[0]), w, script[1..])
  }

  // ----- conservation -----

  predicate IsBusy(x: Worker) { !x.Idle? }

  /** Requests in the hands of workers. */
  function Held(p: Pipeline): nat {
    Count(p.workers, IsBusy)
  }

  /** Every write issued is queued, held, or ended in exactly one of the four ways. */
  predicate Conserved(p: Pipeline) {
    p.tally.issued
    == |p.queue| + Held(p) + p.tally.persisted + p.tally.dropped + p.tally.requeueFailed + p.tally.exhausted
  }

  /** Database calls that requests with this id may still make, from the queue and from the workers. */
  function FromQueue(maxRetry: nat, id: nat): WriteRequest -> nat {
    (r: WriteRequest) => if r.id == id && r.retries <= maxRetry then maxRetry - r.retries + 1 else 0
  }

  function FromWorker(maxRetry: nat, id: nat): Worker -> nat {
    (x: Worker) =>
      match x
      case Idle => 0
      case Calling(r) => if r.id == id && r.retries <= maxRetry then maxRetry - r.retries else 0
      case Sleeping(r) => if r.id == id && r.retries <= maxRetry then maxRetry - r.retries + 1 else 0
  }

  function CallsLeft(p: Pipeline, id: nat): nat {
    Sum(p.queue, FromQueue(p.maxRetry, id)) + Sum(p.workers, FromWorker(p.maxRetry, id))
  }

  /** The calls made for one write and those still possible never exceed maxRetry + 1. */
  ghost predicate AttemptsInv(p: Pipeline) {
    && (forall id: nat :: p.tally.attempts[id] + CallsLeft(p, id) <= p.maxRetry + 1)
    && (forall id: nat :: id >= p.tally.issued ==> p.tally.attempts[id] == 0)
  }

  /** A request on its way was issued, accepted, and has retries left or is on its last call. */
  predicate Genuine(p: Pipeline, r: WriteRequest) {
    r.id < p.tally.issued && r.retries <= p.maxRetry && (r.key, r.value) in p.accepted
  }

  predicate RequestsInv(p: Pipeline) {
    && (forall r :: r in p.queue ==> Genuine(p, r))
    && (forall x :: x in p.workers ==> x.Idle? || Genuine(p, x.req))
  }

  /** Every database value was there at the start or was accepted for that very key. */
  predicate Provenance(p: Pipeline, initial: map<Key, Value>) {
    forall k :: k in p.db ==> (k in initial && p.db[k] == initial[k]) || (k, p.db[k]) in p.accepted
  }

  ghost predicate Inv(p: Pipeline, initial: map<Key, Value>) {
    && Conserved(p) && |p.queue| <= p.capacity && RequestsInv(p) && AttemptsInv(p) && Provenance(p, initial)
  }

  lemma StartInv(capacity: nat, workers: nat, db: map<Key, Value>)
    ensures Inv(Start(capacity, workers, db), db)
  {
    var p := Start(capacity, workers, db);
    CountNone(p.workers, IsBusy);
    forall id: nat ensures CallsLeft(p, id) == 0 {
      SumZero(p.workers, FromWorker(p.maxRetry, id));
    }
  }

  lemma StepCounts(p: Pipeline, e: Event)
    requires Conserved(p) && |p.queue| <= p.capacity && Enabled(p, e)
    ensures Conserved(Step(p, e)) && |Step(p, e).queue| <= p.capacity
  {
    match e
    case DoWrite(_, _) =>
    case DoHandOff(k, v, w) => CountUpdate(p.workers, IsBusy, w, Calling(Enqueue(p, k, v).queue[0]));
    case DoTake(w) => CountUpdate(p.workers, IsBusy, w, Calling(p.queue[0]));
    case DoSucceed(w) => CountUpdate(p.workers, IsBusy, w, Idle);
    case DoFail(w, written) => CountUpdate(p.workers, IsBusy, w, Fail(p, w, written).workers[w]);
    case DoRequeue(w) => CountUpdate(p.workers, IsBusy, w, Idle);
    case DoPassOn(w, to) =>
      var q := Return(p, w);
      CountUpdate(p.workers, IsBusy, w, Idle);
      CountUpdate(q.workers, IsBusy, to, Calling(q.queue[0]));
  }

  lemma EnqueueRequests(p: Pipeline, k: Key, v: Value, initial: map<Key, Value>)
    requires RequestsInv(p) && Provenance(p, initial)
    ensures RequestsInv(Enqueue(p, k, v)) && Provenance(Enqueue(p, k, v), initial)
  {
    forall r | r in p.queue ensures Genuine(Enqueue(p, k, v), r) { }
  }

  lemma TakeRequests(p: Pipeline, w: nat)
    requires RequestsInv(p) && CanTake(p, w)
    ensures RequestsInv(Take(p, w))
  {
    assert p.queue[0] in p.queue;
    forall r | r in p.queue[1..] ensures r in p.queue { }
  }

  lemma ReturnRequests(p: Pipeline, w: nat)
    requires RequestsInv(p) && CanRequeue(p, w)
    ensures RequestsInv(Return(p, w)) && RequestsInv(Requeue(p, w))
  {
    assert p.workers[w] in p.workers;
  }

  lemma StepRequests(p: Pipeline, e: Event, initial: map<Key, Value>)
    requires RequestsInv(p) && Provenance(p, initial) && Enabled(p, e)
    ensures RequestsInv(Step(p, e)) && Provenance(Step(p, e), initial)
  {
    match e
    case DoWrite(k, v) => EnqueueRequests(p, k, v, initial);
    case DoHandOff(k, v, w) =>
      EnqueueRequests(p, k, v, initial);
      TakeRequests(Enqueue(p, k, v), w);
    case DoTake(w) => TakeRequests(p, w);
    case DoSucceed(w) => assert p.workers[w] in p.workers;
    case DoFail(w, _) => assert p.workers[w] in p.workers;
    case DoRequeue(w) => ReturnRequests(p, w);
    case DoPassOn(w, to) =>
      ReturnRequests(p, w);
      TakeRequests(Return(p, w), to);
  }

  lemma StepAttempts(p: Pipeline, e: Event)
    requires RequestsInv(p) && AttemptsInv(p) && Enabled(p, e)
    ensures AttemptsInv(Step(p, e))
  {
    match e
    case DoWrite(k, v) => EnqueueAttempts(p, k, v);
    case DoHandOff(k, v, w) =>
      EnqueueAttempts(p, k, v);
      EnqueueRequests(p, k, v, p.db);
      TakeAttempts(Enqueue(p, k, v), w);
    case DoTake(w) => TakeAttempts(p, w);
    case DoSucceed(w) => EndAttempts(p, w, Succeed(p, w));
    case DoFail(w, written) =>
      assert Genuine(p, p.workers[w].req) by { assert p.workers[w] in p.workers; }
      EndAttempts(p, w, Fail(p, w, written));
    case DoRequeue(w) => ReturnAttempts(p, w);
    case DoPassOn(w, to) =>
      ReturnAttempts(p, w);
      ReturnRequests(p, w);
      TakeAttempts(Return(p, w), to);
  }

  lemma EnqueueAttempts(p: Pipeline, k: Key, v: Value)
    requires RequestsInv(p) && AttemptsInv(p)
    ensures AttemptsInv(Enqueue(p, k, v)) && AttemptsInv(Issue(p, k, v))
  {
    forall id: nat ensures p.tally.attempts[id] + CallsLeft(Enqueue(p, k, v), id) <= p.maxRetry + 1
                   ensures p.tally.attempts[id] + CallsLeft(p, id) <= p.maxRetry + 1 {
      EnqueueCalls(p, k, v, id);
    }
  }

  lemma TakeAttempts(p: Pipeline, w: nat)
    requires RequestsInv(p) && AttemptsInv(p) && CanTake(p, w)
    ensures AttemptsInv(Take(p, w))
  {
    assert Genuine(p, p.queue[0]);
    forall id: nat ensures Take(p, w).tally.attempts[id] + CallsLeft(Take(p, w), id) <= p.maxRetry + 1 {
      assert p.tally.attempts[id] + CallsLeft(p, id) <= p.maxRetry + 1;
      TakeCalls(p, w, id);
    }
  }

  lemma EndAttempts(p: Pipeline, w: nat, after: Pipeline)
    requires AttemptsInv(p) && CanReturn(p, w) && p.workers[w].req.retries <= p.maxRetry
    requires after == Succeed(p, w) || after == Fail(p, w, true) || after == Fail(p, w, false)
    ensures AttemptsInv(after)
  {
    forall id: nat ensures after.tally.attempts[id] + CallsLeft(after, id) <= p.maxRetry + 1 {
      assert p.tally.attempts[id] + CallsLeft(p, id) <= p.maxRetry + 1;
      EndCalls(p, w, after.workers[w], id);
    }
  }

  lemma ReturnAttempts(p: Pipeline, w: nat)
    requires AttemptsInv(p) && CanRequeue(p, w)
    ensures AttemptsInv(Return(p, w)) && AttemptsInv(Requeue(p, w))
  {
    forall id: nat ensures p.tally.attempts[id] + CallsLeft(Return(p, w), id) <= p.maxRetry + 1
                   ensures p.tally.attempts[id] + CallsLeft(Requeue(p, w), id) <= p.maxRetry + 1 {
      assert p.tally.attempts[id] + CallsLeft(p, id) <= p.maxRetry + 1;
      ReturnCalls(p, w, id);
    }
  }

  lemma EnqueueCalls(p: Pipeline, k: Key, v: Value, id: nat)
    requires RequestsInv(p)
    ensures CallsLeft(Enqueue(p, k, v), id) == if id == p.tally.issued then p.maxRetry + 1 else CallsLeft(p, id)
  {
    SumAppend(p.queue, FromQueue(p.maxRetry, id), WriteRequest(p.tally.issued, k, v, 0));
    if id == p.tally.issued {
      NothingLeftFor(p, id);
    }
  }

  /** Taking a request turns one possible call into one made. */
  lemma TakeCalls(p: Pipeline, w: nat, id: nat)
    requires RequestsInv(p) && CanTake(p, w)
    ensures CallsLeft(Take(p, w), id) == CallsLeft(p, id) - if p.queue[0].id == id then 1 else 0
  {
    SumHead(p.queue, FromQueue(p.maxRetry, id));
    SumUpdate(p.workers, FromWorker(p.maxRetry, id), w, Calling(p.queue[0]));
    assert Genuine(p, p.queue[0]);
  }

  /** After a call the worker keeps at most the calls the request still had. */
  lemma EndCalls(p: Pipeline, w: nat, after: Worker, id: nat)
    requires CanReturn(p, w)
    requires after.Idle? || (after.Sleeping? && after.req == p.workers[w].req.(retries := p.workers[w].req.retries + 1)
                            && after.req.retries <= p.maxRetry)
    ensures Sum(p.workers[w := after], FromWorker(p.maxRetry, id)) <= Sum(p.workers, FromWorker(p.maxRetry, id))
  {
    SumUpdate(p.workers, FromWorker(p.maxRetry, id), w, after);
  }

  /** Moving a request from worker to queue, under any weights. */
  lemma ReturnSums(p: Pipeline, w: nat, inQueue: WriteRequest -> nat, atWorker: Worker -> nat)
    requires CanRequeue(p, w)
    ensures Sum(Return(p, w).queue, inQueue) == Sum(p.queue, inQueue) + inQueue(p.workers[w].req)
    ensures Sum(Return(p, w).workers, atWorker) == Sum(p.workers, atWorker) - atWorker(p.workers[w]) + atWorker(Idle)
  {
    SumUpdate(p.workers, atWorker, w, Idle);
    SumAppend(p.queue, inQueue, p.workers[w].req);
  }

  lemma ReturnCalls(p: Pipeline, w: nat, id: nat)
    requires CanRequeue(p, w)
    ensures CallsLeft(Return(p, w), id) == CallsLeft(p, id) && CallsLeft(Requeue(p, w), id) <= CallsLeft(p, id)
  {
    ReturnSums(p, w, FromQueue(p.maxRetry, id), FromWorker(p.maxRetry, id));
  }

  /** A number not yet issued belongs to no request. */
  lemma NothingLeftFor(p: Pipeline, id: nat)
    requires RequestsInv(p) && id >= p.tally.issued
    ensures CallsLeft(p, id) == 0
  {
    SumZero(p.queue, FromQueue(p.maxRetry, id));
    SumZero(p.workers, FromWorker(p.maxRetry, id));
  }

  lemma StepInv(p: Pipeline, e: Event, initial: map<Key, Value>)
    requires Inv(p, initial) && Enabled(p, e)
    ensures Inv(Step(p, e), initial)
    ensures Step(p, e).capacity == p.capacity && Step(p, e).maxRetry == p.maxRetry
    ensures |Step(p, e).workers| == |p.workers|
  {
    StepCounts(p, e);
    StepRequests(p, e, initial);
    StepAttempts(p, e);
  }

  lemma {:induction false} RunInv(p: Pipeline, events: seq<Event>, initial: map<Key, Value>)
    requires Inv(p, initial) && Possible(p, events)
    ensures Inv(Run(p, events), initial)
    ensures Run(p, events).capacity == p.capacity && Run(p, events).maxRetry == p.maxRetry
    ensures |Run(p, events).workers| == |p.workers|
    decreases |events|
  {
    if events != [] {
      StepInv(p, events[0], initial);
      RunInv(Step(p, events[0]), events[1..], initial);
    }
  }

  // ----- what holds after every interleaving -----

  /** Nothing is lost without trace: any number of workers, any failures, any order of steps. */
  lemma Conservation(capacity: nat, workers: nat, initial: map<Key, Value>, events: seq<Event>)
    requires Possible(Start(capacity, workers, initial), events)
    ensures var p := Run(Start(capacity, workers, initial), events);
            && p.tally.issued == |p.queue| + Held(p) + p.tally.persisted + p.tally.dropped
                                 + p.tally.requeueFailed + p.tally.exhausted
            && |p.queue| <= capacity && Held(p) <= workers
  {
    StartInv(capacity, workers, initial);
    RunInv(Start(capacity, workers, initial), events, initial);
    CountAtMost(Run(Start(capacity, workers, initial), events).workers, IsBusy);
  }

  /** No write causes more than four database calls. */
  lemma FourAttempts(capacity: nat, workers: nat, initial: map<Key, Value>, events: seq<Event>, id: nat)
    requires Possible(Start(capacity, workers, initial), events)
    ensures Run(Start(capacity, workers, initial), events).tally.attempts[id] <= 4
  {
    StartInv(capacity, workers, initial);
    RunInv(Start(capacity, workers, initial), events, initial);
  }

  /** A database value for a key is the initial one or was queued for that same instance and name. */
  lemma NoForeignValues(capacity: nat, workers: nat, initial: map<Key, Value>, events: seq<Event>, k: Key)
    requires Possible(Start(capacity, workers, initial), events)
    requires k in Run(Start(capacity, workers, initial), events).db
    ensures var p := Run(Start(capacity, workers, initial), events);
            (k in initial && p.db[k] == initial[k]) || (k, p.db[k]) in p.accepted
    ensures forall a :: a in Run(Start(capacity, workers, initial), events).accepted ==> Wrote(events, a)
  {
    StartInv(capacity, workers, initial);
    RunInv(Start(capacity, workers, initial), events, initial);
    AcceptedWereWritten(Start(capacity, workers, initial), events);
  }

  predicate IsWriteOf(e: Event, a: (Key, Value)) {
    (e.DoWrite? || e.DoHandOff?) && (e.key, e.value) == a
  }

  predicate Wrote(events: seq<Event>, a: (Key, Value)) {
    exists e :: e in events && IsWriteOf(e, a)
  }

  lemma {:induction false} AcceptedWereWritten(p: Pipeline, events: seq<Event>)
    requires Possible(p, events)
    ensures forall a :: a in Run(p, events).accepted ==> a in p.accepted || Wrote(events, a)
    decreases |events|
  {
    if events != [] {
      AcceptedWereWritten(Step(p, events[0]), events[1..]);
      forall a | a in Run(p, events).accepted ensures a in p.accepted || Wrote(events, a) {
        if Wrote(events[1..], a) {
          var e :| e in events[1..] && IsWriteOf(e, a);
          assert e in events;
        } else if a !in p.accepted {
          assert IsWriteOf(events[0], a);
        }
      }
    }
  }

  // ----- without new writes the pipeline empties -----

  /** Steps a request still takes at most: a call, its failure and the return, for every call left. */
  function QueueWork(maxRetry: nat): WriteRequest -> nat {
    (r: WriteRequest) => if r.retries <= maxRetry then 3 * (maxRetry - r.retries) + 3 else 0
  }

  function WorkerWork(maxRetry: nat): Worker -> nat {
    (x: Worker) =>
      match x
      case Idle => 0
      case Calling(r) => if r.retries <= maxRetry then 3 * (maxRetry - r.retries) + 2 else 0
      case Sleeping(r) => if r.retries <= maxRetry then 3 * (maxRetry - r.retries) + 4 else 0
  }

  function WorkLeft(p: Pipeline): nat {
    Sum(p.queue, QueueWork(p.maxRetry)) + Sum(p.workers, WorkerWork(p.maxRetry))
  }

  predicate IsWrite(e: Event) {
    e.DoWrite? || e.DoHandOff?
  }

  lemma TakeWork(p: Pipeline, w: nat)
    requires RequestsInv(p) && CanTake(p, w)
    ensures WorkLeft(Take(p, w)) == WorkLeft(p) - 1
  {
    assert Genuine(p, p.queue[0]);
    SumHead(p.queue, QueueWork(p.maxRetry));
    SumUpdate(p.workers, WorkerWork(p.maxRetry), w, Calling(p.queue[0]));
  }

  lemma ReturnWork(p: Pipeline, w: nat)
    requires RequestsInv(p) && CanRequeue(p, w)
    ensures WorkLeft(Return(p, w)) == WorkLeft(p) - 1 && WorkLeft(Requeue(p, w)) < WorkLeft(p)
  {
    assert Genuine(p, p.workers[w].req) by { assert p.workers[w] in p.workers; }
    ReturnSums(p, w, QueueWork(p.maxRetry), WorkerWork(p.maxRetry));
  }

  /** Every step that is not a write uses up work. */
  lemma WorkDecreases(p: Pipeline, e: Event)
    requires RequestsInv(p) && Enabled(p, e) && !IsWrite(e)
    ensures WorkLeft(Step(p, e)) < WorkLeft(p)
  {
    match e
    case DoTake(w) => TakeWork(p, w);
    case DoSucceed(w) =>
      assert Genuine(p, p.workers[w].req) by { assert p.workers[w] in p.workers; }
      SumUpdate(p.workers, WorkerWork(p.maxRetry), w, Idle);
    case DoFail(w, written) =>
      assert Genuine(p, p.workers[w].req) by { assert p.workers[w] in p.workers; }
      SumUpdate(p.workers, WorkerWork(p.maxRetry), w, Fail(p, w, written).workers[w]);
    case DoRequeue(w) => ReturnWork(p, w);
    case DoPassOn(w, to) =>
      ReturnWork(p, w);
      ReturnRequests(p, w);
      TakeWork(Return(p, w), to);
  }

  /** A run without writes is no longer than the work that is left. */
  lemma {:induction false} DrainLength(p: Pipeline, events: seq<Event>)
    requires RequestsInv(p) && Possible(p, events) && (forall e :: e in events ==> !IsWrite(e))
    ensures |events| + WorkLeft(Run(p, events)) <= WorkLeft(p)
    decreases |events|
  {
    if events != [] {
      assert events[0] in events;
      WorkDecreases(p, events[0]);
      StepRequests(p, events[0], p.db);
      DrainLength(Step(p, events[0]), events[1..]);
    }
  }

  /** With a worker at all, anything queued or held can move without a new write. */
  lemma DrainProgress(p: Pipeline) returns (e: Event)
    requires |p.workers| > 0 && (p.queue != [] || Held(p) > 0)
    ensures Enabled(p, e) && !IsWrite(e)
  {
    if Held(p) > 0 {
      var w := CountFinds(p.workers, IsBusy);
      e := if p.workers[w].Calling? then DoSucceed(w) else DoRequeue(w);
    } else {
      if !p.workers[0].Idle? {
        CountPositive(p.workers, IsBusy, 0);
      }
      e := DoTake(0);
    }
  }

  /**
    After any run, once writing stops, the pipeline takes at most WorkLeft more steps, and
    when no step is left every write issued has ended in one of the four ways.
   */
  lemma Drains(capacity: nat, workers: nat, initial: map<Key, Value>, events: seq<Event>, more: seq<Event>)
    requires workers > 0 && Possible(Start(capacity, workers, initial), events)
    requires var p := Run(Start(capacity, workers, initial), events);
             Possible(p, more) && forall e :: e in more ==> !IsWrite(e)
    ensures var p := Run(Start(capacity, workers, initial), events);
            var q := Run(p, more);
            && |more| <= WorkLeft(p)
            && ((forall e :: Enabled(q, e) ==> IsWrite(e)) ==>
                  && q.queue == [] && Held(q) == 0
                  && q.tally.issued == q.tally.persisted + q.tally.dropped + q.tally.requeueFailed + q.tally.exhausted)
  {
    var start := Start(capacity, workers, initial);
    StartInv(capacity, workers, initial);
    RunInv(start, events, initial);
    var p := Run(start, events);
    DrainLength(p, more);
    RunInv(p, more, initial);
    var q := Run(p, more);
    if q.queue != [] || Held(q) > 0 {
      var e := DrainProgress(q);
    }
  }
}
