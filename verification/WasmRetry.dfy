/**
  The attempt loop of the browser transport (sdk/wasm.go:54-84): every failed fetch is
  tried again, whatever the error, with the iterated backoff before each new attempt.
 */
module WasmRetry {
  import opened Options
  import opened Errors
  import opened Config
  import Backoff
  import RetryLoop

  /** What one fetch hands back: an error, or a body that parses or does not. */
  datatype Fetch = Failed(e: GoError) | Parsed | Garbled

  /** The name of the request, what fetch k answers, and whether the context ends during the wait before it. */
  datatype World = World(op: string, fetch: nat -> Fetch, cancelled: nat -> bool)

  datatype Result = Success | Interrupted | ParseError | GaveUp(e: GoError)

  /** The delay before attempt k. */
  function Delay(r: Retry): nat -> int {
    (k: nat) => Backoff.Iterate(r.initialInterval, r.maxInterval, r.multiplier, if k >= 1 then k - 1 else 0)
  }

  /** The loop ended with this result after exactly `calls` fetches. */
  ghost predicate Ended(r: Retry, w: World, calls: nat, result: Result) {
    && (forall k: nat :: k + 1 < calls ==> w.fetch(k).Failed?)
    && (forall k: nat :: 1 <= k < calls ==> !w.cancelled(k))
    && match result
       case Success =>
         if calls == 0 then r.maxRetries < 0 else calls <= r.maxRetries + 1 && w.fetch(calls - 1) == Parsed
       case ParseError => 1 <= calls <= r.maxRetries + 1 && w.fetch(calls - 1) == Garbled
       case Interrupted => 1 <= calls <= r.maxRetries && w.fetch(calls - 1).Failed? && w.cancelled(calls)
       case GaveUp(e) =>
         1 <= calls == r.maxRetries + 1 && w.fetch(calls - 1).Failed? && e == Network(w.op, w.fetch(calls - 1).e)
  }

  method Do(r: Retry, w: World) returns (result: Result, calls: nat, waited: int)
    ensures Ended(r, w, calls, result)
    ensures waited == Backoff.Total(Delay(r), if calls == 0 then 0 else calls - 1)
  {
    var lastErr: Option<GoError> := None;
    var attempt := 0;
    calls, waited := 0, 0;
    while attempt <= r.maxRetries
      invariant calls == attempt && (calls > 0 ==> calls <= r.maxRetries + 1)
      invariant forall k: nat :: k < calls ==> w.fetch(k).Failed?
      invariant forall k: nat :: 1 <= k < calls ==> !w.cancelled(k)
      invariant lastErr == if calls == 0 then None else Some(Network(w.op, w.fetch(calls - 1).e))
      invariant waited == Backoff.Total(Delay(r), if calls == 0 then 0 else calls - 1)
    {
      if attempt > 0 {
        var backoff := Backoff.CalculateBackoff(r.initialInterval, r.maxInterval, r.multiplier, attempt);
        if w.cancelled(attempt) {
          return Interrupted, calls, waited;
        }
        waited := waited + backoff;
      }
      var resp := w.fetch(attempt);
      calls := calls + 1;
      match resp {
        case Failed(e) => lastErr := Some(Network(w.op, e));
        case Garbled => return ParseError, calls, waited;
        case Parsed => return Success, calls, waited;
      }
      attempt := attempt + 1;
    }
    result := if lastErr.Some? then GaveUp(lastErr.value) else Success;
  }

  /** Only one ending is possible for given settings and answers. */
  lemma EndingUnique(r: Retry, w: World, c1: nat, r1: Result, c2: nat, r2: Result)
    requires Ended(r, w, c1, r1) && Ended(r, w, c2, r2)
    ensures c1 == c2 && r1 == r2
  {
    var last1: nat, last2: nat := if c1 > 0 then c1 - 1 else 0, if c2 > 0 then c2 - 1 else 0;
    assert last1 + 1 < c2 ==> w.fetch(last1).Failed?;
    assert last2 + 1 < c1 ==> w.fetch(last2).Failed?;
  }

  /**
    Success means a fetch whose body parsed exactly when the settings allow an attempt at
    all; validated settings do, negative ones report success without asking.
   */
  lemma SuccessMeansFetched(r: Retry, w: World, calls: nat)
    requires Ended(r, w, calls, Success)
    ensures (calls > 0 && w.fetch(calls - 1) == Parsed) <==> r.maxRetries >= 0
    ensures SaneRetry(r) ==> calls > 0
  {
  }

  /**
    The two transports differ on errors that must not be retried: the native one stops
    after the first rejected request, this one asks MaxRetries + 1 times.
   */
  lemma RejectionsRetried(r: Retry, status: int, code: string, text: string,
                          w: World, calls: nat, result: Result,
                          native: RetryLoop.World, horizon: nat, nativeCalls: nat, outcome: RetryLoop.Outcome)
    requires SaneRetry(r) && 400 <= status < 500 && status != 429 && status != 408
    requires (forall k: nat :: w.fetch(k) == Failed(Api(status, code, text)) && !w.cancelled(k))
    requires Ended(r, w, calls, result)
    requires native.call(0) == Some(ApiToError(status, code, text)) && horizon >= 1
    requires RetryLoop.Ran(DefaultStrategy(r), native, horizon, nativeCalls, outcome)
    ensures nativeCalls == 1 && outcome == RetryLoop.Finished(native.call(0))
    ensures calls == r.maxRetries + 1 && result == GaveUp(Network(w.op, Api(status, code, text)))
  {
    HttpRetryClasses(status, code, text);
    assert !RetryLoop.Judge(DefaultStrategy(r), native, 0).Retry?;
  }

  /** With an integer multiplier the delays are those of the closed formula, so they add up to its total. */
  lemma {:induction false} DelaysClosed(r: Retry, q: int, n: nat, shape: Backoff.Exponential)
    requires SaneRetry(r) && r.multiplier == q as real && q > 1 && r.initialInterval <= r.maxInterval
    requires shape == Backoff.Exponential(r.initialInterval, r.maxInterval, q as real, 0.0)
    ensures Backoff.Total(Delay(r), n) == Backoff.Total((k: nat) => Backoff.NextInterval(shape, k, 0.0), n)
  {
    if n > 0 {
      DelaysClosed(r, q, n - 1, shape);
      Backoff.FormsAgree(shape, q, n, 0.0);
    }
  }
}
