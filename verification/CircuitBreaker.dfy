/**
  The circuit breaker of sdk/circuit_breaker.go.

  Execute runs two separate critical sections, one before and one after the protected
  call; both are methods here, each reading the clock once.  The same steps are written
  as functions on the breaker's value, which the proofs about whole runs use.
 */
module CircuitBreaker {
  import opened Options
  import opened Errors

  datatype CircuitState = Closed | Open | HalfOpen

  datatype Settings = Settings(failureThreshold: int, successThreshold: int, timeout: int, halfOpenRequests: int)

  /** What Config.Validate guarantees of a configured breaker. */
  predicate Positive(c: Settings) {
    c.failureThreshold > 0 && c.successThreshold > 0 && c.timeout > 0 && c.halfOpenRequests > 0
  }

  /** The mutable fields of a breaker. */
  datatype Breaker = Breaker(state: CircuitState, failures: int, successes: int, halfOpenRequests: int,
                             lastFailureTime: int, lastStateChange: int)

  datatype Admission = Admitted | Rejected(error: GoError)

  function Rejection(message: string): Admission {
    Rejected(NewError(CircuitOpenType, message, Some(Plain(ErrCircuitOpen))))
  }

  function Fresh(now: int): Breaker {
    Breaker(Closed, 0, 0, 0, 0, now)
  }

  /** transitionTo: a change of state clears every counter. */
  function Enter(b: Breaker, target: CircuitState, now: int): Breaker {
    if b.state == target then b
    else Breaker(target, if target == HalfOpen then b.failures else 0, 0, 0, b.lastFailureTime, now)
  }

  /** checkStateTransition: an open circuit whose timeout has elapsed becomes half-open. */
  function Refresh(c: Settings, b: Breaker, now: int): Breaker {
    if b.state == Open && now - b.lastFailureTime >= c.timeout then Enter(b, HalfOpen, now) else b
  }

  function Admit(c: Settings, b: Breaker, now: int): (Breaker, Admission) {
    var r := Refresh(c, b, now);
    match r.state
    case Open => (r, Rejection("circuit breaker is open"))
    case Closed => (r, Admitted)
    case HalfOpen =>
      if r.halfOpenRequests >= c.halfOpenRequests then (r, Rejection("circuit breaker half-open limit reached"))
      else (r.(halfOpenRequests := r.halfOpenRequests + 1), Admitted)
  }

  function Record(c: Settings, b: Breaker, failed: bool, now: int): Breaker {
    if failed then
      var f := b.(lastFailureTime := now);
      match f.state
      case Closed =>
        var counted := f.(failures := f.failures + 1);
        if counted.failures >= c.failureThreshold then Enter(counted, Open, now) else counted
      case HalfOpen => Enter(f, Open, now)
      case Open => f
    else
      match b.state
      case Closed => b.(failures := 0)
      case HalfOpen =>
        var counted := b.(successes := b.successes + 1);
        if counted.successes >= c.successThreshold then Enter(counted, Closed, now) else counted
      case Open => b
  }

  function Cleared(b: Breaker, now: int): Breaker {
    Breaker(Closed, 0, 0, 0, b.lastFailureTime, now)
  }

  class CircuitBreaker {
    const config: Settings
    var state: CircuitState
    var failures: int
    var successes: int
    var halfOpenRequests: int
    var lastFailureTime: int
    var lastStateChange: int

    constructor (config: Settings, now: int)
      ensures this.config == config && Value() == Fresh(now)
    {
      this.config := config;
      state := Closed;
      failures, successes, halfOpenRequests := 0, 0, 0;
      lastFailureTime, lastStateChange := 0, now;
    }

    function Value(): Breaker
      reads this
    {
      Breaker(state, failures, successes, halfOpenRequests, lastFailureTime, lastStateChange)
    }

    method TransitionTo(target: CircuitState, now: int)
      modifies this
      ensures Value() == Enter(old(Value()), target, now)
    {
      if state == target {
        return;
      }
      state := target;
      lastStateChange := now;
      match target {
        case Closed =>
          failures, successes, halfOpenRequests := 0, 0, 0;
        case HalfOpen =>
          successes, halfOpenRequests := 0, 0;
        case Open =>
          failures, successes, halfOpenRequests := 0, 0, 0;
      }
    }

    method CheckStateTransition(now: int)
      modifies this
      ensures Value() == Refresh(config, old(Value()), now)
    {
      if state == Open {
        if now - lastFailureTime >= config.timeout {
          TransitionTo(HalfOpen, now);
        }
      }
    }

    /** The first critical section of Execute: decide whether the call may run. */
    method Begin(now: int) returns (admission: Admission)
      modifies this
      ensures (Value(), admission) == Admit(config, old(Value()), now)
    {
      CheckStateTransition(now);
      if state == Open {
        return Rejection("circuit breaker is open");
      }
      if state == HalfOpen {
        if halfOpenRequests >= config.halfOpenRequests {
          return Rejection("circuit breaker half-open limit reached");
        }
        halfOpenRequests := halfOpenRequests + 1;
      }
      return Admitted;
    }

    method OnSuccess(now: int)
      modifies this
      ensures Value() == Record(config, old(Value()), false, now)
    {
      match state {
        case Closed =>
          failures := 0;
        case HalfOpen =>
          successes := successes + 1;
          if successes >= config.successThreshold {
            TransitionTo(Closed, now);
          }
        case Open =>
      }
    }

    method OnFailure(now: int)
      modifies this
      ensures Value() == Record(config, old(Value()), true, now)
    {
      lastFailureTime := now;
      match state {
        case Closed =>
          failures := failures + 1;
          if failures >= config.failureThreshold {
            TransitionTo(Open, now);
          }
        case HalfOpen =>
          TransitionTo(Open, now);
        case Open =>
      }
    }

    /** The second critical section of Execute. */
    method RecordResult(err: Option<GoError>, now: int)
      modifies this
      ensures Value() == Record(config, old(Value()), err.Some?, now)
    {
      if err.Some? {
        OnFailure(now);
      } else {
        OnSuccess(now);
      }
    }

    /** Execute with nothing else going on: `result` is what the protected call returns. */
    method Execute(result: Option<GoError>, began: int, ended: int) returns (err: Option<GoError>, ran: bool)
      modifies this
      ensures var (b, a) := Admit(config, old(Value()), began);
              && ran == a.Admitted?
              && (ran ==> err == result && Value() == Record(config, b, result.Some?, ended))
              && (!ran ==> err == Some(a.error) && Value() == b)
    {
      var admission := Begin(began);
      match admission {
        case Rejected(e) =>
          return Some(e), false;
        case Admitted =>
          RecordResult(result, ended);
          return result, true;
      }
    }

    method State(now: int) returns (s: CircuitState)
      modifies this
      ensures Value() == Refresh(config, old(Value()), now) && s == state
    {
      CheckStateTransition(now);
      s := state;
    }

    method Reset(now: int)
      modifies this
      ensures Value() == Cleared(old(Value()), now)
    {
      state := Closed;
      failures, successes, halfOpenRequests := 0, 0, 0;
      lastStateChange := now;
    }
  }

  // ----- one breaker per endpoint -----

  class PerEndpointBreaker {
    const config: Settings
    var breakers: map<string, CircuitBreaker>

    /** Every endpoint has its own breaker object, with the shared settings. */
    ghost predicate Valid()
      reads this, breakers.Values
    {
      && (forall e :: e in breakers ==> breakers[e].config == config)
      && (forall e, f :: e in breakers && f in breakers && e != f ==> breakers[e] != breakers[f])
    }

    /** An endpoint's breaker value; an endpoint never used behaves as a fresh breaker. */
    ghost function Value(endpoint: string): Option<Breaker>
      reads this, breakers.Values
    {
      if endpoint in breakers then Some(breakers[endpoint].Value()) else None
    }

    constructor (config: Settings)
      ensures Valid() && this.config == config && breakers == map[]
    {
      this.config := config;
      breakers := map[];
    }

    method GetOrCreate(endpoint: string, now: int) returns (cb: CircuitBreaker)
      requires Valid()
      modifies this
      ensures Valid() && endpoint in breakers && cb == breakers[endpoint]
      ensures breakers == old(breakers)[endpoint := cb]
      ensures if endpoint in old(breakers) then cb == old(breakers)[endpoint]
              else fresh(cb) && cb.Value() == Fresh(now)
    {
      if endpoint in breakers {
        return breakers[endpoint];
      }
      cb := new CircuitBreaker(config, now);
      breakers := breakers[endpoint := cb];
    }

    /** Runs a call under one endpoint's breaker; no other endpoint's breaker changes. */
    method Execute(endpoint: string, result: Option<GoError>, began: int, ended: int)
      returns (err: Option<GoError>, ran: bool)
      requires Valid()
      modifies this, breakers.Values
      ensures Valid()
      ensures forall other :: other != endpoint ==> Value(other) == old(Value(other))
      ensures var before := match old(Value(endpoint)) case Some(b) => b case None => Fresh(began);
              var (b, a) := Admit(config, before, began);
              && ran == a.Admitted?
              && err == (if ran then result else Some(a.error))
              && Value(endpoint) == Some(if ran then Record(config, b, result.Some?, ended) else b)
    {
      var cb := GetOrCreate(endpoint, began);
      err, ran := cb.Execute(result, began, ended);
    }

    method Reset(endpoint: string, now: int)
      requires Valid()
      modifies breakers.Values
      ensures Valid()
      ensures forall other :: other != endpoint ==> Value(other) == old(Value(other))
      ensures endpoint in breakers ==> Value(endpoint) == Some(Cleared(old(breakers[endpoint].Value()), now))
    {
      if endpoint in breakers {
        breakers[endpoint].Reset(now);
      }
    }
  }
}
