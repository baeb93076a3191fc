/**
  The SDK's error values (sdk/errors.go): the enhanced error with its type, the plain
  HTTP, network and timeout errors, and the chain walked by errors.Is and errors.As.
 */
module Errors {
  import opened Options

  datatype ErrorType =
    | UnknownType
    | NetworkType
    | TimeoutType
    | ServerType
    | ClientType
    | CircuitOpenType
    | RateLimitType
    | ValidationType
    | RetryBudgetType

  /** The package-level error values that errors.Is compares against. */
  datatype Sentinel =
    | ErrTimeout
    | ErrServerError
    | ErrRateLimited
    | ErrCircuitOpen
    | ErrRetryBudgetExhausted
    | ContextCanceled
    | DeadlineExceeded
    | OtherSentinel(text: string)

  datatype GoError =
    | Plain(sentinel: Sentinel)
    | Enhanced(kind: ErrorType, message: string, retryable: bool, wrapped: Option<GoError>)
    | Api(status: int, code: string, text: string)
    | Network(op: string, cause: GoError)
    | TimedOut(op: string)
    | Annotated(note: string, cause: GoError)

  /** The sentinel an enhanced error of this type claims to be. */
  function SentinelOf(kind: ErrorType): Option<Sentinel> {
    match kind
    case TimeoutType => Some(ErrTimeout)
    case ServerType => Some(ErrServerError)
    case CircuitOpenType => Some(ErrCircuitOpen)
    case RateLimitType => Some(ErrRateLimited)
    case RetryBudgetType => Some(ErrRetryBudgetExhausted)
    case _ => None
  }

  /** errors.Is against a sentinel. */
  predicate Is(e: GoError, target: Sentinel) {
    || e == Plain(target)
    || (e.Enhanced? && SentinelOf(e.kind) == Some(target))
    || match e
       case Enhanced(_, _, _, Some(c)) => Is(c, target)
       case Network(_, c) => Is(c, target)
       case Annotated(_, c) => Is(c, target)
       case _ => false
  }

  /** errors.As: the first error of the chain accepted by `pick`. */
  function As(e: GoError, pick: GoError -> bool): Option<GoError> {
    if pick(e) then Some(e)
    else match e
      case Enhanced(_, _, _, Some(c)) => As(c, pick)
      case Network(_, c) => As(c, pick)
      case Annotated(_, c) => As(c, pick)
      case _ => None
  }

  function AsEnhanced(e: GoError): Option<GoError> { As(e, (x: GoError) => x.Enhanced?) }

  predicate IsRetryableType(kind: ErrorType) {
    kind.NetworkType? || kind.TimeoutType? || kind.ServerType? || kind.RateLimitType?
  }

  function NewError(kind: ErrorType, message: string, wrapped: Option<GoError>): GoError {
    Enhanced(kind, message, IsRetryableType(kind), wrapped)
  }

  /** Wrapping keeps an enhanced error already in the chain and only renames it. */
  function WrapError(e: GoError, kind: ErrorType, message: string): GoError {
    match AsEnhanced(e)
    case Some(x) => if x.Enhanced? then x.(message := message) else x
    case None => NewError(kind, message, Some(e))
  }

  predicate ApiRetryable(status: int) {
    status >= 500 || status == 429 || status == 408 || status == 504
  }

  /** APIError.ToError. */
  function ApiToError(status: int, code: string, text: string): GoError {
    var kind := if status >= 500 then ServerType
                else if status == 429 then RateLimitType
                else if status == 408 || status == 504 then TimeoutType
                else ClientType;
    NewError(kind, text, Some(Api(status, code, text)))
  }

  /** NetworkError.ToError. */
  function NetworkToError(op: string, cause: GoError): GoError {
    NewError(NetworkType, op, Some(Network(op, cause)))
  }

  predicate IsRetryable(e: GoError) {
    if Is(e, ErrTimeout) || Is(e, ErrServerError) || Is(e, ErrRateLimited) then true
    else match AsEnhanced(e)
      case Some(x) => x.Enhanced? && x.retryable
      case None =>
        match As(e, (x: GoError) => x.Api?)
        case Some(x) => x.Api? && ApiRetryable(x.status)
        case None => As(e, (x: GoError) => x.Network?).Some? || As(e, (x: GoError) => x.TimedOut?).Some?
  }

  // ----- what the classification means -----

  /** Annotating an error (fmt.Errorf with %w) never changes whether it is retried. */
  lemma AnnotationIsTransparent(note: string, e: GoError)
    ensures IsRetryable(Annotated(note, e)) == IsRetryable(e)
    ensures forall t :: Is(Annotated(note, e), t) == Is(e, t)
  {
    assert AsEnhanced(Annotated(note, e)) == AsEnhanced(e);
  }

  /**
    The enhanced error that errors.As finds matches every sentinel the whole chain matches, from
    its own position on.
   */
  lemma {:induction false} EnhancedCarriesSentinels(e: GoError, target: Sentinel)
    requires AsEnhanced(e).Some?
    ensures AsEnhanced(e).value.Enhanced?
    ensures Is(e, target) == Is(AsEnhanced(e).value, target)
  {
    match e
    case Network(_, c) => EnhancedCarriesSentinels(c, target);
    case Annotated(_, c) => EnhancedCarriesSentinels(c, target);
    case _ =>
  }

  /** Wrapping an error that already has an enhanced error inside keeps its retry decision. */
  lemma WrapKeepsRetryDecision(e: GoError, kind: ErrorType, message: string)
    requires AsEnhanced(e).Some?
    ensures IsRetryable(WrapError(e, kind, message)) == IsRetryable(e)
  {
    EnhancedCarriesSentinels(e, ErrTimeout);
    EnhancedCarriesSentinels(e, ErrServerError);
    EnhancedCarriesSentinels(e, ErrRateLimited);
  }

  /** A timeout error that matches its cause as well as ErrTimeout, and counts as retryable. */
  predicate CancelledBy(e: GoError, cause: Sentinel) {
    e.Enhanced? && e.kind == TimeoutType && Is(e, cause) && Is(e, ErrTimeout) && IsRetryable(e)
  }

  /** A cancelled context becomes such an error. */
  lemma CancellationWrapper(cause: Sentinel, message: string)
    ensures CancelledBy(WrapError(Plain(cause), TimeoutType, message), cause)
  {
  }

  /** An HTTP error response is retried exactly for 5xx, 429 and 408, by both error forms. */
  lemma HttpRetryClasses(status: int, code: string, text: string)
    ensures IsRetryable(ApiToError(status, code, text)) <==> status >= 500 || status == 429 || status == 408
    ensures IsRetryable(Api(status, code, text)) <==> IsRetryable(ApiToError(status, code, text))
  {
    var inner := Api(status, code, text);
    assert As(inner, (x: GoError) => x.Api?) == Some(inner);
    assert !Is(inner, ErrTimeout) && !Is(inner, ErrServerError) && !Is(inner, ErrRateLimited);
  }

  /** An error made for a type is retried exactly for network, timeout, server and rate-limit errors. */
  lemma TypeRetryClasses(kind: ErrorType, message: string)
    ensures IsRetryable(NewError(kind, message, None)) <==>
              kind == NetworkType || kind == TimeoutType || kind == ServerType || kind == RateLimitType
    ensures NewError(kind, message, None).retryable <==> IsRetryable(NewError(kind, message, None))
  {
    var e := NewError(kind, message, None);
    assert AsEnhanced(e) == Some(e);
  }

  /** The only sentinels an error made for a type matches: one each for five types. */
  lemma TypeSentinels(kind: ErrorType, message: string, target: Sentinel)
    ensures Is(NewError(kind, message, None), target) <==>
              || (kind == TimeoutType && target == ErrTimeout)
              || (kind == ServerType && target == ErrServerError)
              || (kind == CircuitOpenType && target == ErrCircuitOpen)
              || (kind == RateLimitType && target == ErrRateLimited)
              || (kind == RetryBudgetType && target == ErrRetryBudgetExhausted)
  {
    assert AsEnhanced(NewError(kind, message, None)) == Some(NewError(kind, message, None));
  }

  /** Plain values: three sentinels and the timeout and network errors are retried, nothing else. */
  lemma PlainRetryClasses(sentinel: Sentinel, op: string, cause: Sentinel)
    ensures IsRetryable(Plain(sentinel)) <==>
              sentinel == ErrTimeout || sentinel == ErrServerError || sentinel == ErrRateLimited
    ensures IsRetryable(TimedOut(op)) && IsRetryable(Network(op, Plain(cause)))
  {
    assert AsEnhanced(Plain(cause)) == None && As(Plain(cause), (x: GoError) => x.Api?) == None;
    assert AsEnhanced(Network(op, Plain(cause))) == None;
    assert As(Network(op, Plain(cause)), (x: GoError) => x.Api?) == None;
    assert As(Network(op, Plain(cause)), (x: GoError) => x.Network?).Some?;
    assert As(TimedOut(op), (x: GoError) => x.TimedOut?).Some?;
  }

  /** An HTTP error matches the sentinel of its class, and no other. */
  lemma HttpSentinels(status: int, code: string, text: string, target: Sentinel)
    ensures Is(ApiToError(status, code, text), target) <==>
              || (status >= 500 && target == ErrServerError)
              || (status == 429 && target == ErrRateLimited)
              || (status == 408 && target == ErrTimeout)
  {
  }

  /** Wrapping an error that holds no enhanced one keeps what it matches and adds the sentinel of the type. */
  lemma WrapMatches(e: GoError, kind: ErrorType, message: string, op: string, target: Sentinel)
    requires AsEnhanced(e) == None
    ensures Is(WrapError(e, kind, message), target) <==> Is(e, target) || Is(NewError(kind, message, None), target)
    ensures NetworkToError(op, e).kind == NetworkType && (Is(NetworkToError(op, e), target) <==> Is(e, target))
  {
  }

  /** A network failure is retried whatever caused it; a breaker rejection never is. */
  lemma NetworkRetriedRejectionNot(op: string, cause: GoError, message: string)
    ensures IsRetryable(NetworkToError(op, cause))
    ensures !IsRetryable(NewError(CircuitOpenType, message, Some(Plain(ErrCircuitOpen))))
  {
    var rejection := NewError(CircuitOpenType, message, Some(Plain(ErrCircuitOpen)));
    assert !Is(Plain(ErrCircuitOpen), ErrTimeout);
    assert !Is(Plain(ErrCircuitOpen), ErrServerError);
    assert !Is(Plain(ErrCircuitOpen), ErrRateLimited);
    assert AsEnhanced(rejection) == Some(rejection);
  }
}
