/** retry_policy.py: the error classes, which of them may be retried, and how long to wait. */
module RetryPolicies {

  datatype RetryAction = Repeat | AdaptRequest | ResetTransport | RefreshAuth | Fatal

  datatype RetryPolicy = RetryPolicy(retryable: bool, action: RetryAction, maxRetries: nat,
                                     backoff: nat -> real, jitterRatio: real, maxDelaySeconds: real)

  /** The classified error types, one for each key of the policy table, and any other name a tool may report. */
  datatype ErrorType =
    | Timeout | RateLimited | ApiError | IdleTimeout
    | Unreachable | Interrupted | ConnectionError
    | PayloadTooLarge | ContextLengthExceeded | ImageProcessingError
    | AuthExpiredRefreshable
    | NotFound | HookError | PermissionDenied | ValidationError | AuthExpired | BudgetExceeded | AmbiguousInput
    | PermanentTransportError | EmptyResponse | SerializationError | MaxTokensTruncation | InvalidConfiguration
    | DoomLoopDetected | Unknown | RateLimit
    | Unlisted(name: string)

  /** A draw of random.uniform(-1, 1), scaled by the jitter ratio of the policy. */
  type Jitter = u: real | -1.0 <= u <= 1.0

  function Min(a: real, b: real): real { if a <= b then a else b }
  function Max(a: real, b: real): real { if a >= b then a else b }

  function Pow2(n: nat): real {
    if n == 0 then 1.0 else 2.0 * Pow2(n - 1)
  }

  function Exponential(base: real): nat -> real {
    (n: nat) => base * Pow2(n)
  }

  function Retryable(action: RetryAction, maxRetries: nat, backoff: nat -> real): RetryPolicy {
    RetryPolicy(true, action, maxRetries, backoff, 0.2, 30.0)
  }

  const FATAL: RetryPolicy := RetryPolicy(false, Fatal, 3, Exponential(0.5), 0.2, 30.0)

  /** The policy table; unlisted error types are fatal, like the types the table lists as fatal. */
  function GetPolicy(errorType: ErrorType): (p: RetryPolicy)
    ensures p.jitterRatio == 0.2 && p.maxDelaySeconds == 30.0
  {
    match errorType
    case Timeout => Retryable(Repeat, 3, Exponential(0.5))
    case RateLimited => Retryable(Repeat, 2, (n: nat) => Min((60 + 30 * n) as real, 300.0))
    case ApiError => Retryable(Repeat, 3, Exponential(1.0))
    case IdleTimeout => Retryable(Repeat, 2, Exponential(2.0))
    case Unreachable => Retryable(ResetTransport, 5, Exponential(2.0))
    case Interrupted => Retryable(ResetTransport, 3, Exponential(1.0))
    case ConnectionError => Retryable(ResetTransport, 5, Exponential(2.0))
    case PayloadTooLarge => Retryable(AdaptRequest, 2, Exponential(0.5))
    case ContextLengthExceeded => Retryable(AdaptRequest, 2, Exponential(0.5))
    case ImageProcessingError => Retryable(AdaptRequest, 2, Exponential(0.5))
    case AuthExpiredRefreshable => Retryable(RefreshAuth, 2, Exponential(1.0))
    case RateLimit => Retryable(Repeat, 2, Exponential(0.5))
    case _ => FATAL
  }

  /** A jittered delay, never negative and never above the cap of the policy. */
  function ComputeBackoff(policy: RetryPolicy, attempt: nat, jitter: Jitter): (delay: real)
    ensures policy.maxDelaySeconds >= 0.0 ==> 0.0 <= delay <= policy.maxDelaySeconds
  {
    var base := Min(policy.backoff(attempt), policy.maxDelaySeconds);
    if base <= 0.0 then 0.0
    else Max(0.0, Min(policy.maxDelaySeconds, base * (1.0 + jitter * policy.jitterRatio)))
  }

  /** The types that may be retried at all. */
  const RETRYABLE: set<ErrorType> := {
    Timeout, RateLimited, ApiError, IdleTimeout, Unreachable, Interrupted, ConnectionError,
    PayloadTooLarge, ContextLengthExceeded, ImageProcessingError, AuthExpiredRefreshable, RateLimit
  }

  lemma RetryableIff(errorType: ErrorType)
    ensures GetPolicy(errorType).retryable <==> errorType in RETRYABLE
  {
  }

  lemma {:induction false} Pow2Positive(n: nat)
    ensures Pow2(n) >= 1.0
  {
    if n > 0 {
      Pow2Positive(n - 1);
    }
  }

  function Jittered(base: real, jitter: Jitter): real {
    base * (1.0 + jitter * 0.2)
  }

  lemma JitterIsAFifth(base: real, jitter: Jitter)
    requires base > 0.0
    ensures 0.8 * base <= Jittered(base, jitter) <= 1.2 * base
    ensures jitter == 0.0 ==> Jittered(base, jitter) == base
  {
    var u: real := jitter;
    assert Jittered(base, jitter) == base + 0.2 * (base * u);
    assert base * u <= base && base * u >= -base;
  }

  function Capped(delay: real): real {
    Max(0.0, Min(30.0, delay))
  }

  lemma CappedFacts(base: real, delay: real)
    requires 0.0 < base <= 30.0 && 0.8 * base <= delay <= 1.2 * base
    ensures 0.8 * base <= Capped(delay) <= 1.2 * base && Capped(delay) <= 30.0
    ensures delay == base ==> Capped(delay) == base
  {
  }

  lemma DelayIsCapped(p: RetryPolicy, attempt: nat, jitter: Jitter, base: real)
    requires p.jitterRatio == 0.2 && p.maxDelaySeconds == 30.0 && base == Min(p.backoff(attempt), 30.0) && base > 0.0
    ensures ComputeBackoff(p, attempt, jitter) == Capped(Jittered(base, jitter))
  {
  }

  /** The wait follows the policy up to a fifth, and never exceeds half a minute. */
  lemma WaitFollowsPolicy(p: RetryPolicy, attempt: nat, jitter: Jitter)
    requires p.jitterRatio == 0.2 && p.maxDelaySeconds == 30.0 && p.backoff(attempt) > 0.0
    ensures var delay, wanted := ComputeBackoff(p, attempt, jitter), p.backoff(attempt);
            && (wanted <= 30.0 ==> 0.8 * wanted <= delay <= 1.2 * wanted)
            && (wanted <= 30.0 && jitter == 0.0 ==> delay == wanted)
            && (wanted >= 30.0 ==> 24.0 <= delay <= 30.0)
  {
    hide Capped, Jittered, ComputeBackoff;
    var base := Min(p.backoff(attempt), 30.0);
    JitterIsAFifth(base, jitter);
    CappedFacts(base, Jittered(base, jitter));
    DelayIsCapped(p, attempt, jitter, base);
  }

  /** What the policies ask for is positive and doubles with every attempt, but for rate limits. */
  lemma BackoffDoubles(errorType: ErrorType, attempt: nat)
    ensures GetPolicy(errorType).backoff(attempt) > 0.0
    ensures errorType != RateLimited ==>
              GetPolicy(errorType).backoff(attempt + 1) == 2.0 * GetPolicy(errorType).backoff(attempt)
  {
    Pow2Positive(attempt);
  }

  /** What is asked for before the first retry, in seconds. */
  lemma FirstWaits(errorType: ErrorType)
    ensures GetPolicy(errorType).backoff(0)
         == if errorType == RateLimited then 60.0
            else if errorType in {IdleTimeout, Unreachable, ConnectionError} then 2.0
            else if errorType in {ApiError, Interrupted, AuthExpiredRefreshable} then 1.0
            else 0.5
  {
    assert Pow2(0) == 1.0;
  }

  /** The table asks for a minute and more after a rate limit, but the cap cuts every such wait to half a minute. */
  lemma RateLimitIsCut(attempt: nat, jitter: Jitter)
    ensures GetPolicy(RateLimited).backoff(attempt) >= 60.0
    ensures 24.0 <= ComputeBackoff(GetPolicy(RateLimited), attempt, jitter) <= 30.0
  {
    WaitFollowsPolicy(GetPolicy(RateLimited), attempt, jitter);
  }
}
