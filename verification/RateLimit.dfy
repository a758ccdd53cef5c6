/** Delays between attempts: the retry policy of plain requests and the reconnect policy of streams. */
module RateLimit {
  import opened Reals
  import opened Text

  datatype RetryPolicy = RetryPolicy(
    maxAttempts: int,
    baseDelay: real,
    maxDelay: real,
    jitterRatio: real,
    retryAfterCeiling: real)

  datatype ReconnectPolicy = ReconnectPolicy(
    maxReconnects: int,
    baseDelay: real,
    maxDelay: real,
    retryAfterCeiling: real)

  function Backoff(base: real, most: real, number: int): real {
    Min(Doubled(base, if number <= 1 then 0 else number - 1), most)
  }

  /** `drawn` is what the random source returned for the jitter interval. */
  function DelayForAttempt(p: RetryPolicy, attempt: int, retryAfter: Option<real>, drawn: real): real {
    match retryAfter
    case Some(seconds) => Min(Max(0.0, seconds), p.retryAfterCeiling)
    case None =>
      var delay := Backoff(p.baseDelay, p.maxDelay, attempt);
      if p.jitterRatio <= 0.0 then delay else Max(0.0, delay + drawn)
  }

  /** The random source, where it is asked at all, stays inside the interval it was given. */
  predicate FairDraw(p: RetryPolicy, attempt: int, drawn: real) {
    var spread := Scaled(Backoff(p.baseDelay, p.maxDelay, attempt), p.jitterRatio);
    p.jitterRatio > 0.0 ==> -spread <= drawn <= spread
  }

  function DelayForReconnect(p: ReconnectPolicy, number: int, retryAfter: Option<real>): real {
    match retryAfter
    case Some(seconds) => Min(Max(0.0, seconds), p.retryAfterCeiling)
    case None => Max(0.0, Backoff(p.baseDelay, p.maxDelay, number))
  }

  /** The stream policy that the REST client derives from its retry policy. */
  function StreamPolicy(p: RetryPolicy): ReconnectPolicy {
    ReconnectPolicy(if p.maxAttempts >= 1 then p.maxAttempts - 1 else 0, p.baseDelay, p.maxDelay, p.retryAfterCeiling)
  }

  function JitterFactor(p: RetryPolicy): real { 1.0 + Max(0.0, p.jitterRatio) }

  /** The longest wait that one sleep of a retried request can be. */
  function LongestDelay(p: RetryPolicy): real {
    Max(p.retryAfterCeiling, Scaled(p.maxDelay, JitterFactor(p)))
  }

  predicate IsSane(p: RetryPolicy) {
    p.baseDelay >= 0.0 && p.maxDelay >= 0.0 && p.retryAfterCeiling >= 0.0
  }

  lemma {:induction false} BackoffIsBounded(base: real, most: real, number: int)
    requires base >= 0.0 && most >= 0.0
    ensures 0.0 <= Backoff(base, most, number) <= most
    ensures Backoff(base, most, number) <= Doubled(base, if number <= 1 then 0 else number - 1)
  {
    DoubledGrows(base, if number <= 1 then 0 else number - 1);
  }

  lemma {:induction false} Jittered(delay: real, ratio: real, drawn: real, most: real, factor: real)
    requires 0.0 <= delay <= most && ratio >= 0.0 && factor == 1.0 + ratio
    requires drawn <= Scaled(delay, ratio)
    ensures delay + drawn <= Scaled(most, factor)
    ensures Scaled(most, factor) >= 0.0
  {
    assert delay * factor == delay + delay * ratio;
    assert (most - delay) * factor >= 0.0;
    assert (most - delay) * factor == most * factor - delay * factor;
  }

  /** No sleep is negative, and none is longer than the policy allows, whatever the server asks for or chance draws. */
  lemma {:induction false} DelayIsBounded(p: RetryPolicy, attempt: int, retryAfter: Option<real>, drawn: real)
    requires IsSane(p) && FairDraw(p, attempt, drawn)
    ensures 0.0 <= DelayForAttempt(p, attempt, retryAfter, drawn) <= LongestDelay(p)
    ensures retryAfter.None? && p.jitterRatio <= 0.0 ==>
              DelayForAttempt(p, attempt, retryAfter, drawn)
                <= Doubled(p.baseDelay, if attempt <= 1 then 0 else attempt - 1)
  {
    var delay := Backoff(p.baseDelay, p.maxDelay, attempt);
    BackoffIsBounded(p.baseDelay, p.maxDelay, attempt);
    if p.jitterRatio > 0.0 {
      Jittered(delay, p.jitterRatio, drawn, p.maxDelay, JitterFactor(p));
    } else {
      Jittered(delay, 0.0, 0.0, p.maxDelay, JitterFactor(p));
    }
  }
}
