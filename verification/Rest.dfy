/**
 One REST request: the 401 refresh, the retries of safe requests, and the refusal to repeat a write whose fate is
 unknown, against a broker that answers as it likes and may or may not have applied what it received.
 */
module Rest {
  import opened Text
  import opened JsonValue
  import opened RateLimit
  import opened Reals

  /** How the body of a response reads. */
  datatype Body = NotJson | NotObject | Object(fields: Value)

  datatype Answer =
    | Lost                                                       // timeout or transport failure
    | Response(status: int, body: Body, retryAfter: Option<real>)

  /**
   What the world does with one turn of the request loop: no token to send with, or a send that the broker
   `applied` or not, its answer, and whether a token refresh after it would succeed.
   */
  datatype Turn = NoToken | Sent(applied: bool, answer: Answer, refreshWorks: bool)

  datatype Outcome =
    | Returned(fields: Value)
    | Ambiguous
    | RetryExhausted
    | ApiError(status: int)
    | InvalidResponse(status: int)
    | TokenFailure

  const AMBIGUOUS_WRITE_STATUSES: set<int> := {408, 500, 502, 503, 504}
  const RETRYABLE_STATUSES: set<int> := {408, 429, 500, 502, 503, 504}

  predicate IsSuccess(status: int) { 200 <= status < 300 }

  predicate Is401(t: Turn) { t.Sent? && t.answer.Response? && t.answer.status == 401 }

  /** A failure that a safe request tries again. */
  predicate IsTransient(t: Turn) {
    t.Sent? && (t.answer.Lost? || t.answer.status in RETRYABLE_STATUSES)
  }

  /** A success that carries a JSON object. */
  predicate AnsweredObject(t: Turn) {
    t.Sent? && t.answer.Response? && IsSuccess(t.answer.status) && t.answer.body.Object?
  }

  /** What leaves the fate of a write open: lost in transit, a listed status, or a success nobody can read. */
  predicate IsUnclear(t: Turn) {
    && t.Sent?
    && match t.answer
       case Lost => true
       case Response(status, body, _) => status in AMBIGUOUS_WRITE_STATUSES || (IsSuccess(status) && !body.Object?)
  }

  // ---------- the request loop in closed form ----------

  /** Whether one of the first `k` turns was answered 401. */
  ghost predicate Saw401(world: nat -> Turn, k: nat) {
    exists i: nat | i < k :: Is401(world(i))
  }

  /** The attempt number at turn `k`, when all earlier turns went on. */
  ghost function Attempt(world: nat -> Turn, k: nat): int {
    1 + k - if Saw401(world, k) then 1 else 0
  }

  ghost predicate GoesOn(world: nat -> Turn, p: RetryPolicy, safe: bool, k: nat) {
    || (Is401(world(k)) && !Saw401(world, k) && world(k).refreshWorks)
    || (safe && IsTransient(world(k)) && Attempt(world, k) < p.maxAttempts)
  }

  /** The request takes `n` turns: all but the last go on. */
  ghost predicate IsRun(world: nat -> Turn, p: RetryPolicy, safe: bool, n: nat) {
    n >= 1 && (forall i: nat | i < n - 1 :: GoesOn(world, p, safe, i)) && !GoesOn(world, p, safe, n - 1)
  }

  /** What the caller gets from the last turn. */
  ghost function Verdict(world: nat -> Turn, safe: bool, last: nat): Outcome {
    match world(last)
    case NoToken => TokenFailure
    case Sent(_, Lost, _) => if safe then RetryExhausted else Ambiguous
    case Sent(_, Response(status, body, _), refreshWorks) =>
      if status == 401 then
        if !Saw401(world, last) && !refreshWorks then TokenFailure else ApiError(401)
      else if IsSuccess(status) then
        if body.Object? then Returned(body.fields)
        else if safe then InvalidResponse(status) else Ambiguous
      else if !safe && status in AMBIGUOUS_WRITE_STATUSES then Ambiguous
      else ApiError(status)
  }

  /** The turn after which the `i`-th sleep happens. */
  ghost function SleepTurn(world: nat -> Turn, i: nat): nat {
    if Saw401(world, i + 1) then i + 1 else i
  }

  ghost function RetryAfterOf(t: Turn): Option<real> {
    if t.Sent? && t.answer.Response? then t.answer.retryAfter else None
  }

  /** The sleeps that `RequestJson` reports for a run of `n` turns. */
  ghost predicate AreSleeps(world: nat -> Turn, p: RetryPolicy, draws: nat -> real, n: nat, sleeps: seq<real>) {
    && n >= 1 && |sleeps| == Attempt(world, n - 1) - 1
    && forall i | 0 <= i < |sleeps| ::
         sleeps[i] == DelayForAttempt(p, i + 1, RetryAfterOf(world(SleepTurn(world, i))), draws(i))
  }

  /** The loop as the source writes it, counting its turns and its sleeps; `draws` are their random draws. */
  method RequestJson(world: nat -> Turn, p: RetryPolicy, retrySafe: bool, draws: nat -> real)
      returns (outcome: Outcome, turns: nat, sleeps: seq<real>)
    ensures IsRun(world, p, retrySafe, turns)
    ensures outcome == Verdict(world, retrySafe, turns - 1)
    ensures AreSleeps(world, p, draws, turns, sleeps)
    ensures outcome.Returned? <==> AnsweredObject(world(turns - 1))
    ensures outcome.Ambiguous? <==> !retrySafe && IsUnclear(world(turns - 1))
    ensures outcome.RetryExhausted? ==> retrySafe && |sleeps| + 1 >= p.maxAttempts && world(turns - 1).answer.Lost?
  {
    var attempt := 1;
    var refreshedAfter401 := false;
    var turn: nat := 0;
    sleeps := [];
    while true
      invariant forall i: nat | i < turn :: GoesOn(world, p, retrySafe, i)
      invariant refreshedAfter401 == Saw401(world, turn) && attempt == Attempt(world, turn) >= 1
      invariant |sleeps| == attempt - 1
      invariant forall i | 0 <= i < |sleeps| :: SleepTurn(world, i) < turn
      invariant forall i | 0 <= i < |sleeps| ::
                  sleeps[i] == DelayForAttempt(p, i + 1, RetryAfterOf(world(SleepTurn(world, i))), draws(i))
      decreases p.maxAttempts - attempt, !refreshedAfter401
    {
      turns := turn + 1;
      if world(turn).NoToken? {
        return TokenFailure, turns, sleeps;
      }
      var answer := world(turn).answer;
      if answer.Lost? {
        if !retrySafe {
          return Ambiguous, turns, sleeps;
        }
        if attempt >= p.maxAttempts {
          return RetryExhausted, turns, sleeps;
        }
        assert SleepTurn(world, |sleeps|) == turn;
        sleeps := sleeps + [DelayForAttempt(p, attempt, None, draws(|sleeps|))];
        attempt := attempt + 1;
        turn := turn + 1;
        continue;
      }
      if answer.status == 401 && !refreshedAfter401 {
        refreshedAfter401 := true;
        if !world(turn).refreshWorks {
          return TokenFailure, turns, sleeps;
        }
        turn := turn + 1;
        continue;
      }
      if IsSuccess(answer.status) {
        if answer.body.Object? {
          return Returned(answer.body.fields), turns, sleeps;
        }
        return if retrySafe then InvalidResponse(answer.status) else Ambiguous, turns, sleeps;
      }
      if !retrySafe && answer.status in AMBIGUOUS_WRITE_STATUSES {
        return Ambiguous, turns, sleeps;
      }
      if retrySafe && answer.status in RETRYABLE_STATUSES && attempt < p.maxAttempts {
        assert SleepTurn(world, |sleeps|) == turn;
        sleeps := sleeps + [DelayForAttempt(p, attempt, answer.retryAfter, draws(|sleeps|))];
        attempt := attempt + 1;
        turn := turn + 1;
        continue;
      }
      return ApiError(answer.status), turns, sleeps;
    }
  }

  // ---------- what the closed form promises ----------

  lemma {:induction false} RunIsUnique(world: nat -> Turn, p: RetryPolicy, safe: bool, m: nat, n: nat)
    requires IsRun(world, p, safe, m) && IsRun(world, p, safe, n)
    ensures m == n
  {
  }

  /** The world and the draws determine how often a request is sent, how it ends and how long it sleeps. */
  lemma {:induction false} RequestIsDetermined(
    world: nat -> Turn, p: RetryPolicy, safe: bool, draws: nat -> real,
    m: nat, n: nat, slept: seq<real>, sleeps: seq<real>)
    requires IsRun(world, p, safe, m) && AreSleeps(world, p, draws, m, slept)
    requires IsRun(world, p, safe, n) && AreSleeps(world, p, draws, n, sleeps)
    ensures m == n && Verdict(world, safe, m - 1) == Verdict(world, safe, n - 1) && slept == sleeps
  {
    RunIsUnique(world, p, safe, m, n);
  }

  /** A write takes a second turn only after a 401, and never a third. */
  lemma {:induction false} WriteTurns(world: nat -> Turn, p: RetryPolicy, n: nat)
    requires IsRun(world, p, false, n)
    ensures n <= 2 && (n == 2 ==> Is401(world(0)))
  {
    if n >= 2 {
      assert GoesOn(world, p, false, 0);
      assert Is401(world(0)) && Saw401(world, 1);
      assert !GoesOn(world, p, false, 1);
    }
  }

  /** How often the broker applied the request within the first `n` turns. */
  ghost function TimesApplied(world: nat -> Turn, n: nat): nat {
    if n == 0 then 0
    else TimesApplied(world, n - 1) + if world(n - 1).Sent? && world(n - 1).applied then 1 else 0
  }

  /** A broker that never applies what it answers 401 applies a write at most once, whatever else it does. */
  lemma {:induction false} WritesApplyAtMostOnce(world: nat -> Turn, p: RetryPolicy, n: nat)
    requires IsRun(world, p, false, n)
    requires forall i: nat :: Is401(world(i)) ==> !world(i).applied
    ensures TimesApplied(world, n) <= 1
  {
    WriteTurns(world, p, n);
    assert TimesApplied(world, 1) == TimesApplied(world, 0) + if world(0).Sent? && world(0).applied then 1 else 0;
    if n == 2 {
      assert TimesApplied(world, 2) == TimesApplied(world, 1) + if world(1).Sent? && world(1).applied then 1 else 0;
    }
  }

  /** A broker that applies every write and answers it with this status. */
  function Applying(status: int): nat -> Turn {
    (k: nat) => Sent(true, Response(status, NotJson, None), true)
  }

  /** An applied write that is answered with a server error ends ambiguous exactly for the listed statuses. */
  lemma {:induction false} ServerErrorIsAmbiguousIff(p: RetryPolicy, status: int)
    requires 500 <= status < 600
    ensures IsRun(Applying(status), p, false, 1) && TimesApplied(Applying(status), 1) == 1
    ensures Verdict(Applying(status), false, 0) ==
            if status in {500, 502, 503, 504} then Ambiguous else ApiError(status)
  {
    assert TimesApplied(Applying(status), 0) == 0;
    assert !GoesOn(Applying(status), p, false, 0);
  }

  /** A write that might have been applied never ends in a definite failure, except by a definite status. */
  lemma {:induction false} DefiniteWriteOutcome(world: nat -> Turn, p: RetryPolicy, n: nat)
    requires IsRun(world, p, false, n) && TimesApplied(world, n) >= 1
    requires forall i: nat :: Is401(world(i)) ==> !world(i).applied
    ensures world(n - 1).Sent? && world(n - 1).applied
    ensures var o := Verdict(world, false, n - 1);
            || o.Returned? || o.Ambiguous?
            || (o.ApiError? && !IsSuccess(o.status) && o.status !in AMBIGUOUS_WRITE_STATUSES)
  {
    WriteTurns(world, p, n);
    assert TimesApplied(world, 1) == TimesApplied(world, 0) + if world(0).Sent? && world(0).applied then 1 else 0;
    if n == 2 {
      assert TimesApplied(world, 2) == TimesApplied(world, 1) + if world(1).Sent? && world(1).applied then 1 else 0;
    }
  }

  /** A safe request takes at most one turn per attempt and one more for the 401; retries are over when spent. */
  lemma {:induction false} SafeTurns(world: nat -> Turn, p: RetryPolicy, safe: bool, n: nat)
    requires IsRun(world, p, safe, n)
    ensures n <= (if p.maxAttempts >= 1 then p.maxAttempts else 1) + 1
    ensures Attempt(world, n - 1) <= if p.maxAttempts >= 1 then p.maxAttempts else 1
  {
    if n >= 2 {
      assert GoesOn(world, p, safe, n - 2);
      if Is401(world(n - 2)) && !Saw401(world, n - 2) {
        if n >= 3 {
          assert GoesOn(world, p, safe, n - 3) && !Is401(world(n - 3));
        }
        assert Saw401(world, n - 1);
      }
    }
  }

  function Sum(xs: seq<real>): real {
    if xs == [] then 0.0 else Sum(xs[..|xs| - 1]) + xs[|xs| - 1]
  }

  lemma {:induction false} SumWithin(xs: seq<real>, k: nat, most: real)
    requires |xs| <= k && most >= 0.0 && forall i | 0 <= i < |xs| :: xs[i] <= most
    ensures Sum(xs) <= Repeated(k, most)
    decreases k
  {
    if k > |xs| || (k > 0 && xs != []) {
      SumWithin(if k > |xs| then xs else xs[..|xs| - 1], k - 1, most);
    }
  }

  lemma {:induction false} DoublingSum(xs: seq<real>, base: real)
    requires forall i | 0 <= i < |xs| :: xs[i] <= Doubled(base, i)
    ensures Sum(xs) <= Doubled(base, |xs|) - base
  {
    if xs != [] {
      DoublingSum(xs[..|xs| - 1], base);
    }
  }

  function Retries(p: RetryPolicy): nat {
    if p.maxAttempts >= 1 then p.maxAttempts - 1 else 0
  }

  ghost predicate AreFair(p: RetryPolicy, draws: nat -> real) {
    forall i: nat :: FairDraw(p, i + 1, draws(i))
  }

  /** The doubling series of all retries: the base delay times 2^retries - 1. */
  function SeriesWait(p: RetryPolicy): real {
    p.baseDelay * (PowerOfTwo(Retries(p)) - 1) as real
  }

  ghost predicate NeverAsksToWait(world: nat -> Turn) {
    forall i: nat :: RetryAfterOf(world(i)).None?
  }

  lemma {:induction false} SleepsAreBounded(
    world: nat -> Turn, p: RetryPolicy, safe: bool, draws: nat -> real, n: nat, sleeps: seq<real>)
    requires IsSane(p) && AreFair(p, draws)
    requires IsRun(world, p, safe, n) && AreSleeps(world, p, draws, n, sleeps)
    ensures |sleeps| <= Retries(p) && Sum(sleeps) <= Repeated(Retries(p), LongestDelay(p))
    ensures p.jitterRatio <= 0.0 && NeverAsksToWait(world) ==>
              Sum(sleeps) <= Doubled(p.baseDelay, |sleeps|) - p.baseDelay
  {
    SafeTurns(world, p, safe, n);
    DelayIsBounded(p, 1, None, draws(0));
    forall i | 0 <= i < |sleeps|
      ensures sleeps[i] <= LongestDelay(p)
      ensures p.jitterRatio <= 0.0 && RetryAfterOf(world(SleepTurn(world, i))).None? ==>
                sleeps[i] <= Doubled(p.baseDelay, i)
    {
      DelayIsBounded(p, i + 1, RetryAfterOf(world(SleepTurn(world, i))), draws(i));
    }
    SumWithin(sleeps, Retries(p), LongestDelay(p));
    if p.jitterRatio <= 0.0 && NeverAsksToWait(world) {
      DoublingSum(sleeps, p.baseDelay);
    }
  }

  /**
   The whole wait of a request is at most its retries times the longest sleep the policy allows; with neither
   jitter nor Retry-After it is also at most the base delay times 2^retries - 1.
   */
  lemma {:induction false} WaitIsBounded(
    world: nat -> Turn, p: RetryPolicy, safe: bool, draws: nat -> real, n: nat, sleeps: seq<real>)
    requires IsSane(p) && AreFair(p, draws)
    requires IsRun(world, p, safe, n) && AreSleeps(world, p, draws, n, sleeps)
    ensures |sleeps| <= Retries(p) && Sum(sleeps) <= Repeated(Retries(p), LongestDelay(p))
    ensures p.jitterRatio <= 0.0 && NeverAsksToWait(world) ==> Sum(sleeps) <= SeriesWait(p)
  {
    SleepsAreBounded(world, p, safe, draws, n, sleeps);
    if p.jitterRatio <= 0.0 && NeverAsksToWait(world) {
      AtMostSeries(Sum(sleeps), p, |sleeps|);
    }
  }

  lemma {:induction false} AtMostSeries(total: real, p: RetryPolicy, j: nat)
    requires p.baseDelay >= 0.0 && j <= Retries(p) && total <= Doubled(p.baseDelay, j) - p.baseDelay
    ensures total <= SeriesWait(p)
  {
    DoubledIsMonotonic(p.baseDelay, j, Retries(p));
    SeriesInClosedForm(p.baseDelay, Retries(p));
  }
}
