/** ExecuteWithRetry: which attempt it returns, and how long it can take. Durations are int64 nanoseconds. */
module Retry {
  import opened Wrappers
  import opened Schema
  import Lifecycle

  datatype ProbeError = Canceled(message: string) | Other(message: string)

  /** What one call of Execute gives back, and how long it took. */
  datatype Attempt = Attempt(result: ProbeResult, err: Option<ProbeError>, elapsed: nat)

  /** What ends one back-off wait: the timer, or the context after some part of it. */
  datatype Backoff = TimerFires | ContextDone(message: string, waited: nat)

  const NANOSECONDS_PER_MILLISECOND := 1_000_000
  const TWO_TO_THE_63: int := 0x8000_0000_0000_0000

  function Wrap64(x: int): int {
    if -TWO_TO_THE_63 <= x < TWO_TO_THE_63 then x
    else (x + TWO_TO_THE_63) % (2 * TWO_TO_THE_63) - TWO_TO_THE_63
  }

  function Pow2(n: nat): nat { if n == 0 then 1 else 2 * Pow2(n - 1) }

  /** time.Duration(1 << attempt). */
  function Shift(attempt: nat): int { if attempt < 64 then Wrap64(Pow2(attempt)) else 0 }

  /** baseDelay * time.Duration(1 << attempt), in int64 arithmetic. */
  function Delay(baseDelay: int, attempt: nat): int { Wrap64(baseDelay * Shift(attempt)) }

  /** A timer with a negative duration fires at once. */
  function WaitTime(delay: int): nat { if delay > 0 then delay else 0 }

  predicate Retryable(a: Attempt) {
    if a.err.Some? && a.err.value.Canceled? then false
    else if 400 <= a.result.httpStatus < 500 then false
    else if a.result.httpStatus >= 500 then true
    else if a.result.errorCode in {"dns_error", "connection_refused", "timeout", "tls_error", "network_error"} then true
    else a.err.Some?
  }

  /** The attempt needs no further one. */
  predicate Settled(a: Attempt) { a.result.success || !Retryable(a) }

  /** The reported result: an empty message is filled from the error. */
  function Reported(a: Attempt): ProbeResult {
    if a.err.Some? && a.result.errorMessage == "" then a.result.(errorMessage := a.err.value.message) else a.result
  }

  const NO_RESULT := ProbeResult(false, 0, "", "")

  /** Time spent in the attempts before `n` and in the waits after them. */
  function TimeBefore(probe: nat -> Attempt, baseDelay: int, n: nat): nat {
    if n == 0 then 0
    else TimeBefore(probe, baseDelay, n - 1) + probe(n - 1).elapsed + WaitTime(Delay(baseDelay, n - 1))
  }

  /** `n` is the attempt the call returns from: every earlier one had to be retried and was waited out. */
  predicate ReturnsFrom(probe: nat -> Attempt, wait: nat -> Backoff, maxRetries: nat, n: nat) {
    && n <= maxRetries
    && (forall i | 0 <= i < n :: !Settled(probe(i)) && wait(i) == TimerFires)
    && (Settled(probe(n)) || n == maxRetries || wait(n).ContextDone?)
  }

  /** Which attempt the caller is told about, and what: nothing that succeeded, was cancelled or was answered with a
      4xx is followed by another attempt, and each attempt that is followed by one had a 5xx, a failure of the network
      or an error. The last attempt is reported as it was, its error in place of a missing message; a wait that the
      context ends is reported instead of the attempt. */
  ghost predicate Returned(
    probe: nat -> Attempt, wait: nat -> Backoff, maxRetries: nat, result: ProbeResult, attempts: int)
  {
    && 1 <= attempts <= maxRetries + 1
    && (forall i | 0 <= i < attempts - 1 ::
          var a := probe(i);
          && !a.result.success && !(a.err.Some? && a.err.value.Canceled?) && !(400 <= a.result.httpStatus <= 499)
          && (a.result.httpStatus >= 500 || a.err.Some? || NetworkFailure(a.result.errorCode))
          && wait(i) == TimerFires)
    && var last := probe(attempts - 1);
       var over := || last.result.success || (last.err.Some? && last.err.value.Canceled?)
                   || 400 <= last.result.httpStatus <= 499
                   || (last.result.httpStatus < 400 && last.err == None && !NetworkFailure(last.result.errorCode));
       && (!over && attempts <= maxRetries ==>
             && wait(attempts - 1).ContextDone?
             && result == ProbeResult(false, 0, "network_error", wait(attempts - 1).message))
       && (over || attempts == maxRetries + 1 ==>
             && result.success == last.result.success && result.httpStatus == last.result.httpStatus
             && result.errorCode == last.result.errorCode
             && result.errorMessage == if last.result.errorMessage == "" && last.err.Some? then last.err.value.message
                                       else last.result.errorMessage)
  }

  lemma ReturnedIs(probe: nat -> Attempt, wait: nat -> Backoff, maxRetries: nat, result: ProbeResult, attempts: int)
    requires attempts >= 1 && ReturnsFrom(probe, wait, maxRetries, attempts - 1)
    requires var n := attempts - 1;
      result == if Settled(probe(n)) || n == maxRetries then Reported(probe(n))
                else ProbeResult(false, 0, "network_error", wait(n).message)
    ensures Returned(probe, wait, maxRetries, result, attempts)
  {}

  ghost predicate NetworkFailure(code: string) {
    || code == "dns_error" || code == "connection_refused" || code == "timeout" || code == "tls_error"
    || code == "network_error"
  }

  /** `calls` counts the calls of Execute and `elapsed` the time until the return. */
  method ExecuteWithRetry(probe: nat -> Attempt, wait: nat -> Backoff, maxRetries: int, baseDelay: int)
    returns (result: ProbeResult, attempts: int, ghost calls: nat, ghost elapsed: nat)
    ensures maxRetries < 0 ==> result == ProbeResult(false, 0, "", "") && attempts == maxRetries + 1
    ensures maxRetries < 0 ==> calls == 0 && elapsed == 0
    ensures maxRetries >= 0 ==> attempts >= 1 && ReturnsFrom(probe, wait, maxRetries, attempts - 1)
    ensures maxRetries >= 0 ==> Returned(probe, wait, maxRetries, result, attempts)
    ensures maxRetries >= 0 ==>
      var n := attempts - 1;
      result == if Settled(probe(n)) || n == maxRetries then Reported(probe(n))
                else ProbeResult(false, 0, "network_error", wait(n).message)
    ensures maxRetries >= 0 ==>
      var n := attempts - 1;
      && calls == attempts
      && if Settled(probe(n)) || n == maxRetries
         then elapsed == TimeBefore(probe, baseDelay, n) + probe(n).elapsed
         else elapsed <= TimeBefore(probe, baseDelay, n + 1)
  {
    result, calls, elapsed := NO_RESULT, 0, 0;
    var attempt := 0;
    while attempt <= maxRetries
      invariant 0 <= attempt && calls == attempt && (maxRetries >= 0 ==> attempt <= maxRetries)
      invariant maxRetries < 0 ==> attempt == 0 && result == NO_RESULT
      invariant forall i | 0 <= i < attempt :: !Settled(probe(i)) && wait(i) == TimerFires
      invariant elapsed == TimeBefore(probe, baseDelay, attempt)
      decreases maxRetries - attempt
    {
      var current := probe(attempt);
      calls, elapsed := calls + 1, elapsed + current.elapsed;
      result := current.result;
      if current.err.Some? && result.errorMessage == "" {
        result := result.(errorMessage := current.err.value.message);
      }
      if result.success || !Retryable(current.(result := result)) || attempt == maxRetries {
        ReturnedIs(probe, wait, maxRetries, result, attempt + 1);
        return result, attempt + 1, calls, elapsed;
      }
      var delay := Delay(baseDelay, attempt);
      match wait(attempt) {
        case ContextDone(message, waited) =>
          elapsed := elapsed + if waited < WaitTime(delay) then waited else WaitTime(delay);
          ReturnedIs(probe, wait, maxRetries, ProbeResult(false, 0, "network_error", message), attempt + 1);
          return ProbeResult(false, 0, "network_error", message), attempt + 1, calls, elapsed;
        case TimerFires =>
          elapsed := elapsed + WaitTime(delay);
      }
      attempt := attempt + 1;
    }
    attempts := maxRetries + 1;
  }

  /** The contract leaves no choice of the attempt. */
  lemma ReturnsFromOne(probe: nat -> Attempt, wait: nat -> Backoff, maxRetries: nat, n: nat, m: nat)
    requires ReturnsFrom(probe, wait, maxRetries, n) && ReturnsFrom(probe, wait, maxRetries, m)
    ensures n == m
  {}

  lemma {:induction false} Pow2Grows(a: nat, b: nat)
    requires a <= b
    ensures Pow2(a) <= Pow2(b)
    decreases b
  {
    if a < b { Pow2Grows(a, b - 1); }
  }

  lemma Pow2Byte(n: nat)
    ensures Pow2(n + 8) == 256 * Pow2(n)
  {
    assert Pow2(n + 8) == 2 * Pow2(n + 7) && Pow2(n + 7) == 2 * Pow2(n + 6);
    assert Pow2(n + 6) == 2 * Pow2(n + 5) && Pow2(n + 5) == 2 * Pow2(n + 4);
    assert Pow2(n + 4) == 2 * Pow2(n + 3) && Pow2(n + 3) == 2 * Pow2(n + 2);
    assert Pow2(n + 2) == 2 * Pow2(n + 1) && Pow2(n + 1) == 2 * Pow2(n);
  }

  lemma Pow2Of30()
    ensures Pow2(30) == 0x4000_0000
  {
    Pow2Byte(22);
    Pow2Byte(14);
    Pow2Byte(6);
    assert Pow2(6) == 64;
  }

  lemma Pow2Of62()
    ensures Pow2(62) == 0x4000_0000_0000_0000
  {
    Pow2Of30();
    Pow2Byte(54);
    Pow2Byte(46);
    Pow2Byte(38);
    Pow2Byte(30);
  }

  lemma ShiftExact(attempt: nat)
    requires attempt < 63
    ensures Shift(attempt) == Pow2(attempt)
  {
    Pow2Of62();
    Pow2Grows(attempt, 62);
  }

  lemma WrapRange(x: int)
    ensures -TWO_TO_THE_63 <= Wrap64(x) < TWO_TO_THE_63
  {}

  /** The int64 product is the mathematical one exactly while it stays below 2^63. */
  lemma DelayExactIff(baseDelay: nat, attempt: nat)
    requires attempt < 63
    ensures Delay(baseDelay, attempt) == baseDelay * Pow2(attempt) <==> baseDelay * Pow2(attempt) < TWO_TO_THE_63
  {
    ShiftExact(attempt);
    WrapRange(baseDelay * Pow2(attempt));
    assert baseDelay * Pow2(attempt) >= 0;
  }

  /** The waits add up to a geometric sum: with attempts of at most `timeout`, everything before attempt n
      takes at most n timeouts and 2^n - 1 base delays. */
  lemma {:induction false} TimeBeforeBound(probe: nat -> Attempt, baseDelay: nat, timeout: nat, n: nat)
    requires forall i: nat :: probe(i).elapsed <= timeout
    requires n < 63 && baseDelay * Pow2(n) < TWO_TO_THE_63
    ensures TimeBefore(probe, baseDelay, n) <= n * timeout + baseDelay * (Pow2(n) - 1)
    decreases n
  {
    if n > 0 {
      var p := Pow2(n - 1);
      Doubling(baseDelay, p);
      TimeBeforeBound(probe, baseDelay, timeout, n - 1);
      DelayExactIff(baseDelay, n - 1);
      OneMore(n, timeout, baseDelay, p);
      assert probe(n - 1).elapsed <= timeout;
    }
  }

  lemma Doubling(k: nat, p: nat)
    ensures k * (2 * p) == 2 * (k * p) && k * p >= 0
  {}

  lemma OneMore(n: nat, timeout: nat, baseDelay: nat, p: nat)
    requires n > 0
    ensures (n - 1) * timeout + baseDelay * (p - 1) + timeout + baseDelay * p == n * timeout + baseDelay * (2 * p - 1)
  {}

  /** The retry budget: elapsed time is at most (R+1) timeouts and 2^R - 1 base delays, for every outcome of
      every attempt, with or without cancellation. */
  lemma RetryBudget(
    probe: nat -> Attempt, wait: nat -> Backoff, maxRetries: nat, baseDelay: nat, timeout: nat, n: nat, elapsed: nat)
    requires forall i: nat :: probe(i).elapsed <= timeout
    requires maxRetries < 63 && baseDelay * Pow2(maxRetries) < TWO_TO_THE_63
    requires ReturnsFrom(probe, wait, maxRetries, n)
    requires if Settled(probe(n)) || n == maxRetries then elapsed == TimeBefore(probe, baseDelay, n) + probe(n).elapsed
             else elapsed <= TimeBefore(probe, baseDelay, n + 1)
    ensures elapsed <= (maxRetries + 1) * timeout + baseDelay * (Pow2(maxRetries) - 1)
  {
    var m := if Settled(probe(n)) || n == maxRetries then n else n + 1;
    Pow2Grows(m, maxRetries);
    Monotone(baseDelay, Pow2(m), Pow2(maxRetries));
    TimeBeforeBound(probe, baseDelay, timeout, m);
    Monotone(timeout, m, maxRetries);
    Monotone(baseDelay, Pow2(m) - 1, Pow2(maxRetries) - 1);
  }

  lemma Monotone(k: nat, x: int, y: int)
    requires x <= y
    ensures k * x <= k * y
  {}

  const WORST_CASE_MILLISECONDS := 1_290_000

  /** The longest a call can take under this policy, in milliseconds: every attempt runs into its timeout and every
      back-off is waited out. */
  function Budget(p: Policy): int {
    if p.maxRetries < 0 then 0 else (p.maxRetries + 1) * p.timeout + p.baseDelay * (Pow2(p.maxRetries) - 1)
  }

  const WORST_POLICY := Policy(10, 60000, 5, 30000)

  lemma SmallPowers()
    ensures Pow2(0) == 1 && Pow2(1) == 2 && Pow2(2) == 4 && Pow2(3) == 8 && Pow2(4) == 16 && Pow2(5) == 32
  {}

  /** No accepted policy allows more than the worst case, and one allows exactly that. */
  lemma BudgetAtMost(p: Policy)
    requires Lifecycle.ValidPolicy(p)
    ensures 0 <= Budget(p) <= WORST_CASE_MILLISECONDS
    ensures Lifecycle.ValidPolicy(WORST_POLICY) && Budget(WORST_POLICY) == WORST_CASE_MILLISECONDS
  {
    SmallPowers();
    Monotone(p.baseDelay, Pow2(p.maxRetries) - 1, 31);
    Monotone(p.timeout, p.maxRetries + 1, 6);
    assert p.baseDelay * (Pow2(p.maxRetries) - 1) >= 0 && (p.maxRetries + 1) * p.timeout >= 0;
  }

  const DEFAULT_IDLE_MILLISECONDS := 1_800_000

  /** No product overflows for an accepted policy. */
  lemma AcceptedDelays(policy: Policy, i: nat)
    requires Lifecycle.ValidPolicy(policy) && i <= policy.maxRetries
    ensures var base := policy.baseDelay * NANOSECONDS_PER_MILLISECOND;
      base * Pow2(i) < TWO_TO_THE_63 && Delay(base, i) == base * Pow2(i)
  {
    var base: nat := policy.baseDelay * NANOSECONDS_PER_MILLISECOND;
    SmallPowers();
    Pow2Grows(i, 5);
    Monotone(base, Pow2(i), 32);
    DelayExactIff(base, i);
  }

  /** The time that the first `n` attempts take by themselves. */
  function Spent(probe: nat -> Attempt, n: nat): nat {
    if n == 0 then 0 else Spent(probe, n - 1) + probe(n - 1).elapsed
  }

  lemma OneMoreDelay(base: nat, n: nat)
    requires n > 0
    ensures base * (Pow2(n) - 1) == base * (Pow2(n - 1) - 1) + base * Pow2(n - 1)
  {
    assert Pow2(n) == Pow2(n - 1) + Pow2(n - 1);
    Distributes(base, Pow2(n - 1) - 1, Pow2(n - 1));
  }

  lemma Distributes(a: int, b: int, c: int)
    ensures a * (b + c) == a * b + a * c
  {}

  /** The waits of an accepted task double: before attempt `n` they come to 2^n - 1 base delays, on top of what the
      attempts take. */
  lemma {:induction false} WaitsDouble(policy: Policy, probe: nat -> Attempt, n: nat)
    requires Lifecycle.ValidPolicy(policy) && n <= policy.maxRetries + 1
    ensures var base := policy.baseDelay * NANOSECONDS_PER_MILLISECOND;
      TimeBefore(probe, base, n) == Spent(probe, n) + base * (Pow2(n) - 1)
    decreases n
  {
    if n > 0 {
      var base: nat := policy.baseDelay * NANOSECONDS_PER_MILLISECOND;
      WaitsDouble(policy, probe, n - 1);
      AcceptedDelays(policy, n - 1);
      OneMoreDelay(base, n);
    }
  }

  /** The budget in nanoseconds. */
  lemma BudgetInNanoseconds(p: Policy)
    requires Lifecycle.ValidPolicy(p)
    ensures Budget(p) * NANOSECONDS_PER_MILLISECOND
         == (p.maxRetries + 1) * (p.timeout * NANOSECONDS_PER_MILLISECOND)
            + p.baseDelay * NANOSECONDS_PER_MILLISECOND * (Pow2(p.maxRetries) - 1)
  {
    Scaled(p.maxRetries + 1, p.timeout, p.baseDelay, Pow2(p.maxRetries) - 1, NANOSECONDS_PER_MILLISECOND);
  }

  lemma Scaled(a: int, b: int, c: int, d: int, n: int)
    ensures (a * b + c * d) * n == a * (b * n) + c * n * d
  {}

  /** For every task the API accepts, no product overflows and the whole call ends within the policy's budget, and
      so within 21 min 30 s; with up to 8 min 30 s of overhead it still ends within the 30 minute lease. */
  lemma AcceptedTasksFitTheLease(
    policy: Policy, probe: nat -> Attempt, wait: nat -> Backoff, n: nat, elapsed: nat, overhead: nat)
    requires Lifecycle.ValidPolicy(policy)
    requires forall i: nat :: probe(i).elapsed <= policy.timeout * NANOSECONDS_PER_MILLISECOND
    requires ReturnsFrom(probe, wait, policy.maxRetries, n)
    requires var base := policy.baseDelay * NANOSECONDS_PER_MILLISECOND;
      if Settled(probe(n)) || n == policy.maxRetries then elapsed == TimeBefore(probe, base, n) + probe(n).elapsed
      else elapsed <= TimeBefore(probe, base, n + 1)
    requires overhead <= 510_000 * NANOSECONDS_PER_MILLISECOND
    ensures elapsed <= Budget(policy) * NANOSECONDS_PER_MILLISECOND
    ensures elapsed <= WORST_CASE_MILLISECONDS * NANOSECONDS_PER_MILLISECOND
    ensures elapsed + overhead <= DEFAULT_IDLE_MILLISECONDS * NANOSECONDS_PER_MILLISECOND
    ensures forall i: nat | i <= policy.maxRetries ::
      var base := policy.baseDelay * NANOSECONDS_PER_MILLISECOND; Delay(base, i) == base * Pow2(i)
  {
    var base: nat := policy.baseDelay * NANOSECONDS_PER_MILLISECOND;
    var timeout: nat := policy.timeout * NANOSECONDS_PER_MILLISECOND;
    AcceptedDelays(policy, policy.maxRetries);
    RetryBudget(probe, wait, policy.maxRetries, base, timeout, n, elapsed);
    BudgetInNanoseconds(policy);
    BudgetAtMost(policy);
    Monotone(NANOSECONDS_PER_MILLISECOND, Budget(policy), WORST_CASE_MILLISECONDS);
    forall i: nat | i <= policy.maxRetries ensures Delay(base, i) == base * Pow2(i) { AcceptedDelays(policy, i); }
  }
}
