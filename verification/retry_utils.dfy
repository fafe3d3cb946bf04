/**
 RetryUtils.retryOperation: runs a caller-supplied operation up to maxRetries
 times, returns the first result, keeps only the most recent exception, waits
 min(2^(k-1), 8) seconds after a failed attempt k when another attempt
 follows, and on exhaustion throws one FrameworkException whose cause is the
 last exception.

 `Retry` is the reference definition, one attempt per recursive step;
 `RetryOperation` is the loop of the source, proved to agree with it; the
 lemmas give the closed form: how many times the operation runs, which result
 or cause comes out, and which waits are requested.
 */
module RetryUtils {
  import opened Wrappers
  import opened Exceptions
  import opened Text

  const DEFAULT_MAX_RETRIES: int := 3
  const INITIAL_WAIT_SECONDS: nat := 1
  const BACKOFF_MULTIPLIER: nat := 2
  const MAX_WAIT_SECONDS: nat := 8

  /** A retryable operation seen from outside: `attempt(k)` is what its k-th
      invocation returns or throws, and `elapsedMs` is the total duration (an
      opaque clock reading) that the exhaustion message reports. */
  datatype Operation<T> = Operation(attempt: int -> Outcome<T>, elapsedMs: int)

  /** What one call of retryOperation does: the value it returns or the
      exception it throws, how many times it invoked the operation, and the
      seconds it passed to waitBeforeRetry, in order. */
  datatype Run<T> = Run(result: Outcome<T>, invocations: nat, waits: seq<int>) {
    /** The same run with `earlier` waits requested before its own. */
    function AfterWaits(earlier: seq<int>): Run<T> {
      Run(result, invocations, earlier + waits)
    }
  }

  function Power(base: nat, exponent: nat): (p: nat)
    decreases exponent
  {
    if exponent == 0 then 1 else base * Power(base, exponent - 1)
  }

  function Min(a: int, b: int): int {
    if a <= b then a else b
  }

  /** calculateWaitTime: seconds to wait after failed attempt `attemptNumber`.
      Math.pow is exact for these powers of two, and for large exponents the
      saturating (int) cast still leaves the minimum at the cap. */
  function CalculateWaitTime(attemptNumber: int): int
    requires attemptNumber >= 1
  {
    Min(INITIAL_WAIT_SECONDS * Power(BACKOFF_MULTIPLIER, attemptNumber - 1), MAX_WAIT_SECONDS)
  }

  /** The waits requested after failed attempts lo, lo+1, ..., hi-1. */
  function Waits(lo: int, hi: int): seq<int>
    requires lo >= 1
    decreases hi - lo
  {
    if lo >= hi then [] else [CalculateWaitTime(lo)] + Waits(lo + 1, hi)
  }

  function LastErrorText(last: Option<Exc>): string {
    if last.Some? then last.value.message else "Unknown error"
  }

  /** The FrameworkException thrown once every attempt has failed. */
  function Exhausted(maxRetries: int, elapsedMs: int, operationName: string, last: Option<Exc>): (e: Exc)
    ensures IsA(e, FrameworkBase) && e.cause == last
    ensures forall k :: k != FrameworkBase ==> !IsA(e, k)
  {
    Framework(FrameworkBase,
      "Operation failed after " + IntToString(maxRetries) + " attempts (total duration: "
        + IntToString(elapsedMs) + " ms): " + operationName + ". Last error: " + LastErrorText(last),
      last)
  }

  /** The rest of a call from attempt `attempt` on, `last` being the exception
      of the attempt before it (None before the first). */
  function RetryFrom<T>(op: Operation<T>, operationName: string, maxRetries: int, attempt: int, last: Option<Exc>): Run<T>
    requires attempt >= 1
    decreases maxRetries - attempt + 1
  {
    if attempt > maxRetries then
      Run(Err(Exhausted(maxRetries, op.elapsedMs, operationName, last)), attempt - 1, [])
    else
      match op.attempt(attempt)
      case Ok(v) => Run(Ok(v), attempt, [])
      case Err(e) =>
        var rest := RetryFrom(op, operationName, maxRetries, attempt + 1, Some(e));
        if attempt < maxRetries then rest.AfterWaits([CalculateWaitTime(attempt)]) else rest
  }

  /** retryOperation(operation, operationName, maxRetries). */
  function Retry<T>(op: Operation<T>, operationName: string, maxRetries: int): Run<T> {
    RetryFrom(op, operationName, maxRetries, 1, None)
  }

  /** The three-argument retryOperation: the source's loop, with the waits it
      requests recorded in `waits` instead of slept. */
  method RetryOperation<T>(op: Operation<T>, operationName: string, maxRetries: int)
    returns (result: Outcome<T>, invocations: nat, waits: seq<int>)
    ensures Run(result, invocations, waits) == Retry(op, operationName, maxRetries)
  {
    var lastException: Option<Exc> := None;
    invocations, waits := 0, [];
    var attempt := 1;
    while attempt <= maxRetries
      invariant 1 <= attempt && invocations == attempt - 1
      invariant RetryFrom(op, operationName, maxRetries, attempt, lastException).AfterWaits(waits)
                == Retry(op, operationName, maxRetries)
      decreases maxRetries - attempt
    {
      var outcome := op.attempt(attempt);
      invocations := invocations + 1;
      match outcome {
        case Ok(v) =>
          result := Ok(v);
          return;
        case Err(e) =>
          lastException := Some(e);
          if attempt < maxRetries {
            var waitSeconds := CalculateWaitTime(attempt);
            waits := waits + [waitSeconds];
          }
      }
      attempt := attempt + 1;
    }
    result := Err(Exhausted(maxRetries, op.elapsedMs, operationName, lastException));
  }

  /** The two-argument retryOperation: the three-argument one with the default
      of 3 attempts. */
  method RetryOperationDefault<T>(op: Operation<T>, operationName: string)
    returns (result: Outcome<T>, invocations: nat, waits: seq<int>)
    ensures Run(result, invocations, waits) == Retry(op, operationName, DEFAULT_MAX_RETRIES)
  {
    result, invocations, waits := RetryOperation(op, operationName, DEFAULT_MAX_RETRIES);
  }

  // ---------------------------------------------------------------------
  // The wait schedule

  lemma {:induction false} PowerMonotone(base: nat, i: nat, j: nat)
    requires base >= 1 && i <= j
    ensures 1 <= Power(base, i) <= Power(base, j)
    decreases j
  {
    if j > 0 {
      if i < j {
        PowerMonotone(base, i, j - 1);
      } else {
        PowerMonotone(base, i - 1, j - 1);
      }
    }
  }

  /** The schedule is 1, 2, 4, 8, 8, ...: doubling from one second, capped at
      eight, always within [1, 8]. */
  lemma WaitTimeSchedule(k: int)
    requires k >= 1
    ensures 1 <= CalculateWaitTime(k) <= MAX_WAIT_SECONDS
    ensures k <= 4 ==> CalculateWaitTime(k) == Power(2, k - 1)
    ensures k >= 4 ==> CalculateWaitTime(k) == 8
  {
    PowerMonotone(2, 0, k - 1);
    if k >= 4 {
      PowerMonotone(2, 3, k - 1);
    }
  }

  /** A later failed attempt never waits less than an earlier one. */
  lemma WaitTimeMonotone(j: int, k: int)
    requires 1 <= j <= k
    ensures CalculateWaitTime(j) <= CalculateWaitTime(k)
  {
    PowerMonotone(2, j - 1, k - 1);
  }

  lemma {:induction false} WaitsLength(lo: int, hi: int)
    requires lo >= 1
    ensures |Waits(lo, hi)| == if lo >= hi then 0 else hi - lo
    ensures forall i :: 0 <= i < |Waits(lo, hi)| ==> Waits(lo, hi)[i] == CalculateWaitTime(lo + i)
    decreases hi - lo
  {
    if lo < hi {
      WaitsLength(lo + 1, hi);
    }
  }

  // ---------------------------------------------------------------------
  // What a call does, in closed form

  lemma {:induction false} RetryFromShape<T>(op: Operation<T>, operationName: string, maxRetries: int, attempt: int, last: Option<Exc>)
    requires attempt >= 1
    ensures var r := RetryFrom(op, operationName, maxRetries, attempt, last);
      && (r.result.Ok? ==>
            && attempt <= r.invocations <= maxRetries
            && op.attempt(r.invocations) == r.result
            && forall j :: attempt <= j < r.invocations ==> op.attempt(j).Err?)
      && (r.result.Err? ==>
            && r.invocations == (if attempt > maxRetries then attempt - 1 else maxRetries)
            && (forall j :: attempt <= j <= maxRetries ==> op.attempt(j).Err?)
            && r.result.error == Exhausted(maxRetries, op.elapsedMs, operationName,
                 if attempt <= maxRetries then Some(op.attempt(maxRetries).error) else last))
      && r.waits == Waits(attempt, r.invocations)
    decreases maxRetries - attempt + 1
  {
    if attempt <= maxRetries && op.attempt(attempt).Err? {
      var e := op.attempt(attempt).error;
      RetryFromShape(op, operationName, maxRetries, attempt + 1, Some(e));
      var rest := RetryFrom(op, operationName, maxRetries, attempt + 1, Some(e));
      if attempt < maxRetries {
        assert rest.invocations >= attempt + 1;
        assert Waits(attempt, rest.invocations) == [CalculateWaitTime(attempt)] + rest.waits;
      }
    }
  }

  /** Every call either returns the result of the first successful attempt k
      (1 <= k <= maxRetries, all earlier attempts failed, k invocations), or
      throws the exhaustion FrameworkException after every one of the
      max(maxRetries, 0) attempts failed, its cause being the exception of the
      final attempt (none when maxRetries <= 0). Either way the waits are
      exactly those after failed attempts 1 .. invocations-1. */
  lemma RetryShape<T>(op: Operation<T>, operationName: string, maxRetries: int)
    ensures var r := Retry(op, operationName, maxRetries);
      && (r.result.Ok? ==>
            && 1 <= r.invocations <= maxRetries
            && op.attempt(r.invocations) == r.result
            && forall j :: 1 <= j < r.invocations ==> op.attempt(j).Err?)
      && (r.result.Err? ==>
            && r.invocations == (if maxRetries >= 1 then maxRetries else 0)
            && (forall j :: 1 <= j <= maxRetries ==> op.attempt(j).Err?)
            && r.result.error == Exhausted(maxRetries, op.elapsedMs, operationName,
                 if maxRetries >= 1 then Some(op.attempt(maxRetries).error) else None))
      && r.waits == Waits(1, r.invocations)
  {
    RetryFromShape(op, operationName, maxRetries, 1, None);
  }

  /** If attempt k is the first to succeed, its result is returned after
      exactly k invocations, and the only waits are those after the k-1
      failures before it: none follows the success. */
  lemma RetryReturnsFirstSuccess<T>(op: Operation<T>, operationName: string, maxRetries: int, k: int)
    requires 1 <= k <= maxRetries && op.attempt(k).Ok?
    requires forall j :: 1 <= j < k ==> op.attempt(j).Err?
    ensures Retry(op, operationName, maxRetries) == Run(op.attempt(k), k, Waits(1, k))
  {
    RetryShape(op, operationName, maxRetries);
    var r := Retry(op, operationName, maxRetries);
    assert r.result.Err? ==> op.attempt(k).Err?;
    assert k < r.invocations ==> op.attempt(k).Err?;
  }

  /** If every one of N >= 1 attempts fails, the operation runs exactly N
      times, N-1 waits are requested, and the FrameworkException thrown has
      the final attempt's exception as its cause and names it in its message. */
  lemma RetryExhaustion<T>(op: Operation<T>, operationName: string, maxRetries: int)
    requires maxRetries >= 1
    requires forall j :: 1 <= j <= maxRetries ==> op.attempt(j).Err?
    ensures var r := Retry(op, operationName, maxRetries);
      && r.invocations == maxRetries
      && r.waits == Waits(1, maxRetries) && |r.waits| == maxRetries - 1
      && r.result == Err(Exhausted(maxRetries, op.elapsedMs, operationName, Some(op.attempt(maxRetries).error)))
      && r.result.error.cause == Some(op.attempt(maxRetries).error)
      && IsA(r.result.error, FrameworkBase)
      && !IsA(r.result.error, Timeout) && !IsA(r.result.error, ElementNotFound)
  {
    RetryShape(op, operationName, maxRetries);
    WaitsLength(1, maxRetries);
    assert op.attempt(Retry(op, operationName, maxRetries).invocations).Err?;
  }

  /** With maxRetries <= 0 the operation is never invoked, nothing waits, and
      a FrameworkException with no cause and "Unknown error" as its last
      error is thrown: there is no separate usage error. */
  lemma RetryNonPositive<T>(op: Operation<T>, operationName: string, maxRetries: int)
    requires maxRetries <= 0
    ensures var r := Retry(op, operationName, maxRetries);
      && r.invocations == 0 && r.waits == []
      && r.result == Err(Framework(FrameworkBase,
           "Operation failed after " + IntToString(maxRetries) + " attempts (total duration: "
             + IntToString(op.elapsedMs) + " ms): " + operationName + ". Last error: Unknown error",
           None))
  {
    RetryShape(op, operationName, maxRetries);
  }

  /** The cause of an exhaustion is never an earlier attempt's exception when
      it differs from the final one. */
  lemma RetryKeepsOnlyLastError<T>(op: Operation<T>, operationName: string, maxRetries: int, j: int)
    requires 1 <= j < maxRetries
    requires forall i :: 1 <= i <= maxRetries ==> op.attempt(i).Err?
    requires op.attempt(j).error != op.attempt(maxRetries).error
    ensures var r := Retry(op, operationName, maxRetries);
      r.result.Err? && r.result.error.Framework? && r.result.error.cause != Some(op.attempt(j).error)
  {
    RetryExhaustion(op, operationName, maxRetries);
  }

  /** With the default of three attempts all failing, the waits are exactly
      one and then two seconds: three seconds in total. */
  lemma DefaultRetryWaits<T>(op: Operation<T>, operationName: string)
    requires forall j :: 1 <= j <= DEFAULT_MAX_RETRIES ==> op.attempt(j).Err?
    ensures Retry(op, operationName, DEFAULT_MAX_RETRIES).waits == [1, 2]
    ensures Retry(op, operationName, DEFAULT_MAX_RETRIES).invocations == 3
  {
    RetryExhaustion(op, operationName, DEFAULT_MAX_RETRIES);
    WaitsLength(1, 3);
    WaitTimeSchedule(1);
    WaitTimeSchedule(2);
  }

  /** A call never invokes the operation more than max(maxRetries, 0) times,
      nor requests more than one wait per invocation after the first. */
  lemma RetryBounds<T>(op: Operation<T>, operationName: string, maxRetries: int)
    ensures var r := Retry(op, operationName, maxRetries);
      && r.invocations <= (if maxRetries >= 1 then maxRetries else 0)
      && |r.waits| == (if r.invocations >= 1 then r.invocations - 1 else 0)
      && forall i :: 0 <= i < |r.waits| ==> 1 <= r.waits[i] <= MAX_WAIT_SECONDS
  {
    RetryShape(op, operationName, maxRetries);
    var r := Retry(op, operationName, maxRetries);
    WaitsLength(1, r.invocations);
    forall i | 0 <= i < |r.waits| ensures 1 <= r.waits[i] <= MAX_WAIT_SECONDS {
      WaitTimeSchedule(1 + i);
    }
  }

  /** RetryFrom looks at attempts attempt .. maxRetries only. */
  lemma {:induction false} RetryFromCongruence<T>(op1: Operation<T>, op2: Operation<T>, operationName: string, maxRetries: int, attempt: int, last: Option<Exc>)
    requires attempt >= 1 && op1.elapsedMs == op2.elapsedMs
    requires forall k :: attempt <= k <= maxRetries ==> op1.attempt(k) == op2.attempt(k)
    ensures RetryFrom(op1, operationName, maxRetries, attempt, last) == RetryFrom(op2, operationName, maxRetries, attempt, last)
    decreases maxRetries - attempt + 1
  {
    if attempt <= maxRetries && op1.attempt(attempt).Err? {
      RetryFromCongruence(op1, op2, operationName, maxRetries, attempt + 1, Some(op1.attempt(attempt).error));
    }
  }

  /** A call observes the operation only through the outcomes of attempts
      1 .. maxRetries: two operations that agree on those behave alike. */
  lemma RetryCongruence<T>(op1: Operation<T>, op2: Operation<T>, operationName: string, maxRetries: int)
    requires op1.elapsedMs == op2.elapsedMs
    requires forall k :: 1 <= k <= maxRetries ==> op1.attempt(k) == op2.attempt(k)
    ensures Retry(op1, operationName, maxRetries) == Retry(op2, operationName, maxRetries)
  {
    RetryFromCongruence(op1, op2, operationName, maxRetries, 1, None);
  }
  /** RetryFrom looks only at the attempts it actually invokes: two operations
      that agree on attempts attempt .. invocations run alike. */
  lemma {:induction false} RetryFromPrefixCongruence<T>(op1: Operation<T>, op2: Operation<T>, operationName: string, maxRetries: int, attempt: int, last: Option<Exc>)
    requires attempt >= 1 && op1.elapsedMs == op2.elapsedMs
    requires forall k :: attempt <= k <= RetryFrom(op1, operationName, maxRetries, attempt, last).invocations ==>
      op1.attempt(k) == op2.attempt(k)
    ensures RetryFrom(op1, operationName, maxRetries, attempt, last) == RetryFrom(op2, operationName, maxRetries, attempt, last)
    decreases maxRetries - attempt + 1
  {
    if attempt <= maxRetries {
      RetryFromShape(op1, operationName, maxRetries, attempt, last);
      var r := RetryFrom(op1, operationName, maxRetries, attempt, last);
      assert attempt <= r.invocations;
      if op1.attempt(attempt).Err? {
        RetryFromPrefixCongruence(op1, op2, operationName, maxRetries, attempt + 1, Some(op1.attempt(attempt).error));
      }
    }
  }

  /** A call observes its operation only through the attempts it invokes. */
  lemma RetryPrefixCongruence<T>(op1: Operation<T>, op2: Operation<T>, operationName: string, maxRetries: int)
    requires op1.elapsedMs == op2.elapsedMs
    requires forall k :: 1 <= k <= Retry(op1, operationName, maxRetries).invocations ==> op1.attempt(k) == op2.attempt(k)
    ensures Retry(op1, operationName, maxRetries) == Retry(op2, operationName, maxRetries)
  {
    RetryFromPrefixCongruence(op1, op2, operationName, maxRetries, 1, None);
  }
}
