/**
 * Retrying a remote command (internal/ssh/retry.go): the capped exponential backoff, the errors
 * that are not worth retrying, and the retry loop.  Durations are integer nanoseconds.  The
 * remote command, the clock and the context are oracles: `run(a)` is the result of the call made
 * on attempt `a`, and `cancelled(a)` says whether the context was done before that attempt's
 * wait ended.
 */
module SshRetry {
  import opened Wrappers
  import opened GoStrings

  /** The retry settings of `ExecutorConfig`. */
  datatype RetryConfig = RetryConfig(maxRetries: int, backoffBase: int, backoffMax: int)

  /** `Result`; a nil error is `None`, any other error is its message. */
  datatype RunResult = RunResult(node: string, output: string, error: Option<string>, duration: int)

  function Pow2(n: nat): (p: nat)
    ensures p >= 1
  {
    if n == 0 then 1 else 2 * Pow2(n - 1)
  }

  lemma {:induction false} Pow2Monotone(a: nat, b: nat)
    requires a <= b
    ensures Pow2(a) <= Pow2(b)
    decreases b
  {
    if a < b {
      Pow2Monotone(a, b - 1);
    }
  }

  /** `calculateBackoff`: base times 2 to the attempt, capped at the maximum. */
  function Backoff(c: RetryConfig, attempt: nat): (d: int)
    ensures d <= c.backoffMax
    ensures d == c.backoffMax || d == c.backoffBase * Pow2(attempt)
  {
    var backoff := c.backoffBase * Pow2(attempt);
    if backoff > c.backoffMax then c.backoffMax else backoff
  }

  /**
   * With a non-negative base the backoff never shrinks with the attempt, and below the cap
   * each attempt waits twice as long as the one before.
   */
  lemma BackoffGrows(c: RetryConfig, a: nat, b: nat)
    requires 0 <= c.backoffBase && a <= b
    ensures Backoff(c, a) <= Backoff(c, b)
    ensures Backoff(c, a + 1) < c.backoffMax ==> Backoff(c, a + 1) == 2 * Backoff(c, a)
  {
    Pow2Monotone(a, b);
    MulMonotone(c.backoffBase, Pow2(a), Pow2(b));
    MulMonotone(c.backoffBase, Pow2(a), Pow2(a + 1));
  }

  lemma MulMonotone(x: int, p: int, q: int)
    requires 0 <= x && p <= q
    ensures x * p <= x * q
  {
  }

  /** The authentication failures, matched without regard to case. */
  const AuthErrors: seq<string> := [
    "unable to authenticate",
    "no supported methods remain",
    "permission denied",
    "authentication failed"]

  const ExitStatus := "Process exited with status"

  /**
   * `isNonRetryableError`: a nil error is not such an error; an error whose lower-cased message
   * contains an authentication failure, or whose message contains the exit-status text, is not
   * retried.
   */
  predicate IsNonRetryable(err: Option<string>)
    ensures err.None? ==> !IsNonRetryable(err)
  {
    match err
    case None => false
    case Some(e) =>
      (exists k :: 0 <= k < |AuthErrors| && Contains(ToLower(e), AuthErrors[k])) || Contains(e, ExitStatus)
  }

  lemma ToLowerAppend(a: string, b: string)
    ensures ToLower(a + b) == ToLower(a) + ToLower(b)
  {
  }

  /**
   * An authentication failure anywhere in the message stops the retries, however its letters
   * are cased.
   */
  lemma AuthFailureAnyCase(p: string, u: string, q: string, k: nat)
    requires k < |AuthErrors| && ToLower(u) == AuthErrors[k]
    ensures IsNonRetryable(Some(p + u + q))
  {
    ToLowerAppend(p + u, q);
    ToLowerAppend(p, u);
    var lower := ToLower(p) + AuthErrors[k] + ToLower(q);
    assert OccursAt(lower, AuthErrors[k], |ToLower(p)|);
  }

  /** A command that ran and exited non-zero is not retried. */
  lemma ExitStatusStops(p: string, q: string)
    ensures IsNonRetryable(Some(p + ExitStatus + q))
  {
    assert OccursAt(p + ExitStatus + q, ExitStatus, |p|);
  }

  /** An attempt whose result ends the loop: a success or an error not worth retrying. */
  predicate Final(r: RunResult) {
    r.error.None? || IsNonRetryable(r.error)
  }

  /** The result returned when the context is done during a wait. */
  function CancelledResult(node: string, ctxErr: string): RunResult {
    RunResult(node, "", Some(ctxErr), 0)
  }

  const ZeroResult := RunResult("", "", None, 0)

  /**
   * The retry loop from attempt `a` with the last result so far: the result returned and the
   * number of calls made in total.
   */
  function Retry(c: RetryConfig, run: nat -> RunResult, cancelled: nat -> bool, node: string, ctxErr: string,
                 a: nat, last: RunResult): (RunResult, nat)
    decreases c.maxRetries - a
  {
    if a >= c.maxRetries then (last, a)
    else if a > 0 && cancelled(a) then (CancelledResult(node, ctxErr), a)
    else if Final(run(a)) then (run(a), a + 1)
    else Retry(c, run, cancelled, node, ctxErr, a + 1, run(a))
  }

  /** `RunWithRetry`: the result and the number of times the command was run. */
  method RunWithRetry(c: RetryConfig, run: nat -> RunResult, cancelled: nat -> bool, node: string, ctxErr: string)
    returns (result: RunResult, calls: nat)
    ensures (result, calls) == Retry(c, run, cancelled, node, ctxErr, 0, ZeroResult)
  {
    var lastResult := ZeroResult;
    var attempt: nat := 0;
    calls := 0;
    while attempt < c.maxRetries
      invariant calls == attempt
      invariant Retry(c, run, cancelled, node, ctxErr, attempt, lastResult) == Retry(c, run, cancelled, node, ctxErr, 0, ZeroResult)
      decreases c.maxRetries - attempt
    {
      if attempt > 0 {
        // The wait of Backoff(c, attempt) ends early when the context is done.
        if cancelled(attempt) {
          return CancelledResult(node, ctxErr), calls;
        }
      }
      lastResult := run(attempt);
      calls := calls + 1;
      if lastResult.error.None? {
        return lastResult, calls;
      }
      if IsNonRetryable(lastResult.error) {
        return lastResult, calls;
      }
      attempt := attempt + 1;
    }
    return lastResult, calls;
  }

  /**
   * The loop runs the command at most `maxRetries` times; every attempt before the last one
   * made failed with an error worth retrying and was not interrupted; and the result is the
   * last attempt's, unless the context ended a wait first.
   */
  lemma {:induction false} RetryFacts(c: RetryConfig, run: nat -> RunResult, cancelled: nat -> bool, node: string,
                                      ctxErr: string, a: nat, last: RunResult)
    requires a <= c.maxRetries || a == 0
    ensures var (r, calls) := Retry(c, run, cancelled, node, ctxErr, a, last);
      && a <= calls && (calls <= c.maxRetries || calls == a)
      && (forall k :: a <= k < calls - 1 ==> !Final(run(k)))
      && (forall k :: a < k < calls ==> !cancelled(k))
      && (r == CancelledResult(node, ctxErr) || (calls == a && r == last) || (calls > a && r == run(calls - 1)))
    decreases c.maxRetries - a
  {
    if a < c.maxRetries && !(a > 0 && cancelled(a)) && !Final(run(a)) {
      RetryFacts(c, run, cancelled, node, ctxErr, a + 1, run(a));
    }
  }

  /**
   * A success or an error not worth retrying on the first attempt is returned after one call;
   * and without interruptions, failing with retryable errors throughout makes all `maxRetries`
   * calls and returns the last error.
   */
  lemma {:induction false} RetryExhausted(c: RetryConfig, run: nat -> RunResult, cancelled: nat -> bool, node: string,
                                          ctxErr: string, a: nat, last: RunResult)
    requires a < c.maxRetries
    requires forall k :: a <= k < c.maxRetries ==> !Final(run(k)) && (k > 0 ==> !cancelled(k))
    ensures Retry(c, run, cancelled, node, ctxErr, a, last) == (run(c.maxRetries - 1), c.maxRetries)
    decreases c.maxRetries - a
  {
    if a + 1 < c.maxRetries {
      RetryExhausted(c, run, cancelled, node, ctxErr, a + 1, run(a));
    }
  }

  /** The first attempt decides when it succeeds or fails for good; no retries are configured, nothing runs. */
  lemma RetryFirstAttempt(c: RetryConfig, run: nat -> RunResult, cancelled: nat -> bool, node: string, ctxErr: string)
    ensures c.maxRetries > 0 && Final(run(0)) ==> Retry(c, run, cancelled, node, ctxErr, 0, ZeroResult) == (run(0), 1)
    ensures c.maxRetries <= 0 ==> Retry(c, run, cancelled, node, ctxErr, 0, ZeroResult) == (ZeroResult, 0)
  {
  }
}
