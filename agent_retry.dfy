/**
  The agent's retry helpers (agent/retry.py): `with_retry` and the loop inside
  the `retry_on_network_error` decorator. Both call `func` up to `max_retries`
  times, wait `retry_delay * 2**attempt` after a listed (network) exception when
  attempts remain, and never retry any other exception.

  `func` is an oracle: `func(k)` is what its k-th call (0-based) does. Sleeping
  is recorded, not performed: `sleeps` lists the argument of every
  `time.sleep` call in order. Delays are reals, standing for Python floats.
*/
module AgentRetry {
  import opened Wrappers
  import opened Math

  /** What one call of `func` does. `Listed` is an exception whose class is in `exceptions`. */
  datatype Attempt<T, E> = Ok(value: T) | Listed(exn: E) | Other(exn: E)

  /**
    How the retry call ends: it returns a value (`None` for the suppressed
    failure and for an empty loop), it re-raises `exn`, or, in the decorator
    only, it raises the RuntimeError for a loop that ran zero times.
  */
  datatype Outcome<T, E> = Returned(value: Option<T>) | Raised(exn: E) | LoopExited

  /** An outcome, the number of calls made to `func`, and the sleeps in order. */
  datatype Run<T, E> = Run(outcome: Outcome<T, E>, calls: nat, sleeps: seq<real>)

  /** The wait after the failed attempt k: `retry_delay * (2 ** attempt)`. */
  function Backoff(retryDelay: real, k: nat): real {
    retryDelay * Pow2(k) as real
  }

  function Sum(xs: seq<real>): real {
    if xs == [] then 0.0 else xs[0] + Sum(xs[1..])
  }

  /**
    The run of the attempt loop from attempt k on (calls and sleeps counted
    from k), given that the attempts before k raised listed exceptions.
  */
  function RunFrom<T, E>(func: nat -> Attempt<T, E>, maxRetries: int, retryDelay: real,
                         suppress: bool, k: nat): Run<T, E>
    decreases maxRetries - k
  {
    if k >= maxRetries then Run(Returned(None), 0, [])
    else match func(k)
      case Ok(v) => Run(Returned(Some(v)), 1, [])
      case Listed(e) =>
        if k < maxRetries - 1 then
          var rest := RunFrom(func, maxRetries, retryDelay, suppress, k + 1);
          Run(rest.outcome, rest.calls + 1, [Backoff(retryDelay, k)] + rest.sleeps)
        else Run(if suppress then Returned(None) else Raised(e), 1, [])
      case Other(e) => Run(if suppress then Returned(None) else Raised(e), 1, [])
  }

  /** The whole run of `with_retry`. */
  function WithRetryRun<T, E>(func: nat -> Attempt<T, E>, maxRetries: int, retryDelay: real,
                              suppress: bool): Run<T, E>
  {
    RunFrom(func, maxRetries, retryDelay, suppress, 0)
  }

  /** The whole run of a function wrapped by `retry_on_network_error`: never suppresses. */
  function DecoratedRun<T, E>(func: nat -> Attempt<T, E>, maxRetries: int, retryDelay: real): Run<T, E>
  {
    if maxRetries <= 0 then Run(LoopExited, 0, [])
    else RunFrom(func, maxRetries, retryDelay, false, 0)
  }

  /** The run from attempt k, seen from attempt 0 after k listed failures. */
  function Shifted<T, E>(r: Run<T, E>, k: nat, before: seq<real>): Run<T, E> {
    Run(r.outcome, r.calls + k, before + r.sleeps)
  }

  lemma ShiftStep<T, E>(func: nat -> Attempt<T, E>, maxRetries: int, retryDelay: real,
                        suppress: bool, k: nat, before: seq<real>)
    requires k < maxRetries - 1 && func(k).Listed?
    ensures Shifted(RunFrom(func, maxRetries, retryDelay, suppress, k), k, before)
         == Shifted(RunFrom(func, maxRetries, retryDelay, suppress, k + 1), k + 1,
                    before + [Backoff(retryDelay, k)])
  {
    var rest := RunFrom(func, maxRetries, retryDelay, suppress, k + 1);
    assert before + ([Backoff(retryDelay, k)] + rest.sleeps)
        == (before + [Backoff(retryDelay, k)]) + rest.sleeps;
  }

  /** `with_retry(func, max_retries, retry_delay, suppress_final_error=...)`. */
  method WithRetry<T, E>(func: nat -> Attempt<T, E>, maxRetries: int, retryDelay: real,
                         suppressFinalError: bool)
    returns (outcome: Outcome<T, E>, calls: nat, sleeps: seq<real>)
    ensures Run(outcome, calls, sleeps) == WithRetryRun(func, maxRetries, retryDelay, suppressFinalError)
  {
    calls, sleeps := 0, [];
    var attempt: nat := 0;
    while attempt < maxRetries
      invariant attempt == 0 || attempt < maxRetries
      invariant calls == attempt
      invariant WithRetryRun(func, maxRetries, retryDelay, suppressFinalError)
             == Shifted(RunFrom(func, maxRetries, retryDelay, suppressFinalError, attempt), attempt, sleeps)
      decreases maxRetries - attempt
    {
      calls := calls + 1;
      match func(attempt) {
        case Ok(v) =>
          return Returned(Some(v)), calls, sleeps;
        case Listed(e) =>
          if attempt < maxRetries - 1 {
            ShiftStep(func, maxRetries, retryDelay, suppressFinalError, attempt, sleeps);
            sleeps := sleeps + [Backoff(retryDelay, attempt)];
          } else {
            if suppressFinalError {
              return Returned(None), calls, sleeps;
            }
            return Raised(e), calls, sleeps;
          }
        case Other(e) =>
          if suppressFinalError {
            return Returned(None), calls, sleeps;
          }
          return Raised(e), calls, sleeps;
      }
      attempt := attempt + 1;
    }
    return Returned(None), calls, sleeps;
  }

  /** The `wrapper` that `retry_on_network_error(...)` puts around `func`. */
  method RetryOnNetworkError<T, E>(func: nat -> Attempt<T, E>, maxRetries: int, retryDelay: real)
    returns (outcome: Outcome<T, E>, calls: nat, sleeps: seq<real>)
    ensures Run(outcome, calls, sleeps) == DecoratedRun(func, maxRetries, retryDelay)
  {
    calls, sleeps := 0, [];
    var attempt: nat := 0;
    while attempt < maxRetries
      invariant attempt == 0 || attempt < maxRetries
      invariant calls == attempt
      invariant attempt == 0 ==> sleeps == []
      invariant maxRetries > 0 ==>
        DecoratedRun(func, maxRetries, retryDelay)
          == Shifted(RunFrom(func, maxRetries, retryDelay, false, attempt), attempt, sleeps)
      decreases maxRetries - attempt
    {
      calls := calls + 1;
      match func(attempt) {
        case Ok(v) =>
          return Returned(Some(v)), calls, sleeps;
        case Listed(e) =>
          if attempt < maxRetries - 1 {
            ShiftStep(func, maxRetries, retryDelay, false, attempt, sleeps);
            sleeps := sleeps + [Backoff(retryDelay, attempt)];
          } else {
            return Raised(e), calls, sleeps;
          }
        case Other(e) =>
          return Raised(e), calls, sleeps;
      }
      attempt := attempt + 1;
    }
    return LoopExited, calls, sleeps;
  }

  // ---------------------------------------------------------------------------
  // Properties of the runs

  lemma {:induction false} RunFromCalls<T, E>(func: nat -> Attempt<T, E>, maxRetries: int,
                                              retryDelay: real, suppress: bool, k: nat)
    ensures var r := RunFrom(func, maxRetries, retryDelay, suppress, k);
      (k >= maxRetries ==> r.calls == 0) &&
      (k < maxRetries ==> 1 <= r.calls <= maxRetries - k) &&
      |r.sleeps| == (if r.calls == 0 then 0 else r.calls - 1) &&
      (forall i :: 0 <= i < |r.sleeps| ==> r.sleeps[i] == Backoff(retryDelay, k + i))
    decreases maxRetries - k
  {
    if k < maxRetries - 1 && func(k).Listed? {
      RunFromCalls(func, maxRetries, retryDelay, suppress, k + 1);
      var rest := RunFrom(func, maxRetries, retryDelay, suppress, k + 1);
      var r := RunFrom(func, maxRetries, retryDelay, suppress, k);
      assert r.sleeps == [Backoff(retryDelay, k)] + rest.sleeps;
      forall i | 0 < i < |r.sleeps|
        ensures r.sleeps[i] == Backoff(retryDelay, k + i)
      {
        assert r.sleeps[i] == rest.sleeps[i - 1];
      }
    }
  }

  /**
    `func` is called at most `max_retries` times (and at least once when
    `max_retries > 0`); the sleep after the failed attempt i is
    `retry_delay * 2**i`, and no sleep follows the last call.
  */
  lemma WithRetryCallsAndSleeps<T, E>(func: nat -> Attempt<T, E>, maxRetries: int,
                                      retryDelay: real, suppress: bool)
    ensures var r := WithRetryRun(func, maxRetries, retryDelay, suppress);
      (maxRetries > 0 ==> 1 <= r.calls <= maxRetries) &&
      |r.sleeps| == (if r.calls == 0 then 0 else r.calls - 1) &&
      (forall i :: 0 <= i < |r.sleeps| ==> r.sleeps[i] == retryDelay * Pow2(i) as real)
  {
    RunFromCalls(func, maxRetries, retryDelay, suppress, 0);
  }

  /** With `max_retries <= 0` nothing is called and None is returned. */
  lemma WithRetryNoAttempts<T, E>(func: nat -> Attempt<T, E>, maxRetries: int,
                                  retryDelay: real, suppress: bool)
    requires maxRetries <= 0
    ensures WithRetryRun(func, maxRetries, retryDelay, suppress) == Run(Returned(None), 0, [])
  {
  }

  /** After j listed failures, a success on attempt j is returned unchanged by the (j+1)-th call. */
  lemma {:induction false} FirstSuccessReturned<T, E>(func: nat -> Attempt<T, E>, maxRetries: int,
                                                      retryDelay: real, suppress: bool, k: nat, j: nat)
    requires k <= j < maxRetries
    requires forall i :: k <= i < j ==> func(i).Listed?
    requires func(j).Ok?
    ensures var r := RunFrom(func, maxRetries, retryDelay, suppress, k);
      r.outcome == Returned(Some(func(j).value)) && r.calls == j - k + 1
    decreases j - k
  {
    if k < j {
      FirstSuccessReturned(func, maxRetries, retryDelay, suppress, k + 1, j);
    }
  }

  /** An exception that is not listed ends the run at once: re-raised, or None when suppressed. */
  lemma {:induction false} OtherNotRetried<T, E>(func: nat -> Attempt<T, E>, maxRetries: int,
                                                 retryDelay: real, suppress: bool, k: nat, j: nat)
    requires k <= j < maxRetries
    requires forall i :: k <= i < j ==> func(i).Listed?
    requires func(j).Other?
    ensures var r := RunFrom(func, maxRetries, retryDelay, suppress, k);
      r.outcome == (if suppress then Returned(None) else Raised(func(j).exn)) && r.calls == j - k + 1
    decreases j - k
  {
    if k < j {
      OtherNotRetried(func, maxRetries, retryDelay, suppress, k + 1, j);
    }
  }

  lemma AllListedFrom<T, E>(func: nat -> Attempt<T, E>, maxRetries: int,
                            retryDelay: real, suppress: bool, k: nat)
    requires k < maxRetries
    requires forall i :: k <= i < maxRetries ==> func(i).Listed?
    ensures var r := RunFrom(func, maxRetries, retryDelay, suppress, k);
      r.calls == maxRetries - k &&
      r.outcome == (if suppress then Returned(None) else Raised(func(maxRetries - 1).exn)) &&
      Sum(r.sleeps) == retryDelay * (Pow2(maxRetries - 1) as real - Pow2(k) as real)
  {
    AllListedShape(func, maxRetries, retryDelay, suppress, k);
    AllListedSleeps(func, maxRetries, retryDelay, suppress, k);
  }

  lemma {:induction false} AllListedShape<T, E>(func: nat -> Attempt<T, E>, maxRetries: int,
                                                retryDelay: real, suppress: bool, k: nat)
    requires k < maxRetries
    requires forall i :: k <= i < maxRetries ==> func(i).Listed?
    ensures var r := RunFrom(func, maxRetries, retryDelay, suppress, k);
      r.calls == maxRetries - k &&
      r.outcome == (if suppress then Returned(None) else Raised(func(maxRetries - 1).exn))
    decreases maxRetries - k
  {
    if k < maxRetries - 1 {
      AllListedShape(func, maxRetries, retryDelay, suppress, k + 1);
    }
  }

  lemma {:induction false} AllListedSleeps<T, E>(func: nat -> Attempt<T, E>, maxRetries: int,
                                                 retryDelay: real, suppress: bool, k: nat)
    requires k < maxRetries
    requires forall i :: k <= i < maxRetries ==> func(i).Listed?
    ensures Sum(RunFrom(func, maxRetries, retryDelay, suppress, k).sleeps)
      == retryDelay * Pow2(maxRetries - 1) as real - retryDelay * Pow2(k) as real
    decreases maxRetries - k
  {
    if k < maxRetries - 1 {
      AllListedSleeps(func, maxRetries, retryDelay, suppress, k + 1);
      var rest := RunFrom(func, maxRetries, retryDelay, suppress, k + 1);
      ListedStep(func, maxRetries, retryDelay, suppress, k);
      SumCons(Backoff(retryDelay, k), rest.sleeps);
      Doubled(retryDelay, k);
    }
  }

  /** A listed failure before the last attempt sleeps and moves on to the next attempt. */
  lemma ListedStep<T, E>(func: nat -> Attempt<T, E>, maxRetries: int, retryDelay: real, suppress: bool, k: nat)
    requires k < maxRetries - 1 && func(k).Listed?
    ensures var rest := RunFrom(func, maxRetries, retryDelay, suppress, k + 1);
      RunFrom(func, maxRetries, retryDelay, suppress, k) ==
        Run(rest.outcome, rest.calls + 1, [Backoff(retryDelay, k)] + rest.sleeps)
  {
  }

  /** The next backoff is twice the current one. */
  lemma Doubled(d: real, k: nat)
    ensures d * Pow2(k + 1) as real == 2.0 * Backoff(d, k)
  {
    assert Pow2(k + 1) as real == 2.0 * Pow2(k) as real;
  }

  lemma SumCons(x: real, xs: seq<real>)
    ensures Sum([x] + xs) == x + Sum(xs)
  {
    assert ([x] + xs)[1..] == xs;
  }

  /**
    When every attempt raises a listed exception, `func` is called exactly
    `max_retries` times, the last exception is re-raised (or None returned
    when suppressed) and the total wait is `retry_delay * (2**(max_retries-1) - 1)`.
  */
  lemma WithRetryAllListed<T, E>(func: nat -> Attempt<T, E>, maxRetries: int,
                                 retryDelay: real, suppress: bool)
    requires maxRetries > 0
    requires forall i :: 0 <= i < maxRetries ==> func(i).Listed?
    ensures var r := WithRetryRun(func, maxRetries, retryDelay, suppress);
      r.calls == maxRetries &&
      r.outcome == (if suppress then Returned(None) else Raised(func(maxRetries - 1).exn)) &&
      Sum(r.sleeps) == retryDelay * (Pow2(maxRetries - 1) - 1) as real
  {
    AllListedFrom(func, maxRetries, retryDelay, suppress, 0);
  }

  /**
    The decorator never suppresses: with at least one attempt it either returns
    the value of a successful call or raises; with none it raises the RuntimeError.
  */
  lemma {:induction false} DecoratedNeverSuppresses<T, E>(func: nat -> Attempt<T, E>, maxRetries: int,
                                                          retryDelay: real)
    ensures var r := DecoratedRun(func, maxRetries, retryDelay);
      (r.outcome == LoopExited <==> maxRetries <= 0) &&
      (r.outcome.Returned? ==> r.outcome.value.Some?)
  {
    if maxRetries > 0 {
      NeverNoneUnsuppressed(func, maxRetries, retryDelay, 0);
    }
  }

  lemma {:induction false} NeverNoneUnsuppressed<T, E>(func: nat -> Attempt<T, E>, maxRetries: int,
                                                       retryDelay: real, k: nat)
    requires k < maxRetries
    ensures var o := RunFrom(func, maxRetries, retryDelay, false, k).outcome;
      !o.LoopExited? && (o.Returned? ==> o.value.Some?)
    decreases maxRetries - k
  {
    if k < maxRetries - 1 && func(k).Listed? {
      NeverNoneUnsuppressed(func, maxRetries, retryDelay, k + 1);
    }
  }
}
