/**
  The web client's retry helper (web/app/utils/retry.ts): `isNetworkError`
  classifies a thrown value, and `withRetry` awaits `fn` up to `maxRetries`
  times, waiting `2^attempt * RETRY_BASE_DELAY_MS` after a network error when
  attempts remain. Awaiting is sequential here: `fn(k)` is how the k-th call's
  promise settles, and `waits` lists the timer delays in order (milliseconds).
*/
module WebRetry {
  import opened Wrappers
  import opened Strings
  import opened Math

  /** web/app/constants/retry.ts */
  const DEFAULT_MAX_RETRIES: int := 3
  const RETRY_BASE_DELAY_MS: nat := 1000

  /**
    The two properties of a thrown value that `isNetworkError` reads;
    `None` where `error?.code` or `error?.message` is undefined.
  */
  datatype JsError = JsError(code: Option<string>, message: Option<string>)

  predicate IsNetworkError(error: JsError) {
    || error.code == Some("storage/network-request-failed")
    || error.code == Some("unavailable")
    || error.code == Some("deadline-exceeded")
    || (error.message.Some? && Contains(error.message.value, "network"))
    || (error.message.Some? && Contains(error.message.value, "fetch"))
  }

  /** "Failed to fetch" is a network error. */
  lemma FetchMessageIsNetworkError()
    ensures IsNetworkError(JsError(None, Some("Failed to fetch")))
  {
    assert "Failed to fetch"[10..15] == "fetch";
    ContainsAt("Failed to fetch", "fetch", 10);
  }

  /** The message test is case-sensitive: "Network Error" is not a network error. */
  lemma CapitalizedMessageIsNotNetworkError()
    ensures !IsNetworkError(JsError(None, Some("Network Error")))
  {
    var m := "Network Error";
    assert 'n' !in m && 'f' !in m by {
      forall i | 0 <= i < |m| ensures m[i] != 'n' && m[i] != 'f' {
      }
    }
    NotContainsWithoutFirst(m, "network");
    NotContainsWithoutFirst(m, "fetch");
  }

  /** How the promise of one `fn()` call settles. */
  datatype Attempt<T> = Resolved(value: T) | Rejected(error: JsError)

  /** How `withRetry` settles: the value, the rethrown error, or `new Error('Retry failed')`. */
  datatype Outcome<T> = Resolves(value: T) | Throws(error: JsError) | RetryFailed

  datatype Run<T> = Run(outcome: Outcome<T>, calls: nat, waits: seq<nat>)

  /** `Math.pow(2, attempt) * RETRY_BASE_DELAY_MS`. */
  function WaitTime(attempt: nat): nat {
    Pow2(attempt) * RETRY_BASE_DELAY_MS
  }

  /** The run from attempt k on, given that the attempts before k failed with network errors. */
  function RunFrom<T>(fn: nat -> Attempt<T>, maxRetries: int, k: nat): Run<T>
    decreases maxRetries - k
  {
    if k >= maxRetries then Run(RetryFailed, 0, [])
    else match fn(k)
      case Resolved(v) => Run(Resolves(v), 1, [])
      case Rejected(e) =>
        if IsNetworkError(e) && k < maxRetries - 1 then
          var rest := RunFrom(fn, maxRetries, k + 1);
          Run(rest.outcome, rest.calls + 1, [WaitTime(k)] + rest.waits)
        else Run(Throws(e), 1, [])
  }

  function WithRetryRun<T>(fn: nat -> Attempt<T>, maxRetries: int): Run<T> {
    RunFrom(fn, maxRetries, 0)
  }

  function Shifted<T>(r: Run<T>, k: nat, before: seq<nat>): Run<T> {
    Run(r.outcome, r.calls + k, before + r.waits)
  }

  lemma ShiftStep<T>(fn: nat -> Attempt<T>, maxRetries: int, k: nat, before: seq<nat>)
    requires k < maxRetries - 1 && fn(k).Rejected? && IsNetworkError(fn(k).error)
    ensures Shifted(RunFrom(fn, maxRetries, k), k, before)
         == Shifted(RunFrom(fn, maxRetries, k + 1), k + 1, before + [WaitTime(k)])
  {
    var rest := RunFrom(fn, maxRetries, k + 1);
    assert before + ([WaitTime(k)] + rest.waits) == (before + [WaitTime(k)]) + rest.waits;
  }

  /** `withRetry(fn, maxRetries)`. */
  method WithRetry<T>(fn: nat -> Attempt<T>, maxRetries: int)
    returns (outcome: Outcome<T>, calls: nat, waits: seq<nat>)
    ensures Run(outcome, calls, waits) == WithRetryRun(fn, maxRetries)
  {
    calls, waits := 0, [];
    var attempt: nat := 0;
    while attempt < maxRetries
      invariant attempt == 0 || attempt < maxRetries
      invariant calls == attempt
      invariant attempt == 0 ==> waits == []
      invariant WithRetryRun(fn, maxRetries) == Shifted(RunFrom(fn, maxRetries, attempt), attempt, waits)
      decreases maxRetries - attempt
    {
      calls := calls + 1;
      match fn(attempt) {
        case Resolved(v) =>
          return Resolves(v), calls, waits;
        case Rejected(error) =>
          if IsNetworkError(error) && attempt < maxRetries - 1 {
            ShiftStep(fn, maxRetries, attempt, waits);
            waits := waits + [WaitTime(attempt)];
          } else {
            return Throws(error), calls, waits;
          }
      }
      attempt := attempt + 1;
    }
    return RetryFailed, calls, waits;
  }

  // ---------------------------------------------------------------------------
  // Properties of the runs

  lemma {:induction false} RunFromShape<T>(fn: nat -> Attempt<T>, maxRetries: int, k: nat)
    ensures var r := RunFrom(fn, maxRetries, k);
      (k >= maxRetries ==> r == Run(RetryFailed, 0, [])) &&
      (k < maxRetries ==> 1 <= r.calls <= maxRetries - k && !r.outcome.RetryFailed?) &&
      |r.waits| == (if r.calls == 0 then 0 else r.calls - 1) &&
      (forall i :: 0 <= i < |r.waits| ==> r.waits[i] == WaitTime(k + i))
    decreases maxRetries - k
  {
    if k < maxRetries - 1 && fn(k).Rejected? && IsNetworkError(fn(k).error) {
      RunFromShape(fn, maxRetries, k + 1);
      var rest := RunFrom(fn, maxRetries, k + 1);
      var r := RunFrom(fn, maxRetries, k);
      assert r.waits == [WaitTime(k)] + rest.waits;
      forall i | 0 < i < |r.waits|
        ensures r.waits[i] == WaitTime(k + i)
      {
        assert r.waits[i] == rest.waits[i - 1];
      }
    }
  }

  /**
    `fn` is called at most `maxRetries` times; the wait after failed attempt i
    is `2^i * 1000` ms and none follows the last call. "Retry failed" is thrown
    exactly when `maxRetries <= 0`, and then `fn` is never called.
  */
  lemma WithRetryCallsAndWaits<T>(fn: nat -> Attempt<T>, maxRetries: int)
    ensures var r := WithRetryRun(fn, maxRetries);
      (maxRetries > 0 ==> 1 <= r.calls <= maxRetries) &&
      (r.outcome.RetryFailed? <==> maxRetries <= 0) &&
      (maxRetries <= 0 ==> r.calls == 0) &&
      |r.waits| == (if r.calls == 0 then 0 else r.calls - 1) &&
      (forall i :: 0 <= i < |r.waits| ==> r.waits[i] == Pow2(i) * 1000)
  {
    RunFromShape(fn, maxRetries, 0);
  }

  /**
    Once attempts k..j-1 failed with network errors, attempt j decides the
    run: a resolved value is returned, a non-network error is rethrown at once,
    and so is a network error on the last attempt.
  */
  lemma {:induction false} SettledAt<T>(fn: nat -> Attempt<T>, maxRetries: int, k: nat, j: nat)
    requires k <= j < maxRetries
    requires forall i :: k <= i < j ==> fn(i).Rejected? && IsNetworkError(fn(i).error)
    requires fn(j).Resolved? || !IsNetworkError(fn(j).error) || j == maxRetries - 1
    ensures var r := RunFrom(fn, maxRetries, k);
      r.calls == j - k + 1 &&
      r.outcome == (match fn(j) case Resolved(v) => Resolves(v) case Rejected(e) => Throws(e))
    decreases j - k
  {
    if k < j {
      SettledAt(fn, maxRetries, k + 1, j);
    }
  }

  /** The first resolved value is what `withRetry` resolves to. */
  lemma FirstResolvedReturned<T>(fn: nat -> Attempt<T>, maxRetries: int, j: nat)
    requires j < maxRetries
    requires forall i :: 0 <= i < j ==> fn(i).Rejected? && IsNetworkError(fn(i).error)
    requires fn(j).Resolved?
    ensures WithRetryRun(fn, maxRetries) == Run(Resolves(fn(j).value), j + 1, WithRetryRun(fn, maxRetries).waits)
  {
    SettledAt(fn, maxRetries, 0, j);
  }

  /** A rejection that is not a network error is rethrown by the call that produced it. */
  lemma NonNetworkRethrown<T>(fn: nat -> Attempt<T>, maxRetries: int, j: nat)
    requires j < maxRetries
    requires forall i :: 0 <= i < j ==> fn(i).Rejected? && IsNetworkError(fn(i).error)
    requires fn(j).Rejected? && !IsNetworkError(fn(j).error)
    ensures WithRetryRun(fn, maxRetries).outcome == Throws(fn(j).error)
    ensures WithRetryRun(fn, maxRetries).calls == j + 1
  {
    SettledAt(fn, maxRetries, 0, j);
  }

  /** A network error on every attempt: all `maxRetries` calls are made and the last error is rethrown. */
  lemma AllNetworkErrorsRethrowLast<T>(fn: nat -> Attempt<T>, maxRetries: int)
    requires maxRetries > 0
    requires forall i :: 0 <= i < maxRetries ==> fn(i).Rejected? && IsNetworkError(fn(i).error)
    ensures WithRetryRun(fn, maxRetries).outcome == Throws(fn(maxRetries - 1).error)
    ensures WithRetryRun(fn, maxRetries).calls == maxRetries
  {
    SettledAt(fn, maxRetries, 0, maxRetries - 1);
  }
}
