/**
 * `retryWithBackoff` (services/geminiService.ts): up to `retries` calls of
 * an operation, rethrowing at once on an error that is neither a network
 * nor a server failure, and waiting `baseDelay * 2^i` after a retryable
 * failure of every attempt `i` but the last. Time is not modelled: the
 * waits are returned as a list of delays. The operation is an oracle
 * giving the outcome of its `i`-th call.
 */
module Retry {
  import opened Wrappers
  import opened Text
  import opened Js

  const DEFAULT_RETRIES: nat := 3
  const DEFAULT_BASE_DELAY: nat := 1000

  /** What one call of the operation did. */
  datatype Attempt<T> = Returned(value: T) | Threw(error: JsError)

  /**
   * How the wrapper ended: with a value, or by throwing. `throw lastError`
   * throws `undefined` when no attempt was made, hence the `Option`.
   */
  datatype Outcome<T> = Resolved(value: T) | Rejected(error: Option<JsError>)

  /** The outcome, the delays waited in order, and how many calls were made. */
  datatype Run<T> = Run(outcome: Outcome<T>, waits: seq<nat>, attempts: nat)

  /** The message text contains a network-failure marker. */
  predicate IsNetworkMessage(message: string)
  {
    Contains(message, "Failed to fetch") || Contains(message, "NetworkError")
  }

  /** The message text contains a server-failure marker. "504" is not one of them. */
  predicate IsServerMessage(message: string)
  {
    || Contains(message, "500") || Contains(message, "503")
    || Contains(message, "502") || Contains(message, "Overloaded")
  }

  predicate IsRetryable(e: JsError)
  {
    var message := ErrorText(e);
    IsNetworkMessage(message) || IsServerMessage(message)
  }

  function Pow2(i: nat): (r: nat)
    ensures r >= 1
  {
    if i == 0 then 1 else 2 * Pow2(i - 1)
  }

  /** The `i`-th delay of the backoff schedule. */
  function Backoff(baseDelay: nat, i: nat): nat
  {
    baseDelay * Pow2(i)
  }

  /** The loop of `retryWithBackoff` from iteration `i`, having seen `lastError`. */
  function RetryFrom<T>(op: nat -> Attempt<T>, retries: nat, baseDelay: nat, i: nat, lastError: Option<JsError>): (r: Run<T>)
    requires i <= retries
    ensures i <= r.attempts <= retries
    ensures r.attempts == i ==> r.outcome == Rejected(lastError) && r.waits == []
    ensures |r.waits| <= r.attempts - i
    decreases retries - i
  {
    if i == retries then Run(Rejected(lastError), [], i)
    else
      match op(i)
      case Returned(v) => Run(Resolved(v), [], i + 1)
      case Threw(e) =>
        if !IsRetryable(e) then Run(Rejected(Some(e)), [], i + 1)
        else
          var rest := RetryFrom(op, retries, baseDelay, i + 1, Some(e));
          if i < retries - 1 then Run(rest.outcome, [Backoff(baseDelay, i)] + rest.waits, rest.attempts)
          else rest
  }

  /** `retryWithBackoff(operation, retries, baseDelay)`. */
  function RetryWithBackoff<T>(op: nat -> Attempt<T>, retries: nat, baseDelay: nat): (r: Run<T>)
    ensures r.attempts <= retries
    ensures retries == 0 ==> r.outcome == Rejected(None) && r.waits == []
  {
    RetryFrom(op, retries, baseDelay, 0, None)
  }

  /** Attempt `i` ends the loop: it returned, or it threw an error that is not retried. */
  predicate Stops<T>(a: Attempt<T>)
  {
    a.Returned? || !IsRetryable(a.error)
  }

  /** The outcome an attempt that ends the loop produces. */
  function Final<T>(a: Attempt<T>): Outcome<T>
  {
    match a
    case Returned(v) => Resolved(v)
    case Threw(e) => Rejected(Some(e))
  }

  /** The loop from iteration `i` waits once fewer than it calls. */
  lemma {:induction false} RetryFromWaitCount<T>(op: nat -> Attempt<T>, retries: nat, baseDelay: nat, i: nat, lastError: Option<JsError>)
    requires i < retries
    ensures var r := RetryFrom(op, retries, baseDelay, i, lastError);
      i < r.attempts && |r.waits| == r.attempts - 1 - i
    decreases retries - i
  {
    if op(i).Threw? && IsRetryable(op(i).error) && i < retries - 1 {
      RetryFromWaitCount(op, retries, baseDelay, i + 1, Some(op(i).error));
    }
  }

  /** `waits` are the backoff delays from the `i`-th on. */
  predicate BackoffFrom(waits: seq<nat>, baseDelay: nat, i: nat)
  {
    forall j | 0 <= j < |waits| :: waits[j] == Backoff(baseDelay, i + j)
  }

  /** The waits of the loop from iteration `i` are the backoff delays `i, i + 1, ...`. */
  lemma {:induction false} RetryFromWaits<T>(op: nat -> Attempt<T>, retries: nat, baseDelay: nat, i: nat, lastError: Option<JsError>)
    requires i <= retries
    ensures BackoffFrom(RetryFrom(op, retries, baseDelay, i, lastError).waits, baseDelay, i)
    decreases retries - i
  {
    if i < retries && op(i).Threw? && IsRetryable(op(i).error) {
      var e := op(i).error;
      RetryFromWaits(op, retries, baseDelay, i + 1, Some(e));
      if i < retries - 1 {
        var r := RetryFrom(op, retries, baseDelay, i, lastError);
        var rest := RetryFrom(op, retries, baseDelay, i + 1, Some(e));
        assert r.waits == [Backoff(baseDelay, i)] + rest.waits;
        forall j | 0 <= j < |r.waits|
          ensures r.waits[j] == Backoff(baseDelay, i + j)
        {
          if j > 0 {
            assert r.waits[j] == rest.waits[j - 1];
            assert rest.waits[j - 1] == Backoff(baseDelay, i + 1 + (j - 1));
            assert i + 1 + (j - 1) == i + j;
          } else {
            assert r.waits[0] == Backoff(baseDelay, i);
          }
        }
      }
    }
  }

  /**
   * The outcome of the loop from iteration `i`: every call before the last
   * failed retryably; the last call's result is the outcome if it stopped
   * the loop, and otherwise all `retries` calls were made and the last
   * error is thrown.
   */
  lemma {:induction false} RetryFromOutcome<T>(op: nat -> Attempt<T>, retries: nat, baseDelay: nat, i: nat, lastError: Option<JsError>)
    requires i < retries
    ensures var r := RetryFrom(op, retries, baseDelay, i, lastError);
      && i < r.attempts
      && (forall j | i <= j < r.attempts - 1 :: !Stops(op(j)))
      && (Stops(op(r.attempts - 1)) ==> r.outcome == Final(op(r.attempts - 1)))
      && (!Stops(op(r.attempts - 1)) ==> r.attempts == retries && r.outcome == Rejected(Some(op(retries - 1).error)))
    decreases retries - i
  {
    if op(i).Threw? && IsRetryable(op(i).error) {
      var e := op(i).error;
      if i < retries - 1 {
        RetryFromOutcome(op, retries, baseDelay, i + 1, Some(e));
      } else {
        assert RetryFrom(op, retries, baseDelay, i + 1, Some(e)) == Run(Rejected(Some(e)), [], retries);
      }
    }
  }

  /**
   * The wrapper with at least one allowed call: it makes at most `retries`
   * calls, every call before the last failed retryably, the first value
   * returned is passed on with no further call, an error that is not
   * retried is rethrown at once, and after `retries` retryable failures
   * the last error is rethrown. The waits are exactly the backoff delays
   * `baseDelay * 2^j` for the calls that were followed by another one.
   */
  lemma RetrySpec<T>(op: nat -> Attempt<T>, retries: nat, baseDelay: nat)
    requires retries >= 1
    ensures var r := RetryWithBackoff(op, retries, baseDelay);
      && 1 <= r.attempts <= retries
      && |r.waits| == r.attempts - 1
      && (forall j | 0 <= j < |r.waits| :: r.waits[j] == Backoff(baseDelay, j))
      && (forall j | 0 <= j < r.attempts - 1 :: op(j).Threw? && IsRetryable(op(j).error))
      && (Stops(op(r.attempts - 1)) ==> r.outcome == Final(op(r.attempts - 1)))
      && (!Stops(op(r.attempts - 1)) ==> r.attempts == retries && r.outcome == Rejected(Some(op(retries - 1).error)))
  {
    RetryFromWaitCount(op, retries, baseDelay, 0, None);
    RetryFromWaits(op, retries, baseDelay, 0, None);
    RetryFromOutcome(op, retries, baseDelay, 0, None);
  }

  /** A first call that returns is the only call, and its value is the result. */
  lemma FirstSuccessIsReturned<T>(op: nat -> Attempt<T>, retries: nat, baseDelay: nat)
    requires retries >= 1 && op(0).Returned?
    ensures RetryWithBackoff(op, retries, baseDelay) == Run(Resolved(op(0).value), [], 1)
  {
  }

  /** An error that is not retried is rethrown after one call and no wait. */
  lemma NonRetryableRethrownAtOnce<T>(op: nat -> Attempt<T>, retries: nat, baseDelay: nat)
    requires retries >= 1 && op(0).Threw? && !IsRetryable(op(0).error)
    ensures RetryWithBackoff(op, retries, baseDelay) == Run(Rejected(Some(op(0).error)), [], 1)
  {
  }

  /** With the defaults, three retryable failures wait 1000 then 2000 ms and rethrow the third error. */
  lemma ThreeRetryableFailures<T>(op: nat -> Attempt<T>)
    requires forall j :: 0 <= j < 3 ==> op(j).Threw? && IsRetryable(op(j).error)
    ensures RetryWithBackoff(op, DEFAULT_RETRIES, DEFAULT_BASE_DELAY)
         == Run(Rejected(Some(op(2).error)), [1000, 2000], 3)
  {
    RetrySpec(op, DEFAULT_RETRIES, DEFAULT_BASE_DELAY);
    var r := RetryWithBackoff(op, DEFAULT_RETRIES, DEFAULT_BASE_DELAY);
    assert !Stops(op(0)) && !Stops(op(1)) && !Stops(op(2));
    assert r.attempts == 3;
    assert Pow2(1) == 2;
  }

  /** A "503" failure is retried. */
  lemma ServiceUnavailableIsRetryable()
    ensures IsRetryable(Error("503"))
  {
    assert OccursAt("503", "503", 0);
  }

  /** A "504" failure is not among the server failures that are retried. */
  lemma GatewayTimeoutIsNotRetryable()
    ensures !IsRetryable(Error("504"))
  {
    ContainsNoShorter("504", "500");
    ContainsNoShorter("504", "503");
    ContainsNoShorter("504", "502");
  }

  /**
   * Two "503" failures followed by a value: the value is returned after
   * three calls and the waits 1000 and 2000 ms.
   */
  lemma TwoServerErrorsThenValue<T>(v: T)
    ensures var op := (j: nat) => if j < 2 then Threw(Error("503")) else Returned(v);
      RetryWithBackoff(op, DEFAULT_RETRIES, DEFAULT_BASE_DELAY) == Run(Resolved(v), [1000, 2000], 3)
  {
    ServiceUnavailableIsRetryable();
    assert Pow2(1) == 2;
  }

  /** A "400" client error is rethrown after one call with no wait. */
  lemma BadRequestFailsAtOnce<T>()
    ensures var op := (j: nat) => Threw(Error("400"));
      RetryWithBackoff<T>(op, DEFAULT_RETRIES, DEFAULT_BASE_DELAY) == Run(Rejected(Some(Error("400"))), [], 1)
  {
    ContainsNoShorter("400", "500");
    ContainsNoShorter("400", "503");
    ContainsNoShorter("400", "502");
  }
}
