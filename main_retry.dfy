/**
 * `retryWithBackoff` of the main process (main.js): an operation is tried
 * up to `maxAttempts` times, waiting longer after each failure. The
 * operation's outcome at each attempt is a parameter, and the waits are
 * returned instead of slept.
 */
module Retry {
  import opened Common

  /** What one attempt of the operation did: resolved with a value or threw an error. */
  datatype Attempt<T> = Succeeded(value: T) | Failed(error: JsValue)

  /**
   * What the retry does in the end: resolves with the first success, or
   * throws the last error (`undefined` when nothing was tried), or throws
   * the `TypeError` of reading `.message` of a `null` or `undefined` error
   * in the warning before a retry.
   */
  datatype Outcome<T> = Resolved(value: T) | Thrown(error: JsValue) | MessageReadFailed

  /** `error.message` throws for these errors. */
  predicate Nullish(v: JsValue) {
    v.Null? || v.Undefined?
  }

  /** The attempt ends the retry: it succeeded, or it failed with a nullish error and a retry was due. */
  predicate EndsRetry<T>(a: Attempt<T>, attempt: int, maxAttempts: int) {
    a.Succeeded? || (Nullish(a.error) && attempt < maxAttempts)
  }

  datatype RetryConfig = RetryConfig(maxAttempts: int, baseDelay: nat, maxDelay: nat, backoffMultiplier: nat)

  /** `RETRY_CONFIG`. */
  const DefaultConfig := RetryConfig(3, 1000, 10000, 2)

  function Pow(b: nat, e: nat): nat
  {
    if e == 0 then 1 else b * Pow(b, e - 1)
  }

  /** The wait after the failed attempt `attempt`: `min(baseDelay * multiplier^(attempt - 1), maxDelay)`. */
  function Delay(config: RetryConfig, attempt: nat): (d: nat)
    requires attempt >= 1
    ensures d <= config.maxDelay
    ensures d <= config.baseDelay * Pow(config.backoffMultiplier, attempt - 1)
    ensures d == config.maxDelay || d == config.baseDelay * Pow(config.backoffMultiplier, attempt - 1)
  {
    var d := config.baseDelay * Pow(config.backoffMultiplier, attempt - 1);
    if d < config.maxDelay then d else config.maxDelay
  }

  /** The waits after the failed attempts 1, …, `count`. */
  function Delays(config: RetryConfig, count: nat): (r: seq<nat>)
    ensures |r| == count
    ensures forall k :: 0 <= k < count ==> r[k] == Delay(config, k + 1)
  {
    if count == 0 then [] else Delays(config, count - 1) + [Delay(config, count)]
  }

  /**
   * The attempts the retry makes: up to the first success or the first
   * nullish error before the last attempt, and never more than
   * `maxAttempts`.
   */
  function AttemptsMade<T>(operation: nat -> Attempt<T>, maxAttempts: int, from: nat): (n: nat)
    requires from >= 1
    ensures from <= n || (n == from - 1 && maxAttempts < from)
    ensures n <= if maxAttempts < from then from - 1 else maxAttempts
    ensures forall k :: from <= k < n ==> !EndsRetry(operation(k), k, maxAttempts)
    ensures n >= from ==> n == maxAttempts || EndsRetry(operation(n), n, maxAttempts)
    decreases if maxAttempts < from then 0 else maxAttempts - from + 1
  {
    if maxAttempts < from then from - 1
    else if EndsRetry(operation(from), from, maxAttempts) then from
    else AttemptsMade(operation, maxAttempts, from + 1)
  }

  /**
   * retryWithBackoff: calls the operation for attempt 1, 2, … until it
   * succeeds or `maxAttempts` attempts were made. The result is the first
   * success, or else the last error thrown (`undefined` when
   * `maxAttempts` is below 1). Between two attempts it waits
   * `min(baseDelay * multiplier^(attempt - 1), maxDelay)`; there is no wait
   * after the last attempt. A `null` or `undefined` error before the last
   * attempt ends the retry at once, without a wait, with the `TypeError`
   * that the warning's `error.message` raises.
   */
  method RetryWithBackoff<T>(operation: nat -> Attempt<T>, config: RetryConfig := DefaultConfig)
    returns (r: Outcome<T>, waits: seq<nat>)
    ensures var n := AttemptsMade(operation, config.maxAttempts, 1);
      (r.Resolved? <==> n >= 1 && operation(n).Succeeded?) &&
      (r.Resolved? ==> r.value == operation(n).value) &&
      (r.MessageReadFailed? <==> n >= 1 && operation(n).Failed? && Nullish(operation(n).error) && n < config.maxAttempts) &&
      (r.Thrown? && n >= 1 ==> n == config.maxAttempts && r.error == operation(n).error) &&
      (n == 0 ==> r == Thrown(Undefined)) &&
      waits == Delays(config, if n >= 1 then n - 1 else 0)
  {
    ghost var n := AttemptsMade(operation, config.maxAttempts, 1);
    var lastError := Undefined;
    waits := [];
    var attempt := 1;
    while attempt <= config.maxAttempts
      invariant 1 <= attempt && (attempt <= config.maxAttempts || attempt == 1)
      invariant AttemptsMade(operation, config.maxAttempts, attempt) == n
      invariant attempt > 1 ==> operation(attempt - 1).Failed? && lastError == operation(attempt - 1).error
      invariant attempt == 1 ==> lastError == Undefined
      invariant waits == Delays(config, attempt - 1)
      decreases config.maxAttempts - attempt
    {
      var result := operation(attempt);
      if result.Succeeded? {
        return Resolved(result.value), waits;
      }
      lastError := result.error;
      if attempt == config.maxAttempts {
        assert n == attempt;
        break;
      }
      var delay := Delay(config, attempt);
      if Nullish(result.error) {
        return MessageReadFailed, waits;
      }
      waits := waits + [delay];
      attempt := attempt + 1;
    }
    return Thrown(lastError), waits;
  }

  /** A `null` thrown by the first of several attempts ends the retry after that attempt. */
  lemma NullErrorEndsFirstAttempt<T>(operation: nat -> Attempt<T>, config: RetryConfig)
    requires operation(1) == Failed(Null) && config.maxAttempts >= 2
    ensures AttemptsMade(operation, config.maxAttempts, 1) == 1
  {
  }

  /**
   * With the application's settings, an operation that always fails with
   * an error object is tried three times, with waits of 1 and 2 seconds.
   */
  lemma DefaultScheduleAlwaysFailing<T>(operation: nat -> Attempt<T>)
    requires forall k :: operation(k).Failed? && !Nullish(operation(k).error)
    ensures AttemptsMade(operation, DefaultConfig.maxAttempts, 1) == 3
    ensures Delays(DefaultConfig, 2) == [1000, 2000]
  {
    assert Pow(2, 1) == 2;
    assert Delays(DefaultConfig, 2) == Delays(DefaultConfig, 1) + [Delay(DefaultConfig, 2)];
  }

  /** The waits grow from one attempt to the next, as long as the multiplier is at least 1. */
  lemma {:induction false} WaitsGrow(config: RetryConfig, attempt: nat)
    requires attempt >= 1 && config.backoffMultiplier >= 1
    ensures Delay(config, attempt) <= Delay(config, attempt + 1)
  {
    var m, p := config.backoffMultiplier, Pow(config.backoffMultiplier, attempt - 1);
    assert Pow(m, attempt) == m * p;
    assert p <= m * p;
    assert config.baseDelay * p <= config.baseDelay * (m * p);
  }
}
