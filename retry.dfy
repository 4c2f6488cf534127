/** `generate_with_retries` in app.py: invoke a function at most `max_retries` times, trying
    again only while it raises ResourceExhaustedError, and raise ResourceExhaustedError
    ("Max retries exceeded") once every attempt has been used up. */
module Retry {

  /** What one invocation of the wrapped function does: return a value, raise
      ResourceExhaustedError, or raise anything else. */
  datatype Outcome<+T> = Ok(value: T) | Exhausted | Other(error: string)

  /** What `generate_with_retries` raises. */
  datatype Failure = ResourceExhaustedError(message: string) | OtherError(error: string)

  datatype Result<+T> = Returned(value: T) | Raised(failure: Failure)

  const MaxRetriesExceeded: Failure := ResourceExhaustedError("Max retries exceeded")

  /** The default of the `max_retries` parameter. */
  const DefaultMaxRetries: int := 3

  /** Number of iterations of `for attempt in range(max_retries)`. */
  function Iterations(maxRetries: int): nat
  {
    if maxRetries > 0 then maxRetries else 0
  }

  /** The loop from attempt `attempt` on, without the `attempt < max_retries - 1` guard:
      the result and the number of invocations made so far. */
  function Attempts<T>(call: nat -> Outcome<T>, maxRetries: int, attempt: nat): (Result<T>, nat)
    decreases Iterations(maxRetries - attempt)
  {
    if attempt >= maxRetries then (Raised(MaxRetriesExceeded), attempt)
    else match call(attempt)
      case Ok(v) => (Returned(v), attempt + 1)
      case Other(e) => (Raised(OtherError(e)), attempt + 1)
      case Exhausted => Attempts(call, maxRetries, attempt + 1)
  }

  /** The outcome of `generate_with_retries(func, max_retries)` when invocation number `n`
      of `func` (from 0) behaves as `call(n)`. */
  function Retry<T>(call: nat -> Outcome<T>, maxRetries: int): (Result<T>, nat)
  {
    Attempts(call, maxRetries, 0)
  }

  /** The loop as written, guard included; `calls` counts the invocations of `func`. */
  method GenerateWithRetries<T>(call: nat -> Outcome<T>, maxRetries: int) returns (r: Result<T>, calls: nat)
    ensures (r, calls) == Retry(call, maxRetries)
  {
    calls := 0;
    for attempt := 0 to Iterations(maxRetries)
      invariant calls == attempt
      invariant Attempts(call, maxRetries, attempt) == Retry(call, maxRetries)
    {
      var outcome := call(attempt);
      calls := calls + 1;
      match outcome {
        case Ok(v) =>
          return Returned(v), calls;
        case Other(e) =>
          return Raised(OtherError(e)), calls;
        case Exhausted =>
          if attempt < maxRetries - 1 {
            continue;
          }
      }
    }
    r := Raised(MaxRetriesExceeded);
  }

  /** Everything a run from `attempt` on can end in: the invocations made, all but the last
      exhausted, and the last one decides the result unless the attempts ran out. */
  lemma {:induction false} AttemptsShape<T>(call: nat -> Outcome<T>, maxRetries: int, attempt: nat)
    ensures var (r, n) := Attempts(call, maxRetries, attempt);
      && attempt <= n <= (if attempt < maxRetries then maxRetries else attempt)
      && (forall i :: attempt <= i < n - 1 ==> call(i).Exhausted?)
      && (r.Returned? ==> attempt < n && call(n - 1) == Ok(r.value))
      && (r.Raised? && r.failure.OtherError? ==> attempt < n && call(n - 1) == Other(r.failure.error))
      && (r.Raised? && r.failure.ResourceExhaustedError? ==>
            && r.failure == MaxRetriesExceeded
            && n == (if attempt < maxRetries then maxRetries else attempt)
            && forall i :: attempt <= i < n ==> call(i).Exhausted?)
    decreases Iterations(maxRetries - attempt)
  {
    if attempt < maxRetries && call(attempt).Exhausted? {
      AttemptsShape(call, maxRetries, attempt + 1);
    }
  }

  /** How any call of `generate_with_retries` ends: it invokes `func` at most `max_retries`
      times (never when `max_retries <= 0`), every invocation but the last raised
      ResourceExhaustedError, and the last one's value or foreign exception is the result;
      the "Max retries exceeded" error comes exactly when all `max_retries` raised it. */
  lemma RetryOutcome<T>(call: nat -> Outcome<T>, maxRetries: int)
    ensures var (r, n) := Retry(call, maxRetries);
      && n <= Iterations(maxRetries)
      && (forall i :: 0 <= i < n - 1 ==> call(i).Exhausted?)
      && (r.Returned? ==> 0 < n && call(n - 1) == Ok(r.value))
      && (r.Raised? && r.failure.OtherError? ==> 0 < n && call(n - 1) == Other(r.failure.error))
      && (r.Raised? && r.failure.ResourceExhaustedError? ==>
            r.failure == MaxRetriesExceeded && n == Iterations(maxRetries) &&
            forall i :: 0 <= i < n ==> call(i).Exhausted?)
  {
    AttemptsShape(call, maxRetries, 0);
  }

  /** A first success at attempt `k` is returned after exactly `k + 1` invocations. */
  lemma RetryFirstOk<T>(call: nat -> Outcome<T>, maxRetries: int, k: nat, v: T)
    requires k < maxRetries
    requires forall i :: 0 <= i < k ==> call(i).Exhausted?
    requires call(k) == Ok(v)
    ensures Retry(call, maxRetries) == (Returned(v), k + 1)
  {
    RetryOutcome(call, maxRetries);
  }

  /** Any other exception at attempt `k` propagates at once, after `k + 1` invocations. */
  lemma RetryOtherPropagates<T>(call: nat -> Outcome<T>, maxRetries: int, k: nat, e: string)
    requires k < maxRetries
    requires forall i :: 0 <= i < k ==> call(i).Exhausted?
    requires call(k) == Other(e)
    ensures Retry(call, maxRetries) == (Raised(OtherError(e)), k + 1)
  {
    RetryOutcome(call, maxRetries);
  }

  /** If every attempt raises ResourceExhaustedError, `func` is invoked exactly
      `max_retries` times (zero times when `max_retries <= 0`) and the
      "Max retries exceeded" error is raised. */
  lemma RetryAllExhausted<T>(call: nat -> Outcome<T>, maxRetries: int)
    requires forall i :: 0 <= i < maxRetries ==> call(i).Exhausted?
    ensures Retry(call, maxRetries) == (Raised(MaxRetriesExceeded), Iterations(maxRetries))
  {
    RetryOutcome(call, maxRetries);
  }

  /** Called with its default, `generate_with_retries` invokes `func` at most three times,
      and raises "Max retries exceeded" only after exactly three exhausted attempts. */
  lemma RetryDefaultBound<T>(call: nat -> Outcome<T>)
    ensures Retry(call, DefaultMaxRetries).1 <= 3
    ensures Retry(call, DefaultMaxRetries).0 == Raised(MaxRetriesExceeded) <==>
      call(0).Exhausted? && call(1).Exhausted? && call(2).Exhausted?
  {
    RetryOutcome(call, DefaultMaxRetries);
    if call(0).Exhausted? && call(1).Exhausted? && call(2).Exhausted? {
      RetryAllExhausted(call, DefaultMaxRetries);
    }
  }
}
