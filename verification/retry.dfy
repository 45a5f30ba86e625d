/** retry_with_backoff: call an operation up to `retries` times, sleeping
    between failed attempts with a delay that doubles each time, and re-raise
    the last failure. The operation is given as the outcome of each attempt;
    the sleeps are recorded as the trace of their base delays. */
module Retry {

  /** What one call of the operation does: return a value or raise an error. */
  datatype Outcome<T, E> = Success(value: T) | Failure(error: E)

  /** What retry_with_backoff does: return the operation's value, re-raise its
      last error, or fall out of an empty loop and return None. */
  datatype RetryResult<T, E> = Returned(value: T) | Raised(error: E) | NoneReturned

  const DefaultRetries: int := 5
  const DefaultBackoff: int := 1

  function Pow2(k: nat): (r: nat)
    ensures r >= 1
  {
    if k == 0 then 1 else 2 * Pow2(k - 1)
  }

  /** The base delays slept before retries 1..k: backoff * 2^i before retry i + 1 (jitter left out). */
  function BaseDelays(backoff: int, k: nat): (r: seq<int>)
    ensures |r| == k
  {
    if k == 0 then [] else BaseDelays(backoff, k - 1) + [backoff * Pow2(k - 1)]
  }

  /** The i-th delay is the backoff scaled by 2^i. */
  lemma {:induction false} BaseDelayAt(backoff: int, k: nat, i: nat)
    requires i < k
    ensures BaseDelays(backoff, k)[i] == backoff * Pow2(i)
    decreases k
  {
    if i < k - 1 {
      BaseDelayAt(backoff, k - 1, i);
    }
  }

  /** Each delay is twice the one before it. */
  lemma BaseDelaysDouble(backoff: int, k: nat, i: nat)
    requires i + 1 < k
    ensures BaseDelays(backoff, k)[i + 1] == 2 * BaseDelays(backoff, k)[i]
  {
    BaseDelayAt(backoff, k, i);
    BaseDelayAt(backoff, k, i + 1);
    assert backoff * Pow2(i + 1) == backoff * (2 * Pow2(i));
  }

  function Total(delays: seq<int>): int {
    if delays == [] then 0 else Total(delays[..|delays| - 1]) + delays[|delays| - 1]
  }

  /** The k base delays add up to backoff * (2^k - 1). */
  lemma {:induction false} TotalBaseDelay(backoff: int, k: nat)
    ensures Total(BaseDelays(backoff, k)) == backoff * (Pow2(k) - 1)
    decreases k
  {
    if k > 0 {
      var ds := BaseDelays(backoff, k);
      TotalBaseDelay(backoff, k - 1);
      assert ds[..|ds| - 1] == BaseDelays(backoff, k - 1);
      calc {
        Total(ds);
        backoff * (Pow2(k - 1) - 1) + backoff * Pow2(k - 1);
        backoff * (2 * Pow2(k - 1) - 1);
        backoff * (Pow2(k) - 1);
      }
    }
  }

  /** With the default arguments a permanently failing operation sleeps 1, 2, 4 and 8 seconds plus jitter. */
  lemma DefaultSchedule()
    ensures BaseDelays(DefaultBackoff, DefaultRetries - 1) == [1, 2, 4, 8]
    ensures Total(BaseDelays(DefaultBackoff, DefaultRetries - 1)) == 15
  {
    TotalBaseDelay(DefaultBackoff, DefaultRetries - 1);
  }

  /** Every one of the first k attempts fails. */
  ghost predicate FailsBefore<T, E>(op: nat -> Outcome<T, E>, k: nat) {
    forall j: nat :: j < k ==> op(j).Failure?
  }

  /** Within n attempts, either all fail or there is a first success. */
  lemma {:induction false} FirstSuccessOrAllFail<T, E>(op: nat -> Outcome<T, E>, n: nat)
    ensures FailsBefore(op, n) || exists k: nat :: k < n && FailsBefore(op, k) && op(k).Success?
    decreases n
  {
    if n > 0 {
      FirstSuccessOrAllFail(op, n - 1);
      if FailsBefore(op, n - 1) && op(n - 1).Success? {
        assert n - 1 < n && FailsBefore(op, n - 1) && op(n - 1).Success?;
      }
    }
  }

  /** retry_with_backoff: `op(i)` is the outcome of the i-th call; `calls` counts the
      calls made and `delays` lists the base delay of every sleep, in order. */
  method RetryWithBackoff<T, E>(op: nat -> Outcome<T, E>, retries: int, backoff: int)
    returns (r: RetryResult<T, E>, calls: nat, delays: seq<int>)
    ensures retries <= 0 ==> r == NoneReturned && calls == 0 && delays == []
    ensures forall k: nat :: k < retries && FailsBefore(op, k) && op(k).Success? ==>
      r == Returned(op(k).value) && calls == k + 1 && delays == BaseDelays(backoff, k)
    ensures retries > 0 && FailsBefore(op, retries) ==>
      r == Raised(op(retries - 1).error) && calls == retries && delays == BaseDelays(backoff, retries - 1)
    ensures r.NoneReturned? <==> retries <= 0
    ensures calls > 0 ==> calls <= retries && |delays| == calls - 1
  {
    r, calls, delays := NoneReturned, 0, [];
    var attempt: nat := 0;
    while attempt < retries
      invariant attempt == 0 || attempt < retries
      invariant calls == attempt
      invariant FailsBefore(op, attempt)
      invariant delays == BaseDelays(backoff, attempt)
      decreases retries - attempt
    {
      var outcome := op(attempt);
      calls := calls + 1;
      match outcome
      case Success(v) =>
        r := Returned(v);
        return;
      case Failure(e) =>
        if attempt < retries - 1 {
          delays := delays + [backoff * Pow2(attempt)];
        } else {
          r := Raised(e);
          return;
        }
      attempt := attempt + 1;
    }
  }
}
