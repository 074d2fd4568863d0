/** The blob client's retry loop. The k-th call of the operation, counted from one, takes
    `took(k)` and would answer `answer(k)`. Durations are whole nanoseconds. */
module Retry {
  import opened Wrappers
  import opened Arithmetic

  datatype BlobError = NotFound | Sdk | Config | Protocol | Io

  datatype Outcome = Ok(value: nat) | Err(error: BlobError)

  const DURATION_MAX: nat := (0x1_0000_0000_0000_0000 - 1) * 1_000_000_000 + 999_999_999

  predicate IsTransient(e: BlobError) { e.Sdk? || e.Protocol? }

  /** Worth another attempt. */
  predicate Retryable(o: Outcome) { o.Err? && IsTransient(o.error) }

  /** One attempt: past its deadline the answer is a transport error. */
  function Attempt(deadline: Option<nat>, took: nat, answer: Outcome): Outcome {
    if deadline.Some? && took > deadline.value then Err(Sdk) else answer
  }

  /** The call did not answer in time. */
  predicate Late(deadline: Option<nat>, took: nat) {
    match deadline
    case None => false
    case Some(limit) => limit < took
  }

  function Pow2(n: nat): (p: nat)
    ensures p > 0
  {
    if n == 0 then 1 else 2 * Pow2(n - 1)
  }

  /** The delay before a retry doubles sixteen times at most, and saturates. */
  function BackoffFor(base: nat, retry: nat): nat
    requires retry > 0
  {
    var delay := base * Pow2(if retry - 1 < 16 then retry - 1 else 16);
    if delay < DURATION_MAX then delay else DURATION_MAX
  }

  function Budget(attempts: nat): nat { if attempts == 0 then 1 else attempts }

  /** All delays of a run of `calls` calls. */
  function SleptFor(base: nat, calls: nat): nat {
    if calls <= 1 then 0 else SleptFor(base, calls - 1) + BackoffFor(base, calls - 1)
  }

  /** Calls again after a late answer, a transport error or a protocol error, and returns
      anything else at once. The budget allows one call at least; the last one is returned
      whatever it is. */
  method WithRetry(attempts: nat, base: nat, deadline: Option<nat>, took: nat -> nat, answer: nat -> Outcome)
    returns (result: Outcome, calls: nat, slept: nat)
    ensures 1 <= calls && (calls <= attempts || calls == 1)
    ensures result == if Late(deadline, took(calls)) then Err(Sdk) else answer(calls)
    ensures forall k | 1 <= k < calls :: Late(deadline, took(k)) || answer(k) == Err(Sdk) || answer(k) == Err(Protocol)
    ensures calls < attempts ==>
              result.Ok? || result == Err(NotFound) || result == Err(Config) || result == Err(Io)
    ensures slept == SleptFor(base, calls)
  {
    calls, slept := 1, 0;
    result := Attempt(deadline, took(1), answer(1));
    while Retryable(result) && calls < Budget(attempts)
      invariant 1 <= calls <= Budget(attempts) && result == Attempt(deadline, took(calls), answer(calls))
      invariant forall k | 1 <= k < calls :: Retryable(Attempt(deadline, took(k), answer(k)))
      invariant slept == SleptFor(base, calls)
      decreases Budget(attempts) - calls
    {
      slept := slept + BackoffFor(base, calls);
      calls := calls + 1;
      result := Attempt(deadline, took(calls), answer(calls));
    }
  }

  /** The loop's result is unique: nothing but the answers decides it. */
  lemma FirstDecisive(o: nat -> Outcome, budget: nat, a: nat, b: nat)
    requires 1 <= a <= budget && 1 <= b <= budget
    requires (forall k | 1 <= k < a :: Retryable(o(k))) && (Retryable(o(a)) ==> a == budget)
    requires (forall k | 1 <= k < b :: Retryable(o(k))) && (Retryable(o(b)) ==> b == budget)
    ensures a == b
  {
    assert a < b ==> Retryable(o(a));
    assert b < a ==> Retryable(o(b));
  }

  // ---- How long a run sleeps ----------------------------------------------------------------------

  lemma {:induction false} PowMono(a: nat, b: nat)
    requires a <= b
    ensures Pow2(a) <= Pow2(b)
  {
    if a < b { PowMono(a, b - 1); }
  }

  lemma DoubleSum(base: nat, p: nat)
    requires p > 0
    ensures base * (p - 1) + base * p == base * (2 * p - 1)
  {
  }

  /** One delay: doubled up to the seventeenth retry, and cut at the longest duration. */
  lemma BackoffIs(base: nat, retry: nat)
    requires retry > 0
    ensures var delay := base * Pow2(if retry <= 17 then retry - 1 else 16);
            BackoffFor(base, retry) == if delay <= DURATION_MAX then delay else DURATION_MAX
  {
  }

  lemma BackoffAtMost(base: nat, retry: nat)
    requires retry > 0
    ensures BackoffFor(base, retry) <= DURATION_MAX && BackoffFor(base, retry) <= base * Pow2(retry - 1)
  {
    var e := if retry - 1 < 16 then retry - 1 else 16;
    PowMono(e, retry - 1);
    hide Pow2;
    MulMono(Pow2(e), Pow2(retry - 1), base);
  }

  /** However large the base, a run sleeps no longer than the doubling would have it, and
      each delay stays within the longest duration. */
  lemma {:induction false} SleepsAtMost(base: nat, calls: nat)
    requires 1 <= calls
    ensures SleptFor(base, calls) <= base * (Pow2(calls - 1) - 1)
    ensures SleptFor(base, calls) <= (calls - 1) * DURATION_MAX
  {
    if calls > 1 {
      SleepsAtMost(base, calls - 1);
      BackoffAtMost(base, calls - 1);
      assert Pow2(calls - 1) == 2 * Pow2(calls - 2);
      hide Pow2, BackoffFor;
      DoubleSum(base, Pow2(calls - 2));
    }
  }

  /** Up to eighteen calls the delays double each time, exactly when the last one is not cut. */
  lemma {:induction false} SleepsExactly(base: nat, calls: nat)
    requires 1 <= calls <= 18
    ensures SleptFor(base, calls) == base * (Pow2(calls - 1) - 1)
            <==> (calls > 1 ==> base * Pow2(calls - 2) <= DURATION_MAX)
  {
    if calls > 1 {
      SleepsExactly(base, calls - 1);
      SleepsAtMost(base, calls - 1);
      BackoffIs(base, calls - 1);
      assert Pow2(calls - 1) == 2 * Pow2(calls - 2);
      if calls > 2 { PowMono(calls - 3, calls - 2); }
      hide Pow2, BackoffFor;
      DoubleSum(base, Pow2(calls - 2));
      var term, before := base * Pow2(calls - 2), if calls > 2 then base * Pow2(calls - 3) else 0;
      if calls > 2 { MulMono(Pow2(calls - 3), Pow2(calls - 2), base); }
      SumStep(SleptFor(base, calls - 1), base * (Pow2(calls - 2) - 1), before, term, DURATION_MAX);
    }
  }

  /** A sum that is exact so far stays exact exactly when its next term is not cut. */
  lemma SumStep(sum: nat, exact: nat, before: nat, term: nat, most: nat)
    requires sum <= exact && (sum == exact <==> before <= most) && before <= term
    ensures var next := sum + if term <= most then term else most;
            next <= exact + term && (next == exact + term <==> term <= most)
  {
  }

  lemma OneMore(base: nat, p: nat, n: nat, q: nat)
    requires n > 0
    ensures base * (q + (n - 1) * p) + base * p == base * (q + n * p)
  {
    assert n * p == (n - 1) * p + p;
  }

  /** From then on every delay is the same, exactly when it is not cut. */
  lemma {:induction false} SleepsLonger(base: nat, calls: nat)
    requires calls >= 18
    ensures var doubled := base * ((Pow2(17) - 1) + (calls - 18) * Pow2(16));
            SleptFor(base, calls) <= doubled && (SleptFor(base, calls) == doubled <==> base * Pow2(16) <= DURATION_MAX)
  {
    hide Pow2, BackoffFor;
    if calls == 18 {
      SleepsExactly(base, 18);
      SleepsAtMost(base, 18);
    } else {
      SleepsLonger(base, calls - 1);
      BackoffIs(base, calls - 1);
      OneMore(base, Pow2(16), calls - 18, Pow2(17) - 1);
      var term := base * Pow2(16);
      SumStep(SleptFor(base, calls - 1), base * ((Pow2(17) - 1) + (calls - 19) * Pow2(16)), term, term, DURATION_MAX);
    }
  }
}
