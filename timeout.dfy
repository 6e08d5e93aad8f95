/** The per-request timeout of the HEC client (TypeScript, the expression at line 55 of
    index.ts): the time left in the function's budget, shared by the three requests each
    payload may need and by all payloads, which are sent one after another. Times are in
    milliseconds, as exact reals (the source computes with floating point). */
module Timeout {
  import Retry

  /** The function timeout configured in host.json. */
  const FuncTimeout: real := 600000.0
  const InitTime: real := 120000.0
  const WriteTime: real := 30000.0
  const Buffer: real := 30000.0

  /** `Math.max` on two numbers. */
  function Max(a: real, b: real): (m: real)
    ensures m >= a && m >= b && (m == a || m == b)
  {
    if a >= b then a else b
  }

  /** The time left for sending: what remains of the ten minutes once start-up, writing
      the backups, the safety margin and the build are accounted for. */
  function SendBudget(timeToBuild: real): (budget: real)
    ensures budget == 420000.0 - timeToBuild
  {
    FuncTimeout - InitTime - WriteTime - Buffer - timeToBuild
  }

  /** The requests one payload may need. */
  function AttemptsPerPayload(): (attempts: real)
    ensures attempts == 3.0
  {
    (Retry.MaxRetries + 1) as real
  }

  /** The timeout of every request: never zero or negative, whatever the build took and
      however many payloads there are (none included); both divisors are at least 1. */
  function RequestTimeout(timeToBuild: real, payloadCount: nat): (timeout: real)
    ensures timeout > 0.0
    ensures timeout <= Max(SendBudget(timeToBuild) / AttemptsPerPayload(), 1.0)
  {
    Max(SendBudget(timeToBuild) / AttemptsPerPayload(), 1.0) / Max(1.0, payloadCount as real)
  }

  /** While the budget is not exhausted, the requests of all payloads, each taking the
      full timeout, use exactly the time left; no payloads is treated like one. */
  lemma BudgetShared(timeToBuild: real, payloadCount: nat)
    requires SendBudget(timeToBuild) >= AttemptsPerPayload()
    ensures Max(1.0, payloadCount as real) * AttemptsPerPayload() * RequestTimeout(timeToBuild, payloadCount)
            == SendBudget(timeToBuild)
  {
    var n := Max(1.0, payloadCount as real);
    var share := SendBudget(timeToBuild) / AttemptsPerPayload();
    assert RequestTimeout(timeToBuild, payloadCount) == share / n;
    assert n * (share / n) == share;
  }

  /** Once the budget is used up, the timeout falls back to 1 ms shared among the payloads. */
  lemma FloorWhenExhausted(timeToBuild: real, payloadCount: nat)
    requires SendBudget(timeToBuild) < AttemptsPerPayload()
    ensures RequestTimeout(timeToBuild, payloadCount) == 1.0 / Max(1.0, payloadCount as real)
  {
  }

  /** More payloads never lengthen the timeout. */
  lemma MorePayloadsShorterTimeout(timeToBuild: real, n: nat, m: nat)
    requires n <= m
    ensures RequestTimeout(timeToBuild, m) <= RequestTimeout(timeToBuild, n)
  {
    var share := Max(SendBudget(timeToBuild) / AttemptsPerPayload(), 1.0);
    DivideByMore(share, Max(1.0, n as real), Max(1.0, m as real));
  }

  /** Dividing a non-negative amount by a larger divisor gives no more. */
  lemma DivideByMore(x: real, p: real, q: real)
    requires x >= 0.0 && 0.0 < p <= q
    ensures x / q <= x / p
  {
    var a, b := x / q, x / p;
    assert a * q == x && b * p == x;
    assert b * q >= b * p;
  }

  /** A longer build never lengthens the timeout. */
  lemma LongerBuildShorterTimeout(t1: real, t2: real, payloadCount: nat)
    requires t1 <= t2
    ensures RequestTimeout(t2, payloadCount) <= RequestTimeout(t1, payloadCount)
  {
    var d := Max(1.0, payloadCount as real);
    var s1 := Max(SendBudget(t1) / AttemptsPerPayload(), 1.0);
    var s2 := Max(SendBudget(t2) / AttemptsPerPayload(), 1.0);
    assert s2 <= s1;
    assert s2 / d <= s1 / d;
  }

  /** The 1 ms minimum is taken before dividing by the number of payloads, so with the
      budget used up and two payloads each request gets half a millisecond. */
  lemma TimeoutCanFallBelowOneMs()
    ensures RequestTimeout(420000.0, 2) == 0.5
  {
  }

  /** With an instant build and one payload, each of the three requests gets a third of
      the 420 s left after the fixed phases. */
  lemma SinglePayloadExample()
    ensures RequestTimeout(0.0, 1) == 140000.0
  {
  }
}
