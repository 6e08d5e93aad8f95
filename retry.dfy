/** Retry policy of the HEC client (TypeScript): which failed attempts are retried
    (`isRetryableError`), how long to wait before a retry (`getRetryDelay`), and the
    bounded attempt loop with `MAX_RETRIES = 2` that the `axios-retry` library runs for
    each payload. The collector's answers are an abstract sequence, one per attempt. */
module Retry {

  /** Retries beyond the first request. */
  const MaxRetries: nat := 2

  /** What one request produced. */
  datatype Attempt =
    /** The collector answered with this HTTP status. */
    | Response(status: int)
    /** No response arrived. `code` is the error code (for example "ENOTFOUND");
        `networkError` is the library's own verdict that this is a network error. */
    | RequestError(code: string, networkError: bool)

  /** A 2xx answer: the only outcome `pushToHec` accepts. Its status has hundreds digit 2. */
  predicate IsSuccess(a: Attempt)
    ensures IsSuccess(a) <==> a.Response? && a.status / 100 == 2
  {
    a.Response? && 200 <= a.status < 300
  }

  /** `isRetryableError`: a network error, ENOTFOUND, or status 408, 429 or 5xx. */
  predicate IsRetryableError(a: Attempt)
    ensures IsRetryableError(a) ==> !IsSuccess(a)
  {
    match a
    case RequestError(code, networkError) => networkError || code == "ENOTFOUND"
    case Response(status) => status == 408 || status == 429 || (500 <= status && status <= 599)
  }

  /** `getRetryDelay`: the library's exponential delay for throttling (429), no delay otherwise.
      `exponentialDelay` stands for `axiosRetry.exponentialDelay`, which is not modelled. */
  function GetRetryDelay(retryCount: nat, a: Attempt, exponentialDelay: nat -> real): (delay: real)
    ensures delay != 0.0 ==> a == Response(429)
    ensures a == Response(429) ==> delay == exponentialDelay(retryCount)
  {
    if a.Response? && a.status == 429 then exponentialDelay(retryCount) else 0.0
  }

  /** Number of requests sent when the answers, in order, are `answers` and `retriesLeft`
      retries remain: stop at the first answer that is not retryable, or when no retry is left. */
  function Tries(answers: seq<Attempt>, retriesLeft: nat): (n: nat)
    requires |answers| > retriesLeft
    ensures 1 <= n <= retriesLeft + 1
    ensures forall k :: 0 <= k < n - 1 ==> IsRetryableError(answers[k])
    ensures n <= retriesLeft ==> !IsRetryableError(answers[n - 1])
    decreases retriesLeft
  {
    if retriesLeft == 0 || !IsRetryableError(answers[0]) then 1
    else 1 + Tries(answers[1..], retriesLeft - 1)
  }

  /** How one payload's delivery ends. */
  datatype PushOutcome =
    | Delivered
    /** The last answer was neither a success nor retryable. */
    | FailedTerminal(last: Attempt)
    /** Every allowed request got a retryable answer. */
    | FailedExhausted(last: Attempt)

  /** The outcome once `requests` requests were sent and `last` was the final answer. */
  function Conclude(last: Attempt, requests: nat): (outcome: PushOutcome)
    ensures outcome == Delivered <==> IsSuccess(last)
    ensures outcome != Delivered ==> outcome.last == last
    ensures outcome.FailedExhausted? ==> requests == MaxRetries + 1 && IsRetryableError(last)
  {
    if IsSuccess(last) then Delivered
    else if IsRetryableError(last) && requests == MaxRetries + 1 then FailedExhausted(last)
    else FailedTerminal(last)
  }

  /** The outcome of pushing one payload whose attempts get `answers`. */
  function Push(answers: seq<Attempt>): (outcome: PushOutcome)
    requires |answers| > MaxRetries
    ensures outcome != Delivered ==> outcome.last in answers[..MaxRetries + 1] && !IsSuccess(outcome.last)
    ensures outcome == Delivered ==> exists k :: 0 <= k <= MaxRetries && IsSuccess(answers[k])
  {
    Conclude(answers[Tries(answers, MaxRetries) - 1], Tries(answers, MaxRetries))
  }

  /** Any count that stops where the policy stops is the count `Tries` gives. */
  lemma TriesUnique(answers: seq<Attempt>, retriesLeft: nat, n: nat)
    requires |answers| > retriesLeft
    requires 1 <= n <= retriesLeft + 1
    requires forall k :: 0 <= k < n - 1 ==> IsRetryableError(answers[k])
    requires n <= retriesLeft ==> !IsRetryableError(answers[n - 1])
    ensures n == Tries(answers, retriesLeft)
  {
  }

  /** `pushToHec` sent through the retrying client: at most `MaxRetries + 1` requests, the
      delay waited before each retry, and the outcome. */
  method PushToHec(answers: seq<Attempt>, exponentialDelay: nat -> real)
    returns (requests: nat, outcome: PushOutcome, delays: seq<real>)
    requires |answers| > MaxRetries
    ensures requests == Tries(answers, MaxRetries)
    ensures outcome == Push(answers)
    ensures |delays| == requests - 1
    ensures forall k :: 0 <= k < |delays| ==> delays[k] == GetRetryDelay(k + 1, answers[k], exponentialDelay)
  {
    requests := 1;
    var last := answers[0];
    delays := [];
    while requests <= MaxRetries && IsRetryableError(last)
      invariant 1 <= requests <= MaxRetries + 1
      invariant last == answers[requests - 1]
      invariant forall k :: 0 <= k < requests - 1 ==> IsRetryableError(answers[k])
      invariant |delays| == requests - 1
      invariant forall k :: 0 <= k < |delays| ==> delays[k] == GetRetryDelay(k + 1, answers[k], exponentialDelay)
    {
      delays := delays + [GetRetryDelay(requests, last, exponentialDelay)];
      last := answers[requests];
      requests := requests + 1;
    }
    TriesUnique(answers, MaxRetries, requests);
    outcome := Conclude(last, requests);
  }

  // ---------------------------------------------------------------------------
  // The policy as the retry tests observe it

  /** Each payload gets at most three requests. */
  lemma AtMostThreeRequests(answers: seq<Attempt>)
    requires |answers| > MaxRetries
    ensures 1 <= Tries(answers, MaxRetries) <= 3
  {
  }

  /** When every answer is retryable (500s, 429s, network errors), exactly three requests
      are sent and the payload fails with the retries exhausted. */
  lemma AllRetryableMeansThreeRequests(answers: seq<Attempt>)
    requires |answers| > MaxRetries
    requires forall k :: 0 <= k <= MaxRetries ==> IsRetryableError(answers[k])
    ensures Tries(answers, MaxRetries) == 3
    ensures Push(answers) == FailedExhausted(answers[2])
  {
    assert IsRetryableError(answers[0]) && IsRetryableError(answers[1]);
  }

  /** A first answer that is not retryable (a 2xx, a 400, a 600) ends the exchange at one request. */
  lemma TerminalFirstAnswerMeansOneRequest(answers: seq<Attempt>)
    requires |answers| > MaxRetries
    requires !IsRetryableError(answers[0])
    ensures Tries(answers, MaxRetries) == 1
    ensures Push(answers) == if IsSuccess(answers[0]) then Delivered else FailedTerminal(answers[0])
  {
  }

  /** Retrying stops at the first success. */
  lemma StopsAtFirstSuccess(answers: seq<Attempt>, k: nat)
    requires |answers| > MaxRetries && k <= MaxRetries
    requires forall j :: 0 <= j < k ==> IsRetryableError(answers[j])
    requires IsSuccess(answers[k])
    ensures Tries(answers, MaxRetries) == k + 1
    ensures Push(answers) == Delivered
  {
    TriesUnique(answers, MaxRetries, k + 1);
  }

  /** A push fails exactly when the final answer is not a 2xx status. */
  lemma PushFailsIffFinalNotSuccess(answers: seq<Attempt>)
    requires |answers| > MaxRetries
    ensures Push(answers) != Delivered <==> !IsSuccess(answers[Tries(answers, MaxRetries) - 1])
  {
  }

  /** The classification the retry tests pin. */
  lemma ClassificationExamples()
    ensures IsRetryableError(Response(500)) && IsRetryableError(Response(599))
    ensures IsRetryableError(Response(408)) && IsRetryableError(Response(429))
    ensures IsRetryableError(RequestError("ENOTFOUND", false))
    ensures IsRetryableError(RequestError("ECONNRESET", true))
    ensures !IsRetryableError(Response(200)) && !IsRetryableError(Response(400))
    ensures !IsRetryableError(Response(600)) && !IsRetryableError(Response(499))
  {
  }
}
