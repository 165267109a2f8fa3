/** `_send` with `should_retry` and `retry_after`: how often a service step may
    be sent, and how long it may wait in all. */
module Retry {
  import opened JsonValues

  const IDEMPOTENT: set<string> := {"GET", "HEAD", "PUT", "DELETE", "PATCH"}
  const TOO_MANY_REQUESTS := 429
  const SERVER_ERROR := 500
  const MAX_RETRY_WAIT := 30.0

  /** The `Retry-After` header after `float(raw)`; a missing header is the empty
      string, which does not parse. */
  datatype RetryHeader =
    | Unparseable
    | Seconds(x: real)
    | NotANumber
    | Infinite(positive: bool)

  /** What one request can come back with. */
  datatype Outcome =
    | TransportError
    | Response(status: int, header: RetryHeader)

  predicate ShouldRetry(httpMethod: string, status: Option<int>, attempt: int, limit: int)
  {
    if attempt >= limit || httpMethod !in IDEMPOTENT then false
    else match status
      case None => true
      case Some(code) => code == TOO_MANY_REQUESTS || code >= SERVER_ERROR
  }

  function Status(o: Outcome): Option<int>
  {
    match o case TransportError => None case Response(status, _) => Some(status)
  }

  function Pow2(n: nat): (r: nat)
    ensures r >= 1
  {
    if n == 0 then 1 else 2 * Pow2(n - 1)
  }

  /** `retry_after(response, attempt)`. A NaN survives Python's `min`, and its
      `max` with zero is zero. */
  function RetryAfter(o: Outcome, attempt: nat): real
  {
    var backoff := 0.5 * Pow2(attempt) as real;
    match o
    case TransportError => backoff
    case Response(_, header) =>
      match header
      case Unparseable => backoff
      case Seconds(x) =>
        var wait := if x > MAX_RETRY_WAIT then MAX_RETRY_WAIT else x;
        if wait < 0.0 then 0.0 else wait
      case NotANumber => 0.0
      case Infinite(positive) => if positive then MAX_RETRY_WAIT else 0.0
  }

  function Sum(waits: seq<real>): real
  {
    if waits == [] then 0.0 else Sum(waits[..|waits| - 1]) + waits[|waits| - 1]
  }

  /** Worth another try: no answer, 429, or a server error. */
  predicate Transient(o: Outcome)
  {
    match o
    case TransportError => true
    case Response(status, _) => status == 429 || status >= 500
  }

  lemma {:induction false} Pow2Monotone(a: nat, b: nat)
    requires a <= b
    ensures Pow2(a) <= Pow2(b)
    decreases b
  {
    if a < b { Pow2Monotone(a, b - 1); }
  }

  /** One wait, whatever the server says, is bounded. */
  lemma WaitBound(o: Outcome, attempt: nat)
    requires attempt >= 1
    ensures 0.0 <= RetryAfter(o, attempt) <= 30.0 + Pow2(attempt - 1) as real
  {
    assert Pow2(attempt) == 2 * Pow2(attempt - 1);
  }

  /** The bound on all waits so far, one attempt on. */
  lemma WaitAdds(sum: real, wait: real, attempt: nat)
    requires attempt >= 1
    requires 0.0 <= sum <= 30.0 * (attempt - 1) as real + Pow2(attempt - 1) as real - 1.0
    requires 0.0 <= wait <= 30.0 + Pow2(attempt - 1) as real
    ensures 0.0 <= sum + wait <= 30.0 * attempt as real + Pow2(attempt) as real - 1.0
  {
    var p := Pow2(attempt - 1) as real;
    assert Pow2(attempt) as real == 2.0 * p;
    assert 30.0 * (attempt - 1) as real + 30.0 == 30.0 * attempt as real;
  }

  lemma TotalBound(sum: real, attempts: nat, retries: nat)
    requires 1 <= attempts <= retries + 1
    requires sum <= 30.0 * (attempts - 1) as real + Pow2(attempts - 1) as real - 1.0
    ensures sum <= 30.0 * retries as real + Pow2(retries) as real - 1.0
  {
    Pow2Monotone(attempts - 1, retries);
  }

  lemma SumSnoc(waits: seq<real>, wait: real)
    ensures Sum(waits + [wait]) == Sum(waits) + wait
  {
    assert (waits + [wait])[..|waits|] == waits;
  }

  /** The waits between the attempts, and the bound on their sum. */
  ghost predicate Waited(waits: seq<real>, outcome: nat -> Outcome)
  {
    && (forall k :: 0 <= k < |waits| ==> waits[k] == RetryAfter(outcome(k + 1), k + 1))
    && 0.0 <= Sum(waits) <= 30.0 * |waits| as real + Pow2(|waits|) as real - 1.0
  }

  lemma WaitsOn(waits: seq<real>, outcome: nat -> Outcome)
    requires Waited(waits, outcome)
    ensures Waited(waits + [RetryAfter(outcome(|waits| + 1), |waits| + 1)], outcome)
  {
    var attempt := |waits| + 1;
    var wait := RetryAfter(outcome(attempt), attempt);
    WaitBound(outcome(attempt), attempt);
    SumSnoc(waits, wait);
    WaitAdds(Sum(waits), wait, attempt);
  }

  /** `_send`: `outcome(k)` is what the k-th request would come back with. */
  method Send(httpMethod: string, retries: int, outcome: nat -> Outcome)
    returns (last: Outcome, attempts: nat, waits: seq<real>)
    // It stops at the first attempt that may not be retried, and reports that one.
    ensures attempts >= 1 && last == outcome(attempts)
    ensures forall k: nat :: 1 <= k < attempts ==> ShouldRetry(httpMethod, Status(outcome(k)), k, retries + 1)
    ensures !ShouldRetry(httpMethod, Status(outcome(attempts)), attempts, retries + 1)
    // Bounded work, and a request that may have been committed is never repeated.
    ensures attempts <= if retries >= 0 then retries + 1 else 1
    ensures httpMethod !in IDEMPOTENT ==> attempts == 1
    ensures forall k: nat :: 1 <= k < attempts ==> Transient(outcome(k))
    // Bounded waiting, whatever the headers say.
    ensures |waits| == attempts - 1
    ensures Waited(waits, outcome)
    ensures retries >= 0 ==> Sum(waits) <= 30.0 * retries as real + Pow2(retries) as real - 1.0
  {
    attempts, waits := 1, [];
    last := outcome(1);
    while ShouldRetry(httpMethod, Status(last), attempts, retries + 1)
      invariant attempts >= 1 && last == outcome(attempts)
      invariant attempts == 1 || attempts <= retries + 1
      invariant forall k: nat :: 1 <= k < attempts ==> ShouldRetry(httpMethod, Status(outcome(k)), k, retries + 1)
      invariant |waits| == attempts - 1
      invariant Waited(waits, outcome)
      decreases retries + 1 - attempts
    {
      WaitsOn(waits, outcome);
      waits := waits + [RetryAfter(last, attempts)];
      attempts := attempts + 1;
      last := outcome(attempts);
    }
    if retries >= 0 {
      TotalBound(Sum(waits), attempts, retries);
    }
  }
}
