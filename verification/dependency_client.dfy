/** `DependencyStubClient`: a bulkhead around a circuit breaker around a
    bounded retry loop with linear backoff. The network, the breaker's and
    the bulkhead's own state and the clock are inputs: the outcome of each
    attempt is given as a sequence, and the two guards as booleans. */
module DependencyClient {
  import opened Wrappers
  import opened Text
  import opened Json
  import opened Http

  const STUB_PATH := "/_stub/dependency"

  /** The settings fixed when the client is built. */
  datatype Client = Client(timeoutMs: int, maxAttempts: int, backoffMs: int)
  {
    predicate Valid() { maxAttempts >= 1 && backoffMs >= 0 }
  }

  /** The constructor: whatever is configured, at least one attempt is made
      and the backoff is never negative; sound settings are kept. */
  function NewClient(timeoutMs: int, maxAttempts: int, backoffMs: int): (c: Client)
    ensures c.Valid() && c.timeoutMs == timeoutMs
    ensures maxAttempts >= 1 ==> c.maxAttempts == maxAttempts
    ensures maxAttempts < 1 ==> c.maxAttempts == 1
    ensures backoffMs >= 0 ==> c.backoffMs == backoffMs
    ensures backoffMs < 0 ==> c.backoffMs == 0
  {
    Client(timeoutMs, Max(1, maxAttempts), Max(0, backoffMs))
  }

  /** What one outbound GET gave. */
  datatype AttemptOutcome =
    | Received(response: Response)     // the call returned a response entity
    | StatusError(response: Response)  // a RestClientResponseException, rebuilt as a response
    | IoFailure                        // a ResourceAccessException: timeout or I/O error

  /** The request one attempt sends: the path, the two query parameters and
      the correlation header. */
  datatype OutboundRequest = OutboundRequest(
    baseUrl: string, path: string, mode: string, delayMs: Option<int>, correlationId: Option<string>)

  /** How the retry loop ends: it returns a response, or throws
      `UpstreamFailure` carrying one. */
  datatype Completion = Returned(response: Response) | UpstreamFailure(response: Response)

  /** What the circuit breaker records about a call it let through. */
  datatype BreakerRecord = NotCalled | RecordedSuccess | RecordedFailure

  /** `sleepBackoff(attempt)`: the pause before attempt `attempt + 1`, or
      nothing when no backoff is configured. */
  function BackoffSleep(c: Client, attempt: int): (d: Option<int>)
    ensures d.None? <==> c.backoffMs <= 0
    ensures d.Some? ==> d.value == c.backoffMs * attempt
  {
    if c.backoffMs <= 0 then None else Some(c.backoffMs * attempt)
  }

  /** The pauses taken after the first `n` attempts, in order. */
  function Backoffs(c: Client, n: nat): seq<int>
  {
    if n == 0 then []
    else Backoffs(c, n - 1) + (match BackoffSleep(c, n) case Some(d) => [d] case None => [])
  }

  /** The pauses grow linearly: the k-th pause is k times the backoff, and
      none is taken when the backoff is zero. */
  lemma {:induction false} BackoffsAreLinear(c: Client, n: nat)
    requires c.Valid()
    ensures c.backoffMs == 0 ==> Backoffs(c, n) == []
    ensures c.backoffMs > 0 ==>
      (|Backoffs(c, n)| == n && forall k :: 0 <= k < n ==> Backoffs(c, n)[k] == c.backoffMs * (k + 1))
  {
    if n > 0 {
      BackoffsAreLinear(c, n - 1);
    }
  }

  /** An attempt worth retrying when attempts remain: an error status of
      500 or more, or an I/O or timeout failure. */
  predicate Retryable(o: AttemptOutcome)
  {
    (o.StatusError? && o.response.status >= 500) || o.IoFailure?
  }

  /** The synthetic reply when the last attempt timed out or failed on I/O. */
  function GatewayTimeout(c: Client, url: string, now: Instant): (r: Response)
    ensures r.status == GATEWAY_TIMEOUT
    ensures BodyField(r, "status") == Some(JInt(GATEWAY_TIMEOUT))
    ensures BodyField(r, "error") == Some(JText("GATEWAY_TIMEOUT"))
    ensures BodyField(r, "upstream") == Some(JText(url))
  {
    Response(GATEWAY_TIMEOUT, JsonBody(JObject(map[
      "timestamp" := JTime(now),
      "status" := JInt(GATEWAY_TIMEOUT),
      "error" := JText("GATEWAY_TIMEOUT"),
      "message" := JText("Dependency call timed out after " + IntToString(c.timeoutMs)
                         + "ms (attempts=" + IntToString(c.maxAttempts) + ")"),
      "upstream" := JText(url)])))
  }

  /** The verdict on attempt number `attempt`: `None` to retry, or how the
      loop ends. A non-exception 5xx is thrown at once because neither catch
      clause sees it; an error status below 500 is returned as it is. */
  function AttemptVerdict(c: Client, url: string, now: Instant, o: AttemptOutcome, attempt: int): (v: Option<Completion>)
    ensures v.None? <==> Retryable(o) && attempt < c.maxAttempts
    ensures v.Some? ==> (v.value.UpstreamFailure? <==> Is5xx(v.value.response.status))
    ensures v.Some? && !o.IoFailure? ==> v.value.response == o.response
  {
    match o
    case Received(resp) =>
      Some(if Is5xx(resp.status) then UpstreamFailure(resp) else Returned(resp))
    case StatusError(resp) =>
      if resp.status >= 500 && attempt < c.maxAttempts then None
      else Some(if Is5xx(resp.status) then UpstreamFailure(resp) else Returned(resp))
    case IoFailure =>
      if attempt < c.maxAttempts then None
      else Some(UpstreamFailure(GatewayTimeout(c, url, now)))
  }

  /** The loop from attempt `attempt` on: how it ends and how many attempts
      it has made by then. `outcomes[k]` is the outcome of attempt `k + 1`. */
  function RetryLoop(c: Client, url: string, now: Instant, outcomes: seq<AttemptOutcome>, attempt: nat): (r: (Completion, nat))
    requires c.Valid() && 1 <= attempt <= c.maxAttempts <= |outcomes|
    ensures attempt <= r.1 <= c.maxAttempts
    ensures r.0.UpstreamFailure? <==> Is5xx(r.0.response.status)
    decreases c.maxAttempts - attempt
  {
    match AttemptVerdict(c, url, now, outcomes[attempt - 1], attempt)
    case Some(done) => (done, attempt)
    case None => RetryLoop(c, url, now, outcomes, attempt + 1)
  }

  /** The loop stops at the first attempt that is not retryable, or at the
      last one, and ends as that attempt's verdict says. */
  lemma {:induction false} RetryLoopStopsAtFirstVerdict(c: Client, url: string, now: Instant, outcomes: seq<AttemptOutcome>, attempt: nat)
    requires c.Valid() && 1 <= attempt <= c.maxAttempts <= |outcomes|
    ensures var (done, n) := RetryLoop(c, url, now, outcomes, attempt);
      && (forall k :: attempt - 1 <= k < n - 1 ==> Retryable(outcomes[k]))
      && (n < c.maxAttempts ==> !Retryable(outcomes[n - 1]))
      && AttemptVerdict(c, url, now, outcomes[n - 1], n) == Some(done)
    decreases c.maxAttempts - attempt
  {
    if AttemptVerdict(c, url, now, outcomes[attempt - 1], attempt).None? {
      RetryLoopStopsAtFirstVerdict(c, url, now, outcomes, attempt + 1);
    }
  }

  /** When every attempt ends in an I/O or timeout failure, all attempts are
      made and the caller sees the synthetic 504. */
  lemma {:induction false} AllTimeoutsGiveGatewayTimeout(c: Client, url: string, now: Instant, outcomes: seq<AttemptOutcome>, attempt: nat)
    requires c.Valid() && 1 <= attempt <= c.maxAttempts <= |outcomes|
    requires forall k :: 0 <= k < c.maxAttempts ==> outcomes[k].IoFailure?
    ensures RetryLoop(c, url, now, outcomes, attempt) == (UpstreamFailure(GatewayTimeout(c, url, now)), c.maxAttempts)
    decreases c.maxAttempts - attempt
  {
    if attempt < c.maxAttempts {
      AllTimeoutsGiveGatewayTimeout(c, url, now, outcomes, attempt + 1);
    }
  }

  /** When every attempt gets an error status of 500 or more, all attempts
      are made and the last response is thrown upstream if it is a 5xx. */
  lemma {:induction false} AllServerErrorsExhaust(c: Client, url: string, now: Instant, outcomes: seq<AttemptOutcome>, attempt: nat)
    requires c.Valid() && 1 <= attempt <= c.maxAttempts <= |outcomes|
    requires forall k :: 0 <= k < c.maxAttempts ==> outcomes[k].StatusError? && outcomes[k].response.status >= 500
    ensures var last := outcomes[c.maxAttempts - 1].response;
      RetryLoop(c, url, now, outcomes, attempt)
        == (if Is5xx(last.status) then UpstreamFailure(last) else Returned(last), c.maxAttempts)
    decreases c.maxAttempts - attempt
  {
    if attempt < c.maxAttempts {
      AllServerErrorsExhaust(c, url, now, outcomes, attempt + 1);
    }
  }

  /** Two 503s then a success, with three attempts allowed, succeed on the third attempt after pauses of one and
      two backoff units. */
  lemma RecoversOnThirdAttempt(c: Client, url: string, now: Instant, e1: Response, e2: Response, ok: Response)
    requires c.Valid() && c.maxAttempts == 3 && c.backoffMs > 0
    requires e1.status == 503 && e2.status == 503 && 200 <= ok.status <= 299
    ensures RetryLoop(c, url, now, [StatusError(e1), StatusError(e2), Received(ok)], 1) == (Returned(ok), 3)
    ensures Backoffs(c, 2) == [c.backoffMs, 2 * c.backoffMs]
  {
    var outcomes := [StatusError(e1), StatusError(e2), Received(ok)];
    assert RetryLoop(c, url, now, outcomes, 3) == (Returned(ok), 3);
    assert RetryLoop(c, url, now, outcomes, 2) == RetryLoop(c, url, now, outcomes, 3);
    BackoffsAreLinear(c, 2);
  }

  /** `callStubWithRetryAndTimeout`: up to `maxAttempts` attempts, each the
      same request, with the backoff pauses between them. */
  method CallStubWithRetryAndTimeout(
    c: Client, baseUrl: string, correlationId: Option<string>, mode: string, delayMs: Option<int>,
    outcomes: seq<AttemptOutcome>, now: Instant)
    returns (result: Completion, sent: seq<OutboundRequest>, slept: seq<int>)
    requires c.Valid() && c.maxAttempts <= |outcomes|
    ensures (result, |sent|) == RetryLoop(c, baseUrl + STUB_PATH, now, outcomes, 1)
    ensures forall k :: 0 <= k < |sent| ==> sent[k] == OutboundRequest(baseUrl, STUB_PATH, mode, delayMs, correlationId)
    ensures slept == Backoffs(c, |sent| - 1)
  {
    var url := baseUrl + STUB_PATH;
    var request := OutboundRequest(baseUrl, STUB_PATH, mode, delayMs, correlationId);
    result, sent, slept := Returned(Response(0, NoBody)), [], [];
    var attempt := 1;
    while attempt <= c.maxAttempts
      invariant 1 <= attempt <= c.maxAttempts
      invariant |sent| == attempt - 1 && forall k :: 0 <= k < |sent| ==> sent[k] == request
      invariant slept == Backoffs(c, attempt - 1)
      invariant RetryLoop(c, url, now, outcomes, attempt) == RetryLoop(c, url, now, outcomes, 1)
    {
      sent := sent + [request];
      var hasRetryLeft := attempt < c.maxAttempts;
      match outcomes[attempt - 1] {
        case Received(resp) =>
          if Is5xx(resp.status) {
            result := UpstreamFailure(resp);
            return;
          }
          result := Returned(resp);
          return;
        case StatusError(resp) =>
          var retryableStatus := resp.status >= 500;
          if retryableStatus && hasRetryLeft {
            slept := slept + (match BackoffSleep(c, attempt) case Some(d) => [d] case None => []);
            attempt := attempt + 1;
            continue;
          }
          if Is5xx(resp.status) {
            result := UpstreamFailure(resp);
            return;
          }
          result := Returned(resp);
          return;
        case IoFailure =>
          if hasRetryLeft {
            slept := slept + (match BackoffSleep(c, attempt) case Some(d) => [d] case None => []);
            attempt := attempt + 1;
            continue;
          }
          result := UpstreamFailure(GatewayTimeout(c, url, now));
          return;
      }
    }
    // Every last attempt returns or throws, so the 503 after the loop is never built.
    assert false;
  }

  /** The degraded reply given when the circuit breaker refuses the call. */
  function CircuitOpenFallback(url: string, now: Instant): (r: Response)
    ensures r.status == OK
    ensures BodyField(r, "degraded") == Some(JBool(true))
    ensures BodyField(r, "mode") == Some(JText("fallback"))
    ensures BodyField(r, "reason") == Some(JText("circuit_open"))
  {
    Response(OK, JsonBody(JObject(map[
      "timestamp" := JTime(now),
      "degraded" := JBool(true),
      "stub" := JText("dependency"),
      "mode" := JText("fallback"),
      "reason" := JText("circuit_open"),
      "message" := JText("Dependency is temporarily unavailable (circuit open). Returning fallback."),
      "upstream" := JText(url)])))
  }

  /** The rejection given when the bulkhead is saturated. */
  function BulkheadFull(url: string, now: Instant): (r: Response)
    ensures r.status == TOO_MANY_REQUESTS
    ensures BodyField(r, "status") == Some(JInt(TOO_MANY_REQUESTS))
    ensures BodyField(r, "error") == Some(JText("BULKHEAD_FULL"))
  {
    Response(TOO_MANY_REQUESTS, JsonBody(JObject(map[
      "timestamp" := JTime(now),
      "status" := JInt(TOO_MANY_REQUESTS),
      "error" := JText("BULKHEAD_FULL"),
      "message" := JText("Too many concurrent dependency calls. Please retry."),
      "upstream" := JText(url)])))
  }

  /** `callStub`: the bulkhead decides first, then the breaker; a refused
      call makes no attempt, and an `UpstreamFailure` is recorded by the
      breaker as a failure before its response is handed back. */
  method CallStub(
    c: Client, baseUrl: string, correlationId: Option<string>, mode: string, delayMs: Option<int>,
    bulkheadPermits: bool, breakerPermits: bool, outcomes: seq<AttemptOutcome>, now: Instant)
    returns (response: Response, sent: seq<OutboundRequest>, slept: seq<int>, breaker: BreakerRecord)
    requires c.Valid() && c.maxAttempts <= |outcomes|
    ensures !bulkheadPermits ==>
      response == BulkheadFull(baseUrl + STUB_PATH, now) && sent == [] && breaker == NotCalled
    ensures bulkheadPermits && !breakerPermits ==>
      response == CircuitOpenFallback(baseUrl + STUB_PATH, now) && sent == [] && breaker == NotCalled
    ensures bulkheadPermits && breakerPermits ==>
      var (done, n) := RetryLoop(c, baseUrl + STUB_PATH, now, outcomes, 1);
      && response == done.response && |sent| == n
      && breaker == (if done.UpstreamFailure? then RecordedFailure else RecordedSuccess)
    ensures breaker == RecordedFailure <==> Is5xx(response.status)
    ensures |sent| <= c.maxAttempts
    ensures forall k :: 0 <= k < |sent| ==> sent[k] == OutboundRequest(baseUrl, STUB_PATH, mode, delayMs, correlationId)
    ensures slept == if bulkheadPermits && breakerPermits then Backoffs(c, |sent| - 1) else []
  {
    var url := baseUrl + STUB_PATH;
    if !bulkheadPermits {
      return BulkheadFull(url, now), [], [], NotCalled;
    }
    if !breakerPermits {
      return CircuitOpenFallback(url, now), [], [], NotCalled;
    }
    var done;
    done, sent, slept := CallStubWithRetryAndTimeout(c, baseUrl, correlationId, mode, delayMs, outcomes, now);
    match done {
      case UpstreamFailure(resp) =>
        response, breaker := resp, RecordedFailure;
      case Returned(resp) =>
        response, breaker := resp, RecordedSuccess;
    }
  }
}
