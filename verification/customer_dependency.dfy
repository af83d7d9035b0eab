/** `CustomerDependencyService`: `GET /customers/{id}/dependency-check`
    checks that the customer exists and then calls the dependency stub
    through the resilient client. */
module CustomerDependency {
  import opened Wrappers
  import opened Text
  import opened Json
  import opened Http
  import opened ApiErrors
  import opened DependencyClient
  import DependencyStub

  /** The base URL of the dependency: the configured one, trimmed, when it
      is set and not blank; otherwise this application's own address as the
      incoming request names it. */
  function BaseUrl(configured: Option<string>, scheme: string, host: string, port: int): (url: string)
    ensures configured.Some? && !IsBlank(configured.value) ==> url == Trim(configured.value)
    ensures (configured.None? || IsBlank(configured.value)) ==>
      url == scheme + "://" + host + ":" + IntToString(port)
  {
    if configured.Some? && !IsBlank(configured.value) then Trim(configured.value)
    else scheme + "://" + host + ":" + IntToString(port)
  }

  /** The correlation id sent downstream: the logging context's, unless it
      is missing or blank, in which case the request header (itself possibly
      missing). */
  function PickCorrelation(fromMdc: Option<string>, fromHeader: Option<string>): (id: Option<string>)
    ensures fromMdc.Some? && !IsBlank(fromMdc.value) ==> id == fromMdc
    ensures (fromMdc.None? || IsBlank(fromMdc.value)) ==> id == fromHeader
  {
    if fromMdc.Some? && !IsBlank(fromMdc.value) then fromMdc else fromHeader
  }

  /** `checkDependency`: an unknown customer is refused before any call;
      otherwise the stub is called once through `callStub`, with the
      caller's mode and delay passed on unchanged. */
  method CheckDependency(
    c: Client, knownCustomers: set<Uuid>, customerId: Uuid, mode: string, delayMs: Option<int>,
    configuredBaseUrl: Option<string>, scheme: string, host: string, port: int,
    fromMdc: Option<string>, fromHeader: Option<string>,
    bulkheadPermits: bool, breakerPermits: bool, outcomes: seq<AttemptOutcome>, now: Instant)
    returns (r: Result<Response, ApiException>, sent: seq<OutboundRequest>)
    requires c.Valid() && c.maxAttempts <= |outcomes|
    ensures customerId !in knownCustomers ==> r == Err(CustomerNotFound(customerId)) && sent == []
    ensures customerId in knownCustomers ==> r.Ok? && |sent| <= c.maxAttempts
    ensures customerId in knownCustomers && !bulkheadPermits ==>
      r == Ok(BulkheadFull(BaseUrl(configuredBaseUrl, scheme, host, port) + STUB_PATH, now)) && sent == []
    ensures customerId in knownCustomers && bulkheadPermits && !breakerPermits ==>
      r == Ok(CircuitOpenFallback(BaseUrl(configuredBaseUrl, scheme, host, port) + STUB_PATH, now)) && sent == []
    ensures forall k :: 0 <= k < |sent| ==>
      sent[k] == OutboundRequest(BaseUrl(configuredBaseUrl, scheme, host, port), STUB_PATH, mode, delayMs,
                                 PickCorrelation(fromMdc, fromHeader))
    ensures customerId in knownCustomers && bulkheadPermits && breakerPermits ==>
      var url := BaseUrl(configuredBaseUrl, scheme, host, port) + STUB_PATH;
      var (done, n) := RetryLoop(c, url, now, outcomes, 1);
      r.value == done.response && |sent| == n
  {
    if customerId !in knownCustomers {
      return Err(CustomerNotFound(customerId)), [];
    }
    var baseUrl := BaseUrl(configuredBaseUrl, scheme, host, port);
    var corr := PickCorrelation(fromMdc, fromHeader);
    var response, slept, breaker;
    response, sent, slept, breaker := CallStub(c, baseUrl, corr, mode, delayMs, bulkheadPermits, breakerPermits, outcomes, now);
    r := Ok(response);
  }

  /** Against the stub in "fail" mode, every attempt gets the stub's 503 as
      an error status, so the client makes every attempt and hands the 503
      back as an upstream failure, which the breaker counts as a failure. */
  lemma {:induction false} ForcedFailureExhaustsRetries(
    c: Client, url: string, now: Instant, outcomes: seq<AttemptOutcome>,
    delayMs: int, stubUri: string, stubNow: Instant)
    requires c.Valid() && c.maxAttempts <= |outcomes|
    requires 0 <= delayMs <= DependencyStub.MAX_DELAY_MS
    requires var failed := DependencyStub.Dependency(Some("fail"), Some(delayMs), stubUri, stubNow, false);
      forall k :: 0 <= k < c.maxAttempts ==> outcomes[k] == StatusError(failed.value.response)
    ensures var failed := DependencyStub.Dependency(Some("fail"), Some(delayMs), stubUri, stubNow, false);
      RetryLoop(c, url, now, outcomes, 1) == (UpstreamFailure(failed.value.response), c.maxAttempts)
    ensures RetryLoop(c, url, now, outcomes, 1).0.response.status == SERVICE_UNAVAILABLE
  {
    var failed := DependencyStub.Dependency(Some("fail"), Some(delayMs), stubUri, stubNow, false);
    assert DependencyStub.NormalizeMode(Some("fail")) == "fail" by {
      TrimStartOfClean("fail");
      TrimEndOfClean("fail");
      assert TrimLower("fail") == ToLower("fail") == "fail";
    }
    AllServerErrorsExhaust(c, url, now, outcomes, 1);
  }
}
