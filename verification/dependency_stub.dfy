/** `DependencyStubController`: the local stand-in for a downstream service,
    answering `GET /_stub/dependency` as its `mode` parameter asks. */
module DependencyStub {
  import opened Wrappers
  import opened Text
  import opened Json
  import opened Http
  import opened ApiErrors

  const DEFAULT_MODE := "ok"
  const DEFAULT_DELAY_MS := 1500
  const MAX_DELAY_MS := 30000

  const DELAY_MESSAGE := "delayMs must be between 0 and 30000"
  const MODE_MESSAGE := "mode must be one of: ok, fail, slow"

  /** A reply, with the sleep the handler asked for before giving it: an
      interrupted sleep may end before that time. */
  datatype StubReply = StubReply(response: Response, sleptMs: int)

  /** The mode actually used. `@RequestParam(defaultValue = "ok")` binds an
      absent or empty parameter to "ok"; any other value is trimmed and
      lower-cased. */
  function NormalizeMode(mode: Option<string>): (m: string)
    ensures (mode.None? || mode.value == []) ==> m == DEFAULT_MODE
    ensures mode.Some? && mode.value != [] ==> m == TrimLower(mode.value)
  {
    match mode
    case None => DEFAULT_MODE
    case Some(s) => if s == [] then DEFAULT_MODE else TrimLower(s)
  }

  /** Normalising an already normalised mode changes nothing, except that a
      mode made only of trimmable chars normalises to the empty text, which
      the parameter binding then reads as the default. So a mode the stub
      accepts is accepted again when passed on. */
  lemma NormalizeModeIdempotent(mode: Option<string>)
    ensures NormalizeMode(Some(NormalizeMode(mode)))
            == if NormalizeMode(mode) == [] then DEFAULT_MODE else NormalizeMode(mode)
  {
    assert TrimLower(DEFAULT_MODE) == DEFAULT_MODE by {
      TrimStartOfClean(DEFAULT_MODE);
      TrimEndOfClean(DEFAULT_MODE);
      assert ToLower(DEFAULT_MODE) == DEFAULT_MODE;
    }
    if mode.Some? && mode.value != [] {
      TrimLowerIdempotent(mode.value);
    }
  }

  /** The delay actually used: `@RequestParam(defaultValue = "1500")` binds
      an absent or empty parameter to 1500. */
  function DelayParam(delayMs: Option<int>): (d: int)
    ensures delayMs.None? ==> d == DEFAULT_DELAY_MS
    ensures delayMs.Some? ==> d == delayMs.value
  {
    match delayMs
    case None => DEFAULT_DELAY_MS
    case Some(n) => n
  }

  /** The error body of the stub, in the API's common error shape. */
  function StubError(status: int, error: string, message: string, uri: string, now: Instant): Response
  {
    Response(status, ErrorBody(ApiErrorResponse(now, status, error, message, uri, [])))
  }

  /** The handler. The delay is checked before the mode, so a request with
      both wrong reports the delay; `sleepInterrupted` says whether the
      sleep of the "slow" mode was interrupted. */
  function Dependency(mode: Option<string>, delayMs: Option<int>, uri: string, now: Instant, sleepInterrupted: bool)
    : (r: Result<StubReply, ApiException>)
    ensures var d := DelayParam(delayMs);
      (d < 0 || d > MAX_DELAY_MS) ==> r == Err(IllegalArgument(DELAY_MESSAGE))
    ensures var d := DelayParam(delayMs);
      0 <= d <= MAX_DELAY_MS ==> (r.Err? <==> NormalizeMode(mode) !in {"ok", "fail", "slow"})
    ensures r.Err? ==> r.error.IllegalArgument?
    ensures r.Ok? ==> var resp := r.value.response; match NormalizeMode(mode)
      case "ok" =>
        && resp.status == OK && r.value.sleptMs == 0
        && BodyField(resp, "stub") == Some(JText("dependency")) && BodyField(resp, "mode") == Some(JText("ok"))
      case "fail" =>
        && resp.status == SERVICE_UNAVAILABLE && r.value.sleptMs == 0 && resp.body.ErrorBody?
        && resp.body.error.status == SERVICE_UNAVAILABLE && resp.body.error.error == "SERVICE_UNAVAILABLE"
        && resp.body.error.message == "Stub forced failure (mode=fail)"
        && resp.body.error.path == uri && resp.body.error.fieldErrors == []
      case _ =>
        && r.value.sleptMs == DelayParam(delayMs)
        && (resp.status == OK <==> !sleepInterrupted)
        && (!sleepInterrupted ==>
              && BodyField(resp, "stub") == Some(JText("dependency")) && BodyField(resp, "mode") == Some(JText("slow"))
              && BodyField(resp, "delayMs") == Some(JInt(DelayParam(delayMs))))
        && (sleepInterrupted ==>
              && resp.status == INTERNAL_SERVER_ERROR && resp.body.ErrorBody?
              && resp.body.error.status == INTERNAL_SERVER_ERROR && resp.body.error.error == "INTERNAL_ERROR"
              && resp.body.error.message == "Stub sleep interrupted" && resp.body.error.path == uri)
  {
    var m := NormalizeMode(mode);
    var d := DelayParam(delayMs);
    if d < 0 || d > MAX_DELAY_MS then Err(IllegalArgument(DELAY_MESSAGE))
    else if m == "ok" then
      Ok(StubReply(Response(OK, JsonBody(JObject(map["stub" := JText("dependency"), "mode" := JText("ok")]))), 0))
    else if m == "fail" then
      Ok(StubReply(StubError(SERVICE_UNAVAILABLE, "SERVICE_UNAVAILABLE", "Stub forced failure (mode=fail)", uri, now), 0))
    else if m == "slow" then
      if sleepInterrupted then
        Ok(StubReply(StubError(INTERNAL_SERVER_ERROR, "INTERNAL_ERROR", "Stub sleep interrupted", uri, now), d))
      else
        Ok(StubReply(Response(OK, JsonBody(JObject(map[
          "stub" := JText("dependency"), "mode" := JText("slow"), "delayMs" := JInt(d)]))), d))
    else Err(IllegalArgument(MODE_MESSAGE))
  }

  /** A rejected request is answered by the exception handler as a 400
      carrying the rejection's message. */
  lemma StubRejectionIsBadRequest(mode: Option<string>, delayMs: Option<int>, uri: string, now: Instant,
                                  interrupted: bool, notFoundMessage: string)
    requires Dependency(mode, delayMs, uri, now, interrupted).Err?
    ensures var reply := Handle(Dependency(mode, delayMs, uri, now, interrupted).error, uri, now, notFoundMessage);
      && reply.httpStatus == BAD_REQUEST
      && reply.body.message in {DELAY_MESSAGE, MODE_MESSAGE}
  {
  }
}
