/** `CorrelationIdFilter`: every request runs with a correlation id in the
    logging context and echoes it in a response header. The logging context
    of the request's thread and the servlet response are objects the filter
    updates in place. */
module CorrelationFilter {
  import opened Wrappers
  import opened Text
  import opened ApiErrors

  const HEADER_NAME := "X-Correlation-Id"
  const MDC_KEY := "correlationId"

  /** The mapped diagnostic context of the current thread. */
  class Mdc {
    var entries: map<string, string>

    constructor()
      ensures entries == map[]
    {
      entries := map[];
    }
  }

  /** The headers of the servlet response being written. */
  class ServletResponse {
    var headers: map<string, string>

    constructor()
      ensures headers == map[]
    {
      headers := map[];
    }
  }

  /** The id a request runs under: the incoming header, trimmed, when it is
      present and not blank; otherwise a freshly generated UUID. */
  function ChooseCorrelationId(incoming: Option<string>, generated: Uuid): (id: string)
    ensures incoming.Some? && !IsBlank(incoming.value) ==> id == Trim(incoming.value)
    ensures (incoming.None? || IsBlank(incoming.value)) ==> id == generated
    ensures Trim(id) == id || id == generated
  {
    if incoming.Some? && !IsBlank(incoming.value) then TrimIdempotent(incoming.value); Trim(incoming.value)
    else generated
  }

  /** A canonical UUID has nothing to trim and is not blank. */
  lemma CanonicalUuidIsClean(u: string)
    requires CanonicalUuid(u)
    ensures !IsBlank(u) && Trim(u) == u
  {
    assert IsHexDigit(u[0]) && IsHexDigit(u[35]);
    assert !IsJavaWhitespace(u[0]);
    TrimStartOfClean(u);
    TrimEndOfClean(u);
  }

  /** A caller that sends back the id it was given keeps it: the echoed
      header is chosen again unchanged, whatever UUID would be generated. */
  lemma EchoedIdIsKept(incoming: Option<string>, generated: Uuid, generatedLater: Uuid)
    requires CanonicalUuid(generated)
    requires !IsBlank(ChooseCorrelationId(incoming, generated))
    ensures var id := ChooseCorrelationId(incoming, generated);
      ChooseCorrelationId(Some(id), generatedLater) == id
  {
    if incoming.None? || IsBlank(incoming.value) {
      CanonicalUuidIsClean(generated);
    }
  }

  /** The path written to the request log: the query string is appended
      after a `?` only when it is present and not blank. */
  function LoggedPath(uri: string, query: Option<string>): (p: string)
    ensures uri <= p
    ensures |p| > |uri| <==> query.Some? && !IsBlank(query.value)
    ensures |p| > |uri| ==> p[|uri|] == '?' && p[|uri| + 1..] == query.value
  {
    if query.None? || IsBlank(query.value) then uri else uri + "?" + query.value
  }

  /** `doFilterInternal`: puts the id in the logging context, echoes it in
      the response header, runs the rest of the chain (which sees the id in
      the context, and may throw), and removes the id from the context on
      the way out whether or not the chain threw. */
  method DoFilterInternal(
    mdc: Mdc, response: ServletResponse,
    incoming: Option<string>, generated: Uuid, uri: string, query: Option<string>, chainThrows: bool)
    returns (seenByChain: Option<string>, path: string, threw: bool)
    modifies mdc, response
    ensures var id := ChooseCorrelationId(incoming, generated);
      && seenByChain == Some(id)
      && response.headers == old(response.headers)[HEADER_NAME := id]
    ensures mdc.entries == old(mdc.entries) - {MDC_KEY}
    ensures path == LoggedPath(uri, query)
    ensures threw == chainThrows
  {
    var correlationId := ChooseCorrelationId(incoming, generated);
    mdc.entries := mdc.entries[MDC_KEY := correlationId];
    response.headers := response.headers[HEADER_NAME := correlationId];
    path := LoggedPath(uri, query);
    // The chain runs here and reads the id from the context.
    seenByChain := if MDC_KEY in mdc.entries then Some(mdc.entries[MDC_KEY]) else None;
    threw := chainThrows;
    // finally: the id must not leak into the next request on this thread.
    mdc.entries := mdc.entries - {MDC_KEY};
  }
}
