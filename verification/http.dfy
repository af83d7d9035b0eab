/** HTTP responses as the controllers and the dependency client build them.
    Status classes follow section 15 of RFC 9110; 429 Too Many Requests is
    section 4 of RFC 6585. */
module Http {
  import opened Wrappers
  import opened Json

  const OK := 200
  const BAD_REQUEST := 400
  const NOT_FOUND := 404
  const CONFLICT := 409
  const TOO_MANY_REQUESTS := 429
  const INTERNAL_SERVER_ERROR := 500
  const SERVICE_UNAVAILABLE := 503
  const GATEWAY_TIMEOUT := 504

  /** `HttpStatusCode.is4xxClientError`. */
  predicate Is4xx(status: int) { 400 <= status <= 499 }

  /** `HttpStatusCode.is5xxServerError`. */
  predicate Is5xx(status: int) { 500 <= status <= 599 }

  /** One entry of an error body's `fieldErrors` list. */
  datatype FieldValidationError = FieldValidationError(field: string, message: Option<string>)

  /** The error body shape shared by the whole API. */
  datatype ApiErrorResponse = ApiErrorResponse(
    timestamp: Instant,
    status: int,
    error: string,
    message: string,
    path: string,
    fieldErrors: seq<FieldValidationError>)

  datatype Body =
    | NoBody
    | JsonBody(json: Json)
    | ErrorBody(error: ApiErrorResponse)

  datatype Response = Response(status: int, body: Body)

  /** The value of one top-level field of a JSON object body. */
  function BodyField(r: Response, key: string): Option<Json>
  {
    if r.body.JsonBody? && r.body.json.JObject? && key in r.body.json.fields
    then Some(r.body.json.fields[key]) else None
  }
}
