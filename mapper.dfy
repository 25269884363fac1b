/**
 * UpstreamErrorMapper: turns a failed call to the upstream HTTP dependency
 * into the one error envelope the service answers with,
 *   { ok: false, error: { code, message, http_status, retryable, meta } }.
 * Two entry points: FromResponse for an upstream response with an error
 * status, FromThrowable for a failure raised instead of (or around) a
 * response. Both are total: every input ends in exactly one envelope.
 */
module UpstreamErrorMapper {
  import opened Wrappers
  import opened JsonValue
  import opened Text

  // ---------------------------------------------------------------- inputs

  /**
   * The upstream response as the mapper sees it. `decoded` is what the
   * client's JSON decoding of the body gave: None when the body is not
   * JSON, Some(JNull) for the literal `null` (both read as null by the
   * mapper). `headers` is carried only to show that it is never read.
   */
  datatype Response = Response(
    status: int,
    headers: map<string, string>,
    decoded: Option<Json>,
    rawBody: string)

  /**
   * A thrown failure, tagged by the exception kind the mapper tests for.
   * `className` is the exception's short class name.
   */
  datatype Failure =
    | ConnectionFailure(className: string, message: string)
    | RequestFailure(className: string, message: string, response: Response)
    | OtherFailure(className: string, message: string)

  // --------------------------------------------------------------- outputs

  /** The closed set of error codes the mapper can emit. */
  datatype ErrorCode =
    | Unauthorized | Forbidden | NotFound | Conflict | ValidationFailed
    | RateLimited | ClientError
    | BadGateway | Unavailable | UpstreamTimeout | ServerError
    | UnknownError
    | ConnectionFailed | UnexpectedException

  /** The wire name of a code; every code is namespaced `UPSTREAM_`. */
  function Name(c: ErrorCode): (r: string)
    ensures |r| > 9 && r[..9] == "UPSTREAM_"
  {
    match c
    case Unauthorized => "UPSTREAM_UNAUTHORIZED"
    case Forbidden => "UPSTREAM_FORBIDDEN"
    case NotFound => "UPSTREAM_NOT_FOUND"
    case Conflict => "UPSTREAM_CONFLICT"
    case ValidationFailed => "UPSTREAM_VALIDATION_FAILED"
    case RateLimited => "UPSTREAM_RATE_LIMITED"
    case ClientError => "UPSTREAM_CLIENT_ERROR"
    case BadGateway => "UPSTREAM_BAD_GATEWAY"
    case Unavailable => "UPSTREAM_UNAVAILABLE"
    case UpstreamTimeout => "UPSTREAM_TIMEOUT"
    case ServerError => "UPSTREAM_SERVER_ERROR"
    case UnknownError => "UPSTREAM_UNKNOWN_ERROR"
    case ConnectionFailed => "UPSTREAM_CONNECTION_FAILED"
    case UnexpectedException => "UPSTREAM_UNEXPECTED_EXCEPTION"
  }

  /** What `safeBody` captures of the upstream body: `array|string|null`. */
  datatype Captured = NullBody | JsonBody(json: Json) | TextBody(text: string)

  /** A value stored under one of the meta keys. */
  datatype MetaValue =
    | StatusMeta(status: int)
    | BodyMeta(body: Captured)
    | ExceptionMeta(className: string)

  type Meta = map<string, MetaValue>

  datatype ErrorDetail = ErrorDetail(
    code: ErrorCode,
    message: string,
    httpStatus: int,
    retryable: bool,
    meta: Meta)

  datatype Envelope = Envelope(ok: bool, error: ErrorDetail)

  // ------------------------------------------------------------- constants

  /** The status the service answers its own caller with, for every failure. */
  const GatewayStatus: int := 502

  /** At most this many characters of a non-JSON body are kept. */
  const BodyLimit: nat := 1000

  const UpstreamStatusKey: string := "upstream_status"
  const UpstreamBodyKey: string := "upstream_body"
  const ExceptionKey: string := "exception"

  const UnauthorizedMessage: string := "A külső szolgáltató elutasította a kérést (auth)."
  const ForbiddenMessage: string := "A külső szolgáltató tiltja a kérést."
  const NotFoundMessage: string := "A külső szolgáltatónál nem található az erőforrás."
  const ValidationMessage: string := "A külső szolgáltató validációs hibát jelzett."
  const RateLimitMessage: string := "A külső szolgáltató túl sok kérést kapott (rate limit)."
  const ClientErrorMessage: string := "A külső szolgáltató 4xx hibát jelzett."
  const ServerErrorMessage: string := "A külső szolgáltató hibát jelzett. Kérjük, próbáld újra később."
  const UnknownErrorMessage: string := "Ismeretlen hiba történt a külső szolgáltatóval."
  const ConnectionMessage: string := "Nem sikerült kapcsolódni a külső szolgáltatóhoz."
  const TimeoutMessage: string := "A külső szolgáltató nem válaszol időben."
  const UnexpectedMessage: string := "Váratlan hiba történt a külső szolgáltató hívásakor."

  // ------------------------------------------------------------ operations

  /** `shape`: the envelope record; it never branches and is never `ok`. */
  function Shape(code: ErrorCode, message: string, httpStatus: int, retryable: bool, meta: Meta): (e: Envelope)
    ensures !e.ok
    ensures e.error.code == code && e.error.message == message
    ensures e.error.httpStatus == httpStatus && e.error.retryable == retryable
    ensures e.error.meta == meta
  {
    Envelope(false, ErrorDetail(code, message, httpStatus, retryable, meta))
  }

  /**
   * `safeBody`: the decoded JSON when it is not null; otherwise null for an
   * empty body; otherwise the body's first BodyLimit characters.
   */
  function SafeBody(resp: Response): (b: Captured)
    ensures (resp.decoded.Some? && resp.decoded.value != JNull) <==> b.JsonBody?
    ensures b.JsonBody? ==> b.json == resp.decoded.value
    ensures b.NullBody? <==> (!b.JsonBody? && resp.rawBody == "")
    ensures b.TextBody? ==> resp.rawBody != ""
    ensures b.TextBody? ==> |b.text| == (if |resp.rawBody| <= BodyLimit then |resp.rawBody| else BodyLimit)
    ensures b.TextBody? ==> b.text <= resp.rawBody
  {
    if resp.decoded.Some? && resp.decoded.value != JNull then JsonBody(resp.decoded.value)
    else if resp.rawBody == "" then NullBody
    else if |resp.rawBody| <= BodyLimit then TextBody(resp.rawBody)
    else TextBody(resp.rawBody[..BodyLimit])
  }

  /** The meta of a 4xx or 5xx envelope. */
  function ResponseMeta(resp: Response): Meta {
    map[UpstreamStatusKey := StatusMeta(resp.status), UpstreamBodyKey := BodyMeta(SafeBody(resp))]
  }

  function ClientCode(status: int): ErrorCode {
    match status
    case 401 => Unauthorized
    case 403 => Forbidden
    case 404 => NotFound
    case 409 => Conflict
    case 422 => ValidationFailed
    case 429 => RateLimited
    case _ => ClientError
  }

  /** The 4xx message table; it has no entry of its own for 409. */
  function ClientMessage(status: int): string {
    match status
    case 401 => UnauthorizedMessage
    case 403 => ForbiddenMessage
    case 404 => NotFoundMessage
    case 422 => ValidationMessage
    case 429 => RateLimitMessage
    case _ => ClientErrorMessage
  }

  function ServerCode(status: int): ErrorCode {
    match status
    case 502 => BadGateway
    case 503 => Unavailable
    case 504 => UpstreamTimeout
    case _ => ServerError
  }

  /** `fromResponse`: classify an upstream response by its status. */
  function FromResponse(resp: Response): (e: Envelope)
    ensures !e.ok && e.error.httpStatus == GatewayStatus
    ensures UpstreamStatusKey in e.error.meta && e.error.meta[UpstreamStatusKey] == StatusMeta(resp.status)
    ensures e.error.code !in {ConnectionFailed, UnexpectedException}
  {
    var status := resp.status;
    if 400 <= status < 500 then
      Shape(ClientCode(status), ClientMessage(status), GatewayStatus, status == 429, ResponseMeta(resp))
    else if status >= 500 then
      Shape(ServerCode(status), ServerErrorMessage, GatewayStatus, true, ResponseMeta(resp))
    else
      Shape(UnknownError, UnknownErrorMessage, GatewayStatus, false, map[UpstreamStatusKey := StatusMeta(status)])
  }

  /**
   * The best-effort timeout heuristic over the lower-cased free-text message,
   * with the three patterns of the PHP code. The third adds nothing:
   * "operation timed out" contains "timed out".
   */
  predicate LooksLikeTimeout(lowered: string)
    ensures LooksLikeTimeout(lowered) <==> (Contains(lowered, "timed out") || Contains(lowered, "timeout"))
  {
    var looksLikeTimeout :=
      Contains(lowered, "timed out") || Contains(lowered, "timeout") || Contains(lowered, "operation timed out");
    if Contains(lowered, "operation timed out") then
      assert OccursAt("operation timed out", "timed out", 10);
      ContainsTransitive(lowered, "operation timed out", "timed out");
      looksLikeTimeout
    else
      looksLikeTimeout
  }

  /** `fromThrowable`: connection failure, then wrapped response, then the heuristic. */
  function FromThrowable(f: Failure): (e: Envelope)
    ensures !e.ok && e.error.httpStatus == GatewayStatus
    ensures !f.RequestFailure? ==> e.error.meta == map[ExceptionKey := ExceptionMeta(f.className)]
    ensures e.error.code == ConnectionFailed <==> f.ConnectionFailure?
  {
    match f
    case ConnectionFailure(className, _) =>
      Shape(ConnectionFailed, ConnectionMessage, GatewayStatus, true, map[ExceptionKey := ExceptionMeta(className)])
    case RequestFailure(_, _, response) =>
      FromResponse(response)
    case OtherFailure(className, message) =>
      if LooksLikeTimeout(Lower(message)) then
        Shape(UpstreamTimeout, TimeoutMessage, GatewayStatus, true, map[ExceptionKey := ExceptionMeta(className)])
      else
        Shape(UnexpectedException, UnexpectedMessage, GatewayStatus, false, map[ExceptionKey := ExceptionMeta(className)])
  }
}
