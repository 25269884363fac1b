/**
 * What the mapper promises, stated against independent descriptions of its
 * tables and proved for all inputs.
 */
module MapperProperties {
  import opened Wrappers
  import opened JsonValue
  import opened Text
  import opened UpstreamErrorMapper

  // ------------------------------------------------------ the status table

  /**
   * The code table read backwards: the upstream statuses for which
   * `fromResponse` emits code `c`.
   */
  predicate Admits(c: ErrorCode, status: int) {
    match c
    case Unauthorized => status == 401
    case Forbidden => status == 403
    case NotFound => status == 404
    case Conflict => status == 409
    case ValidationFailed => status == 422
    case RateLimited => status == 429
    case ClientError => 400 <= status < 500 && status !in {401, 403, 404, 409, 422, 429}
    case BadGateway => status == 502
    case Unavailable => status == 503
    case UpstreamTimeout => status == 504
    case ServerError => status >= 500 && status !in {502, 503, 504}
    case UnknownError => status < 400
    case ConnectionFailed => false
    case UnexpectedException => false
  }

  /** No status is admitted by two codes. */
  lemma AdmitsPartition(status: int, c: ErrorCode, d: ErrorCode)
    requires Admits(c, status) && Admits(d, status)
    ensures c == d
  {
  }

  /** `fromResponse` emits code `c` exactly for the statuses `c` admits. */
  lemma CodeTable(resp: Response, c: ErrorCode)
    ensures FromResponse(resp).error.code == c <==> Admits(c, resp.status)
  {
  }

  /** Every status is admitted by some code; with AdmitsPartition, by exactly one. */
  lemma AdmitsTotal(status: int)
    ensures exists c :: Admits(c, status)
  {
    var r := Response(status, map[], None, "");
    CodeTable(r, FromResponse(r).error.code);
  }

  /** Distinct codes have distinct wire names, so the code tables carry over to the strings. */
  lemma NameInjective(c: ErrorCode, d: ErrorCode)
    requires Name(c) == Name(d)
    ensures c == d
  {
  }

  /** An upstream response is flagged retryable exactly for 429 and every 5xx. */
  lemma RetryableStatuses(resp: Response)
    ensures FromResponse(resp).error.retryable <==> (resp.status == 429 || resp.status >= 500)
  {
  }

  // ---------------------------------------------------- the message tables

  /** The 4xx messages are pairwise different from each other and from the 5xx one. */
  predicate MessagesDistinct() {
    var ms := [UnauthorizedMessage, ForbiddenMessage, NotFoundMessage, ValidationMessage,
               RateLimitMessage, ClientErrorMessage, ServerErrorMessage, UnknownErrorMessage];
    forall i, j :: 0 <= i < j < |ms| ==> ms[i] != ms[j]
  }

  lemma MessagesAreDistinct()
    ensures MessagesDistinct()
  {
  }

  /**
   * In the 4xx range the generic message is given exactly to the statuses
   * without a message-table entry; 409 is one of them although it has a
   * code of its own.
   */
  lemma ClientDefaultMessage(resp: Response)
    requires 400 <= resp.status < 500
    ensures FromResponse(resp).error.message == ClientErrorMessage
        <==> resp.status !in {401, 403, 404, 422, 429}
    ensures resp.status == 409 ==>
      FromResponse(resp).error.code == Conflict && FromResponse(resp).error.message == ClientErrorMessage
    ensures resp.status == 401 ==> FromResponse(resp).error.message == UnauthorizedMessage
    ensures resp.status == 403 ==> FromResponse(resp).error.message == ForbiddenMessage
    ensures resp.status == 404 ==> FromResponse(resp).error.message == NotFoundMessage
    ensures resp.status == 422 ==> FromResponse(resp).error.message == ValidationMessage
    ensures resp.status == 429 ==> FromResponse(resp).error.message == RateLimitMessage
  {
    MessagesAreDistinct();
  }

  /** Every 5xx status gets the same message, and no 4xx status gets it. */
  lemma ServerMessageShared(a: Response, b: Response)
    requires a.status >= 500
    ensures FromResponse(a).error.message == ServerErrorMessage
    ensures b.status >= 500 ==> FromResponse(b).error.message == FromResponse(a).error.message
    ensures 400 <= b.status < 500 ==> FromResponse(b).error.message != FromResponse(a).error.message
  {
    MessagesAreDistinct();
  }

  // ---------------------------------------------------------------- meta

  /**
   * The meta of a response envelope: for 4xx and 5xx exactly the upstream
   * status and the captured body; below 400 (the defensive branch) only the
   * status, with code UNKNOWN_ERROR and no retry.
   */
  lemma ResponseMetaExact(resp: Response)
    ensures var e := FromResponse(resp);
      resp.status >= 400 ==>
        e.error.meta.Keys == {UpstreamStatusKey, UpstreamBodyKey}
        && e.error.meta[UpstreamStatusKey] == StatusMeta(resp.status)
        && e.error.meta[UpstreamBodyKey] == BodyMeta(SafeBody(resp))
    ensures var e := FromResponse(resp);
      resp.status < 400 ==>
        e.error.meta == map[UpstreamStatusKey := StatusMeta(resp.status)]
        && e.error.code == UnknownError && !e.error.retryable
  {
  }

  /**
   * Headers are never read: replacing them leaves the envelope unchanged,
   * so a `Retry-After` header is never copied into meta.
   */
  lemma HeadersNeverRead(resp: Response, headers: map<string, string>)
    ensures FromResponse(resp.(headers := headers)) == FromResponse(resp)
    ensures "retry_after" !in FromResponse(resp).error.meta
  {
  }

  /**
   * What the calling controller relies on: a response it hands over after
   * `failed()` (status >= 400) never reaches the defensive branch.
   */
  lemma FailedResponseIsClassified(resp: Response)
    requires resp.status >= 400
    ensures FromResponse(resp).error.code != UnknownError
    ensures UpstreamBodyKey in FromResponse(resp).error.meta
  {
  }

  // ------------------------------------------------------- body capture

  /** A body of at most BodyLimit characters that is not JSON is kept whole. */
  lemma SafeBodyShortPassesThrough(resp: Response)
    requires resp.decoded.None? || resp.decoded == Some(JNull)
    requires resp.rawBody != "" && |resp.rawBody| <= BodyLimit
    ensures SafeBody(resp) == TextBody(resp.rawBody)
  {
  }

  /** A longer non-JSON body is cut to exactly its first BodyLimit characters. */
  lemma SafeBodyLongIsCut(resp: Response)
    requires resp.decoded.None? || resp.decoded == Some(JNull)
    requires |resp.rawBody| > BodyLimit
    ensures SafeBody(resp).TextBody? && |SafeBody(resp).text| == BodyLimit
    ensures SafeBody(resp).text == resp.rawBody[..BodyLimit]
  {
  }

  /** Capturing a captured text again gives the same text. */
  lemma SafeBodyRecapture(resp: Response, again: Response)
    requires SafeBody(resp).TextBody?
    requires again.decoded.None? && again.rawBody == SafeBody(resp).text
    ensures SafeBody(again) == SafeBody(resp)
  {
  }

  /** What lies past the first BodyLimit characters of a non-JSON body is forgotten. */
  lemma SafeBodyForgetsTail(a: Response, b: Response)
    requires a.decoded.None? && b.decoded.None?
    requires |a.rawBody| >= BodyLimit && |b.rawBody| >= BodyLimit
    requires a.rawBody[..BodyLimit] == b.rawBody[..BodyLimit]
    ensures SafeBody(a) == SafeBody(b)
  {
  }

  // ---------------------------------------------------- thrown failures

  /**
   * A connection failure always maps to CONNECTION_FAILED, retryable, with
   * meta only the exception name, whatever its message says (a message
   * about a timeout included): it is tested before the heuristic.
   */
  lemma ConnectionFailureWins(className: string, message: string)
    ensures var e := FromThrowable(ConnectionFailure(className, message));
      e.error.code == ConnectionFailed && e.error.retryable
      && e.error.message == ConnectionMessage
      && e.error.meta == map[ExceptionKey := ExceptionMeta(className)]
  {
  }

  /** A failure wrapping a response maps exactly as the response itself would. */
  lemma WrappedResponseRedispatches(className: string, message: string, resp: Response)
    ensures FromThrowable(RequestFailure(className, message, resp)) == FromResponse(resp)
  {
  }

  /**
   * Any other failure maps to TIMEOUT (retryable) exactly when its
   * lower-cased message contains "timed out" or "timeout", and otherwise to
   * UNEXPECTED_EXCEPTION (not retryable); meta is only the exception name.
   */
  lemma OtherFailureHeuristic(className: string, message: string)
    ensures var e := FromThrowable(OtherFailure(className, message));
      (e.error.code == UpstreamTimeout <==>
        (Contains(Lower(message), "timed out") || Contains(Lower(message), "timeout")))
      && (e.error.code == UpstreamTimeout || e.error.code == UnexpectedException)
      && e.error.retryable == (e.error.code == UpstreamTimeout)
      && e.error.message == (if e.error.code == UpstreamTimeout then TimeoutMessage else UnexpectedMessage)
      && e.error.meta == map[ExceptionKey := ExceptionMeta(className)]
  {
  }

  /** The heuristic ignores case: any casing of "timeout" or "timed out" in the message counts. */
  lemma TimeoutAnyCasing(className: string, message: string, p: string, i: int)
    requires OccursAt(message, p, i)
    requires Lower(p) == "timeout" || Lower(p) == "timed out"
    ensures FromThrowable(OtherFailure(className, message)).error.code == UpstreamTimeout
    ensures FromThrowable(OtherFailure(className, message)).error.retryable
  {
    ContainsAnyCasing(message, p, i, Lower(p));
  }

  /**
   * The converse of TimeoutAnyCasing: a TIMEOUT for a failure of no
   * recognised kind means some casing of "timeout" or "timed out" occurs in
   * the raw message.
   */
  lemma TimeoutNeedsSomeCasing(className: string, message: string)
    requires FromThrowable(OtherFailure(className, message)).error.code == UpstreamTimeout
    ensures exists p, i :: OccursAt(message, p, i) && (Lower(p) == "timeout" || Lower(p) == "timed out")
  {
    OtherFailureHeuristic(className, message);
    var pattern := if Contains(Lower(message), "timed out") then "timed out" else "timeout";
    var i :| 0 <= i <= |message| - |pattern| && OccursAt(Lower(message), pattern, i);
    var p := message[i..i + |pattern|];
    LowerSlice(message, i, i + |pattern|);
    assert OccursAt(message, p, i) && Lower(p) == pattern;
  }

  /**
   * TIMEOUT has two sources: an upstream 504 (directly or wrapped) and
   * the message heuristic for failures of no recognised kind.
   */
  lemma TimeoutSources(f: Failure)
    ensures FromThrowable(f).error.code == UpstreamTimeout <==>
      (f.RequestFailure? && f.response.status == 504)
      || (f.OtherFailure? && (Contains(Lower(f.message), "timed out") || Contains(Lower(f.message), "timeout")))
  {
    match f
    case ConnectionFailure(_, _) =>
    case RequestFailure(_, _, resp) => CodeTable(resp, UpstreamTimeout);
    case OtherFailure(className, message) => OtherFailureHeuristic(className, message);
  }

  /** When a thrown failure is flagged retryable. */
  lemma ThrowableRetryable(f: Failure)
    ensures FromThrowable(f).error.retryable <==>
      f.ConnectionFailure?
      || (f.RequestFailure? && (f.response.status == 429 || f.response.status >= 500))
      || (f.OtherFailure? && (Contains(Lower(f.message), "timed out") || Contains(Lower(f.message), "timeout")))
  {
    match f
    case ConnectionFailure(_, _) =>
    case RequestFailure(_, _, resp) => RetryableStatuses(resp);
    case OtherFailure(className, message) => OtherFailureHeuristic(className, message);
  }
}
