/**
 * The feature tests of the repository and its diagnostic routes, written as
 * statements about the model.
 */
module MapperScenarios {
  import opened Wrappers
  import opened JsonValue
  import opened Text
  import opened UpstreamErrorMapper
  import MapperProperties

  /** A 422 whose JSON body reports a missing e-mail field. */
  lemma ValidationErrorScenario(raw: string)
    ensures var body := JObject([("errors", JObject([("email", JArray([JString("Required")]))]))]);
      var e := FromResponse(Response(422, map[], Some(body), raw));
      e.error.code == ValidationFailed && !e.error.retryable && e.error.httpStatus == 502
      && e.error.meta[UpstreamBodyKey] == BodyMeta(JsonBody(body))
  {
  }

  /**
   * A 429 with `Retry-After: 30` is RATE_LIMITED and retryable; the header
   * is not copied, so meta has no `retry_after` entry although the feature
   * test expects one.
   */
  lemma RateLimitScenario(raw: string)
    ensures var body := JObject([("error", JString("Too many requests"))]);
      var e := FromResponse(Response(429, map["Retry-After" := "30"], Some(body), raw));
      e.error.code == RateLimited && e.error.retryable && e.error.httpStatus == 502
      && "retry_after" !in e.error.meta
  {
  }

  /** A 503 is UNAVAILABLE and retryable. */
  lemma UnavailableScenario(raw: string)
    ensures var body := JObject([("error", JString("Service unavailable"))]);
      var e := FromResponse(Response(503, map[], Some(body), raw));
      e.error.code == Unavailable && e.error.retryable && e.error.httpStatus == 502
  {
  }

  /** A plain runtime failure saying "Operation timed out" is a retryable TIMEOUT. */
  lemma TimeoutScenario()
    ensures var e := FromThrowable(OtherFailure("RuntimeException", "Operation timed out"));
      e.error.code == UpstreamTimeout && e.error.retryable && e.error.httpStatus == 502
      && e.error.meta == map[ExceptionKey := ExceptionMeta("RuntimeException")]
  {
    var m := "Operation timed out";
    assert m[10..19] == "timed out";
    Text.LowerOfLowercase("timed out");
    MapperProperties.TimeoutAnyCasing("RuntimeException", m, "timed out", 10);
  }

  /** A connection failure ("DNS failure", "Could not resolve host") is a retryable CONNECTION_FAILED. */
  lemma ConnectionScenario(message: string)
    requires message == "DNS failure" || message == "Could not resolve host"
    ensures var e := FromThrowable(ConnectionFailure("ConnectionException", message));
      e.error.code == ConnectionFailed && e.error.retryable && e.error.httpStatus == 502
      && Name(e.error.code) == "UPSTREAM_CONNECTION_FAILED"
  {
  }

  /** A message with no timeout wording is an UNEXPECTED_EXCEPTION that is not retryable. */
  lemma UnexpectedScenario()
    ensures var e := FromThrowable(OtherFailure("LogicException", "boom"));
      e.error.code == UnexpectedException && !e.error.retryable
  {
  }
}
