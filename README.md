# Upstream error mapping, modelled in Dafny

This project models `UpstreamErrorMapper`, the one piece of decision logic in
a small service that calls an upstream HTTP dependency. When the call fails,
the mapper builds the single error envelope the service answers with:

    { ok: false, error: { code, message, http_status, retryable, meta } }

There are two entry points:

- `FromResponse` takes an upstream response whose status is an error. It uses
  a table for 4xx, a table for 5xx, and a defensive branch for any other status.
- `FromThrowable` takes a thrown failure. It checks, in this order: a connection
  failure; a failure wrapping a response, which is handed to `FromResponse`;
  a free-text check of the lower-cased message for "timed out" / "timeout";
  otherwise an unexpected error.

`Shape` builds the envelope record. `SafeBody` captures the upstream body:
the decoded JSON when there is some, null for an empty body, and otherwise
the first 1000 characters.

The mapper is pure, total and stateless. The model is therefore a set of
datatypes and functions, with lemmas that state its tables independently.

Files:

- `wrappers.dfy`: `Option`.
- `json.dfy`: a decoded JSON value.
- `text.dfy`: ASCII lower-casing and substring search.
- `mapper.dfy`: the mapper itself.
- `properties.dfy`: the properties, proved for all inputs.
- `scenarios.dfy`: the repository's feature tests and diagnostic routes, stated as lemmas.

Two behaviours of the code that a reader might not expect; the model follows the code in both:

- The feature test at `tests/Feature/ExternalApiErrorMappingTest.php:53`
  expects `error.meta.retry_after == '30'` for a 429 carrying `Retry-After: 30`.
  But the mapper never reads headers
  (`app/Support/UpstreamErrorMapper.php:44-47`). So in the model, meta
  never has a `retry_after` key (`HeadersNeverRead`, `RateLimitScenario`).
- For an empty body, the code still writes the `upstream_body` key in the
  4xx and 5xx branches, with the value null; it does not omit the key.
  The model does the same (`NullBody`).

## Model

| member | source | states |
|---|---|---|
| `UpstreamErrorMapper.Shape` | app/Support/UpstreamErrorMapper.php:128-145 | the envelope is never `ok`, and each of the five fields holds exactly the argument given for it |
| `UpstreamErrorMapper.SafeBody` | app/Support/UpstreamErrorMapper.php:147-158 | JSON is returned unchanged exactly when the decoded value is non-null; null is returned exactly when there is no JSON and the raw body is empty; otherwise the result is a prefix of the raw body of length min(\|body\|, 1000) |
| `UpstreamErrorMapper.FromResponse` | app/Support/UpstreamErrorMapper.php:15-76 | every response envelope has `ok = false` and `http_status = 502`; meta always holds the upstream status; the code is never CONNECTION_FAILED or UNEXPECTED_EXCEPTION |
| `UpstreamErrorMapper.FromThrowable` | app/Support/UpstreamErrorMapper.php:81-126 | every envelope has `ok = false` and `http_status = 502`; outside the wrapped-response case meta is exactly `{exception: class name}`; the code is CONNECTION_FAILED exactly for connection failures |
| `UpstreamErrorMapper.LooksLikeTimeout` | app/Support/UpstreamErrorMapper.php:104-107 | the three-pattern test on the lowered message ("timed out", "timeout", "operation timed out") holds if and only if the message contains "timed out" or "timeout": the third pattern adds nothing |
| `UpstreamErrorMapper.Name` | app/Support/UpstreamErrorMapper.php:25-120 | every one of the 14 wire codes carries the `UPSTREAM_` prefix |
| `Text.Lower` | app/Support/UpstreamErrorMapper.php:103 | `strtolower` keeps the length and lowers each ASCII letter on its own, leaving every other character unchanged |
| `Text.Contains` | app/Support/UpstreamErrorMapper.php:105-107 | `str_contains`: the needle occurs at some index from 0 to \|haystack\| - \|needle\|; so a contained needle is no longer than the haystack, and a prefix (the empty needle included) is always contained |
| `Text.ContainsTransitive` | app/Support/UpstreamErrorMapper.php:105-107 | a needle contained in a string contained in the haystack is contained in the haystack |
| `Text.ContainsAnyCasing` | app/Support/UpstreamErrorMapper.php:103-107 | any casing of a pattern in the message is found as the lower-case pattern in the lowered message |
| `MapperProperties.AdmitsPartition` | app/Support/UpstreamErrorMapper.php:23-75 | no upstream status is claimed by two rows of the code tables |
| `MapperProperties.AdmitsTotal` | app/Support/UpstreamErrorMapper.php:23-75 | every upstream status is claimed by some row of the code tables; with `AdmitsPartition`, by exactly one |
| `MapperProperties.NameInjective` | app/Support/UpstreamErrorMapper.php:25-120 | two codes with the same wire name are the same code, so every statement about codes holds of the wire strings |
| `MapperProperties.CodeTable` | app/Support/UpstreamErrorMapper.php:23-75 | the response code is `c` if and only if the status is in `c`'s row: 401, 403, 404, 409, 422 and 429 have their own codes; any other 4xx gives CLIENT_ERROR; 502, 503 and 504 have their own codes; any other status ≥ 500 gives SERVER_ERROR; below 400 gives UNKNOWN_ERROR |
| `MapperProperties.RetryableStatuses` | app/Support/UpstreamErrorMapper.php:43-60 | a response envelope is retryable if and only if the status is 429 or at least 500 |
| `MapperProperties.MessagesAreDistinct` | app/Support/UpstreamErrorMapper.php:34-71 | the message texts of the response branches are pairwise different |
| `MapperProperties.ClientDefaultMessage` | app/Support/UpstreamErrorMapper.php:34-41 | in the 4xx range, the generic 4xx message is used if and only if the status is not 401, 403, 404, 422 or 429; 409 has its own code yet gets the generic message; 401, 403, 404, 422 and 429 each get their own message text |
| `MapperProperties.ServerMessageShared` | app/Support/UpstreamErrorMapper.php:59 | every status ≥ 500 gets the same message, and no 4xx status gets it |
| `MapperProperties.ResponseMetaExact` | app/Support/UpstreamErrorMapper.php:44-75 | for status ≥ 400, meta has exactly the keys `upstream_status` (the status) and `upstream_body` (`SafeBody` of the response); below 400, meta is only `upstream_status`, the code is UNKNOWN_ERROR and the envelope is not retryable |
| `MapperProperties.HeadersNeverRead` | app/Support/UpstreamErrorMapper.php:44-47 | replacing the response headers leaves the envelope unchanged, and meta never has a `retry_after` key |
| `MapperProperties.FailedResponseIsClassified` | app/Http/Controllers/ExternalApiDemoController.php:18-19 | a response the controller passes on after `failed()` (status ≥ 400) never reaches the UNKNOWN_ERROR branch, and its meta carries the body |
| `MapperProperties.SafeBodyShortPassesThrough` | app/Support/UpstreamErrorMapper.php:153-157 | a non-JSON, non-empty body of at most 1000 characters is kept whole |
| `MapperProperties.SafeBodyLongIsCut` | app/Support/UpstreamErrorMapper.php:157 | a non-JSON body longer than 1000 characters is cut to exactly its first 1000 characters |
| `MapperProperties.SafeBodyRecapture` | app/Support/UpstreamErrorMapper.php:153-157 | capturing an already captured text again gives the same text |
| `MapperProperties.SafeBodyForgetsTail` | app/Support/UpstreamErrorMapper.php:157 | two non-JSON bodies that share their first 1000 characters are captured identically |
| `MapperProperties.ConnectionFailureWins` | app/Support/UpstreamErrorMapper.php:86-94 | a connection failure gives CONNECTION_FAILED, retryable, with its own message and meta `{exception: class name}`, whatever its message says |
| `MapperProperties.WrappedResponseRedispatches` | app/Support/UpstreamErrorMapper.php:97-100 | a failure wrapping a response maps to exactly the envelope of that response |
| `MapperProperties.OtherFailureHeuristic` | app/Support/UpstreamErrorMapper.php:103-125 | any other failure gives TIMEOUT if and only if its lowered message contains "timed out" or "timeout", and UNEXPECTED_EXCEPTION otherwise; it is retryable exactly in the TIMEOUT case; the message is the timeout text or the unexpected-error text accordingly; meta is exactly `{exception: class name}` |
| `MapperProperties.TimeoutAnyCasing` | app/Support/UpstreamErrorMapper.php:103-117 | a message containing "timeout" or "timed out" in any letter case gives a retryable TIMEOUT |
| `MapperProperties.TimeoutNeedsSomeCasing` | app/Support/UpstreamErrorMapper.php:103-117 | conversely, a TIMEOUT for such a failure means some casing of "timeout" or "timed out" occurs in the raw message |
| `MapperProperties.TimeoutSources` | app/Support/UpstreamErrorMapper.php:52-117 | a thrown failure gives TIMEOUT if and only if it wraps a 504 response, or is a plain failure whose message matches the heuristic |
| `MapperProperties.ThrowableRetryable` | app/Support/UpstreamErrorMapper.php:81-126 | a thrown failure is retryable if and only if it is a connection failure, wraps a 429 or 5xx response, or matches the timeout heuristic |
| `MapperScenarios.ValidationErrorScenario` | tests/Feature/ExternalApiErrorMappingTest.php:15-35 | a 422 with a JSON body gives VALIDATION_FAILED, not retryable, 502, and that JSON as `upstream_body` |
| `MapperScenarios.RateLimitScenario` | tests/Feature/ExternalApiErrorMappingTest.php:37-54 | a 429 with `Retry-After: 30` gives RATE_LIMITED, retryable, 502, and no `retry_after` in meta (the test's last assertion does not hold of the code) |
| `MapperScenarios.UnavailableScenario` | tests/Feature/ExternalApiErrorMappingTest.php:56-71 | a 503 gives UNAVAILABLE, retryable, 502 |
| `MapperScenarios.TimeoutScenario` | tests/Feature/ExternalApiErrorMappingTest.php:73-85 | a RuntimeException "Operation timed out" gives TIMEOUT, retryable, 502, meta `{exception: "RuntimeException"}` |
| `MapperScenarios.ConnectionScenario` | routes/api.php:16-21 | a connection failure saying "DNS failure" or "Could not resolve host" gives UPSTREAM_CONNECTION_FAILED, retryable, 502 |
| `MapperScenarios.UnexpectedScenario` | app/Support/UpstreamErrorMapper.php:119-125 | a message with no timeout wording gives UNEXPECTED_EXCEPTION, not retryable |

## Left out

- The controller (`ExternalApiDemoController`) and the routes are left out. They are HTTP plumbing: the upstream GET with a 3-second timeout, try/catch dispatch, `response()->json`, and the `local`-environment gate on the diagnostic routes. Only the `failed()` guard is stated, as `FailedResponseIsClassified`.
- JSON decoding (`$response->json()`) is the HTTP client's own code. The decoded value is an input field of `Response`, independent of `rawBody`. A real client derives it from the body.
- UpstreamErrorMapper.SafeBody: the PHP return type `array|string|null` would coerce a top-level JSON number or boolean to a string. The model returns the decoded value unchanged.
- `class_basename` and the exception class hierarchy are not modelled. The exception is a tag (connection, wrapped response, other) plus its class name as an opaque string.
- Character encoding is not modelled. A body is a sequence of Unicode scalar values, so `mb_substr` cuts by code point. Invalid UTF-8 is not modelled.
- `strtolower` is modelled as ASCII-only lower-casing. That is its behaviour since PHP 8.2; earlier versions depend on the locale.
- Copying `Retry-After` into `meta.retry_after` is left out, because the code does not do it (see above).
- Key order inside `meta` and JSON serialisation are left out: `meta` is a map. Headers are a single-valued map; the mapper never reads them.
- "Shaping the same tuple twice gives the same envelope" has no lemma of its own. It holds because `Shape` is a function.
- Integer width: PHP's 64-bit `int` status is an unbounded `int`. The mapper only compares statuses and does no arithmetic on them, so nothing wraps.
