# FlatPDF API: key check, request validation and outcome mapping

FlatPDF API is a small FastAPI service that converts HTML or a web page to
PDF through a Gotenberg backend. Its only decision logic lives in
`src/main.py`, inside the HTTP handlers:

- `verify_api_key`: the `Authorization: Bearer <key>` check run before a
  conversion, with a development mode in which any non-empty key passes;
- the validation branch of `POST /convert`: exactly one of `html` and `url`
  must be truthy;
- the mapping of how the conversion's `try` block ends (completed, timed
  out, other exception) to a `ConvertResponse`, and of an `HTTPException` to
  a `{success: false, error: detail}` body;
- `GET /health`: the outcome of the backend probe becomes `"ok"`, `"error"`
  or `"unreachable"`.

The model is written as pure functions over datatypes, as the source is
straight-line conditionals over strings and optional values.

- `wrappers.dfy`: `Option` and `Result`.
- `text.dfy`: the Python string operations the key check uses:
  `startswith`, `replace(old, "")`, `isspace`, `strip()`.
- `responses.dfy`: `ConvertResponse`, `HealthResponse`, `HTTPException`, JSON bodies
  and status codes.
- `api_key.dfy`: `verify_api_key`.
- `convert.dfy`: the `/convert` route.
- `health.dfy`: the `/health` route.

The configuration values `API_KEY` and `GOTENBERG_URL` are parameters. The
network results are inputs: `ProbeOutcome` for the health probe and
`TryOutcome` for the conversion's `try` block. The `try` block as written
only builds a placeholder response and never raises, so it is
`StubOutcome == Completed`.

The model follows the code as written, including these behaviours:

- The key check removes every occurrence of `"Bearer "` from the header
  (`str.replace`), not only the leading scheme. `Bearer Bearer k` therefore
  yields `k`, and a configured key that contains `"Bearer "` is rejected when sent
  as `Bearer <key>` (`ApiKey.SchemeInsideKeyRejected`).
- An empty key and a wrong key both get the same detail, "Invalid API key"
  (`ApiKey.UnadmittedKeyRejected`).
- The health probe reports `"ok"` only for status 200; a 204 is `"error"`.
- A non-timeout exception is reported with its own text after
  "Internal error: ".
- The conversion does not call the backend yet. A valid request gets
  `success: true` with no PDF, URL or page count.
- Validation failures are sent with status 200 and `success: false`. Key
  failures are sent with status 401, and their body has only `success` and
  `error`. A `ConvertResponse` body also carries `url`, `pdf_base64` and
  `pages` as `null`.

## Model

| member | source | states |
|---|---|---|
| `Text.RemoveAll` | src/main.py:74 | `str.replace("Bearer ", "")` only deletes characters: the result is no longer than the header and its characters are a sub-multiset of the header's |
| `Text.RemoveAllWithoutOccurrence` | src/main.py:74 | a string in which the pattern does not occur is returned unchanged |
| `Text.RemoveAllLeading` | src/main.py:74 | a leading occurrence is deleted and the scan continues after it |
| `Text.RemoveAllAround` | src/main.py:74 | for every pattern whose first character does not recur in it, and all strings `a`, `b`: an occurrence after any prefix `a` is deleted and the scans of `a` and `b` proceed independently, so removal from `a + p + b` is removal from `a` followed by removal from `b` |
| `Text.TrimStart` | src/main.py:74 | left strip: a suffix of the input, everything dropped is white space, the result does not start with white space |
| `Text.TrimEnd` | src/main.py:74 | right strip: a prefix of the input, everything dropped is white space, the result does not end with white space |
| `Text.Strip` | src/main.py:74 | `str.strip()` is empty exactly when the input is all white space, and otherwise starts and ends with a character that is not white space |
| `Text.StripIsSlice` | src/main.py:74 | what `str.strip()` keeps is a slice of the input with only white space outside it |
| `Text.TrimStartAt` | src/main.py:74 | the left strip stops at the first character that is not white space |
| `Text.TrimEndAt` | src/main.py:74 | the right strip stops at the last character that is not white space |
| `Text.StripUnique` | src/main.py:74 | any slice with only white space around it that is empty or bounded by characters that are not white space is the strip, so `StripIsSlice` and the contract of `Strip` define it |
| `Text.StripIdempotent` | src/main.py:74 | stripping twice equals stripping once |
| `Text.StripTrimmed` | src/main.py:74 | a string with no white space at its ends is its own strip |
| `Text.StripEnds` | src/main.py:74 | a left strip followed by a right strip is empty exactly when the input is all white space, and otherwise starts and ends with a character that is not white space |
| `Text.NotContainedWithoutFirstChar` | src/main.py:74 | a string without the pattern's first character does not contain the pattern |
| `Responses.ConvertResponseJson` | src/main.py:49-54 | the route body of a `ConvertResponse` carries every field of the model: `success` as a boolean, and `url`, `pdf_base64`, `pages` and `error` as their values or `null` |
| `Responses.HttpExceptionResponse` | src/main.py:194-200 | an `HTTPException` keeps its status code and becomes a body with `success: false`, `error: detail`, and no other field |
| `Responses.RouteResponse` | src/main.py:121 | a `ConvertResponse` returned from the route is sent with status 200 and its own `success` |
| `ApiKey.VerifyApiKey` | src/main.py:64-83 | every rejection is a 401; an accepted key is non-empty and has no white space at its ends; outside development mode it is the configured key |
| `ApiKey.MissingSchemeRejected` | src/main.py:68-72 | a header that does not start with `"Bearer "` is rejected with 401 and the "Missing or invalid API key" detail, whatever the configuration |
| `ApiKey.AbsentHeaderRejected` | src/main.py:66-72 | an absent header is rejected with 401 and the "Missing or invalid API key" detail |
| `ApiKey.EmptyKeyRejected` | src/main.py:77-81 | a key that strips to nothing is rejected with "Invalid API key" whatever the configured key |
| `ApiKey.DevModeAcceptsAnyKey` | src/main.py:76-77 | with the sentinel `dev-key-change-in-production` configured, every header with the prefix and a non-blank key is accepted with that key |
| `ApiKey.ProductionAcceptsOnlyConfiguredKey` | src/main.py:77-83 | outside development mode a request is accepted if and only if it has the prefix, the configured key is non-empty and the extracted key equals it, and then the configured key is returned |
| `ApiKey.BearerHeaderAccepted` | src/main.py:66-83 | `Bearer <key>` is accepted with `key` when the configuration admits it, it has no white space at its ends and does not contain `"Bearer "` |
| `ApiKey.DefaultKeyHeaderAccepted` | src/main.py:20 | with the default configuration `Bearer dev-key-change-in-production` is accepted |
| `ApiKey.UnmatchableConfiguredKey` | src/main.py:74-81 | a configured key that is empty or has white space at either end rejects every request outside development mode |
| `ApiKey.RepeatedSchemeRemoved` | src/main.py:74 | every occurrence of `"Bearer "` is removed: `Bearer Bearer <key>` yields `<key>` |
| `ApiKey.SchemeCutFromMiddle` | src/main.py:74 | for all strings `a`, `b`: removing every `"Bearer "` from `a + "Bearer " + b` gives the removal from `a` followed by the removal from `b`, so an occurrence after any prefix is deleted |
| `ApiKey.SchemeOccurrenceShrinks` | src/main.py:74 | a string in which `"Bearer "` occurs loses at least its seven characters |
| `ApiKey.SchemeInsideKeyRejected` | src/main.py:74-81 | outside development mode, every configured key that contains `"Bearer "` is rejected with "Invalid API key" when sent as `Bearer <key>`, because it is cut shorter before the comparison |
| `ApiKey.UnadmittedKeyRejected` | src/main.py:77-81 | an empty key and a wrong key are refused alike: a prefixed header whose extracted key is not admitted gets 401 and "Invalid API key" |
| `Convert.Validate` | src/main.py:137-148 | a request passes if and only if exactly one of `html`, `url` is truthy (None and "" are falsy); "required" if and only if neither is; "not both" if and only if both are |
| `Convert.TryResponse` | src/main.py:150-191 | success if and only if the `try` block completed, and then no error, URL, PDF or page count; a timeout gives the timeout message; any other exception gives "Internal error: " followed by its text |
| `Convert.TimeoutDistinguishable` | src/main.py:182-191 | the timeout message differs from every catch-all message |
| `Convert.HandleConvert` | src/main.py:121-191 | the route only answers 200 or 401 |
| `Convert.UnauthenticatedGets401` | src/main.py:134-135 | a request failing the key check gets 401 and `success: false` whatever its body and backend outcome |
| `Convert.NoHeaderGets401` | src/main.py:66-72 | a request without an `Authorization` header gets the 401 "missing" response |
| `Convert.StatusReflectsAuthentication` | src/main.py:134-148 | the status is 401 if and only if the key check fails |
| `Convert.NeitherSourceRejected` | src/main.py:138-142 | an authenticated request with neither source truthy gets 200 and "Either 'html' or 'url' is required" |
| `Convert.BothSourcesRejected` | src/main.py:144-148 | an authenticated request with both sources truthy gets 200 and "Provide either 'html' or 'url', not both" |
| `Convert.OneSourceReachesBackend` | src/main.py:144-167 | an authenticated request with exactly one truthy source reaches the `try` block; with the block as written it succeeds |
| `Convert.FailuresCarryMessage` | src/main.py:134-200 | every response body has a boolean `success`, and every failure carries a string `error`, on all four failure paths |
| `Convert.OptionsIgnored` | src/main.py:35 | the response does not depend on `options` |
| `Convert.DefaultConfigurationScenarios` | test_api.py:62-121 | with the default key and header `Bearer <API_KEY>`: an empty body is told a source is required, both sources are refused, and either source alone reaches the `try` block |
| `Health.ProbeUrl` | src/main.py:109 | the probe address is exactly the configured backend address followed by `/health` |
| `Health.GotenbergStatus` | src/main.py:105-112 | the backend status is one of "ok", "error", "unreachable"; "ok" if and only if the probe answered 200; "unreachable" if and only if it raised |
| `Health.BackendStatusCases` | src/main.py:110 | "error" if and only if the probe answered with a status other than 200; never the placeholder "unknown" |
| `Health.HealthCheck` | src/main.py:102-118 | `/health` always answers 200 with `status: "ok"` and the backend status |
| `Health.HealthReportsVersion` | src/main.py:114-118 | the health body always carries version "0.1.0" |

## Left out

- Application setup, route registration, the `/` metadata route, the `/docs` and `/redoc` pages and `uvicorn.run` (src/main.py:22-28, 87-99, 203-205): framework glue with no decisions.
- `load_dotenv` and `os.getenv` (src/main.py:16-20): `API_KEY` and `GOTENBERG_URL` are parameters; their defaults are the constants `ApiKey.DevSentinel` and `Health.DefaultGotenbergUrl`.
- The `httpx` calls, `async`/`await` and the 5-second timeout (src/main.py:107-112): network I/O, replaced by the `ProbeOutcome` input.
- The commented-out Gotenberg call (src/main.py:169-180): not executed code.
- The placeholder response's extra keyword arguments `message`, `input_received`, `next_steps` (src/main.py:153-167): they are not fields of `ConvertResponse`, and pydantic ignores them, so a validated request only yields `success: true`.
- Pydantic parsing of the request body. FastAPI rejects a body that does not parse into `ConvertRequest` (422) before the handler runs, so "401 whatever the body" holds for bodies that parse. `options` is an opaque optional JSON map.
- Header lookup details: case-insensitive names, repeated `Authorization` headers, latin-1 decoding. The model receives the first header's value as a string, or None.
- The test runner `run_tests` (test_api.py:136-169) and the route tests on `/` and the docs pages (test_api.py:21-38, 124-133).
