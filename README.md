# Token-validation filter: a Dafny model

This project models the decision core of an inbound-request gatekeeper that
validates bearer tokens through OAuth 2.0 Token Introspection (RFC 7662).
For every request the filter resolves a token. It posts the token as the
form field `token` to an introspection endpoint (RFC 7662, section 2.1),
with the configured `Authorization` credential. It reads the `active`, `exp`
and `nbf` members of the answer (RFC 7662, section 2.2), checks them against
the clock, and then lets the request continue or answers it with a 401
(Bearer challenge) or a 500.

The model is pure, as the source is:

- `results.dfy`: `Option` and `Result`.
- `model.dfy`: the error taxonomy `FilterError`, `IntrospectionResponse`
  (with `u64` claims), the configuration, and the introspection request.
  It also holds `Env`, the request-scoped capabilities: the extractor's
  answer, the form encoder, the HTTP transport, the JSON decoder and the
  clock reading.
- `introspection.dfy`: builds the request and classifies the answer
  (transport failure, non-200, undecodable 200, decoded response).
- `claims.dfy`: the active / expiry / not-before chain. It also gives a
  generic short-circuiting chain of checks as a reference definition, with
  proofs that the chain allows exactly when no check fails and that the
  order of the checks never changes the allow/deny decision.
- `engine.dfy`: the full decision (`do_filter`), with a trace of the
  effects performed: token resolution, the introspection call and the
  clock read.
- `outcome.dfy`: the total map from the decision to Continue, 401 or 500
  and a log severity, plus end-to-end properties and two worked scenarios.

## Model

| member | source | states |
|---|---|---|
| Introspection.BuildRequest | src/lib.rs:34-47 | The request is a POST to the configured upstream, host and path. Its body is the encoding of the single form field `token`. It has exactly two headers: the form content type and `Authorization` copied verbatim from the configuration. It fails, with `Unexpected`, exactly when the form cannot be encoded. |
| Introspection.IntrospectToken | src/lib.rs:29-56 | The built request is sent at most once. A transport failure gives `ClientError` with its detail. A status other than 200 gives `InactiveToken` whatever the body holds. A 200 gives the decoded response, or `NonParsableIntrospectionBody` when decoding fails. A response is produced only on 200 with a decodable body. No other error can come out. |
| Introspection.Non200IgnoresDecoder | src/lib.rs:51-55 | On a non-200 status the body is not decoded: swapping the decoder changes nothing, and the result is `InactiveToken`. |
| Claims.CheckClaims | src/lib.rs:79-93 | `InactiveToken` exactly when `active` is false. `ExpiredToken` exactly when the token is active, `exp` is present and `now > exp`. `NotYetActive` exactly when the token is active and not expired, `nbf` is present and `now < nbf`. `Ok` exactly when none of these holds. So `now == exp` and `now == nbf` are valid, absent claims never reject, and expiry wins over not-before. |
| Claims.FirstFailureOkIff | src/lib.rs:79-93 | A short-circuiting chain of checks lets the request through exactly when none of its checks fails. |
| Claims.FirstFailureReportsEarliest | src/lib.rs:79-93 | A rejecting chain reports the reason of a failing check that has no failing check before it. |
| Claims.ReorderingKeepsDecision | src/lib.rs:79-93 | Any rearrangement of a chain of checks allows exactly what the original allows. |
| Claims.CheckClaimsIsChain | src/lib.rs:79-93 | The filter's claim checks are the chain active, expiry, not-before, run in that order. |
| Claims.ClaimOrderIrrelevant | src/lib.rs:79-93 | Running the active, expiry and not-before checks in any order allows exactly the tokens the filter allows. |
| Engine.ResolvedToken | src/lib.rs:65-70 | A token is resolved exactly when the extractor succeeds and yields a string value, and the token is that string. An extractor failure or a non-string value gives no token. |
| Engine.DoFilter | src/lib.rs:58-94 | The token is resolved first and exactly once. The introspection call and then the clock read follow, each at most once. Without a string token the result is `NoToken` and nothing else happens, and `NoToken` arises in no other way. An introspection error propagates unchanged, before any clock read. The clock is read exactly when introspection succeeded. A clock failure gives `Unexpected` whatever the claims are. Otherwise the claim checks decide. An expiry or not-before rejection implies that all three earlier steps ran. |
| Engine.DoFilterOkIff | src/lib.rs:65-93 | The result is `Ok` exactly when all of these hold: a string token was resolved, introspection returned 200 with a decodable body, the clock was read, `active` is true, there is no `exp` below `now`, and there is no `nbf` above `now`. |
| Engine.InactiveWhateverTheClaims | src/lib.rs:79-81 | An inactive token is rejected as `InactiveToken` for every `exp` and `nbf`. |
| Engine.ClockFailureIsUnexpected | src/lib.rs:74-81 | A clock failure after a successful introspection gives `Unexpected` even for an inactive, expired or premature token. The clock read is then the last effect. |
| Engine.BoundariesAreValid | src/lib.rs:84-91 | An active token whose `exp` and `nbf` both equal the clock reading is accepted. |
| Outcome.UnauthorizedResponse | src/lib.rs:97-102 | The early answer for a rejected token is a 401 carrying exactly the one header `WWW-Authenticate: Bearer realm="oauth2"`. |
| Outcome.ServerErrorResponse | src/lib.rs:105-107 | The early answer for an internal failure is a 500 with no headers. |
| Outcome.HandleOutcome | src/lib.rs:97-155 | `Ok` maps to Continue with no log line. `NoToken`, `InactiveToken`, `ExpiredToken` and `NotYetActive` map to 401 with exactly the header `WWW-Authenticate: Bearer realm="oauth2"`, logged at debug. `Unexpected`, `ClientError` and `NonParsableIntrospectionBody` map to a 500 with no headers, logged at warn. No status other than 401 and 500 is produced, and a 401 is exactly a debug line. |
| Outcome.RequestFilter | src/lib.rs:110-156 | A request without a resolvable token is answered 401 with the challenge at debug, never 500. Every early answer is a 401 or a 500. |
| Outcome.ContinueIffAdmitted | src/lib.rs:115-116 | The request continues upstream exactly when the engine's admission conditions hold. |
| Outcome.Non200IsUnauthorized | src/lib.rs:51-55 | A non-200 introspection status ends in `InactiveToken` and a 401 at debug, never a 500. |
| Outcome.TransportFailureIsServerError | src/lib.rs:42-49 | A transport failure ends in `ClientError` and a 500 at warn. |
| Outcome.UndecodableBodyIsServerError | src/lib.rs:51-52 | A 200 whose body does not decode ends in `NonParsableIntrospectionBody` and a 500 at warn. |
| Outcome.ScenarioValidToken | src/lib.rs:84-93 | With `exp` 2000000000 and the clock at 1000000000, an active token continues. |
| Outcome.ScenarioExpiredToken | src/lib.rs:84-86 | With `exp` 500 and the clock at 1000000000, the token is expired and the answer is a 401 with the challenge. |

## Left out

- The HTTP client call and its `await` (src/lib.rs:42-49). They are modelled as the function `Env.send` from request to response or transport error. Connection handling, TLS and timeouts belong to the transport.
- JSON decoding with `serde_json::from_slice` (src/lib.rs:52). It is modelled as the function `Env.parse`. What counts as a decodable body, for example a missing `active` member, is not modelled.
- Form encoding with `serde_urlencoded::to_string` (src/lib.rs:35). It is modelled as the function `Env.encode` applied to the field list `[("token", token)]`. Percent-encoding itself is not modelled.
- `SystemTime::now()` and `duration_since(UNIX_EPOCH)` (src/lib.rs:74-77). The clock reading is the input `Env.clock`. `None` stands for a clock before the epoch.
- The token extractor `resolve_on_headers` and `into_headers_state` (src/lib.rs:65-68, 111). The extractor's answer for the request is the input `Env.extracted`.
- Logger messages and the formatting of error details (src/lib.rs:119-151). Only the severity is modelled.
- `configure`, `#[entrypoint]` and `launcher.launch` (src/lib.rs:158-164). They are plugin registration and configuration decoding, so `token_extractor` is absent from `Config`.
- The unused `guess` binding (src/lib.rs:113).
- Response bodies. Neither early response sets one, so `Response` carries only a status and headers.
- Concurrency between requests. Each evaluation depends only on its own `Env` and the immutable `Config`.
