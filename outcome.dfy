/**
  The outcome mapper: every result of the engine becomes exactly one of
  "continue", a 401 carrying the Bearer challenge, or a bodiless 500,
  together with the severity it is logged at.
 */
module Outcome {
  import opened Results
  import opened Model
  import opened Engine

  datatype LogLevel = Debug | Warn

  /** An early response: a status code and its headers (the body is always empty). */
  datatype Response = Response(status: nat, headers: seq<Header>)

  /** Whether the request proceeds upstream or is answered by the filter. */
  datatype Flow = Continue | Break(response: Response)

  /** The flow chosen for a request and the severity of the line logged for it, if any. */
  datatype Handling = Handling(flow: Flow, log: Option<LogLevel>)

  const BearerChallenge: Header := ("WWW-Authenticate", "Bearer realm=\"oauth2\"")

  /** The early response for a rejected token. */
  function UnauthorizedResponse(): (r: Flow)
    ensures r == Break(Response(401, [("WWW-Authenticate", "Bearer realm=\"oauth2\"")]))
  {
    Break(Response(401, [BearerChallenge]))
  }

  /** The early response for a failure that is not the client's fault. */
  function ServerErrorResponse(): (r: Flow)
    ensures r == Break(Response(500, []))
  {
    Break(Response(500, []))
  }

  /** The rejections the client is responsible for: missing, inactive, expired or premature tokens. */
  predicate IsClientRejection(e: FilterError) {
    e.NoToken? || e.InactiveToken? || e.ExpiredToken? || e.NotYetActive?
  }

  /** Maps the engine's result to a flow and a log severity. */
  function HandleOutcome(outcome: Result<(), FilterError>): (h: Handling)
    ensures h.flow == Continue <==> outcome.Ok?
    ensures h.log == None <==> outcome.Ok?
    ensures outcome.Err? && IsClientRejection(outcome.error) ==>
      h == Handling(Break(Response(401, [("WWW-Authenticate", "Bearer realm=\"oauth2\"")])), Some(Debug))
    ensures outcome.Err? && !IsClientRejection(outcome.error) ==>
      h == Handling(Break(Response(500, [])), Some(Warn))
    ensures h.flow.Break? ==> h.flow.response.status == 401 || h.flow.response.status == 500
    ensures h.flow.Break? ==> (h.flow.response.status == 401 <==> h.log == Some(Debug))
  {
    match outcome
    case Ok(_) => Handling(Continue, None)
    case Err(err) =>
      match err
      case Unexpected => Handling(ServerErrorResponse(), Some(Warn))
      case NoToken => Handling(UnauthorizedResponse(), Some(Debug))
      case InactiveToken => Handling(UnauthorizedResponse(), Some(Debug))
      case ExpiredToken => Handling(UnauthorizedResponse(), Some(Debug))
      case NotYetActive => Handling(UnauthorizedResponse(), Some(Debug))
      case ClientError(_) => Handling(ServerErrorResponse(), Some(Warn))
      case NonParsableIntrospectionBody(_) => Handling(ServerErrorResponse(), Some(Warn))
  }

  /** The filter as the host runtime sees it: decide, then map the decision. */
  function RequestFilter(env: Env, config: Config): (h: Handling)
    ensures ResolvedToken(env.extracted).None? ==> h == Handling(UnauthorizedResponse(), Some(Debug))
    ensures h.flow.Break? ==> h.flow.response.status == 401 || h.flow.response.status == 500
  {
    HandleOutcome(DoFilter(env, config).result)
  }

  /** The request continues upstream exactly when the engine admits it. */
  lemma ContinueIffAdmitted(env: Env, config: Config)
    ensures RequestFilter(env, config).flow == Continue <==> Admits(env, config)
  {
    DoFilterOkIff(env, config);
  }

  /** A non-200 answer from the endpoint is a 401, never a 500, whatever the body holds. */
  lemma Non200IsUnauthorized(env: Env, config: Config, token: string)
    requires ResolvedToken(env.extracted) == Some(token)
    requires Introspection.BuildRequest(token, config, env.encode).Ok?
    requires var req := Introspection.BuildRequest(token, config, env.encode).value;
             env.send(req).Ok? && env.send(req).value.status != 200
    ensures DoFilter(env, config).result == Err(InactiveToken)
    ensures RequestFilter(env, config) == Handling(UnauthorizedResponse(), Some(Debug))
  {
  }

  /** A transport failure is a 500 logged at warn. */
  lemma TransportFailureIsServerError(env: Env, config: Config, token: string)
    requires ResolvedToken(env.extracted) == Some(token)
    requires Introspection.BuildRequest(token, config, env.encode).Ok?
    requires env.send(Introspection.BuildRequest(token, config, env.encode).value).Err?
    ensures DoFilter(env, config).result.Err? && DoFilter(env, config).result.error.ClientError?
    ensures RequestFilter(env, config) == Handling(ServerErrorResponse(), Some(Warn))
  {
  }

  /** A 200 answer whose body does not decode is a 500 logged at warn. */
  lemma UndecodableBodyIsServerError(env: Env, config: Config, token: string)
    requires ResolvedToken(env.extracted) == Some(token)
    requires Introspection.BuildRequest(token, config, env.encode).Ok?
    requires var req := Introspection.BuildRequest(token, config, env.encode).value;
             env.send(req).Ok? && env.send(req).value.status == 200
             && env.parse(env.send(req).value.body).Err?
    ensures DoFilter(env, config).result.Err?
    ensures DoFilter(env, config).result.error.NonParsableIntrospectionBody?
    ensures RequestFilter(env, config) == Handling(ServerErrorResponse(), Some(Warn))
  {
  }

  /** An environment whose endpoint answers 200 with `resp` and whose clock reads `now`. */
  function ScenarioEnv(token: string, resp: IntrospectionResponse, now: U64): Env {
    Env(Ok(StringValue(token)),
        form => Some("token=" + token),
        req => Ok(HttpResponse(200, [])),
        body => Ok(resp),
        Some(now))
  }

  /** Token `abc123`, `exp` 2000000000, clock 1000000000: the request continues. */
  lemma ScenarioValidToken(config: Config)
    ensures RequestFilter(ScenarioEnv("abc123", IntrospectionResponse(true, Some(2000000000), None), 1000000000), config)
            == Handling(Continue, None)
  {
  }

  /** Token `abc123`, `exp` 500, clock 1000000000: expired, answered with 401. */
  lemma ScenarioExpiredToken(config: Config)
    ensures var env := ScenarioEnv("abc123", IntrospectionResponse(true, Some(500), None), 1000000000);
            && DoFilter(env, config).result == Err(ExpiredToken)
            && RequestFilter(env, config).flow == Break(Response(401, [BearerChallenge]))
  {
  }
}
