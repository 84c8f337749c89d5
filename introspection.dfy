/**
  Building the introspection call for a token and classifying what comes back:
  a transport failure, a non-200 status, an undecodable 200 body, or a
  decoded introspection response.
 */
module Introspection {
  import opened Results
  import opened Model

  const FormContentType: Header := ("content-type", "application/x-www-form-urlencoded")

  /** The form the token is posted as: the single field `token`. */
  function TokenForm(token: string): seq<FormField> {
    [("token", token)]
  }

  /**
    The POST to the introspection endpoint. Encoding the form is the only
    way this can fail, and that failure is `Unexpected`.
   */
  function BuildRequest(token: string, config: Config, encode: seq<FormField> -> Option<string>)
    : (r: Result<IntrospectionRequest, FilterError>)
    ensures r.Err? <==> encode(TokenForm(token)).None?
    ensures r.Err? ==> r.error == Unexpected
    ensures r.Ok? ==>
      && r.value.verb == Post
      && r.value.upstream == config.upstream
      && r.value.host == config.host
      && r.value.path == config.path
      && r.value.body == encode([("token", token)]).value
      && r.value.headers == [("content-type", "application/x-www-form-urlencoded"),
                             ("Authorization", config.authorization)]
  {
    match encode(TokenForm(token))
    case None => Err(Unexpected)
    case Some(body) =>
      var headers := [FormContentType, ("Authorization", config.authorization)];
      Ok(IntrospectionRequest(config.upstream, config.host, config.path, Post, headers, body))
  }

  /** True of the errors introspection can end in. */
  predicate IsIntrospectionError(e: FilterError) {
    e.Unexpected? || e.ClientError? || e.InactiveToken? || e.NonParsableIntrospectionBody?
  }

  /**
    Sends the request built for `token` and classifies the answer. The body
    is decoded only when the status is exactly 200.
   */
  function IntrospectToken(token: string, config: Config, env: Env): (t: Traced<IntrospectionResponse>)
    ensures t.result.Err? ==> IsIntrospectionError(t.result.error)
    ensures match BuildRequest(token, config, env.encode)
      case Err(_) => t == Traced(Err(Unexpected), [])
      case Ok(req) =>
        && t.effects == [SendIntrospection(req)]
        && (env.send(req).Err? ==> t.result == Err(ClientError(env.send(req).error)))
        && (env.send(req).Ok? && env.send(req).value.status != 200 ==> t.result == Err(InactiveToken))
        && (env.send(req).Ok? && env.send(req).value.status == 200 ==>
              match env.parse(env.send(req).value.body)
              case Ok(resp) => t.result == Ok(resp)
              case Err(d) => t.result == Err(NonParsableIntrospectionBody(d)))
    ensures t.result.Ok? ==>
      && BuildRequest(token, config, env.encode).Ok?
      && var req := BuildRequest(token, config, env.encode).value;
      && env.send(req).Ok?
      && env.send(req).value.status == 200
      && env.parse(env.send(req).value.body) == Ok(t.result.value)
  {
    match BuildRequest(token, config, env.encode)
    case Err(e) => Traced(Err(e), [])
    case Ok(req) =>
      var sent := [SendIntrospection(req)];
      match env.send(req)
      case Err(d) => Traced(Err(ClientError(d)), sent)
      case Ok(response) =>
        if response.status == 200 then
          match env.parse(response.body)
          case Ok(resp) => Traced(Ok(resp), sent)
          case Err(d) => Traced(Err(NonParsableIntrospectionBody(d)), sent)
        else
          Traced(Err(InactiveToken), sent)
  }

  /**
    When the endpoint answers with anything but 200, the body is not
    decoded: the outcome is the same whichever decoder is in place.
   */
  lemma Non200IgnoresDecoder(token: string, config: Config, env: Env,
                             parse': seq<Byte> -> Result<IntrospectionResponse, Detail>)
    requires BuildRequest(token, config, env.encode).Ok?
    requires var req := BuildRequest(token, config, env.encode).value;
             env.send(req).Ok? && env.send(req).value.status != 200
    ensures IntrospectToken(token, config, env) == IntrospectToken(token, config, env.(parse := parse'))
    ensures IntrospectToken(token, config, env).result == Err(InactiveToken)
  {
  }
}
