/**
  The validation engine: resolve the token, introspect it, read the clock,
  then check the claims, stopping at the first failure.
 */
module Engine {
  import opened Results
  import opened Model
  import opened Introspection
  import opened Claims

  /** The token, if the extractor succeeded and resolved a string (`as_str`). */
  function ResolvedToken(extracted: Result<ExtractedValue, Detail>): (r: Option<string>)
    ensures r.Some? <==> extracted.Ok? && extracted.value.StringValue?
    ensures r.Some? ==> r.value == extracted.value.text
  {
    match extracted
    case Err(_) => None
    case Ok(StringValue(text)) => Some(text)
    case Ok(NonStringValue) => None
  }

  /** True of the rejections that can only be reached after the clock has been read. */
  predicate IsClaimRejection(e: FilterError) {
    e.ExpiredToken? || e.NotYetActive?
  }

  /** The decision for one request. */
  function DoFilter(env: Env, config: Config): (e: Traced<()>)
    // the token is resolved first and exactly once; the introspection call and
    // the clock read follow, each at most once and in that order
    ensures 1 <= |e.effects| <= 3
    ensures e.effects[0] == ResolveToken
    ensures |e.effects| >= 2 ==> e.effects[1].SendIntrospection?
    ensures |e.effects| == 3 ==> e.effects[2] == ReadClock
    // no token: rejected with NoToken, and nothing but the extraction happens
    ensures ResolvedToken(env.extracted).None? ==> e == Traced(Err(NoToken), [ResolveToken])
    ensures e.result == Err(NoToken) ==> ResolvedToken(env.extracted).None?
    ensures ResolvedToken(env.extracted).Some? ==>
      var intro := IntrospectToken(ResolvedToken(env.extracted).value, config, env);
      && e.effects[1..] == intro.effects + (if intro.result.Ok? then [ReadClock] else [])
      // an introspection failure propagates unchanged, before the clock is read
      && (intro.result.Err? ==> e.result == Err(intro.result.error))
      // a clock failure wins over every claim check
      && (intro.result.Ok? && env.clock.None? ==> e.result == Err(Unexpected))
      && (intro.result.Ok? && env.clock.Some? ==>
            e.result == CheckClaims(intro.result.value, env.clock.value))
    // expiry and not-before rejections imply the earlier steps passed
    ensures e.result.Err? && IsClaimRejection(e.result.error) ==> |e.effects| == 3
  {
    match ResolvedToken(env.extracted)
    case None => Traced(Err(NoToken), [ResolveToken])
    case Some(token) =>
      var intro := IntrospectToken(token, config, env);
      match intro.result
      case Err(err) => Traced(Err(err), [ResolveToken] + intro.effects)
      case Ok(resp) =>
        var effects := [ResolveToken] + intro.effects + [ReadClock];
        match env.clock
        case None => Traced(Err(Unexpected), effects)
        case Some(now) => Traced(CheckClaims(resp, now), effects)
  }

  /**
    The conditions under which a request may continue, stated without
    reference to the order in which the filter checks them.
   */
  ghost predicate Admits(env: Env, config: Config) {
    exists token: string, resp: IntrospectionResponse, now: U64 |
      && ResolvedToken(env.extracted) == Some(token)
      && IntrospectToken(token, config, env).result == Ok(resp)
      && env.clock == Some(now)
      :: resp.active
         && !(resp.exp.Some? && now > resp.exp.value)
         && !(resp.nbf.Some? && now < resp.nbf.value)
  }

  /**
    A request continues exactly when a string token was resolved, the
    endpoint answered 200 with a decodable body, the clock was read, the
    token is active, not expired and not before its validity period.
   */
  lemma DoFilterOkIff(env: Env, config: Config)
    ensures DoFilter(env, config).result.Ok? <==> Admits(env, config)
  {
  }

  /** An inactive token is rejected as inactive whatever its `exp` and `nbf`. */
  lemma InactiveWhateverTheClaims(env: Env, config: Config, token: string, exp: Option<U64>, nbf: Option<U64>)
    requires ResolvedToken(env.extracted) == Some(token)
    requires IntrospectToken(token, config, env).result == Ok(IntrospectionResponse(false, exp, nbf))
    requires env.clock.Some?
    ensures DoFilter(env, config).result == Err(InactiveToken)
  {
  }

  /** A failing clock makes the result `Unexpected`, whatever the response says. */
  lemma ClockFailureIsUnexpected(env: Env, config: Config, token: string, resp: IntrospectionResponse)
    requires ResolvedToken(env.extracted) == Some(token)
    requires IntrospectToken(token, config, env).result == Ok(resp)
    requires env.clock.None?
    ensures DoFilter(env, config) == Traced(Err(Unexpected), [ResolveToken] + IntrospectToken(token, config, env).effects + [ReadClock])
  {
  }

  /**
    The boundaries are inclusive of validity: a token whose `exp` or `nbf`
    equals the clock reading is accepted.
   */
  lemma BoundariesAreValid(env: Env, config: Config, token: string)
    requires ResolvedToken(env.extracted) == Some(token)
    requires env.clock.Some?
    requires IntrospectToken(token, config, env).result ==
             Ok(IntrospectionResponse(true, Some(env.clock.value), Some(env.clock.value)))
    ensures DoFilter(env, config).result == Ok(())
  {
  }
}
