/**
  The claim checks applied to a decoded introspection response at a fixed
  clock reading: the active flag, expiry (`exp`) and not-before (`nbf`),
  in that order, stopping at the first one that fails.
 */
module Claims {
  import opened Results
  import opened Model

  /** An absent `exp` never expires the token; a present one expires it once `now` is past it. */
  function Expired(exp: Option<U64>, now: U64): bool {
    match exp
    case None => false
    case Some(e) => now > e
  }

  /** An absent `nbf` never holds the token back; a present one does while `now` is before it. */
  function NotYetValid(nbf: Option<U64>, now: U64): bool {
    match nbf
    case None => false
    case Some(n) => now < n
  }

  /**
    The three claim checks after introspection has succeeded and the clock
    has been read. Expiry is strict (`now == exp` is still valid), and so
    is not-before (`now == nbf` is already valid).
   */
  function CheckClaims(resp: IntrospectionResponse, now: U64): (r: Result<(), FilterError>)
    ensures r.Ok? <==>
      && resp.active
      && !(resp.exp.Some? && now > resp.exp.value)
      && !(resp.nbf.Some? && now < resp.nbf.value)
    ensures r == Err(InactiveToken) <==> !resp.active
    ensures r == Err(ExpiredToken) <==> resp.active && resp.exp.Some? && now > resp.exp.value
    ensures r == Err(NotYetActive) <==>
      && resp.active
      && !(resp.exp.Some? && now > resp.exp.value)
      && resp.nbf.Some? && now < resp.nbf.value
  {
    if !resp.active then
      Err(InactiveToken)
    else if Expired(resp.exp, now) then
      Err(ExpiredToken)
    else if NotYetValid(resp.nbf, now) then
      Err(NotYetActive)
    else
      Ok(())
  }

  /** One step of a short-circuiting validation chain: whether it fails, and with what. */
  datatype Check = Check(violated: bool, reason: FilterError)

  /** Runs a chain of checks in order and reports the first one that fails. */
  function FirstFailure(checks: seq<Check>): Result<(), FilterError> {
    if checks == [] then
      Ok(())
    else if checks[0].violated then
      Err(checks[0].reason)
    else
      FirstFailure(checks[1..])
  }

  /** The claim checks as a chain, in the order the filter applies them. */
  function ClaimChecks(resp: IntrospectionResponse, now: U64): seq<Check> {
    [ Check(!resp.active, InactiveToken),
      Check(Expired(resp.exp, now), ExpiredToken),
      Check(NotYetValid(resp.nbf, now), NotYetActive) ]
  }

  /** A chain lets the request through exactly when none of its checks fails. */
  lemma {:induction false} FirstFailureOkIff(checks: seq<Check>)
    ensures FirstFailure(checks).Ok? <==> forall i | 0 <= i < |checks| :: !checks[i].violated
  {
    if checks != [] {
      FirstFailureOkIff(checks[1..]);
      assert forall i | 1 <= i < |checks| :: checks[i] == checks[1..][i - 1];
    }
  }

  /** A chain that rejects reports the reason of its earliest failing check. */
  lemma {:induction false} FirstFailureReportsEarliest(checks: seq<Check>)
    requires FirstFailure(checks).Err?
    ensures exists i | 0 <= i < |checks| ::
      && checks[i].violated
      && checks[i].reason == FirstFailure(checks).error
      && forall j | 0 <= j < i :: !checks[j].violated
  {
    if !checks[0].violated {
      FirstFailureReportsEarliest(checks[1..]);
      var i :| 0 <= i < |checks[1..]|
        && checks[1..][i].violated
        && checks[1..][i].reason == FirstFailure(checks[1..]).error
        && forall j | 0 <= j < i :: !checks[1..][j].violated;
      assert forall j | 1 <= j < i + 1 :: checks[j] == checks[1..][j - 1];
      assert checks[i + 1] == checks[1..][i];
    } else {
      assert checks[0].violated && checks[0].reason == FirstFailure(checks).error;
    }
  }

  /**
    The order of the checks decides which reason is reported, never whether
    the request is allowed: any rearrangement of a chain allows exactly
    what the chain allows.
   */
  lemma ReorderingKeepsDecision(checks: seq<Check>, reordered: seq<Check>)
    requires multiset(reordered) == multiset(checks)
    ensures FirstFailure(reordered).Ok? <==> FirstFailure(checks).Ok?
  {
    FirstFailureOkIff(checks);
    FirstFailureOkIff(reordered);
    forall i | 0 <= i < |reordered| && reordered[i].violated
      ensures exists k | 0 <= k < |checks| :: checks[k].violated
    {
      assert reordered[i] in multiset(checks);
      var k :| 0 <= k < |checks| && checks[k] == reordered[i];
    }
    forall k | 0 <= k < |checks| && checks[k].violated
      ensures exists i | 0 <= i < |reordered| :: reordered[i].violated
    {
      assert checks[k] in multiset(reordered);
      var i :| 0 <= i < |reordered| && reordered[i] == checks[k];
    }
  }

  /** The filter's claim checks are the chain `ClaimChecks` run in its fixed order. */
  lemma CheckClaimsIsChain(resp: IntrospectionResponse, now: U64)
    ensures CheckClaims(resp, now) == FirstFailure(ClaimChecks(resp, now))
  {
    var c := ClaimChecks(resp, now);
    assert c[1..] == [c[1], c[2]];
    assert c[1..][1..] == [c[2]];
    assert c[1..][1..][1..] == [];
    assert FirstFailure(c[1..][1..]) == if c[2].violated then Err(NotYetActive) else Ok(());
    assert FirstFailure(c[1..]) == if c[1].violated then Err(ExpiredToken) else FirstFailure(c[1..][1..]);
  }

  /**
    Applying the active, expiry and not-before checks in any order allows
    exactly the same tokens as the filter's order.
   */
  lemma ClaimOrderIrrelevant(resp: IntrospectionResponse, now: U64, order: seq<Check>)
    requires multiset(order) == multiset(ClaimChecks(resp, now))
    ensures FirstFailure(order).Ok? <==> CheckClaims(resp, now).Ok?
  {
    CheckClaimsIsChain(resp, now);
    ReorderingKeepsDecision(ClaimChecks(resp, now), order);
  }
}
