/** The gateway's request rules: CORS preflight requests and the actuator
    endpoints are open, everything else needs an authenticated caller. */
module GatewaySecurity {
  import opened Text
  import opened AccessRules

  const ActuatorBase: string := "/actuator"

  /** The exchange rules, in the order they are declared. */
  const GatewayRules: seq<Rule> := [
    Rule(MethodIs(OPTIONS), PermitAll),
    Rule(PathUnder(ActuatorBase), PermitAll),
    Rule(AnyRequest, AuthenticatedOnly)
  ]

  /** The gateway grants a request exactly when it is a preflight, targets
      the actuator, or comes from an authenticated caller; it never answers
      403, since no rule asks for a role. */
  lemma GatewayDecision(req: Request, caller: Caller)
    ensures Decide(GatewayRules, req, caller) == Granted <==>
              req.verb == OPTIONS || UnderPattern(req.path, ActuatorBase) || caller.Principal?
    ensures Decide(GatewayRules, req, caller) != Forbidden
  {
    var rules := GatewayRules;
    if req.verb == OPTIONS {
      assert FirstMatchIs(rules, req, 0);
      FirstMatchDecides(rules, req, caller, 0);
    } else if UnderPattern(req.path, ActuatorBase) {
      assert FirstMatchIs(rules, req, 1);
      FirstMatchDecides(rules, req, caller, 1);
    } else {
      assert FirstMatchIs(rules, req, 2);
      FirstMatchDecides(rules, req, caller, 2);
    }
  }
}
