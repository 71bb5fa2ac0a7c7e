/** Spring Security's ordered request-authorization rules, as both services
    configure them: a list of (matcher, access) pairs where the first
    matcher that fits the request decides, and a refusal answers 401 to an
    anonymous caller and 403 to an authenticated one. */
module AccessRules {
  import opened Wrappers
  import opened Text
  import opened JwtSecurity

  datatype HttpMethod = GET | POST | PUT | DELETE | PATCH | HEAD | OPTIONS

  datatype Request = Request(verb: HttpMethod, path: string)

  // `anyRequest()`, `pathMatchers(HttpMethod.X)`, `pathMatchers("/base/**")`
  // and `requestMatchers(HttpMethod.X, "/base/**")`.
  datatype Matcher =
    | AnyRequest
    | MethodIs(verb: HttpMethod)
    | PathUnder(base: string)
    | MethodAndPath(verb: HttpMethod, base: string)

  /** `permitAll()`, `authenticated()`, `hasRole(r)`, `hasAnyRole(r1, ...)`. */
  datatype Access =
    | PermitAll
    | AuthenticatedOnly
    | HasRole(role: string)
    | HasAnyRole(roles: seq<string>)

  datatype Rule = Rule(matcher: Matcher, access: Access)

  /** Who is asking: nobody (no bearer token), or a principal holding the
      granted authorities the JWT converter produced. */
  datatype Caller = Anonymous | Principal(authorities: seq<string>)

  /** Granted, or refused with 401 (not authenticated) or 403 (forbidden). */
  datatype Decision = Granted | Unauthenticated | Forbidden

  // The pattern `base + "/**"`: the base path itself or anything below it.
  predicate UnderPattern(path: string, base: string) {
    path == base || StartsWith(path, base + "/")
  }

  predicate Matches(m: Matcher, req: Request) {
    match m
    case AnyRequest => true
    case MethodIs(v) => req.verb == v
    case PathUnder(base) => UnderPattern(req.path, base)
    case MethodAndPath(v, base) => req.verb == v && UnderPattern(req.path, base)
  }

  /** `hasRole(role)`: the caller holds the authority `RolePrefix + role`. */
  predicate HoldsRole(caller: Caller, role: string) {
    caller.Principal? && RolePrefix + role in caller.authorities
  }

  predicate Satisfies(access: Access, caller: Caller) {
    match access
    case PermitAll => true
    case AuthenticatedOnly => caller.Principal?
    case HasRole(role) => HoldsRole(caller, role)
    case HasAnyRole(roles) => exists k :: 0 <= k < |roles| && HoldsRole(caller, roles[k])
  }

  /** Index of the first rule whose matcher fits `req`, or `|rules|` when
      none does. */
  function FirstMatching(rules: seq<Rule>, req: Request): (k: nat)
    ensures k <= |rules|
    ensures k < |rules| ==> Matches(rules[k].matcher, req)
    ensures forall j :: 0 <= j < k ==> !Matches(rules[j].matcher, req)
  {
    if rules == [] then 0
    else if Matches(rules[0].matcher, req) then 0
    else 1 + FirstMatching(rules[1..], req)
  }

  /** What the filter chain answers: the first matching rule's access decides;
      a refusal is 401 for an anonymous caller and 403 otherwise; a request
      no rule matches is refused. */
  function Decide(rules: seq<Rule>, req: Request, caller: Caller): (d: Decision)
    ensures d == Granted <==>
              exists k :: FirstMatchIs(rules, req, k) && Satisfies(rules[k].access, caller)
    ensures d == Unauthenticated ==> caller.Anonymous?
    ensures d == Forbidden ==> caller.Principal?
  {
    var k := FirstMatching(rules, req);
    if k < |rules| && Satisfies(rules[k].access, caller) then
      assert FirstMatchIs(rules, req, k);
      Granted
    else if caller.Anonymous? then Unauthenticated
    else Forbidden
  }

  /** Rule `k` fits `req` and no rule before it does. */
  predicate FirstMatchIs(rules: seq<Rule>, req: Request, k: int) {
    && 0 <= k < |rules|
    && Matches(rules[k].matcher, req)
    && (forall j :: 0 <= j < k ==> !Matches(rules[j].matcher, req))
  }

  /** The first matching rule is unique: the decision depends on that rule
      alone, whatever the later rules say. */
  lemma FirstMatchDecides(rules: seq<Rule>, req: Request, caller: Caller, k: int)
    requires FirstMatchIs(rules, req, k)
    ensures Decide(rules, req, caller) == Granted <==> Satisfies(rules[k].access, caller)
  {
    var f := FirstMatching(rules, req);
    assert f == k;
  }

  /** An anonymous caller gets through only where the first matching rule
      is `permitAll()` (every other access needs a principal). */
  lemma AnonymousOnlyThroughPermitAll(rules: seq<Rule>, req: Request)
    ensures Decide(rules, req, Anonymous) == Granted <==>
              exists k :: FirstMatchIs(rules, req, k) && rules[k].access == PermitAll
  {
    if Decide(rules, req, Anonymous) == Granted {
      var k :| FirstMatchIs(rules, req, k) && Satisfies(rules[k].access, Anonymous);
      assert rules[k].access == PermitAll;
    }
  }

  /** Granting is monotone in the authorities: a principal holding more
      authorities is granted at least what a principal with fewer is. */
  lemma MoreAuthoritiesGrantMore(rules: seq<Rule>, req: Request, fewer: seq<string>, more: seq<string>)
    requires forall a :: a in fewer ==> a in more
    requires Decide(rules, req, Principal(fewer)) == Granted
    ensures Decide(rules, req, Principal(more)) == Granted
  {
    var k :| FirstMatchIs(rules, req, k) && Satisfies(rules[k].access, Principal(fewer));
    if rules[k].access.HasAnyRole? {
      var roles := rules[k].access.roles;
      var r :| 0 <= r < |roles| && HoldsRole(Principal(fewer), roles[r]);
      assert HoldsRole(Principal(more), roles[r]);
    }
  }

  /** The resource server around the rules: a request without a bearer
      token is judged as anonymous; a token the validator rejects is
      answered 401 before any rule is consulted; a valid token makes a
      principal whose authorities come from its realm roles. */
  function Handle(rules: seq<Rule>, req: Request, bearer: Option<Jwt>,
                  defaultErrors: seq<OAuth2Error>, allowed: set<string>): (d: Decision)
    ensures bearer.None? ==> d == Decide(rules, req, Anonymous)
    ensures bearer.Some? && d == Granted ==>
              defaultErrors == [] && bearer.value.issuer.Some? && bearer.value.issuer.value in allowed
    ensures bearer.Some? && ValidateToken(defaultErrors, allowed, bearer.value) == [] ==>
              d == Decide(rules, req, Principal(RoleAuthorities(bearer.value)))
    ensures bearer.Some? && ValidateToken(defaultErrors, allowed, bearer.value) != [] ==> d == Unauthenticated
  {
    match bearer
    case None => Decide(rules, req, Anonymous)
    case Some(jwt) =>
      if ValidateToken(defaultErrors, allowed, jwt) != [] then Unauthenticated
      else Decide(rules, req, Principal(RoleAuthorities(jwt)))
  }
}
