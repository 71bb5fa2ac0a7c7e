/** The product service's request rules: the H2 console and the actuator
    are open, reading products needs the ADMIN or CLIENT role, changing them
    needs ADMIN, and anything else needs an authenticated caller. */
module ProductSecurity {
  import opened Text
  import opened JwtSecurity
  import opened AccessRules

  const H2ConsoleBase: string := "/h2-console"
  const ActuatorBase: string := "/actuator"
  const ProductsBase: string := "/api/products"

  /** The request rules, in the order they are declared. */
  const ProductRules: seq<Rule> := [
    Rule(PathUnder(H2ConsoleBase), PermitAll),
    Rule(PathUnder(ActuatorBase), PermitAll),
    Rule(MethodAndPath(GET, ProductsBase), HasAnyRole(["ADMIN", "CLIENT"])),
    Rule(MethodAndPath(POST, ProductsBase), HasRole("ADMIN")),
    Rule(MethodAndPath(PUT, ProductsBase), HasRole("ADMIN")),
    Rule(MethodAndPath(DELETE, ProductsBase), HasRole("ADMIN")),
    Rule(AnyRequest, AuthenticatedOnly)
  ]

  predicate IsOpenPath(path: string) {
    UnderPattern(path, H2ConsoleBase) || UnderPattern(path, ActuatorBase)
  }

  predicate IsProductWrite(req: Request) {
    (req.verb == POST || req.verb == PUT || req.verb == DELETE) && UnderPattern(req.path, ProductsBase)
  }

  /** The H2 console and the actuator are open to everyone. */
  lemma OpenPathsGranted(req: Request, caller: Caller)
    requires IsOpenPath(req.path)
    ensures Decide(ProductRules, req, caller) == Granted
  {
    if UnderPattern(req.path, H2ConsoleBase) {
      assert FirstMatchIs(ProductRules, req, 0);
      FirstMatchDecides(ProductRules, req, caller, 0);
    } else {
      assert FirstMatchIs(ProductRules, req, 1);
      FirstMatchDecides(ProductRules, req, caller, 1);
    }
  }

  /** Reading products is granted exactly to holders of ROLE_ADMIN or
      ROLE_CLIENT. */
  lemma ReadNeedsAdminOrClient(req: Request, caller: Caller)
    requires req.verb == GET && UnderPattern(req.path, ProductsBase) && !IsOpenPath(req.path)
    ensures Decide(ProductRules, req, caller) == Granted <==>
              HoldsRole(caller, "ADMIN") || HoldsRole(caller, "CLIENT")
  {
    assert FirstMatchIs(ProductRules, req, 2);
    FirstMatchDecides(ProductRules, req, caller, 2);
    var roles := ["ADMIN", "CLIENT"];
    if HoldsRole(caller, "ADMIN") { assert HoldsRole(caller, roles[0]); }
    if HoldsRole(caller, "CLIENT") { assert HoldsRole(caller, roles[1]); }
  }

  /** Creating, updating and deleting products is granted exactly to holders
      of ROLE_ADMIN. */
  lemma WriteNeedsAdmin(req: Request, caller: Caller)
    requires IsProductWrite(req) && !IsOpenPath(req.path)
    ensures Decide(ProductRules, req, caller) == Granted <==> HoldsRole(caller, "ADMIN")
  {
    if req.verb == POST {
      assert FirstMatchIs(ProductRules, req, 3);
      FirstMatchDecides(ProductRules, req, caller, 3);
    } else if req.verb == PUT {
      assert FirstMatchIs(ProductRules, req, 4);
      FirstMatchDecides(ProductRules, req, caller, 4);
    } else {
      assert FirstMatchIs(ProductRules, req, 5);
      FirstMatchDecides(ProductRules, req, caller, 5);
    }
  }

  /** Any other request only needs an authenticated caller: other paths,
      and the methods other than GET, POST, PUT and DELETE on products. */
  lemma OtherRequestsNeedAuthentication(req: Request, caller: Caller)
    requires !IsOpenPath(req.path)
    requires !(UnderPattern(req.path, ProductsBase) && req.verb in {GET, POST, PUT, DELETE})
    ensures Decide(ProductRules, req, caller) == Granted <==> caller.Principal?
  {
    assert FirstMatchIs(ProductRules, req, 6);
    FirstMatchDecides(ProductRules, req, caller, 6);
  }

  /** With the role converter in front: a token whose realm roles include
      CLIENT but not ADMIN may read products but gets 403 on every write. */
  lemma ClientReadsButCannotWrite(jwt: Jwt, path: string)
    requires "CLIENT" in RealmRoles(jwt) && "ADMIN" !in RealmRoles(jwt)
    requires UnderPattern(path, ProductsBase) && !IsOpenPath(path)
    ensures Decide(ProductRules, Request(GET, path), Principal(RoleAuthorities(jwt))) == Granted
    ensures Decide(ProductRules, Request(POST, path), Principal(RoleAuthorities(jwt))) == Forbidden
    ensures Decide(ProductRules, Request(PUT, path), Principal(RoleAuthorities(jwt))) == Forbidden
    ensures Decide(ProductRules, Request(DELETE, path), Principal(RoleAuthorities(jwt))) == Forbidden
  {
    var caller := Principal(RoleAuthorities(jwt));
    HasAuthorityIffRealmRole(jwt, "CLIENT");
    HasAuthorityIffRealmRole(jwt, "ADMIN");
    ReadNeedsAdminOrClient(Request(GET, path), caller);
    WriteNeedsAdmin(Request(POST, path), caller);
    WriteNeedsAdmin(Request(PUT, path), caller);
    WriteNeedsAdmin(Request(DELETE, path), caller);
  }

  /** A token with the ADMIN realm role may read and change products. */
  lemma AdminReadsAndWrites(jwt: Jwt, req: Request)
    requires "ADMIN" in RealmRoles(jwt)
    requires UnderPattern(req.path, ProductsBase) && !IsOpenPath(req.path)
    requires req.verb == GET || IsProductWrite(req)
    ensures Decide(ProductRules, req, Principal(RoleAuthorities(jwt))) == Granted
  {
    var caller := Principal(RoleAuthorities(jwt));
    HasAuthorityIffRealmRole(jwt, "ADMIN");
    if req.verb == GET {
      ReadNeedsAdminOrClient(req, caller);
    } else {
      WriteNeedsAdmin(req, caller);
    }
  }

  /** Without a bearer token every product request is answered 401. */
  lemma AnonymousProductRequestsRefused(req: Request)
    requires UnderPattern(req.path, ProductsBase) && !IsOpenPath(req.path)
    ensures Decide(ProductRules, req, Anonymous) == Unauthenticated
  {
    if req.verb == GET {
      ReadNeedsAdminOrClient(req, Anonymous);
    } else if IsProductWrite(req) {
      WriteNeedsAdmin(req, Anonymous);
    } else {
      assert FirstMatchIs(ProductRules, req, 6);
      FirstMatchDecides(ProductRules, req, Anonymous, 6);
    }
  }
}
