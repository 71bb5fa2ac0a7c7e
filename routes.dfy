/** The client's route table and what navigating to a URL path does with it:
    the first route whose path matches is used, a redirect is followed, and the
    route's guards decide whether its component activates. */
module Routes {
  import opened Wrappers
  import opened Keycloak
  import opened Guards

  /** The guards a route can list in `canActivate`. */
  datatype GuardName = AuthGuardName | AdminGuardName

  /** A route leads to a lazily loaded component or redirects to another path. */
  datatype Target = Component(name: string) | RedirectTo(path: string)

  datatype Route = Route(path: string, target: Target, canActivate: seq<GuardName>)

  /** The wildcard path. */
  const Wildcard: string := "**"

  /** `routes`, in declaration order. */
  const Table: seq<Route> := [
    Route("", Component("HomeComponent"), [AuthGuardName]),
    Route("products", Component("ProductsComponent"), [AuthGuardName]),
    Route("orders", Component("OrdersComponent"), [AuthGuardName]),
    Route("forbidden", Component("ForbiddenComponent"), []),
    Route(Wildcard, RedirectTo(""), [])
  ]

  /** The paths the table lists explicitly. */
  const ListedPaths: set<string> := {"", "products", "orders", "forbidden"}

  /** The first route of `routes` whose path is `url` or the wildcard. */
  function FirstMatch(routes: seq<Route>, url: string): (r: Option<Route>)
    ensures r.Some? ==> r.value in routes && (r.value.path == url || r.value.path == Wildcard)
    ensures r.None? ==> forall i :: 0 <= i < |routes| ==> routes[i].path != url && routes[i].path != Wildcard
    ensures r.Some? ==> exists i :: 0 <= i < |routes| && routes[i] == r.value && NoMatchBefore(routes, url, i)
  {
    if routes == [] then None
    else if routes[0].path == url || routes[0].path == Wildcard then Some(routes[0])
    else FirstMatch(routes[1..], url)
  }

  /** No route before index `i` has the path `url` or the wildcard. */
  predicate NoMatchBefore(routes: seq<Route>, url: string, i: int)
    requires 0 <= i <= |routes|
  {
    forall j :: 0 <= j < i ==> routes[j].path != url && routes[j].path != Wildcard
  }

  /** Runs a route's guards in order: all must allow; the first refusal wins. */
  function RunGuards(guards: seq<GuardName>, authenticated: bool, kc: Provider): (o: GuardOutcome)
    ensures o == Allow <==> forall i :: 0 <= i < |guards| ==> Evaluate(guards[i], authenticated, kc) == Allow
  {
    if guards == [] then Allow
    else
      var first := Evaluate(guards[0], authenticated, kc);
      if first != Allow then first else RunGuards(guards[1..], authenticated, kc)
  }

  /** One guard's outcome. */
  function Evaluate(g: GuardName, authenticated: bool, kc: Provider): GuardOutcome {
    match g
    case AuthGuardName => AuthGuard(authenticated, kc)
    case AdminGuardName => AdminGuard(authenticated, kc)
  }

  /** The result of a navigation: a component activates, or a guard blocks it. */
  datatype Navigation = Activated(component: string) | Blocked(outcome: GuardOutcome)

  /** The route used for `url`, after following at most one redirect. */
  function Resolve(url: string): (r: Route)
    ensures r in Table && r.target.Component?
    ensures url in ListedPaths ==> r.path == url
    ensures url !in ListedPaths ==> r == Table[0]
  {
    var fallback := Table[4];
    var first := FirstMatch(Table, url).GetOr(fallback);
    match first.target
    case RedirectTo(p) =>
      assert first == fallback;
      assert url !in ListedPaths by {
        assert Table[4].path == Wildcard;
        assert FirstMatch(Table, url).Some?;
        var i :| 0 <= i < |Table| && Table[i] == first && NoMatchBefore(Table, url, i);
        assert i == 4;
        assert Table[0].path == "" && Table[1].path == "products" && Table[2].path == "orders" && Table[3].path == "forbidden";
      }
      assert FirstMatch(Table, p) == Some(Table[0]);
      FirstMatch(Table, p).GetOr(fallback)
    case Component(_) => first
  }

  /** Navigating to `url` in the given session. */
  function Navigate(url: string, authenticated: bool, kc: Provider): (n: Navigation)
    ensures n.Activated? <==> RunGuards(Resolve(url).canActivate, authenticated, kc) == Allow
    ensures n.Activated? ==> Component(n.component) in {Table[0].target, Table[1].target, Table[2].target, Table[3].target}
    ensures n.Blocked? ==> n.outcome == RunGuards(Resolve(url).canActivate, authenticated, kc) && n.outcome != Allow
  {
    var route := Resolve(url);
    var o := RunGuards(route.canActivate, authenticated, kc);
    if o == Allow && route.target.Component? then Activated(route.target.name) else Blocked(o)
  }

  /** The home, products and orders paths are each guarded by `authGuard` alone. */
  lemma {:induction false} MainPagesNeedAuthGuardOnly(url: string)
    requires url in {"", "products", "orders"}
    ensures Resolve(url).canActivate == [AuthGuardName]
    ensures Resolve(url).target.Component?
  {
    assert Table[0].path == "" && Table[1].path == "products" && Table[2].path == "orders";
  }

  /** The forbidden page has no guard: it activates in every session state,
      so `adminGuard`'s redirect target can always be reached. */
  lemma {:induction false} ForbiddenAlwaysReachable(authenticated: bool, kc: Provider)
    ensures Navigate("forbidden", authenticated, kc) == Activated("ForbiddenComponent")
  {
    assert FirstMatch(Table[3..], "forbidden") == Some(Table[3]);
    assert FirstMatch(Table[2..], "forbidden") == FirstMatch(Table[2..][1..], "forbidden");
    assert FirstMatch(Table[1..], "forbidden") == FirstMatch(Table[1..][1..], "forbidden");
    assert FirstMatch(Table, "forbidden") == FirstMatch(Table[1..], "forbidden");
    assert Table[1..][1..] == Table[2..] && Table[2..][1..] == Table[3..];
  }

  /** A path the table does not list is redirected to the home route. */
  lemma {:induction false} UnknownPathGoesHome(url: string, authenticated: bool, kc: Provider)
    requires url !in ListedPaths
    ensures FirstMatch(Table, url) == Some(Route(Wildcard, RedirectTo(""), []))
    ensures Resolve(url) == Table[0]
    ensures Navigate(url, authenticated, kc) == Navigate("", authenticated, kc)
  {
    assert FirstMatch(Table, "") == Some(Table[0]);
    assert FirstMatch(Table[4..], url) == Some(Table[4]);
    assert FirstMatch(Table, url) == FirstMatch(Table[4..], url);
  }

  /** `adminGuard` protects no route. */
  lemma AdminGuardUnused()
    ensures forall i :: 0 <= i < |Table| ==> AdminGuardName !in Table[i].canActivate
  {
  }

  /** Except for the forbidden page, a navigation activates its component
      exactly when the session is authenticated, and otherwise is refused
      without any redirect. */
  lemma {:induction false} NavigationNeedsAuthentication(url: string, authenticated: bool, kc: Provider)
    requires url != "forbidden"
    ensures Navigate(url, authenticated, kc).Activated? <==> IsAuthenticated(authenticated, kc)
    ensures !IsAuthenticated(authenticated, kc) ==> Navigate(url, authenticated, kc) == Blocked(Deny)
  {
    if url in ListedPaths {
      MainPagesNeedAuthGuardOnly(url);
    } else {
      UnknownPathGoesHome(url, authenticated, kc);
      MainPagesNeedAuthGuardOnly("");
    }
  }
}
