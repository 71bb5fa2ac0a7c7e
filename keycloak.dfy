/** The browser session kept by `KeycloakService`: the `authenticated` flag,
    the identity-provider adapter's token and parsed claims, the token-expiry
    handler, and the identity and role queries read from the claims. */
module Keycloak {
  import opened Wrappers
  import opened Text

  /** The client id the frontend is registered under (the build environments). */
  const ClientId: string := "angular-frontend"

  /** Minimum remaining validity, in seconds, asked of a token refresh. */
  const RefreshMinValidity: int := 30

  /** A `realm_access` or `resource_access[<client>]` claim; only its `roles`
      list is read. */
  datatype RoleClaim = RoleClaim(roles: Option<seq<string>>)

  /** The claims of the parsed access token that the service reads. */
  datatype TokenClaims = TokenClaims(
    preferredUsername: Option<string>,
    givenName: Option<string>,
    familyName: Option<string>,
    email: Option<string>,
    realmAccess: Option<RoleClaim>,
    resourceAccess: Option<map<string, RoleClaim>>)

  /** What the service observes of the identity-provider adapter: the raw
      token, its parsed claims, whether the service's expiry handler is
      installed, the minimum validity of every refresh it was asked for, and
      the redirect target of every logout it was asked for. */
  datatype Provider = Provider(
    token: Option<string>,
    tokenParsed: Option<TokenClaims>,
    onTokenExpired: bool,
    refreshRequests: seq<int>,
    logoutRedirects: seq<string>)

  /** A freshly constructed adapter: no token, no handler, nothing requested. */
  const FreshProvider := Provider(None, None, false, [], [])

  /** How the adapter's `init` settles: authenticated with a token, resolved
      unauthenticated, or rejected with an error. */
  datatype InitOutcome =
    | InitAuthenticated(token: string, claims: TokenClaims)
    | InitUnauthenticated
    | InitRejected

  /** How the adapter's `updateToken` settles: a new token, "still valid", or a
      rejection. `cleared` says whether the adapter dropped its token before
      rejecting, as it does when the identity provider refuses the refresh
      token; a rejection for any other reason (the network) keeps it. */
  datatype RefreshOutcome =
    | Refreshed(token: string, claims: TokenClaims)
    | StillValid
    | RefreshRejected(cleared: bool)

  /** JavaScript truthiness of an optional string: present and non-empty. */
  predicate Truthy(s: Option<string>) {
    s.Some? && s.value != ""
  }

  /** `s || fallback` for an optional string. */
  function OrElse(s: Option<string>, fallback: string): (r: string)
    ensures Truthy(s) ==> r == s.value
    ensures !Truthy(s) ==> r == fallback
  {
    if Truthy(s) then s.value else fallback
  }

  /** `isAuthenticated()`: the flag is set and a non-empty token is held. */
  predicate IsAuthenticated(authenticated: bool, kc: Provider): (b: bool)
    ensures b ==> authenticated && kc.token.Some? && kc.token.value != ""
    ensures authenticated && kc.token.Some? && kc.token.value != "" ==> b
  {
    authenticated && Truthy(kc.token)
  }

  /** `getToken()`: the adapter's raw token; with the flag set, the session
      is authenticated exactly when this token is present and non-empty. */
  function Token(kc: Provider): (r: Option<string>)
    ensures r == kc.token
    ensures IsAuthenticated(true, kc) <==> r.Some? && r.value != ""
  {
    kc.token
  }

  /** `getUsername()`: `preferred_username`, or "Unknown" when it is missing
      or empty. Never empty. */
  function Username(kc: Provider): (r: string)
    ensures r != ""
    ensures kc.tokenParsed.Some? && Truthy(kc.tokenParsed.value.preferredUsername) ==>
              r == kc.tokenParsed.value.preferredUsername.value
    ensures !(kc.tokenParsed.Some? && Truthy(kc.tokenParsed.value.preferredUsername)) ==> r == "Unknown"
  {
    match kc.tokenParsed
    case Some(t) => OrElse(t.preferredUsername, "Unknown")
    case None => "Unknown"
  }

  /** `"given family"` with surrounding whitespace trimmed, from the parsed
      token (missing names read as ""). */
  function GivenFamily(t: TokenClaims): string {
    Trim(OrElse(t.givenName, "") + " " + OrElse(t.familyName, ""), IsJsWhitespace)
  }

  /** `getFullName()`: the trimmed "given family" name when it is non-empty,
      otherwise the username. Never empty, and when it comes from the names it
      carries no surrounding whitespace. */
  function FullName(kc: Provider): (r: string)
    ensures r != ""
    ensures kc.tokenParsed.None? ==> r == Username(kc)
    ensures kc.tokenParsed.Some? && GivenFamily(kc.tokenParsed.value) != "" ==>
              r == GivenFamily(kc.tokenParsed.value) && Trimmed(r, IsJsWhitespace)
    ensures kc.tokenParsed.Some? && GivenFamily(kc.tokenParsed.value) == "" ==> r == Username(kc)
  {
    match kc.tokenParsed
    case Some(t) =>
      var name := GivenFamily(t);
      if name != "" then name else Username(kc)
    case None => Username(kc)
  }

  /** `getEmail()`: the `email` claim, or "" when it is missing. */
  function Email(kc: Provider): (r: string)
    ensures kc.tokenParsed.Some? && Truthy(kc.tokenParsed.value.email) ==> r == kc.tokenParsed.value.email.value
    ensures !(kc.tokenParsed.Some? && Truthy(kc.tokenParsed.value.email)) ==> r == ""
  {
    match kc.tokenParsed
    case Some(t) => OrElse(t.email, "")
    case None => ""
  }

  /** The roles of an optional role claim; a missing claim or list gives none. */
  function ClaimRoles(c: Option<RoleClaim>): seq<string> {
    if c.Some? && c.value.roles.Some? then c.value.roles.value else []
  }

  /** `realm_access.roles`, or none. */
  function RealmRoles(kc: Provider): seq<string> {
    if kc.tokenParsed.Some? then ClaimRoles(kc.tokenParsed.value.realmAccess) else []
  }

  /** `resource_access['angular-frontend'].roles`, or none. */
  function ClientRoles(kc: Provider): seq<string> {
    if kc.tokenParsed.Some? && kc.tokenParsed.value.resourceAccess.Some?
       && ClientId in kc.tokenParsed.value.resourceAccess.value
    then ClaimRoles(Some(kc.tokenParsed.value.resourceAccess.value[ClientId]))
    else []
  }

  /** `getRoles()`: the realm roles followed by this client's roles, order and
      duplicates kept; with no parsed token there are none. */
  function Roles(kc: Provider): (r: seq<string>)
    ensures r == RealmRoles(kc) + ClientRoles(kc)
    ensures kc.tokenParsed.None? ==> r == []
  {
    RealmRoles(kc) + ClientRoles(kc)
  }

  /** `hasRole(role)`: `role` is among `getRoles()`, that is, the realm or
      this client grants it; with no parsed token no role is held. */
  predicate HasRole(kc: Provider, role: string): (b: bool)
    ensures b <==> role in RealmRoles(kc) || role in ClientRoles(kc)
    ensures kc.tokenParsed.None? ==> !b
  {
    role in Roles(kc)
  }

  /** `isAdmin()`: the realm or this client grants ADMIN. */
  predicate IsAdmin(kc: Provider): (b: bool)
    ensures b <==> "ADMIN" in RealmRoles(kc) || "ADMIN" in ClientRoles(kc)
  {
    HasRole(kc, "ADMIN")
  }

  /** `isUser()`: CLIENT or ADMIN is granted by either section; every
      administrator is a user. */
  predicate IsUser(kc: Provider): (b: bool)
    ensures b <==> "CLIENT" in RealmRoles(kc) || "CLIENT" in ClientRoles(kc) || IsAdmin(kc)
    ensures IsAdmin(kc) ==> b
  {
    HasRole(kc, "CLIENT") || HasRole(kc, "ADMIN")
  }

  /** Realm role CLIENT and client role ADMIN give the roles [CLIENT, ADMIN],
      and make the user an administrator. */
  lemma RoleUnionExample(kc: Provider)
    requires kc.tokenParsed.Some?
    requires kc.tokenParsed.value.realmAccess == Some(RoleClaim(Some(["CLIENT"])))
    requires kc.tokenParsed.value.resourceAccess == Some(map[ClientId := RoleClaim(Some(["ADMIN"]))])
    ensures Roles(kc) == ["CLIENT", "ADMIN"]
    ensures IsAdmin(kc) && IsUser(kc)
  {
    assert Roles(kc)[1] == "ADMIN";
  }

  /** The adapter state after the expiry handler ran: a refresh with minimum
      validity 30 was requested; a new token replaces the old one, "still
      valid" keeps it, and a rejection asks for a logout back to `origin`,
      after the adapter dropped its token if it did. */
  function AfterTokenExpired(kc: Provider, outcome: RefreshOutcome, origin: string): Provider {
    var asked := kc.(refreshRequests := kc.refreshRequests + [RefreshMinValidity]);
    match outcome
    case Refreshed(t, c) => asked.(token := Some(t), tokenParsed := Some(c))
    case StillValid => asked
    case RefreshRejected(cleared) =>
      AfterLogout(if cleared then asked.(token := None, tokenParsed := None) else asked, origin)
  }

  /** The adapter state after `logout()`: one more logout redirecting to `origin`. */
  function AfterLogout(kc: Provider, origin: string): Provider {
    kc.(logoutRedirects := kc.logoutRedirects + [origin])
  }

  /** A refresh asks for exactly one token renewal with minimum validity 30
      and asks for a logout to `origin` exactly when it is rejected; the
      installed handler stays installed. */
  lemma TokenExpiredEffects(kc: Provider, outcome: RefreshOutcome, origin: string)
    ensures AfterTokenExpired(kc, outcome, origin).refreshRequests == kc.refreshRequests + [30]
    ensures AfterTokenExpired(kc, outcome, origin).onTokenExpired == kc.onTokenExpired
    ensures outcome.RefreshRejected? <==>
              AfterTokenExpired(kc, outcome, origin).logoutRedirects == kc.logoutRedirects + [origin]
    ensures !outcome.RefreshRejected? ==> AfterTokenExpired(kc, outcome, origin).logoutRedirects == kc.logoutRedirects
  {
    var after := AfterTokenExpired(kc, outcome, origin);
    if !outcome.RefreshRejected? {
      assert |after.logoutRedirects| == |kc.logoutRedirects|;
    }
  }

  /** A successful refresh keeps the session authenticated as long as the new
      token is non-empty; "still valid" leaves authentication as it was. */
  lemma RefreshKeepsSession(authenticated: bool, kc: Provider, outcome: RefreshOutcome, origin: string)
    requires IsAuthenticated(authenticated, kc)
    requires outcome.Refreshed? ==> outcome.token != ""
    ensures outcome.Refreshed? || outcome.StillValid? ==>
              IsAuthenticated(authenticated, AfterTokenExpired(kc, outcome, origin))
  {
  }

  /** After a rejected refresh the session stays authenticated exactly when
      the adapter kept its token: the service never resets `authenticated`,
      so only the adapter's clearing of the token ends the session. */
  lemma RejectedRefreshSession(authenticated: bool, kc: Provider, cleared: bool, origin: string)
    ensures IsAuthenticated(authenticated, AfterTokenExpired(kc, RefreshRejected(cleared), origin)) <==>
              !cleared && IsAuthenticated(authenticated, kc)
    ensures Roles(AfterTokenExpired(kc, RefreshRejected(cleared), origin)) == (if cleared then [] else Roles(kc))
  {
  }

  /** The session object, owning the adapter state. */
  class KeycloakService {
    var authenticated: bool
    var keycloak: Provider

    constructor ()
      ensures !authenticated && keycloak == FreshProvider
    {
      authenticated := false;
      keycloak := FreshProvider;
    }

    /** `init()`: awaits the adapter's `init`, stores its verdict in
        `authenticated`, installs the expiry handler only when authenticated,
        and returns the stored verdict; a rejected `init` returns false and
        writes nothing. */
    method Init(outcome: InitOutcome) returns (r: bool)
      modifies this
      ensures !outcome.InitRejected? ==> authenticated == r
      ensures r <==> outcome.InitAuthenticated?
      ensures outcome.InitAuthenticated? ==>
                keycloak == old(keycloak).(token := Some(outcome.token), tokenParsed := Some(outcome.claims),
                                           onTokenExpired := true)
      ensures outcome.InitUnauthenticated? ==> keycloak == old(keycloak)
      ensures outcome.InitRejected? ==> authenticated == old(authenticated) && keycloak == old(keycloak)
    {
      match outcome {
        case InitAuthenticated(t, c) =>
          keycloak := keycloak.(token := Some(t), tokenParsed := Some(c));
          authenticated := true;
        case InitUnauthenticated =>
          authenticated := false;
        case InitRejected =>
          return false;
      }
      if authenticated {
        SetupTokenRefresh();
      }
      r := authenticated;
    }

    /** `setupTokenRefresh()`: installs the expiry handler. */
    method SetupTokenRefresh()
      modifies this
      ensures authenticated == old(authenticated)
      ensures keycloak == old(keycloak).(onTokenExpired := true)
    {
      keycloak := keycloak.(onTokenExpired := true);
    }

    /** The token expires: the installed handler asks for a refresh with
        minimum validity 30 and logs out when the refresh is rejected; without
        a handler nothing happens. `authenticated` is never reset. */
    method TokenExpired(outcome: RefreshOutcome, origin: string)
      modifies this
      ensures authenticated == old(authenticated)
      ensures old(keycloak.onTokenExpired) ==> keycloak == AfterTokenExpired(old(keycloak), outcome, origin)
      ensures !old(keycloak.onTokenExpired) ==> keycloak == old(keycloak)
    {
      if keycloak.onTokenExpired {
        keycloak := keycloak.(refreshRequests := keycloak.refreshRequests + [RefreshMinValidity]);
        match outcome {
          case Refreshed(t, c) =>
            keycloak := keycloak.(token := Some(t), tokenParsed := Some(c));
          case StillValid =>
          case RefreshRejected(cleared) =>
            if cleared {
              keycloak := keycloak.(token := None, tokenParsed := None);
            }
            Logout(origin);
        }
      }
    }

    /** `logout()`: asks the adapter to end the session and return to the
        application's `origin`. */
    method Logout(origin: string)
      modifies this
      ensures authenticated == old(authenticated)
      ensures keycloak == AfterLogout(old(keycloak), origin)
    {
      keycloak := keycloak.(logoutRedirects := keycloak.logoutRedirects + [origin]);
    }
  }

  /** Booting a fresh service whose `init` does not authenticate leaves it
      unauthenticated, with no roles and no expiry handler. */
  method BootWithoutLogin(outcome: InitOutcome) returns (ok: bool, authenticated: bool, roles: seq<string>, handler: bool)
    requires !outcome.InitAuthenticated?
    ensures !ok && !authenticated && roles == [] && !handler
  {
    var svc := new KeycloakService();
    ok := svc.Init(outcome);
    authenticated := IsAuthenticated(svc.authenticated, svc.keycloak);
    roles := Roles(svc.keycloak);
    handler := svc.keycloak.onTokenExpired;
  }

  /** Booting a fresh service whose `init` authenticates with token `t`
      returns true, makes the session authenticated exactly when `t` is
      non-empty, and installs the expiry handler. */
  method BootWithLogin(t: string, c: TokenClaims) returns (ok: bool, authenticated: bool, handler: bool)
    ensures ok && handler
    ensures authenticated <==> t != ""
  {
    var svc := new KeycloakService();
    ok := svc.Init(InitAuthenticated(t, c));
    authenticated := IsAuthenticated(svc.authenticated, svc.keycloak);
    handler := svc.keycloak.onTokenExpired;
  }
}
