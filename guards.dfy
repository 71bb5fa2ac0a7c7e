/** The two route guards: `authGuard` and `adminGuard`. A guard's call to the
    router is returned as part of its outcome instead of being performed. */
module Guards {
  import opened Keycloak

  /** What a guard decides: let the route activate, refuse it, or refuse it
      after asking the router to navigate to `commands`. */
  datatype GuardOutcome = Allow | Deny | DenyRedirect(commands: seq<string>)

  /** The navigation `adminGuard` asks for when the user is not an administrator. */
  const ForbiddenCommands: seq<string> := ["/forbidden"]

  /** `authGuard`: allow exactly an authenticated session; it never navigates. */
  function AuthGuard(authenticated: bool, kc: Provider): (o: GuardOutcome)
    ensures o == Allow <==> IsAuthenticated(authenticated, kc)
    ensures !o.DenyRedirect?
  {
    if IsAuthenticated(authenticated, kc) then Allow else Deny
  }

  /** `adminGuard`: allow an authenticated administrator; refuse silently when
      not authenticated; otherwise navigate to the forbidden page once and refuse. */
  function AdminGuard(authenticated: bool, kc: Provider): (o: GuardOutcome)
    ensures o == Allow <==> IsAuthenticated(authenticated, kc) && IsAdmin(kc)
    ensures !IsAuthenticated(authenticated, kc) ==> o == Deny
    ensures IsAuthenticated(authenticated, kc) && !IsAdmin(kc) ==> o == DenyRedirect(ForbiddenCommands)
  {
    if IsAuthenticated(authenticated, kc) && IsAdmin(kc) then Allow
    else if !IsAuthenticated(authenticated, kc) then Deny
    else DenyRedirect(["/forbidden"])
  }

  /** Whatever `adminGuard` lets through, `authGuard` lets through too, and the
      two guards refuse without navigating in exactly the same sessions. */
  lemma AdminGuardStricter(authenticated: bool, kc: Provider)
    ensures AdminGuard(authenticated, kc) == Allow ==> AuthGuard(authenticated, kc) == Allow
    ensures AdminGuard(authenticated, kc) == Deny <==> AuthGuard(authenticated, kc) == Deny
  {
  }

  /** `adminGuard` navigates only in the authenticated-but-not-administrator case. */
  lemma AdminGuardRedirectsOnlyWhenAuthenticated(authenticated: bool, kc: Provider)
    ensures AdminGuard(authenticated, kc).DenyRedirect? <==> IsAuthenticated(authenticated, kc) && !IsAdmin(kc)
  {
  }
}
