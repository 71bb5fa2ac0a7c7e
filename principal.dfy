/** The Spring Security `Authentication` the order service's code inspects:
    a JWT authentication (its raw token value, its `preferred_username`
    claim, its name and authorities) or any other kind of authentication.
    A missing authentication is `None`. */
module Principal {
  import opened Wrappers

  datatype Authentication =
    | JwtAuth(tokenValue: Option<string>, preferredUsername: Option<string>, name: string, authorities: seq<string>)
    | OtherAuth(name: string, authorities: seq<string>)

  /** The authority that makes a caller an administrator. */
  const AdminAuthority: string := "ROLE_ADMIN"

  /** The owner id used when no authentication is present. */
  const UnknownUser: string := "unknown"

  /** `isAdmin`: an authentication is present and one of its authorities is
      exactly ROLE_ADMIN. */
  predicate IsAdmin(auth: Option<Authentication>): (b: bool)
    ensures auth.None? ==> !b
    ensures auth.Some? ==> (b <==> exists i :: 0 <= i < |auth.value.authorities| && auth.value.authorities[i] == AdminAuthority)
  {
    auth.Some? && AdminAuthority in auth.value.authorities
  }

  /** `getUserId`: for a JWT authentication its `preferred_username` claim,
      or its name when the claim is absent; for any other authentication its
      name; "unknown" when there is none. */
  function UserId(auth: Option<Authentication>): (uid: string)
    ensures auth.None? ==> uid == UnknownUser
    ensures auth.Some? && auth.value.JwtAuth? && auth.value.preferredUsername.Some? ==>
              uid == auth.value.preferredUsername.value
    ensures auth.Some? && !(auth.value.JwtAuth? && auth.value.preferredUsername.Some?) ==>
              uid == auth.value.name
  {
    match auth
    case None => UnknownUser
    case Some(JwtAuth(_, preferred, name, _)) => if preferred.Some? then preferred.value else name
    case Some(OtherAuth(name, _)) => name
  }
}
