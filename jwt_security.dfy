/** What the gateway and the product service do with a decoded JWT: turn its
    realm roles into `ROLE_*` authorities, check its `iss` claim (section
    4.1.1 of RFC 7519) against an allow-list parsed from a comma-separated
    string, and accept it only when the default checks pass too. Both
    services' `SecurityConfig` carry the same code for these. */
module JwtSecurity {
  import opened Wrappers
  import opened Text

  /** The parts of a decoded JWT that are read here: the issuer and the
      `realm_access` claim, a map whose `roles` entry lists the realm roles. */
  datatype Jwt = Jwt(issuer: Option<string>, realmAccess: Option<map<string, seq<string>>>)

  /** The authority prefix Spring Security's role checks expect. */
  const RolePrefix: string := "ROLE_"

  /** The realm roles of a token: none when `realm_access` is missing or
      empty or has no `roles` entry. */
  function RealmRoles(jwt: Jwt): seq<string> {
    if jwt.realmAccess.None? || |jwt.realmAccess.value| == 0 || "roles" !in jwt.realmAccess.value then []
    else jwt.realmAccess.value["roles"]
  }

  /** `KeycloakRoleConverter.convert`: one authority "ROLE_" + r per realm
      role r, in order, duplicates kept; `resource_access` is never read. */
  function RoleAuthorities(jwt: Jwt): (auths: seq<string>)
    ensures jwt.realmAccess.None? || |jwt.realmAccess.value| == 0 || "roles" !in jwt.realmAccess.value ==> auths == []
    ensures |auths| == |RealmRoles(jwt)|
    ensures forall i :: 0 <= i < |auths| ==> auths[i] == RolePrefix + RealmRoles(jwt)[i]
  {
    var roles := RealmRoles(jwt);
    seq(|roles|, i requires 0 <= i < |roles| => RolePrefix + roles[i])
  }

  /** Removing the prefix from every authority gives the realm roles back. */
  lemma AuthoritiesRoundTrip(jwt: Jwt)
    ensures seq(|RoleAuthorities(jwt)|, i requires 0 <= i < |RoleAuthorities(jwt)| => RoleAuthorities(jwt)[i][|RolePrefix|..])
            == RealmRoles(jwt)
  {
    var auths := RoleAuthorities(jwt);
    var back := seq(|auths|, i requires 0 <= i < |auths| => auths[i][|RolePrefix|..]);
    forall i | 0 <= i < |auths| ensures back[i] == RealmRoles(jwt)[i] {
      assert auths[i] == RolePrefix + RealmRoles(jwt)[i];
    }
  }

  /** A caller holds authority "ROLE_" + r exactly when r is one of the
      token's realm roles. */
  lemma HasAuthorityIffRealmRole(jwt: Jwt, role: string)
    ensures RolePrefix + role in RoleAuthorities(jwt) <==> role in RealmRoles(jwt)
  {
    var auths := RoleAuthorities(jwt);
    if RolePrefix + role in auths {
      var i :| 0 <= i < |auths| && auths[i] == RolePrefix + role;
      assert RealmRoles(jwt)[i] == (RolePrefix + role)[|RolePrefix|..] == role;
    }
    if role in RealmRoles(jwt) {
      var i :| 0 <= i < |RealmRoles(jwt)| && RealmRoles(jwt)[i] == role;
      assert auths[i] == RolePrefix + role;
    }
  }

  /** An OAuth 2.0 error as a validator reports it. */
  datatype OAuth2Error = OAuth2Error(errorCode: string, description: string)

  /** The error the issuer check reports. */
  const IssuerError := OAuth2Error("invalid_token", "The iss claim is not allowed")

  /** `AllowedIssuersValidator.validate`: no errors when the token's issuer
      is present and allowed; otherwise one `invalid_token` error. */
  function ValidateIssuer(allowed: set<string>, jwt: Jwt): (errors: seq<OAuth2Error>)
    ensures errors == [] <==> jwt.issuer.Some? && jwt.issuer.value in allowed
    ensures errors != [] ==> errors == [IssuerError] && errors[0].errorCode == "invalid_token"
  {
    if jwt.issuer.Some? && jwt.issuer.value in allowed then [] else [IssuerError]
  }

  /** The decoder's validator: the default checks (their errors given, as
      they are outside this model) followed by the issuer check, every error
      collected. */
  function ValidateToken(defaultErrors: seq<OAuth2Error>, allowed: set<string>, jwt: Jwt): (errors: seq<OAuth2Error>)
    ensures errors == [] <==> defaultErrors == [] && jwt.issuer.Some? && jwt.issuer.value in allowed
    ensures |errors| >= |defaultErrors| && errors[..|defaultErrors|] == defaultErrors
  {
    var errors := defaultErrors + ValidateIssuer(allowed, jwt);
    assert |errors| == |defaultErrors| + |ValidateIssuer(allowed, jwt)|;
    errors
  }

  /** The trimmed non-empty pieces of `pieces`. */
  function TrimmedPieces(pieces: seq<string>): (r: set<string>)
    ensures forall x :: x in r ==> x != "" && Trimmed(x, IsJavaWhitespace)
    ensures forall i :: 0 <= i < |pieces| && Trim(pieces[i], IsJavaWhitespace) != "" ==>
              Trim(pieces[i], IsJavaWhitespace) in r
  {
    set i | 0 <= i < |pieces| && Trim(pieces[i], IsJavaWhitespace) != "" :: Trim(pieces[i], IsJavaWhitespace)
  }

  /** `parseCsvToSet` (gateway) and `parseAllowedIssuers` (product service):
      split on ',', trim each piece, drop the empty ones. Every element is
      non-empty, trimmed and free of commas, and every non-empty trimmed
      piece is an element. */
  function ParseCsvToSet(value: string): (r: set<string>)
    ensures forall x :: x in r ==> x != "" && Trimmed(x, IsJavaWhitespace) && ',' !in x
    ensures forall i :: 0 <= i < |Split(value, ',')| && Trim(Split(value, ',')[i], IsJavaWhitespace) != "" ==>
              Trim(Split(value, ',')[i], IsJavaWhitespace) in r
    ensures forall x :: x in r ==> exists i :: PieceYields(value, i, x)
  {
    var pieces := Split(value, ',');
    SplitJoin(value, ',');
    var r := TrimmedPieces(pieces);
    forall x | x in r ensures ',' !in x {
      var i :| 0 <= i < |pieces| && Trim(pieces[i], IsJavaWhitespace) != "" && Trim(pieces[i], IsJavaWhitespace) == x;
      var k :| TrimmedFrom(pieces[i], x, k, IsJavaWhitespace);
      assert forall c :: c in x ==> c in pieces[i];
    }
    forall x | x in r ensures exists i :: PieceYields(value, i, x) {
      var i :| 0 <= i < |pieces| && Trim(pieces[i], IsJavaWhitespace) != "" && Trim(pieces[i], IsJavaWhitespace) == x;
      assert PieceYields(value, i, x);
    }
    r
  }

  /** Piece `i` of the comma split of `value` trims to `x`. */
  predicate PieceYields(value: string, i: int, x: string) {
    0 <= i < |Split(value, ',')| && Trim(Split(value, ',')[i], IsJavaWhitespace) == x
  }

  /** The issuers accepted when `app.security.allowed-issuers` is not set. */
  const RealmPath: string := "/realms/microservices-realm"
  const LocalIssuer: string := "http://localhost:8080" + RealmPath
  const DockerIssuer: string := "http://keycloak:8080" + RealmPath
  const DefaultAllowedIssuers: string := LocalIssuer + "," + DockerIssuer

  lemma IssuersHaveNoComma()
    ensures ',' !in LocalIssuer && ',' !in DockerIssuer
  {
    assert ',' !in RealmPath;
    assert ',' !in "http://localhost:8080";
    assert ',' !in "http://keycloak:8080";
  }

  lemma DefaultIssuersSplit()
    ensures Split(DefaultAllowedIssuers, ',') == [LocalIssuer, DockerIssuer]
  {
    IssuersHaveNoComma();
    SplitAtSeparator(LocalIssuer, ',', DockerIssuer);
    SplitWithoutSeparator(DockerIssuer, ',');
    assert DefaultAllowedIssuers == LocalIssuer + [','] + DockerIssuer;
  }

  lemma IssuersAreTrimmed()
    ensures Trimmed(LocalIssuer, IsJavaWhitespace) && Trimmed(DockerIssuer, IsJavaWhitespace)
  {
    assert RealmPath[|RealmPath| - 1] == 'm';
    assert LocalIssuer[0] == 'h' && LocalIssuer[|LocalIssuer| - 1] == 'm';
    assert DockerIssuer[0] == 'h' && DockerIssuer[|DockerIssuer| - 1] == 'm';
  }

  /** A list of two trimmed, non-empty entries parses to exactly those two. */
  lemma ParseTwoEntries(value: string, a: string, b: string)
    requires Split(value, ',') == [a, b]
    requires a != "" && Trimmed(a, IsJavaWhitespace)
    requires b != "" && Trimmed(b, IsJavaWhitespace)
    ensures forall x :: x in ParseCsvToSet(value) <==> x == a || x == b
  {
    TrimIdempotent(a, IsJavaWhitespace);
    TrimIdempotent(b, IsJavaWhitespace);
    TwoEntriesIncluded(value, a, b);
    OnlyTwoEntries(value, a, b);
  }

  lemma TwoEntriesIncluded(value: string, a: string, b: string)
    requires Split(value, ',') == [a, b]
    requires a != "" && Trim(a, IsJavaWhitespace) == a
    requires b != "" && Trim(b, IsJavaWhitespace) == b
    ensures a in ParseCsvToSet(value) && b in ParseCsvToSet(value)
  {
    var pieces := Split(value, ',');
    assert pieces[0] == a && pieces[1] == b;
  }

  lemma OnlyTwoEntries(value: string, a: string, b: string)
    requires Split(value, ',') == [a, b]
    requires Trim(a, IsJavaWhitespace) == a && Trim(b, IsJavaWhitespace) == b
    ensures forall x :: x in ParseCsvToSet(value) ==> x == a || x == b
  {
    forall x | x in ParseCsvToSet(value) ensures x == a || x == b {
      var i :| PieceYields(value, i, x);
      assert i == 0 || i == 1;
    }
  }

  lemma DefaultIssuersWellFormed()
    ensures Split(DefaultAllowedIssuers, ',') == [LocalIssuer, DockerIssuer]
    ensures LocalIssuer != "" && Trimmed(LocalIssuer, IsJavaWhitespace)
    ensures DockerIssuer != "" && Trimmed(DockerIssuer, IsJavaWhitespace)
  {
    DefaultIssuersSplit();
    IssuersAreTrimmed();
  }

  /** The default allow-list holds exactly the host and the Docker-network
      issuer URLs. */
  lemma DefaultIssuersParsed()
    ensures forall x :: x in ParseCsvToSet(DefaultAllowedIssuers) <==> x == LocalIssuer || x == DockerIssuer
  {
    DefaultIssuersWellFormed();
    ParseTwoEntries(DefaultAllowedIssuers, LocalIssuer, DockerIssuer);
  }
}
