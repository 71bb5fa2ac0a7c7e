/** `authInterceptor`: the HTTP interceptor that adds the session's bearer
    token (section 2.1 of RFC 6750) to every outgoing request. */
module Interceptor {
  import opened Wrappers
  import opened Text
  import opened Keycloak

  /** An outgoing request: URL, HTTP method, headers and body. Header names
      are matched without regard to case, so the header map is keyed by the
      lower-cased name. */
  datatype HttpRequest = HttpRequest(url: string, verb: string, headers: map<string, string>, body: string)

  const AuthorizationHeader: string := "Authorization"

  /** Every key of a header map is a lower-cased name. */
  predicate Normalized<V>(headers: map<string, V>) {
    forall k :: k in headers ==> Lower(k) == k
  }

  /** The value held for header `name`, whatever the case it is spelled in. */
  function HeaderValue(headers: map<string, string>, name: string): Option<string> {
    if Lower(name) in headers then Some(headers[Lower(name)]) else None
  }

  /** The header value of a bearer credential. */
  function BearerValue(token: string): string {
    "Bearer " + token
  }

  /** The one request handed to `next`: with a non-empty token, a clone whose
      `Authorization` header, in whatever case the request spelled it, is set
      to "Bearer <token>"; otherwise the request itself. Nothing but that one
      header ever differs. */
  function AuthInterceptor(req: HttpRequest, token: Option<string>): (forwarded: HttpRequest)
    ensures Truthy(token) ==> HeaderValue(forwarded.headers, AuthorizationHeader) == Some("Bearer " + token.value)
    ensures !Truthy(token) ==> forwarded == req
    ensures forwarded.url == req.url && forwarded.verb == req.verb && forwarded.body == req.body
    ensures forall n :: Lower(n) != Lower(AuthorizationHeader) ==>
              HeaderValue(forwarded.headers, n) == HeaderValue(req.headers, n)
    ensures Normalized(req.headers) ==> Normalized(forwarded.headers)
  {
    if Truthy(token) then
      LowerIdempotent(AuthorizationHeader);
      req.(headers := req.headers[Lower(AuthorizationHeader) := BearerValue(token.value)])
    else
      req
  }

  /** A request that already carries an authorization header, in any
      spelling, leaves with that one header holding the session's bearer
      token. */
  lemma AuthorizationReplacedInAnyCase(req: HttpRequest, token: Option<string>, name: string)
    requires Truthy(token)
    requires Lower(name) == Lower(AuthorizationHeader)
    ensures HeaderValue(AuthInterceptor(req, token).headers, name) == Some(BearerValue(token.value))
  {
  }

  /** Intercepting with the session's token: the forwarded request carries a
      bearer header exactly when the service holds a non-empty token, which
      every authenticated session does. */
  lemma AuthenticatedRequestsCarryBearer(authenticated: bool, kc: Provider, req: HttpRequest)
    requires IsAuthenticated(authenticated, kc)
    ensures HeaderValue(AuthInterceptor(req, Token(kc)).headers, AuthorizationHeader) == Some("Bearer " + kc.token.value)
  {
  }

  /** Intercepting twice with the same token gives the same request as
      intercepting once. */
  lemma InterceptIdempotent(req: HttpRequest, token: Option<string>)
    ensures AuthInterceptor(AuthInterceptor(req, token), token) == AuthInterceptor(req, token)
  {
    if Truthy(token) {
      var once := AuthInterceptor(req, token);
      assert once.headers[Lower(AuthorizationHeader) := BearerValue(token.value)] == once.headers;
    }
  }
}
