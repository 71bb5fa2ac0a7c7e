/** The order service's outgoing calls to the product service: the request
    interceptor copies the caller's bearer token onto every Feign request
    template, so that the product service sees the same caller. */
module FeignSecurity {
  import opened Wrappers
  import opened Text
  import opened Principal
  import opened Interceptor

  /** The header value the interceptor adds for the current authentication:
      present exactly for a JWT authentication whose raw token value is
      present and non-empty, and then it is that token as a bearer
      credential. */
  function BearerHeader(auth: Option<Authentication>): (h: Option<string>)
    ensures h.Some? <==>
              auth.Some? && auth.value.JwtAuth? && auth.value.tokenValue.Some? && auth.value.tokenValue.value != ""
    ensures h.Some? ==> h.value == BearerValue(auth.value.tokenValue.value)
  {
    match auth
    case Some(JwtAuth(Some(token), _, _, _)) => if token != "" then Some(BearerValue(token)) else None
    case _ => None
  }

  /** A Feign request template. Its header map ignores the case of names, so
      it is keyed here by the lower-cased name; `header(name, value)` adds
      `value` to the values already recorded under that name in any
      spelling, which Feign keeps as an ordered set without empty values. */
  class RequestTemplate {
    var headers: map<string, seq<string>>

    constructor (headers: map<string, seq<string>>)
      ensures this.headers == headers
    {
      this.headers := headers;
    }

    method Header(name: string, value: string)
      modifies this
      ensures headers == old(headers)[Lower(name) := AppendValue(Values(old(headers), name), value)]
      ensures Normalized(old(headers)) ==> Normalized(headers)
    {
      LowerIdempotent(name);
      headers := headers[Lower(name) := AppendValue(Values(headers, name), value)];
    }
  }

  /** Feign's merge of one more value into a header's values: an empty value
      is dropped and a value already held is not added again, as insertion
      into an ordered set. */
  function AppendValue(values: seq<string>, value: string): (r: seq<string>)
    ensures forall x :: x in r <==> x in values || (x == value && value != "")
    ensures |values| <= |r| <= |values| + 1 && r[..|values|] == values
    ensures Distinct(values) ==> Distinct(r)
  {
    if value == "" || value in values then values else values + [value]
  }

  /** No value occurs twice. */
  predicate Distinct(values: seq<string>) {
    forall i, j :: 0 <= i < j < |values| ==> values[i] != values[j]
  }

  /** Merging a value that was just merged changes nothing, so a template
      that passes through the interceptor again keeps one bearer value. */
  lemma AppendValueIdempotent(values: seq<string>, value: string)
    ensures AppendValue(AppendValue(values, value), value) == AppendValue(values, value)
  {
    if value != "" && value !in values {
      assert value in values + [value];
    }
  }

  /** The values a header map holds for `name` in any spelling (none when
      absent). */
  function Values(headers: map<string, seq<string>>, name: string): seq<string> {
    if Lower(name) in headers then headers[Lower(name)] else []
  }

  /** `bearerTokenRequestInterceptor`: with a JWT authentication holding a
      non-empty token, adds "Bearer <token>" to the template's
      `Authorization` values, whatever case they were recorded in, unless
      it is already one of them; otherwise leaves the template untouched. */
  method ApplyBearer(template: RequestTemplate, auth: Option<Authentication>)
    modifies template
    ensures BearerHeader(auth).None? ==> template.headers == old(template.headers)
    ensures BearerHeader(auth).Some? ==>
              Values(template.headers, AuthorizationHeader) ==
                AppendValue(Values(old(template.headers), AuthorizationHeader), BearerHeader(auth).value)
    ensures forall n :: Lower(n) != Lower(AuthorizationHeader) ==>
              Values(template.headers, n) == Values(old(template.headers), n)
    ensures Normalized(old(template.headers)) ==> Normalized(template.headers)
  {
    if auth.Some? && auth.value.JwtAuth? {
      var tokenValue := auth.value.tokenValue;
      if tokenValue.Some? && tokenValue.value != "" {
        template.Header(AuthorizationHeader, BearerValue(tokenValue.value));
      }
    }
  }

  /** The call to the product service carries the same bearer credential the
      order service received from the client interceptor: a client token
      `t` forwarded as "Bearer t" comes out on the Feign request as
      "Bearer t" again. */
  lemma TokenRelayed(token: string, preferred: Option<string>, name: string, authorities: seq<string>)
    requires token != ""
    ensures BearerHeader(Some(JwtAuth(Some(token), preferred, name, authorities))) == Some(BearerValue(token))
    ensures forall other :: other != token ==>
              BearerHeader(Some(JwtAuth(Some(token), preferred, name, authorities))) != Some(BearerValue(other))
  {
    forall other | other != token
      ensures BearerValue(other) != BearerValue(token)
    {
      assert BearerValue(other)[7..] == other;
      assert BearerValue(token)[7..] == token;
    }
  }
}
