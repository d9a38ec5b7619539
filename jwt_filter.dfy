/** The request filter that turns a bearer token into an authenticated
    principal: a whitelist of paths it skips, extraction of the token from
    the `Authorization` header (the `Bearer` form of section 2.1 of RFC 6750,
    scheme matched case-sensitively), and the decision whether to record an
    authentication. Token signature checking and subject extraction are
    parameters. */
module JwtFilter {
  import opened Common
  import opened Credentials

  /** The path prefixes that need no token. */
  const Whitelist: seq<string> := [
    "/api/v1/user/login",
    "/api/v1/user/logout",
    "/api/v1/user/register",
    "/api/v1/host/login",
    "/api/v1/host/logout",
    "/api/v1/host/register",
    "/api/v1/sendVerification",
    "/api/v1/verifyCode",
    "/api/v1/socialLogin",
    "/api/v1/socialRegister"
  ]

  const BearerPrefix: string := "Bearer "

  /** `String.startsWith`. */
  predicate StartsWith(s: string, prefix: string) {
    |prefix| <= |s| && s[..|prefix|] == prefix
  }

  /** The path starts with one of the prefixes, tried in order. */
  function AnyPrefix(path: string, prefixes: seq<string>): (r: bool)
    ensures r <==> exists i | 0 <= i < |prefixes| :: StartsWith(path, prefixes[i])
  {
    if prefixes == [] then false
    else StartsWith(path, prefixes[0]) || AnyPrefix(path, prefixes[1..])
  }

  /** `shouldNotFilter`. */
  function ShouldNotFilter(path: string): bool {
    AnyPrefix(path, Whitelist)
  }

  /** Matching is by prefix: anything that extends a skipped path is
      skipped too. */
  lemma ExtensionsSkipped(path: string, more: string)
    requires ShouldNotFilter(path)
    ensures ShouldNotFilter(path + more)
  {
    var i :| 0 <= i < |Whitelist| && StartsWith(path, Whitelist[i]);
    assert (path + more)[..|Whitelist[i]|] == path[..|Whitelist[i]|];
  }

  /** Paths that merely resemble a listed prefix are filtered. */
  lemma NearMissesFiltered()
    ensures ShouldNotFilter("/api/v1/user/login")
    ensures !ShouldNotFilter("/api/v1/login/user")
    ensures !ShouldNotFilter("/api/v1/checkEmail")
  {
    assert StartsWith("/api/v1/user/login", Whitelist[0]);
    forall i | 0 <= i < |Whitelist|
      ensures !StartsWith("/api/v1/login/user", Whitelist[i])
      ensures !StartsWith("/api/v1/checkEmail", Whitelist[i])
    {
      assert "/api/v1/login/user"[8] == 'l' && "/api/v1/checkEmail"[8] == 'c';
      assert Whitelist[i][8] in {'u', 'h', 's', 'v'};
    }
  }

  /** The token of an `Authorization` header, when the header is present
      and starts with the scheme and one space. */
  function ExtractBearerToken(header: Option<string>): (r: Option<string>)
    ensures r.Some? <==> header.Some? && StartsWith(header.value, BearerPrefix)
    ensures r.Some? ==> header.value == BearerPrefix + r.value
  {
    if header.Some? && StartsWith(header.value, BearerPrefix) then
      assert header.value == BearerPrefix + header.value[|BearerPrefix|..];
      Some(header.value[|BearerPrefix|..])
    else None
  }

  /** A bearer header gives back exactly its token. */
  lemma BearerRoundTrip(token: string)
    ensures ExtractBearerToken(Some(BearerPrefix + token)) == Some(token)
  {
    assert (BearerPrefix + token)[..|BearerPrefix|] == BearerPrefix;
    assert (BearerPrefix + token)[|BearerPrefix|..] == token;
  }

  /** The scheme is matched with its exact case. */
  lemma SchemeCaseSensitive(token: string)
    ensures ExtractBearerToken(Some("bearer " + token)) == None
  {
    assert ("bearer " + token)[0] == 'b';
  }

  /** The authentication the filter records: the user's uuid as principal,
      no credentials and no authorities. */
  datatype Authentication = Authentication(principal: string)

  /** Whom the filter authenticates for a request: someone only when the
      header carries a bearer token that validates and whose subject is the
      email of a stored user, and then that user. */
  function AuthenticatedPrincipal(header: Option<string>, validate: string -> bool,
                                  subject: string -> string, users: Table): (r: Option<Authentication>)
    ensures r.Some? <==>
              && ExtractBearerToken(header).Some?
              && validate(ExtractBearerToken(header).value)
              && subject(ExtractBearerToken(header).value) in users
    ensures r.Some? ==> r.value.principal == users[subject(ExtractBearerToken(header).value)].uuid
  {
    match ExtractBearerToken(header)
    case None => None
    case Some(token) =>
      if !validate(token) then None
      else
        var email := subject(token);
        if email !in users then None else Some(Authentication(users[email].uuid))
  }

  /** The per-request security context. */
  class SecurityContext {
    var authentication: Option<Authentication>

    constructor()
      ensures authentication.None?
    {
      authentication := None;
    }
  }

  /** The rest of the filter chain; only how often it runs is observed. */
  class FilterChain {
    var invocations: nat

    constructor()
      ensures invocations == 0
    {
      invocations := 0;
    }

    method DoFilter()
      modifies this
      ensures invocations == old(invocations) + 1
    {
      invocations := invocations + 1;
    }
  }

  /** `doFilterInternal`: records the authentication when there is one,
      leaves the context alone otherwise, and continues the chain once. */
  method DoFilterInternal(header: Option<string>, validate: string -> bool, subject: string -> string,
                          users: Repository, context: SecurityContext, chain: FilterChain)
    requires users.Valid()
    modifies context, chain
    ensures chain.invocations == old(chain.invocations) + 1
    ensures context.authentication ==
              if AuthenticatedPrincipal(header, validate, subject, users.rows).Some?
              then AuthenticatedPrincipal(header, validate, subject, users.rows)
              else old(context.authentication)
  {
    if header.Some? && StartsWith(header.value, BearerPrefix) {
      var token := header.value[7..];
      if validate(token) {
        var email := subject(token);
        var user := users.FindByEmail(email);
        if user.Some? {
          context.authentication := Some(Authentication(user.value.uuid));
        }
      }
    }
    chain.DoFilter();
  }

  /** The filter as the servlet container runs it: whitelisted paths go
      straight down the chain. */
  method DoFilter(path: string, header: Option<string>, validate: string -> bool, subject: string -> string,
                  users: Repository, context: SecurityContext, chain: FilterChain)
    requires users.Valid()
    modifies context, chain
    ensures chain.invocations == old(chain.invocations) + 1
    ensures ShouldNotFilter(path) ==> context.authentication == old(context.authentication)
    ensures !ShouldNotFilter(path) ==>
              (context.authentication ==
                 if AuthenticatedPrincipal(header, validate, subject, users.rows).Some?
                 then AuthenticatedPrincipal(header, validate, subject, users.rows)
                 else old(context.authentication))
  {
    if ShouldNotFilter(path) {
      chain.DoFilter();
    } else {
      DoFilterInternal(header, validate, subject, users, context, chain);
    }
  }
}
