/**
 * `JwtAuthenticationFilter`: every request passes through it once; a
 * request carrying `Authorization: Bearer <token>` with a valid token is
 * authenticated as the token's user, and the request always continues
 * down the filter chain.
 */
module Security {
  import opened Wrappers
  import opened Text

  /**
   * What the filter and the WebSocket handshake ask of `JwtTokenProvider`:
   * whether a token is valid, and the user id a valid token carries.
   */
  datatype TokenProvider = TokenProvider(validateToken: string -> bool, userIdFromToken: string -> int)

  const BEARER_PREFIX: string := "Bearer "

  /**
   * `getJwtFromRequest`: the `Authorization` header without its "Bearer "
   * prefix, or null when the header is missing or has another prefix (the
   * comparison is case- and space-sensitive).
   */
  function GetJwtFromRequest(authorization: Option<string>): (r: Option<string>)
    ensures authorization.None? ==> r.None?
    ensures r.Some? <==> authorization.Some? && StartsWith(authorization.value, BEARER_PREFIX)
    ensures r.Some? ==> BEARER_PREFIX + r.value == authorization.value
  {
    if authorization.Some? && StartsWith(authorization.value, BEARER_PREFIX) then
      var header := authorization.value;
      assert header == header[..7] + header[7..];
      Some(header[7..])
    else None
  }

  /** Any token sent with the exact "Bearer " prefix is extracted unchanged. */
  lemma BearerHeaderRoundTrip(token: string)
    ensures GetJwtFromRequest(Some(BEARER_PREFIX + token)) == Some(token)
  {
    var header := BEARER_PREFIX + token;
    assert header[..|BEARER_PREFIX|] == BEARER_PREFIX;
    assert header[7..] == token;
  }

  /** A lower-case scheme or a missing space is not a bearer header. */
  lemma SchemeIsCaseAndSpaceSensitive(token: string)
    ensures GetJwtFromRequest(Some("bearer " + token)).None?
    ensures GetJwtFromRequest(Some("Bearer" + token)) == None || (|token| > 0 && token[0] == ' ')
  {
    var lower := "bearer " + token;
    assert lower[0] == 'b';
    var glued := "Bearer" + token;
    if |glued| >= 7 && glued[..7] == BEARER_PREFIX {
      assert glued[6] == token[0] == ' ';
    }
  }

  /** The principal Spring Security records for the request. */
  datatype Authentication = Authentication(principal: int)

  /** The `SecurityContextHolder` context of the request's thread. */
  class SecurityContext {
    var authentication: Option<Authentication>

    constructor ()
      ensures authentication.None?
    {
      authentication := None;
    }
  }

  /** The rest of the filter chain; `passed` counts the requests handed on. */
  class FilterChain {
    var passed: nat

    constructor ()
      ensures passed == 0
    {
      passed := 0;
    }

    method DoFilter()
      modifies this
      ensures passed == old(passed) + 1
    {
      passed := passed + 1;
    }
  }

  /** A bearer header determines its token. */
  lemma BearerTokenDetermined(authorization: Option<string>)
    ensures forall token :: authorization == Some(BEARER_PREFIX + token) ==> GetJwtFromRequest(authorization) == Some(token)
  {
    forall token | authorization == Some(BEARER_PREFIX + token)
      ensures GetJwtFromRequest(authorization) == Some(token)
    {
      BearerHeaderRoundTrip(token);
    }
  }

  /**
   * The user a request is authenticated as: there is one exactly when the
   * header is "Bearer " followed by a token the provider validates, and it
   * is that token's user.
   */
  function AuthenticatedUser(authorization: Option<string>, tokens: TokenProvider): (r: Option<int>)
    ensures r.Some? <==>
      exists token :: authorization == Some(BEARER_PREFIX + token) && tokens.validateToken(token)
    ensures forall token :: authorization == Some(BEARER_PREFIX + token) ==>
      r == if tokens.validateToken(token) then Some(tokens.userIdFromToken(token)) else None
  {
    BearerTokenDetermined(authorization);
    var jwt := GetJwtFromRequest(authorization);
    if jwt.Some? && tokens.validateToken(jwt.value) then
      Some(tokens.userIdFromToken(jwt.value))
    else
      None
  }

  /**
   * `doFilterInternal`: sets the authentication (principal = the token's
   * user id) only for an extracted token that validates, and in every case
   * hands the request on down the chain.
   */
  method DoFilterInternal(authorization: Option<string>, tokens: TokenProvider, context: SecurityContext, chain: FilterChain)
    modifies context, chain
    ensures chain.passed == old(chain.passed) + 1
    ensures var user := AuthenticatedUser(authorization, tokens);
      context.authentication == if user.Some? then Some(Authentication(user.value)) else old(context.authentication)
  {
    var jwt := GetJwtFromRequest(authorization);
    if jwt.Some? && tokens.validateToken(jwt.value) {
      var userId := tokens.userIdFromToken(jwt.value);
      context.authentication := Some(Authentication(userId));
    }
    chain.DoFilter();
  }

  /** A request without a valid bearer token reaches the chain unauthenticated. */
  method AnonymousRequestPassesThrough(tokens: TokenProvider) returns (passed: nat, authenticated: bool)
    ensures passed == 1 && !authenticated
  {
    var context := new SecurityContext();
    var chain := new FilterChain();
    DoFilterInternal(None, tokens, context, chain);
    passed := chain.passed;
    authenticated := context.authentication.Some?;
  }
}
