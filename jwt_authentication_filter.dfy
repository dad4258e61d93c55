/**
 * JwtAuthenticationFilter.doFilterInternal: every request must carry an `Authorization:
 * Bearer <token>` header; when no authentication is bound yet, the token's subject is loaded
 * through `loadUserByUsername` and bound to the security context, and then the request goes
 * down the filter chain.
 *
 * `getUsername` stands for JwtService.getUsername: None when jjwt rejects the token
 * (a JwtException), otherwise the subject it carries. A valid token without a subject, for
 * which jjwt returns null and the lookup throws UserNotFound(null), is not modelled: every
 * token generateToken issues carries one.
 */
module AuthenticationFilter {
  import opened Wrappers
  import opened Errors
  import opened UserEntities
  import opened Store
  import UserService

  const BearerPrefix: string := "Bearer "

  /** The parts of an HttpServletRequest the filter reads. */
  datatype Request = Request(authorization: Option<string>, remoteAddress: string, sessionId: Option<string>)

  /** `new WebAuthenticationDetailsSource().buildDetails(request)`. */
  datatype Details = Details(remoteAddress: string, sessionId: Option<string>)

  /**
   * A UsernamePasswordAuthenticationToken. The three-argument constructor marks it
   * authenticated; UserEntity.getAuthorities returns null, which the token stores as no
   * authorities.
   */
  datatype Authentication = Authentication(
    principal: UserEntity,
    credentials: Option<string>,
    authorities: seq<string>,
    authenticated: bool,
    details: Details)

  /** What one pass through the filter leaves behind. */
  datatype FilterOutcome = FilterOutcome(
    authentication: Option<Authentication>,
    result: Result<(), Error>,
    chainInvoked: bool)

  /** `ObjectUtils.isEmpty` on a header value: absent or the empty string. */
  predicate IsEmpty(authorization: Option<string>)
  {
    authorization.None? || |authorization.value| == 0
  }

  /** The first guard of the filter lets exactly these headers through. */
  predicate HasBearerPrefix(authorization: Option<string>)
  {
    !IsEmpty(authorization) && BearerPrefix <= authorization.value
  }

  /** `authorization.substring(BEARER_PREFIX.length())`. */
  function AccessToken(authorization: string): (t: string)
    requires BearerPrefix <= authorization
    ensures BearerPrefix + t == authorization
  {
    authorization[|BearerPrefix|..]
  }

  function DetailsOf(request: Request): Details
  {
    Details(request.remoteAddress, request.sessionId)
  }

  function Bind(user: UserEntity, request: Request): (a: Authentication)
    ensures a.principal == user && a.credentials.None? && a.authorities == [] && a.authenticated
    ensures a.details == DetailsOf(request)
  {
    Authentication(user, None, [], true, DetailsOf(request))
  }

  /** One pass of doFilterInternal over the store `s`, with `current` the authentication already in the context. */
  function Filter(s: BoardState, request: Request, current: Option<Authentication>, getUsername: string -> Option<string>)
    : (o: FilterOutcome)
    requires UniqueVisibleUsernames(s.users)
    ensures o.result == Err(JwtTokenNotFound) <==> !HasBearerPrefix(request.authorization)
    ensures o.chainInvoked <==> o.result.Ok?
    ensures current.Some? ==> o.authentication == current
    ensures o.result.Err? ==> o.authentication == current
    ensures o.authentication != current ==>
      && current.None? && o.result.Ok?
      && o.authentication == Some(Bind(o.authentication.value.principal, request))
  {
    if IsEmpty(request.authorization) || !(BearerPrefix <= request.authorization.value) then
      FilterOutcome(current, Err(JwtTokenNotFound), false)
    else if current.None? then
      match getUsername(AccessToken(request.authorization.value))
      case None => FilterOutcome(current, Err(InvalidToken), false)
      case Some(username) =>
        match UserService.LoadUserByUsername(s, username)
        case Err(e) => FilterOutcome(current, Err(e), false)
        case Ok(user) => FilterOutcome(Some(Bind(user, request)), Ok(()), true)
    else
      FilterOutcome(current, Ok(()), true)
  }

  /** The token handed to JwtService is the header with its seven-character prefix removed. */
  lemma {:induction false} AccessTokenOfBearer(t: string)
    ensures BearerPrefix <= BearerPrefix + t && AccessToken(BearerPrefix + t) == t
  {
    assert (BearerPrefix + t)[..|BearerPrefix|] == BearerPrefix;
    assert (BearerPrefix + t)[|BearerPrefix|..] == t;
  }

  /** A header without the prefix is refused, the context is left alone and the chain does not run. */
  lemma RejectsWithoutBearer(s: BoardState, request: Request, current: Option<Authentication>, getUsername: string -> Option<string>)
    requires UniqueVisibleUsernames(s.users) && !HasBearerPrefix(request.authorization)
    ensures Filter(s, request, current, getUsername) == FilterOutcome(current, Err(JwtTokenNotFound), false)
  {
  }

  /**
   * With an authentication already bound, the token is not even resolved: the context keeps
   * what it held and the chain runs.
   */
  lemma KeepsExistingAuthentication(s: BoardState, request: Request, current: Option<Authentication>, getUsername: string -> Option<string>)
    requires UniqueVisibleUsernames(s.users) && HasBearerPrefix(request.authorization) && current.Some?
    ensures Filter(s, request, current, getUsername) == FilterOutcome(current, Ok(()), true)
  {
  }

  /**
   * Otherwise the context ends up bound exactly when the subject resolves to a visible user,
   * and then to that user's row; a failed resolution or lookup leaves the context unset and
   * surfaces its exception.
   */
  lemma BindsTokenSubject(s: BoardState, t: string, address: string, session: Option<string>, getUsername: string -> Option<string>)
    requires WellFormed(s)
    ensures var request := Request(Some(BearerPrefix + t), address, session);
      var o := Filter(s, request, None, getUsername);
      && (getUsername(t).None? ==> o == FilterOutcome(None, Err(InvalidToken), false))
      && (getUsername(t).Some? ==>
            var name := getUsername(t).value;
            && (o.authentication.Some? <==>
                  exists k :: k in s.users && UserEntities.Visible(s.users[k]) && s.users[k].username == name)
            && (o.authentication.None? ==> o.result == Err(UserNotFound(Some(name))))
            && (o.authentication.Some? ==>
                  && o.authentication.value.principal.username == name
                  && ActingUser(s, o.authentication.value.principal)
                  && o.authentication.value == Bind(o.authentication.value.principal, request)))
  {
    AccessTokenOfBearer(t);
    var request := Request(Some(BearerPrefix + t), address, session);
    var o := Filter(s, request, None, getUsername);
    if getUsername(t).Some? {
      var name := getUsername(t).value;
      if o.authentication.Some? {
        var k := FindByUsername(s, name).value;
        assert o.authentication.value.principal == s.users[k];
        assert s.users[k].id == Some(k);
      }
    }
  }

  /** A request that passed once passes again with what it bound, binding nothing new. */
  lemma FilterIsIdempotent(s: BoardState, request: Request, current: Option<Authentication>, getUsername: string -> Option<string>)
    requires UniqueVisibleUsernames(s.users)
    ensures var o := Filter(s, request, current, getUsername);
      o.result.Ok? ==> Filter(s, request, o.authentication, getUsername) == o
  {
  }

  // ---------------------------------------------------------------- the filter on its collaborators

  /** SecurityContextHolder's context for the current thread. */
  class SecurityContext {
    var authentication: Option<Authentication>

    constructor ()
      ensures authentication.None?
    {
      authentication := None;
    }

    method SetAuthentication(a: Authentication)
      modifies this
      ensures authentication == Some(a)
    {
      authentication := Some(a);
    }
  }

  /** The rest of the filter chain, recording each request handed to it. */
  class FilterChain {
    var forwarded: seq<Request>

    constructor ()
      ensures forwarded == []
    {
      forwarded := [];
    }

    method DoFilter(request: Request)
      modifies this
      ensures forwarded == old(forwarded) + [request]
    {
      forwarded := forwarded + [request];
    }
  }

  /**
   * doFilterInternal. `SecurityContextHolder.setContext(securityContext)` stores back the
   * context that was just updated, so it changes nothing further.
   */
  method DoFilterInternal(board: Board, request: Request, context: SecurityContext, chain: FilterChain,
                          getUsername: string -> Option<string>)
    returns (r: Result<(), Error>)
    requires board.Valid()
    modifies context, chain
    ensures var o := Filter(board.State(), request, old(context.authentication), getUsername);
      && r == o.result && context.authentication == o.authentication
      && chain.forwarded == old(chain.forwarded) + (if o.chainInvoked then [request] else [])
  {
    var authorization := request.authorization;
    if IsEmpty(authorization) || !(BearerPrefix <= authorization.value) {
      return Err(JwtTokenNotFound);
    }
    if !IsEmpty(authorization) && BearerPrefix <= authorization.value && context.authentication.None? {
      var accessToken := AccessToken(authorization.value);
      var username := getUsername(accessToken);
      if username.None? {
        return Err(InvalidToken);
      }
      var userDetails := UserService.LoadUserByUsername(board.State(), username.value);
      if userDetails.Err? {
        return Err(userDetails.error);
      }
      var authenticationToken := Bind(userDetails.value, request);
      context.SetAuthentication(authenticationToken);
    }
    chain.DoFilter(request);
    r := Ok(());
  }
}
