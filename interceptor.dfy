/** The authentication interceptor (internal/adapters/grpc/middleware/interseptors.go):
    a per-call gate that lets listed methods through, and otherwise demands a
    bearer token in the `authorization` metadata, validates it and attaches its
    payload to the call context. */
module Interceptor {
  import opened Domain
  import opened Strs
  import Token
  import Codes

  /** The context key under which the validated payload travels. */
  const UserCtxKey: string := "userClaims"

  const BearerPrefix: string := "Bearer "

  /** Incoming metadata: each key with its list of values. */
  type Metadata = map<string, seq<string>>

  /** A call's context: the incoming metadata, if the transport attached any, and
      the payloads stored in it by key. */
  datatype CallContext = CallContext(incoming: Option<Metadata>, values: map<string, TokenPayload>)

  datatype AuthInterceptor = AuthInterceptor(skipMethods: set<string>, jwt: Token.Service)

  /** `NewAuthInterceptor`: the skip set holds exactly the names given; a name
      listed twice is held once. */
  method NewAuthInterceptor(skip: seq<string>, jwt: Token.Service) returns (i: AuthInterceptor)
    ensures i.jwt == jwt
    ensures forall m :: m in i.skipMethods <==> m in skip
    ensures |i.skipMethods| <= |skip|
  {
    var sm: set<string> := {};
    for k := 0 to |skip|
      invariant forall m :: m in sm <==> m in skip[..k]
      invariant |sm| <= k
    {
      sm := sm + {skip[k]};
    }
    assert skip[..|skip|] == skip;
    i := AuthInterceptor(sm, jwt);
  }

  /** The token in an `authorization` value: one leading "Bearer " (exactly that
      case, with its space) removed, then white space trimmed from both ends. */
  function BearerToken(header: string): (t: string)
    ensures Trimmed(t)
    ensures !HasPrefix(header, BearerPrefix) ==> t == TrimSpace(header)
  {
    TrimSpace(TrimPrefix(header, BearerPrefix))
  }

  /** A well-formed header gives back its token, whatever white space pads it. */
  lemma BearerTokenOfHeader(pad: string, token: string, trailing: string)
    requires AllSpace(pad) && AllSpace(trailing) && Trimmed(token)
    ensures BearerToken(BearerPrefix + pad + token + trailing) == token
  {
    var h := BearerPrefix + pad + token + trailing;
    assert h[..|BearerPrefix|] == BearerPrefix;
    assert h[|BearerPrefix|..] == pad + token + trailing;
    TrimSpaceSurrounded(pad, token, trailing);
  }

  /** Only one prefix is removed: a doubled scheme leaves the second copy in the token. */
  lemma BearerTokenStripsOnce(token: string)
    requires token != [] && Trimmed(token)
    ensures BearerToken(BearerPrefix + BearerPrefix + token) == BearerPrefix + token
  {
    var h := BearerPrefix + BearerPrefix + token;
    var rest := BearerPrefix + token;
    assert h[..|BearerPrefix|] == BearerPrefix;
    assert h[|BearerPrefix|..] == rest;
    assert rest[0] == 'B' && rest[|rest| - 1] == token[|token| - 1];
    assert [] + rest + [] == rest;
    TrimSpaceSurrounded([], rest, []);
  }

  /** The first `authorization` value, when the call carries metadata with at
      least one. */
  function AuthorizationHeader(ctx: CallContext): (h: Option<string>)
    ensures h.Some? <==> ctx.incoming.Some? && "authorization" in ctx.incoming.value
                         && |ctx.incoming.value["authorization"]| > 0
    ensures h.Some? ==> h.value == ctx.incoming.value["authorization"][0]
  {
    if ctx.incoming.None? then None
    else if "authorization" !in ctx.incoming.value || |ctx.incoming.value["authorization"]| == 0 then None
    else Some(ctx.incoming.value["authorization"][0])
  }

  /** What the gate does with a call: reject it with a status (the handler is not
      called), or call the handler once with the given context. */
  datatype Decision = Reject(status: Codes.Status) | Proceed(ctx: CallContext)

  /** `UnaryAuthentificate` for a call to `fullMethod`. */
  function UnaryAuthentificate(i: AuthInterceptor, ctx: CallContext, fullMethod: string): (d: Decision)
    // a listed method goes through with its context untouched, whatever the token service says
    ensures fullMethod in i.skipMethods ==> d == Proceed(ctx)
    // otherwise no metadata or no authorization value: Unauthenticated
    ensures fullMethod !in i.skipMethods && AuthorizationHeader(ctx).None? ==>
      d.Reject? && d.status.code == Codes.Unauthenticated
    // otherwise the first value's token decides, and any validation error is Unauthenticated
    ensures fullMethod !in i.skipMethods && AuthorizationHeader(ctx).Some? ==>
      var v := Token.Validate(i.jwt, BearerToken(AuthorizationHeader(ctx).value));
      && (v.Err? ==> d == Reject(Codes.Status(Codes.Unauthenticated, "invalid token")))
      && (v.Ok? ==> d == Proceed(ctx.(values := ctx.values[UserCtxKey := v.value])))
  {
    if fullMethod in i.skipMethods then Proceed(ctx)
    else if ctx.incoming.None? then Reject(Codes.Status(Codes.Unauthenticated, "missing metadata"))
    else match AuthorizationHeader(ctx)
      case None => Reject(Codes.Status(Codes.Unauthenticated, "authorization header not supplied"))
      case Some(header) =>
        match Token.Validate(i.jwt, BearerToken(header))
        case Err(_) => Reject(Codes.Status(Codes.Unauthenticated, "invalid token"))
        case Ok(claims) => Proceed(ctx.(values := ctx.values[UserCtxKey := claims]))
  }

  /** A call that gets past the gate either is a listed method or carries, under
      `UserCtxKey`, the payload its token validates to. */
  lemma AdmittedCallIsAuthenticated(i: AuthInterceptor, ctx: CallContext, fullMethod: string)
    requires UnaryAuthentificate(i, ctx, fullMethod).Proceed?
    requires fullMethod !in i.skipMethods
    ensures var d := UnaryAuthentificate(i, ctx, fullMethod);
      && AuthorizationHeader(ctx).Some?
      && UserCtxKey in d.ctx.values
      && Token.Validate(i.jwt, BearerToken(AuthorizationHeader(ctx).value)) == Ok(d.ctx.values[UserCtxKey])
  {
  }
}
