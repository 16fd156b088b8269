/** The gRPC handlers (internal/adapters/grpc/handler.go and
    internal/adapters/grpc/user_handler.go): role conversion between the domain
    and the wire enum, and the mapping of each use case's result to a response or
    a status. A handler's state change is the state change of the use cases it
    calls, in order. */
module Handlers {
  import opened Domain
  import opened Orchestrator
  import Token
  import Codes
  import Interceptor

  // ------------------------------------------------------------------ roles

  /** The wire enum `authpb.Role`: its four named values, and any other number a
      peer may send. */
  datatype ProtoRole = RoleUnspecified | RoleAdmin | RoleTeacher | RoleStudent | RoleUnrecognized(n: int)

  /** `convertRole`: the three valid roles to their enum values, anything else to
      `Role_UNSPECIFIED`. */
  function ConvertRole(r: Role): (p: ProtoRole)
    ensures IsValid(r) <==> p != RoleUnspecified
    ensures !p.RoleUnrecognized?
  {
    if r == ADMIN then RoleAdmin
    else if r == TEACHER then RoleTeacher
    else if r == STUDENT then RoleStudent
    else RoleUnspecified
  }

  /** `convertProtoRole`: a role and an error, of which only one means anything;
      an unspecified or unknown enum value gives `UNSPECIFIED` and an error. */
  function ConvertProtoRole(p: ProtoRole): (r: (Role, Option<Error>))
    ensures r.1.None? <==> p == RoleAdmin || p == RoleTeacher || p == RoleStudent
    ensures r.1.None? ==> IsValid(r.0)
    ensures r.1.Some? ==> r.0 == UNSPECIFIED && !IsValid(r.0)
  {
    match p
    case RoleAdmin => (ADMIN, None)
    case RoleTeacher => (TEACHER, None)
    case RoleStudent => (STUDENT, None)
    case _ => (UNSPECIFIED, Some(Failure("unknown proto Role")))
  }

  /** The converters are inverse bijections between the valid roles and the three
      named enum values other than `Role_UNSPECIFIED`. */
  lemma RoleRoundTrip(r: Role, p: ProtoRole)
    ensures IsValid(r) ==> ConvertProtoRole(ConvertRole(r)) == (r, None)
    ensures ConvertProtoRole(p).1.None? ==> ConvertRole(ConvertProtoRole(p).0) == p
  {
  }

  // -------------------------------------------------------------- responses

  /** A handler's `(response, error)`: a response, a status error, or the stubs'
      `(nil, nil)`. */
  datatype Rpc<T> = Done(response: T) | Failed(status: Codes.Status) | Nil

  /** A handler's outcome and the state the use cases left behind. */
  datatype Reply<T> = Reply(rpc: Rpc<T>, post: State)

  function Fail(code: Codes.Code, message: string): Codes.Status
  {
    Codes.Status(code, message)
  }

  // ---------------------------------------------------------------- handler.go

  datatype LoginResponse = LoginResponse(accessToken: string, refreshToken: string, expiresAt: int, tokenType: string)

  /** `Login`: every use-case error, unknown e-mail and wrong password alike, is the
      same `Unauthenticated` status; success gives a bearer access token, no
      refresh token, and the token's expiry. */
  function LoginHandler(st: State, svc: Token.Service, email: string, password: string, now: int): (r: Rpc<LoginResponse>)
    requires Consistent(st)
    ensures var u := Orchestrator.Login(st, svc, email, password, now);
      && (u.Err? <==> r == Failed(Fail(Codes.Unauthenticated, "invalid email or password")))
      && (u.Ok? ==> r == Done(LoginResponse(u.value.accessToken, "", u.value.payload.expiresAt, "Bearer")))
  {
    match Orchestrator.Login(st, svc, email, password, now)
    case Err(_) => Failed(Fail(Codes.Unauthenticated, "invalid email or password"))
    case Ok(session) => Done(LoginResponse(session.accessToken, "", session.payload.expiresAt, "Bearer"))
  }

  /** A caller cannot tell an unknown e-mail from a wrong password. */
  lemma LoginHidesWhichCheckFailed(st: State, svc: Token.Service, unknown: string, known: string, wrong: string, pw: string, now: int)
    requires Consistent(st)
    requires !EmailTaken(st.users, unknown)
    requires EmailTaken(st.users, known) && !Verify(FindByEmail(st.users, known).value.password, wrong)
    ensures LoginHandler(st, svc, unknown, pw, now) == LoginHandler(st, svc, known, wrong, now)
    ensures LoginHandler(st, svc, unknown, pw, now).Failed?
  {
  }

  datatype RegisterResponse = RegisterResponse(success: bool, message: string, accessToken: string)

  /** `Register`: an enum value that names no valid role is `InvalidArgument`
      before the use case runs; any use-case error, a taken e-mail included, is
      `Internal`. */
  function RegisterHandler(st: State, email: string, password: string, role: ProtoRole, env: Env): (r: Reply<RegisterResponse>)
    requires Consistent(st) && env.newId !in st.users
    ensures Consistent(r.post)
    ensures ConvertProtoRole(role).1.Some? ==> r == Reply(Failed(Fail(Codes.InvalidArgument, "invalid role")), st)
    ensures ConvertProtoRole(role).1.None? ==>
      var u := Orchestrator.Register(st, email, password, ConvertProtoRole(role).0, env);
      && r.post == u.post
      && (u.result.Err? <==> r.rpc == Failed(Fail(Codes.Internal, "failed to register user")))
      && (u.result.Ok? <==> r.rpc == Done(RegisterResponse(true, "User Registered", "")))
  {
    var (domainRole, err) := ConvertProtoRole(role);
    if err.Some? then Reply(Failed(Fail(Codes.InvalidArgument, "invalid role")), st)
    else
      var u := Orchestrator.Register(st, email, password, domainRole, env);
      match u.result
      case Err(_) => Reply(Failed(Fail(Codes.Internal, "failed to register user")), u.post)
      case Ok(_) => Reply(Done(RegisterResponse(true, "User Registered", "")), u.post)
  }

  /** Through this handler only valid roles ever reach the user table. */
  lemma RegisterStoresOnlyValidRoles(st: State, email: string, password: string, role: ProtoRole, env: Env)
    requires Consistent(st) && env.newId !in st.users
    requires forall id :: id in st.users ==> IsValid(st.users[id].role)
    ensures var r := RegisterHandler(st, email, password, role, env);
      forall id :: id in r.post.users ==> IsValid(r.post.users[id].role)
  {
  }

  /** A taken e-mail is answered `Internal`, like any other failure. */
  lemma DuplicateEmailIsInternal(st: State, email: string, password: string, role: ProtoRole, env: Env)
    requires Consistent(st) && env.newId !in st.users
    requires EmailTaken(st.users, email) && env.hashOk && ConvertProtoRole(role).1.None?
    ensures RegisterHandler(st, email, password, role, env) == Reply(Failed(Fail(Codes.Internal, "failed to register user")), st)
  {
  }

  datatype ValidateTokenResponse = ValidateTokenResponse(valid: bool, userId: string, role: ProtoRole, expiresAt: int)

  /** `ValidateToken`: any error is `InvalidArgument`; success reports the
      subject, the role on the wire and the expiry. */
  function ValidateTokenHandler(svc: Token.Service, jwt: string): (r: Rpc<ValidateTokenResponse>)
    ensures var u := Orchestrator.ValidateToken(svc, jwt);
      && (u.Err? <==> r == Failed(Fail(Codes.InvalidArgument, "invalid token")))
      && (u.Ok? ==> r == Done(ValidateTokenResponse(true, u.value.userID, ConvertRole(u.value.role), u.value.expiresAt)))
  {
    match Orchestrator.ValidateToken(svc, jwt)
    case Err(_) => Failed(Fail(Codes.InvalidArgument, "invalid token"))
    case Ok(payload) => Done(ValidateTokenResponse(true, payload.userID, ConvertRole(payload.role), payload.expiresAt))
  }

  /** A token that `Login` issued, and that the JWT library accepts with the claims
      it signed, validates to the user's id, role and expiry. */
  lemma LoginTokenValidates(st: State, svc: Token.Service, email: string, password: string, now: int)
    requires Consistent(st)
    requires Orchestrator.Login(st, svc, email, password, now).Ok?
    requires var u := FindByEmail(st.users, email).value;
      var g := Token.Generate(svc, u.id, u.role, now).value;
      svc.lib.parse(g.token, svc.secretKey) == Token.Parsed(true, Token.GeneratedClaims(u.id, u.role, g.issuedAt, g.expiresAt))
    ensures var s := Orchestrator.Login(st, svc, email, password, now).value;
      ValidateTokenHandler(svc, s.accessToken)
        == Done(ValidateTokenResponse(true, s.payload.userID, ConvertRole(s.payload.role), s.payload.expiresAt))
  {
    var u := FindByEmail(st.users, email).value;
    Token.GenerateValidateRoundTrip(svc, u.id, u.role, now);
  }

  // ----------------------------------------------------------- user_handler.go

  /** `authpb.User` as the handlers fill it in: the stored hash included. */
  datatype UserMessage = UserMessage(userId: string, email: string, username: string, password: string, role: ProtoRole, phone: string)

  function ToMessage(u: User): (m: UserMessage)
    ensures m.userId == u.id && m.email == u.email && m.username == u.username
    ensures m.password == u.password && m.phone == u.phone && m.role == ConvertRole(u.role)
  {
    UserMessage(u.id, u.email, u.username, u.password, ConvertRole(u.role), u.phone)
  }

  datatype UserResponse = UserResponse(success: bool, message: string, user: UserMessage)

  /** `GetUserByID` (the admin-only version): the caller's payload must be in the
      context and carry the admin role, both checked before the use case; a lookup
      error is `NotFound`. */
  function GetUserByIDHandler(st: State, ctx: Interceptor.CallContext, userId: string): (r: Rpc<UserResponse>)
    ensures Interceptor.UserCtxKey !in ctx.values ==> r == Failed(Fail(Codes.Unauthenticated, "invalid context claims"))
    ensures Interceptor.UserCtxKey in ctx.values && ctx.values[Interceptor.UserCtxKey].role != ADMIN ==>
      r == Failed(Fail(Codes.PermissionDenied, "admin access required"))
    ensures r.Done? <==>
      Interceptor.UserCtxKey in ctx.values && ctx.values[Interceptor.UserCtxKey].role == ADMIN && userId in st.users
    ensures r.Done? ==> r.response == UserResponse(true, "user found", ToMessage(st.users[userId]))
    ensures Interceptor.UserCtxKey in ctx.values && ctx.values[Interceptor.UserCtxKey].role == ADMIN && userId !in st.users ==>
      r == Failed(Fail(Codes.NotFound, "failed to find by ID"))
  {
    if Interceptor.UserCtxKey !in ctx.values then Failed(Fail(Codes.Unauthenticated, "invalid context claims"))
    else if ctx.values[Interceptor.UserCtxKey].role != ADMIN then Failed(Fail(Codes.PermissionDenied, "admin access required"))
    else match Orchestrator.GetUserByID(st, userId)
      case Err(_) => Failed(Fail(Codes.NotFound, "failed to find by ID"))
      case Ok(usr) => Done(UserResponse(true, "user found", ToMessage(usr)))
  }

  /** The profile `UpdateUserProfile` builds from the request: id, e-mail, username
      and phone; every other field is Go's zero value, the update time included. */
  function ProfileFromRequest(userId: string, email: string, username: string, phone: string): (u: User)
    ensures u.id == userId && u.email == email && u.username == username && u.phone == phone
    ensures u.updatedAt == ZeroTime
  {
    User(userId, email, username, "", UNSPECIFIED, phone, false, ZeroTime, ZeroTime)
  }

  /** `UpdateUserProfile`: any use-case error is `Internal`; success echoes the
      updated user. The stored update time becomes Go's zero time. */
  function UpdateUserProfileHandler(st: State, userId: string, email: string, username: string, phone: string): (r: Reply<UserResponse>)
    requires Consistent(st)
    ensures Consistent(r.post)
    ensures var u := Orchestrator.UpdateProfile(st, ProfileFromRequest(userId, email, username, phone));
      && r.post == u.post
      && (u.result.Err? <==> r.rpc == Failed(Fail(Codes.Internal, "failed to update user")))
      && (u.result.Ok? ==> r.rpc == Done(UserResponse(true, "user updated", ToMessage(u.result.value))))
    ensures r.rpc.Done? ==>
      && userId in st.users
      && r.post.users[userId].updatedAt == ZeroTime
      && r.post.users[userId].email == email
      && r.post.users[userId].password == st.users[userId].password
  {
    var u := Orchestrator.UpdateProfile(st, ProfileFromRequest(userId, email, username, phone));
    match u.result
    case Err(_) => Reply(Failed(Fail(Codes.Internal, "failed to update user")), u.post)
    case Ok(usr) => Reply(Done(UserResponse(true, "user updated", ToMessage(usr))), u.post)
  }

  datatype Ack = Ack(success: bool, message: string)

  /** `SendVerificationCode` handler: a stub answering `(nil, nil)`. */
  function SendVerificationCodeHandler(st: State, email: string): (r: Reply<Ack>)
    ensures r == Reply(Nil, st)
  {
    Reply(Nil, st)
  }

  /** `VerifyAccount` handler: a stub answering `(nil, nil)`. */
  function VerifyAccountHandler(st: State, email: string, code: string): (r: Reply<Ack>)
    ensures r == Reply(Nil, st)
  {
    Reply(Nil, st)
  }

  /** `ChangePassword` handler: any use-case error is `Internal`. */
  function ChangePasswordHandler(st: State, userId: string, oldPw: string, newPw: string): (r: Reply<Ack>)
    requires Consistent(st)
    ensures r.post == st
    ensures var u := Orchestrator.ChangePassword(st, userId, oldPw, newPw);
      && (u.result.Err? <==> r.rpc == Failed(Fail(Codes.Internal, "failed to change password")))
      && (u.result.Ok? <==> r.rpc == Done(Ack(true, "password changed")))
  {
    var u := Orchestrator.ChangePassword(st, userId, oldPw, newPw);
    match u.result
    case Err(_) => Reply(Failed(Fail(Codes.Internal, "failed to change password")), u.post)
    case Ok(_) => Reply(Done(Ack(true, "password changed")), u.post)
  }

  /** `ResetPassword` handler: issues the code through `SendVerificationCode` with
      purpose `reset_password`, so it lives five minutes, not the ten of
      `StartResetPassword`; any error is `Internal` and quotes the error. */
  function ResetPasswordHandler(st: State, email: string, env: Env): (r: Reply<Ack>)
    requires Consistent(st)
    ensures Consistent(r.post)
    ensures var u := SendVerificationCode(st, email, PurposeResetPassword, env);
      && r.post == u.post
      && (u.result.Err? ==> r.rpc == Failed(Fail(Codes.Internal, "failed to send reset code: " + Text(u.result.error))))
      && (u.result.Ok? <==> r.rpc == Done(Ack(true, "Reset code sent to email")))
    ensures r.rpc.Done? ==>
      var id := FindByEmail(st.users, email).value.id;
      r.post.codes[id].purpose == PurposeResetPassword && r.post.codes[id].expiresAt == env.now + 5 * Minute
  {
    var u := SendVerificationCode(st, email, PurposeResetPassword, env);
    match u.result
    case Err(e) => Reply(Failed(Fail(Codes.Internal, "failed to send reset code: " + Text(e))), u.post)
    case Ok(_) => Reply(Done(Ack(true, "Reset code sent to email")), u.post)
  }

  /** The status `ConfirmResetPassword` gives a failed verification: a wrong or
      expired code, however deeply wrapped, is `InvalidArgument`, anything else
      `Internal`. */
  function VerifyFailureStatus(e: Error): (s: Codes.Status)
    ensures s.code == Codes.InvalidArgument <==> Is(e, CodeInvalid) || Is(e, CodeExpired)
    ensures s.code == Codes.InvalidArgument || s.code == Codes.Internal
  {
    if Is(e, CodeInvalid) || Is(e, CodeExpired) then Fail(Codes.InvalidArgument, "invalid or expired code")
    else Fail(Codes.Internal, "failed to verify code: " + Text(e))
  }

  /** `ConfirmResetPassword` handler as written: it verifies the code itself (one
      use-case call, clock `first`), then calls the use case, which verifies it a
      second time (clock `second`). */
  function ConfirmResetPasswordHandler(st: State, email: string, code: string, newPw: string, first: Env, second: Env): (r: Reply<Ack>)
    requires Consistent(st)
    ensures Consistent(r.post)
    ensures var v := VerifyCode(st, email, code, PurposeResetPassword, first);
      v.result.Err? ==> r == Reply(Failed(VerifyFailureStatus(v.result.error)), v.post)
  {
    var v := VerifyCode(st, email, code, PurposeResetPassword, first);
    match v.result
    case Err(e) => Reply(Failed(VerifyFailureStatus(e)), v.post)
    case Ok(_) =>
      var c := Orchestrator.ConfirmResetPassword(v.post, email, code, newPw, second);
      match c.result
      case Err(e) => Reply(Failed(Fail(Codes.Internal, "failed to reset password: " + Text(e))), c.post)
      case Ok(_) => Reply(Done(Ack(true, "Password has been reset")), c.post)
  }

  /** As written, the handler never resets a password: when its own check passes it
      has consumed the code, so the use case's check meets an empty store and the
      answer is `Internal`. No input at all gets `OK` or a changed password. */
  lemma {:induction false} ConfirmResetNeverSucceeds(st: State, email: string, code: string, newPw: string, first: Env, second: Env)
    requires Consistent(st)
    ensures var r := ConfirmResetPasswordHandler(st, email, code, newPw, first, second);
      && r.rpc.Failed?
      && r.post.users == st.users
    ensures VerifyCode(st, email, code, PurposeResetPassword, first).result.Ok? ==>
      ConfirmResetPasswordHandler(st, email, code, newPw, first, second).rpc.status ==
        Fail(Codes.Internal, "failed to reset password: " + Text(Wrapped("ConfirmResetPassword VerifyCode", Wrapped("VerifyCode cache.Get", CacheMiss))))
  {
    var v := VerifyCode(st, email, code, PurposeResetPassword, first);
    if v.result.Ok? {
      var u := FindByEmail(st.users, email).value;
      assert v.post.users == st.users;
      assert u.id !in v.post.codes;
      assert FindByEmail(v.post.users, email) == Some(u);
    }
  }

  /** The handler as evidently intended: one verification, inside the use case,
      with the same mapping of a wrong or expired code to `InvalidArgument`. */
  function ConfirmResetPasswordHandlerFixed(st: State, email: string, code: string, newPw: string, env: Env): (r: Reply<Ack>)
    requires Consistent(st)
    ensures Consistent(r.post)
    ensures var c := Orchestrator.ConfirmResetPassword(st, email, code, newPw, env);
      && r.post == c.post
      && (c.result.Ok? <==> r.rpc == Done(Ack(true, "Password has been reset")))
      && (c.result.Err? ==> r.rpc == Failed(VerifyFailureStatus(c.result.error)))
  {
    var c := Orchestrator.ConfirmResetPassword(st, email, code, newPw, env);
    match c.result
    case Err(e) => Reply(Failed(VerifyFailureStatus(e)), c.post)
    case Ok(_) => Reply(Done(Ack(true, "Password has been reset")), c.post)
  }

  /** With the fixed handler, the code the `ResetPassword` handler issued resets the
      password when presented within its five minutes, and a wrong code is still
      `InvalidArgument` with nothing changed. */
  lemma {:induction false} FixedConfirmResets(st: State, email: string, newPw: string, guess: string, issue: Env, confirm: Env)
    requires Consistent(st)
    requires ResetPasswordHandler(st, email, issue).rpc.Done?
    requires confirm.now <= issue.now + 5 * Minute && confirm.cacheOk && confirm.hashOk
    requires guess != Strs.Pad6(issue.draw)
    ensures var s1 := ResetPasswordHandler(st, email, issue).post;
      var u := FindByEmail(st.users, email).value;
      var r := ConfirmResetPasswordHandlerFixed(s1, email, Strs.Pad6(issue.draw), newPw, confirm);
      && r.rpc == Done(Ack(true, "Password has been reset"))
      && r.post.users == st.users[u.id := u.(password := Hash(newPw))]
    ensures var s1 := ResetPasswordHandler(st, email, issue).post;
      var r := ConfirmResetPasswordHandlerFixed(s1, email, guess, newPw, confirm);
      r == Reply(Failed(Fail(Codes.InvalidArgument, "invalid or expired code")), s1)
  {
    var s1 := ResetPasswordHandler(st, email, issue).post;
    var u := FindByEmail(st.users, email).value;
    assert s1.users == st.users;
    var users' := st.users[u.id := u.(password := Hash(newPw))];
    assert forall k :: k in users' ==> k in st.users && users'[k].email == st.users[k].email;
    FindByEmailIsThe(users', email, users'[u.id]);
    var v := VerifyCode(s1, email, guess, PurposeResetPassword, confirm);
    assert v == Step(Err(CodeInvalid), s1);
    assert Is(Wrapped("ConfirmResetPassword VerifyCode", CodeInvalid), CodeInvalid);
  }
}
