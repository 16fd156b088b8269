/** The user use case (internal/usecase/auth_UC.go, internal/usecase/user_UC.go)
    as the object the service builds once and calls per request: its repository
    and code store are the two tables it updates, the hasher, the clock, the random
    source and the event publisher come in with each call (`Env`). Every method runs
    the source's steps in order and is proved to end exactly where the function of
    the same name in `Orchestrator` says. */
module Usecase {
  import opened Domain
  import opened Strs
  import opened Orchestrator
  import Token

  class UserUsecase {
    /** The repository's users, by id. */
    var users: map<string, User>
    /** The code store: at most one outstanding code per user id. */
    var codes: map<string, VerificationCode>
    const jwt: Token.Service

    function Snapshot(): State
      reads this
    {
      State(users, codes)
    }

    ghost predicate Valid()
      reads this
    {
      Consistent(Snapshot())
    }

    /** `NewUserUsecase` over the repository and code store it is handed, given
        by their contents. */
    constructor (users0: map<string, User>, codes0: map<string, VerificationCode>, jwt: Token.Service)
      requires Consistent(State(users0, codes0))
      ensures Valid() && users == users0 && codes == codes0 && this.jwt == jwt
    {
      users := users0;
      codes := codes0;
      this.jwt := jwt;
    }

    // ------------------------------------------------- repository and store

    /** Repository lookup by e-mail: the stored user, or the repository's not-found. */
    method RepoFindByEmail(email: string) returns (r: Result<User>)
      requires Valid()
      ensures r.Ok? <==> EmailTaken(users, email)
      ensures r.Ok? ==> r.value.email == email && r.value.id in users && users[r.value.id] == r.value
      ensures r.Err? ==> r.error == RepoNotFound
    {
      if id :| id in users && users[id].email == email {
        r := Ok(users[id]);
      } else {
        r := Err(RepoNotFound);
      }
    }

    /** Repository lookup by id. */
    method RepoFindByID(id: string) returns (r: Result<User>)
      ensures r.Ok? <==> id in users
      ensures r.Ok? ==> r.value == users[id]
      ensures r.Err? ==> r.error == RepoNotFound
    {
      if id in users {
        r := Ok(users[id]);
      } else {
        r := Err(RepoNotFound);
      }
    }

    /** Repository `Create`: refuses a taken e-mail, otherwise files `u` under the
        id the repository assigns and hands the user back with that id. */
    method RepoCreate(u: User, newId: string) returns (created: User, err: Option<Error>)
      requires Valid() && newId !in users
      modifies this
      ensures Valid() && codes == old(codes)
      ensures EmailTaken(old(users), u.email) ==> err == Some(RepoEmailAlreadyUsed) && users == old(users)
      ensures !EmailTaken(old(users), u.email) ==>
        err.None? && created == u.(id := newId) && users == old(users)[newId := created]
    {
      created := u.(id := newId);
      if exists id :: id in users && users[id].email == u.email {
        err := Some(RepoEmailAlreadyUsed);
      } else {
        users := users[newId := created];
        err := None;
      }
    }

    /** Repository `Update(u, fields...)`: the stored user with `u`'s id gets the
        named fields from `u`; an e-mail another user has is refused. */
    method RepoUpdate(u: User, fields: set<Field>) returns (r: Result<User>)
      requires Valid()
      modifies this
      ensures Valid() && codes == old(codes)
      ensures u.id !in old(users) ==> r == Err(RepoNotFound) && users == old(users)
      ensures u.id in old(users) && EmailField in fields && EmailOfAnother(old(users), u.id, u.email) ==>
        r == Err(Failure("duplicate e-mail")) && users == old(users)
      ensures u.id in old(users) && !(EmailField in fields && EmailOfAnother(old(users), u.id, u.email)) ==>
        r == Ok(WithFields(old(users)[u.id], u, fields)) && users == old(users)[u.id := r.value]
    {
      if u.id !in users {
        return Err(RepoNotFound);
      }
      if EmailField in fields && EmailOfAnother(users, u.id, u.email) {
        return Err(Failure("duplicate e-mail"));
      }
      var updated := WithFields(users[u.id], u, fields);
      users := users[u.id := updated];
      r := Ok(updated);
    }

    /** Code store `Set`: files `c` under its user id, replacing any older code. */
    method CacheSet(c: VerificationCode, ok: bool) returns (err: Option<Error>)
      requires Valid()
      modifies this
      ensures Valid() && users == old(users)
      ensures ok ==> err.None? && codes == old(codes)[c.userID := c]
      ensures !ok ==> err == Some(StoreFailure) && codes == old(codes)
    {
      if !ok {
        return Some(StoreFailure);
      }
      codes := codes[c.userID := c];
      err := None;
    }

    /** Code store `Get`: the code filed under `userID`, or a miss. */
    method CacheGet(userID: string) returns (r: Result<VerificationCode>)
      ensures r.Ok? <==> userID in codes
      ensures r.Ok? ==> r.value == codes[userID]
      ensures r.Err? ==> r.error == CacheMiss
    {
      if userID in codes {
        r := Ok(codes[userID]);
      } else {
        r := Err(CacheMiss);
      }
    }

    /** Code store `Delete`: removes the code filed under `userID`, if any. */
    method CacheDelete(userID: string, ok: bool) returns (err: Option<Error>)
      requires Valid()
      modifies this
      ensures Valid() && users == old(users)
      ensures ok ==> err.None? && codes == old(codes) - {userID}
      ensures !ok ==> err == Some(StoreFailure) && codes == old(codes)
    {
      if !ok {
        return Some(StoreFailure);
      }
      codes := codes - {userID};
      err := None;
    }

    // ------------------------------------------------------------ use cases

    method Register(email: string, password: string, role: Role, env: Env) returns (r: Result<User>)
      requires Valid() && env.newId !in users
      modifies this
      ensures Valid()
      ensures Step(r, Snapshot()) == Orchestrator.Register(old(Snapshot()), email, password, role, env)
    {
      if !env.hashOk {
        return Err(Wrapped("Register Hash", HashFailure));
      }
      var usr := User("", email, "", Hash(password), role, "", false, ZeroTime, ZeroTime);
      var created, err := RepoCreate(usr, env.newId);
      if err.Some? {
        // the modelled repository refuses a user only for a taken e-mail
        return Err(EmailAlreadyExists);
      }
      if !env.publishOk {
        return Err(Wrapped("Register PublishEvent (registered)", PublishFailure));
      }
      r := Ok(created);
    }

    method Login(email: string, password: string, now: int) returns (r: Result<Session>)
      requires Valid()
      ensures r == Orchestrator.Login(Snapshot(), jwt, email, password, now)
    {
      var found := RepoFindByEmail(email);
      if found.Err? {
        // the modelled repository fails only with its not-found
        return Err(UserNotFound);
      }
      var user := found.value;
      FindByEmailIsThe(users, email, user);
      if !Verify(user.password, password) {
        return Err(InvalidCredentials);
      }
      var g := Token.Generate(jwt, user.id, user.role, now);
      if g.Err? {
        return Err(Wrapped("Login jwt.Generate", g.error));
      }
      r := Ok(Session(g.value.token, TokenPayload(user.id, user.email, user.role, g.value.issuedAt, g.value.expiresAt)));
    }

    method ValidateToken(token: string) returns (r: Result<TokenPayload>)
      ensures r == Orchestrator.ValidateToken(jwt, token)
    {
      var payload := Token.Validate(jwt, token);
      if payload.Err? {
        return Err(Wrapped("ValidateToken jwt.Validate", payload.error));
      }
      r := payload;
    }

    method SendVerificationCode(email: string, purpose: string, env: Env) returns (r: Result<()>)
      requires Valid()
      modifies this
      ensures Valid()
      ensures Step(r, Snapshot()) == Orchestrator.SendVerificationCode(old(Snapshot()), email, purpose, env)
    {
      var found := RepoFindByEmail(email);
      if found.Err? {
        // the modelled repository fails only with its not-found
        return Err(UserNotFound);
      }
      var user := found.value;
      FindByEmailIsThe(users, email, user);
      var code := Pad6(env.draw);
      var verificationCode := NewVerificationCode(user.id, code, purpose, 5 * Minute, env.now);
      var err := CacheSet(verificationCode, env.cacheOk);
      if err.Some? {
        return Err(Wrapped("SendVerificationCode cache.Set", err.value));
      }
      r := Ok(());
    }

    method VerifyCode(email: string, code: string, purpose: string, env: Env) returns (r: Result<()>)
      requires Valid()
      modifies this
      ensures Valid()
      ensures Step(r, Snapshot()) == Orchestrator.VerifyCode(old(Snapshot()), email, code, purpose, env)
    {
      var found := RepoFindByEmail(email);
      if found.Err? {
        // the modelled repository fails only with its not-found
        return Err(UserNotFound);
      }
      var user := found.value;
      FindByEmailIsThe(users, email, user);
      var cached := CacheGet(user.id);
      if cached.Err? {
        return Err(Wrapped("VerifyCode cache.Get", cached.error));
      }
      var cachedCode := cached.value;
      if cachedCode.code != code {
        return Err(CodeInvalid);
      }
      if env.now > cachedCode.expiresAt {
        return Err(CodeExpired);
      }
      if cachedCode.purpose != purpose {
        return Err(InvalidPurpose);
      }
      if purpose == PurposeEmailVerification {
        var updated := RepoUpdate(user.(verified := true), {VerifiedField});
        // the user was found a moment ago and the e-mail is not written
        assert updated.Ok?;
      } else if purpose == PurposeResetPassword {
        // the password is set by ConfirmResetPassword
      } else {
        return Err(InvalidPurpose);
      }
      var err := CacheDelete(user.id, env.cacheOk);
      if err.Some? {
        return Err(Wrapped("VerifyCode cache.Delete", err.value));
      }
      r := Ok(());
    }

    method GetUserByID(userID: string) returns (r: Result<User>)
      ensures r == Orchestrator.GetUserByID(Snapshot(), userID)
    {
      var found := RepoFindByID(userID);
      if found.Err? {
        // the modelled repository fails only with its not-found
        return Err(UserNotFound);
      }
      r := found;
    }

    method UpdateProfile(u: User) returns (r: Result<User>)
      requires Valid()
      modifies this
      ensures Valid()
      ensures Step(r, Snapshot()) == Orchestrator.UpdateProfile(old(Snapshot()), u)
    {
      var updated := RepoUpdate(u, {EmailField, UsernameField, PhoneField, UpdatedAtField});
      if updated.Err? {
        if Is(updated.error, RepoNotFound) {
          return Err(UserNotFound);
        }
        return Err(Wrapped("UpdateProfile", updated.error));
      }
      r := updated;
    }

    method ChangePassword(userID: string, oldPw: string, newPw: string) returns (r: Result<()>)
      requires Valid()
      modifies this
      ensures Valid()
      ensures Step(r, Snapshot()) == Orchestrator.ChangePassword(old(Snapshot()), userID, oldPw, newPw)
    {
      if oldPw == newPw {
        return Err(PasswordUnchanged);
      }
      var found := RepoFindByID(userID);
      if found.Err? {
        // the modelled repository fails only with its not-found
        return Err(UserNotFound);
      }
      var user := found.value;
      var updated := RepoUpdate(user, {PasswordField});
      assert updated.Ok?;
      r := Ok(());
    }

    method StartResetPassword(email: string, env: Env) returns (r: Result<()>)
      requires Valid()
      modifies this
      ensures Valid()
      ensures Step(r, Snapshot()) == Orchestrator.StartResetPassword(old(Snapshot()), email, env)
    {
      var found := RepoFindByEmail(email);
      if found.Err? {
        // the modelled repository fails only with its not-found
        return Err(UserNotFound);
      }
      var user := found.value;
      FindByEmailIsThe(users, email, user);
      var c := Pad6(env.draw);
      var code := NewVerificationCode(user.id, c, PurposeResetPassword, 10 * Minute, env.now);
      var err := CacheSet(code, env.cacheOk);
      if err.Some? {
        return Err(Wrapped("StartResetPassword cache.Set", err.value));
      }
      r := Ok(());
    }

    method ConfirmResetPassword(email: string, code: string, newPw: string, env: Env) returns (r: Result<()>)
      requires Valid()
      modifies this
      ensures Valid()
      ensures Step(r, Snapshot()) == Orchestrator.ConfirmResetPassword(old(Snapshot()), email, code, newPw, env)
    {
      var verified := VerifyCode(email, code, PurposeResetPassword, env);
      if verified.Err? {
        return Err(Wrapped("ConfirmResetPassword VerifyCode", verified.error));
      }
      var found := RepoFindByEmail(email);
      if found.Err? {
        // the modelled repository fails only with its not-found
        return Err(UserNotFound);
      }
      var user := found.value;
      FindByEmailIsThe(users, email, user);
      if !env.hashOk {
        return Err(Wrapped("ConfirmResetPassword Hash", HashFailure));
      }
      var updated := RepoUpdate(user.(password := Hash(newPw)), {PasswordField});
      assert updated.Ok?;
      // the delete's error is ignored
      var _ := CacheDelete(user.id, env.cacheOk);
      r := Ok(());
    }
  }
}
