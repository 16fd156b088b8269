/** The use cases of internal/usecase/auth_UC.go and internal/usecase/user_UC.go as
    functions of the state they act on: the user table (the repository) and the
    one-time-code store, both keyed by user id. Each function returns the
    operation's result and the state after it; the class in usecase.dfy runs the
    same operations step by step and is proved to end in the same place. */
module Orchestrator {
  import opened Domain
  import opened Strs
  import Token

  datatype State = State(users: map<string, User>, codes: map<string, VerificationCode>)

  predicate KeyedById(users: map<string, User>)
  {
    forall id :: id in users ==> users[id].id == id
  }

  predicate UniqueEmails(users: map<string, User>)
  {
    forall a, b :: a in users && b in users && users[a].email == users[b].email ==> a == b
  }

  /** What the repository and the code store guarantee: users are filed under their
      id, e-mails are unique (the repository refuses a second one), and a code is
      filed under the id of the user it was issued to. */
  predicate Consistent(st: State)
  {
    && KeyedById(st.users)
    && UniqueEmails(st.users)
    && (forall id :: id in st.codes ==> st.codes[id].userID == id)
  }

  predicate EmailTaken(users: map<string, User>, email: string)
  {
    exists id :: id in users && users[id].email == email
  }

  /** The repository's `FindByEmail`: the one user with that e-mail, if any. */
  function FindByEmail(users: map<string, User>, email: string): (r: Option<User>)
    requires KeyedById(users) && UniqueEmails(users)
    ensures r.Some? <==> EmailTaken(users, email)
    ensures r.Some? ==> r.value.email == email && r.value.id in users && users[r.value.id] == r.value
  {
    if EmailTaken(users, email) then
      var id :| id in users && users[id].email == email;
      Some(users[id])
    else None
  }

  /** With unique e-mails, any stored user with the e-mail is the one `FindByEmail`
      returns. */
  lemma FindByEmailIsThe(users: map<string, User>, email: string, u: User)
    requires KeyedById(users) && UniqueEmails(users)
    requires u.id in users && users[u.id] == u && u.email == email
    ensures FindByEmail(users, email) == Some(u)
  {
    var found := FindByEmail(users, email).value;
    assert users[found.id].email == users[u.id].email;
  }

  /** The fields the repository's `Update` can be told to write. */
  datatype Field = EmailField | UsernameField | PasswordField | PhoneField | VerifiedField | UpdatedAtField

  /** The repository's `Update(u, fields...)`: the stored user with the named fields
      taken from `u` and every other field kept. */
  function WithFields(stored: User, u: User, fields: set<Field>): (r: User)
    ensures r.id == stored.id && r.role == stored.role && r.createdAt == stored.createdAt
    ensures r.email == (if EmailField in fields then u.email else stored.email)
    ensures r.username == (if UsernameField in fields then u.username else stored.username)
    ensures r.password == (if PasswordField in fields then u.password else stored.password)
    ensures r.phone == (if PhoneField in fields then u.phone else stored.phone)
    ensures r.verified == (if VerifiedField in fields then u.verified else stored.verified)
    ensures r.updatedAt == (if UpdatedAtField in fields then u.updatedAt else stored.updatedAt)
    ensures fields == {} ==> r == stored
  {
    stored.(
      email := if EmailField in fields then u.email else stored.email,
      username := if UsernameField in fields then u.username else stored.username,
      password := if PasswordField in fields then u.password else stored.password,
      phone := if PhoneField in fields then u.phone else stored.phone,
      verified := if VerifiedField in fields then u.verified else stored.verified,
      updatedAt := if UpdatedAtField in fields then u.updatedAt else stored.updatedAt)
  }

  /** The outside world during one call: the clock (Unix nanoseconds), the random
      draw, the id the repository gives a new user, and whether the hasher, the
      code store and the event publisher succeed. */
  datatype Env = Env(now: int, draw: Draw, newId: string, hashOk: bool, cacheOk: bool, publishOk: bool)

  /** `rand.Intn(1000000)`. */
  type Draw = n: int | 0 <= n < 1_000_000

  // The errors of collaborators, which callers only ever wrap or pass on.
  const HashFailure: Error := Failure("hash failed")
  const StoreFailure: Error := Failure("code store unavailable")
  const PublishFailure: Error := Failure("publish failed")

  datatype Step<T> = Step(result: Result<T>, post: State)

  // ------------------------------------------------------------- Register

  /** The user `Register` hands to the repository: only e-mail, hash and role are
      set; the repository fills in the id. */
  function RegisteredUser(id: string, email: string, password: string, role: Role): User
  {
    User(id, email, "", Hash(password), role, "", false, ZeroTime, ZeroTime)
  }

  /** `Register`: hash, create, publish. A hash failure stops before the repository
      is touched; a taken e-mail is `ErrEmailAlreadyExists`; a publish failure is
      an error although the user has been created. The role is not checked here. */
  function Register(st: State, email: string, password: string, role: Role, env: Env): (s: Step<User>)
    requires Consistent(st) && env.newId !in st.users
    ensures Consistent(s.post) && s.post.codes == st.codes
    ensures s.post.users ==
      if env.hashOk && !EmailTaken(st.users, email)
      then st.users[env.newId := RegisteredUser(env.newId, email, password, role)]
      else st.users
    ensures env.hashOk && EmailTaken(st.users, email) ==> s.result == Err(EmailAlreadyExists)
    ensures s.result.Ok? <==> env.hashOk && !EmailTaken(st.users, email) && env.publishOk
    ensures s.result.Ok? ==> s.result.value == RegisteredUser(env.newId, email, password, role)
  {
    if !env.hashOk then Step(Err(Wrapped("Register Hash", HashFailure)), st)
    else if EmailTaken(st.users, email) then Step(Err(EmailAlreadyExists), st)
    else
      var usr := RegisteredUser(env.newId, email, password, role);
      var post := State(st.users[env.newId := usr], st.codes);
      if !env.publishOk then Step(Err(Wrapped("Register PublishEvent (registered)", PublishFailure)), post)
      else Step(Ok(usr), post)
  }

  // ---------------------------------------------------------------- Login

  datatype Session = Session(accessToken: string, payload: TokenPayload)

  /** `Login`: an unknown e-mail is `ErrUserNotFound`, a password the stored hash
      does not verify is `ErrInvalidCredentials` (no token is made); otherwise the
      token is signed for the stored user and the payload describes that user. */
  function Login(st: State, svc: Token.Service, email: string, password: string, now: int): (r: Result<Session>)
    requires Consistent(st)
    ensures !EmailTaken(st.users, email) ==> r == Err(UserNotFound)
    ensures EmailTaken(st.users, email) ==>
      var u := FindByEmail(st.users, email).value;
      var g := Token.Generate(svc, u.id, u.role, now);
      && (!Verify(u.password, password) ==> r == Err(InvalidCredentials))
      && (Verify(u.password, password) ==> (r.Ok? <==> g.Ok?))
      && (r.Ok? ==> r.value == Session(g.value.token, TokenPayload(u.id, u.email, u.role, g.value.issuedAt, g.value.expiresAt)))
  {
    match FindByEmail(st.users, email)
    case None => Err(UserNotFound)
    case Some(user) =>
      if !Verify(user.password, password) then Err(InvalidCredentials)
      else match Token.Generate(svc, user.id, user.role, now)
        case Err(e) => Err(Wrapped("Login jwt.Generate", e))
        case Ok(g) => Ok(Session(g.token, TokenPayload(user.id, user.email, user.role, g.issuedAt, g.expiresAt)))
  }

  // -------------------------------------------------------- ValidateToken

  /** `ValidateToken`: the token service's verdict, its error wrapped. */
  function ValidateToken(svc: Token.Service, token: string): (r: Result<TokenPayload>)
    ensures r.Ok? <==> Token.Validate(svc, token).Ok?
    ensures r.Ok? ==> r.value == Token.Validate(svc, token).value
    ensures r.Err? ==> r.error == Wrapped("ValidateToken jwt.Validate", Token.Validate(svc, token).error)
  {
    match Token.Validate(svc, token)
    case Err(e) => Err(Wrapped("ValidateToken jwt.Validate", e))
    case Ok(p) => Ok(p)
  }

  // ------------------------------------------------------- issuing codes

  /** The code `SendVerificationCode` and `StartResetPassword` file for a user. */
  function IssuedCode(userID: string, purpose: string, ttl: int, env: Env): VerificationCode
  {
    NewVerificationCode(userID, Pad6(env.draw), purpose, ttl, env.now)
  }

  /** Both issuers: find the user by e-mail, then file a new six-digit code under
      the user's id, replacing whatever code was there. */
  function IssueCode(st: State, email: string, purpose: string, ttl: int, setContext: string, env: Env): (s: Step<()>)
    requires Consistent(st)
    ensures Consistent(s.post) && s.post.users == st.users
    ensures !EmailTaken(st.users, email) ==> s == Step(Err(UserNotFound), st)
    ensures s.result.Ok? <==> EmailTaken(st.users, email) && env.cacheOk
    ensures s.result.Err? ==> s.post == st
    ensures s.result.Ok? ==>
      var id := FindByEmail(st.users, email).value.id;
      s.post.codes == st.codes[id := IssuedCode(id, purpose, ttl, env)]
  {
    match FindByEmail(st.users, email)
    case None => Step(Err(UserNotFound), st)
    case Some(user) =>
      if !env.cacheOk then Step(Err(Wrapped(setContext, StoreFailure)), st)
      else Step(Ok(()), State(st.users, st.codes[user.id := IssuedCode(user.id, purpose, ttl, env)]))
  }

  /** `SendVerificationCode`: a code with the given purpose (not checked) that
      expires five minutes from now. */
  function SendVerificationCode(st: State, email: string, purpose: string, env: Env): (s: Step<()>)
    requires Consistent(st)
    ensures Consistent(s.post) && s.post.users == st.users
    ensures !EmailTaken(st.users, email) ==> s == Step(Err(UserNotFound), st)
    ensures s.result.Ok? ==>
      var id := FindByEmail(st.users, email).value.id;
      && id in s.post.codes
      && |s.post.codes[id].code| == 6 && AllDigits(s.post.codes[id].code)
      && s.post.codes[id].purpose == purpose
      && s.post.codes[id].expiresAt == env.now + 5 * Minute
  {
    IssueCode(st, email, purpose, 5 * Minute, "SendVerificationCode cache.Set", env)
  }

  /** `StartResetPassword`: a `reset_password` code that expires ten minutes from now. */
  function StartResetPassword(st: State, email: string, env: Env): (s: Step<()>)
    requires Consistent(st)
    ensures Consistent(s.post) && s.post.users == st.users
    ensures !EmailTaken(st.users, email) ==> s == Step(Err(UserNotFound), st)
    ensures s.result.Ok? ==>
      var id := FindByEmail(st.users, email).value.id;
      && id in s.post.codes
      && |s.post.codes[id].code| == 6 && AllDigits(s.post.codes[id].code)
      && s.post.codes[id].purpose == PurposeResetPassword
      && s.post.codes[id].expiresAt == env.now + 10 * Minute
  {
    IssueCode(st, email, PurposeResetPassword, 10 * Minute, "StartResetPassword cache.Set", env)
  }

  // ----------------------------------------------------------- VerifyCode

  /** The three checks on a stored code, in the order they are made: value, then
      expiry (a code is still good at its expiry instant), then purpose. */
  function CodeCheck(stored: VerificationCode, code: string, purpose: string, now: int): (r: Option<Error>)
    ensures r == Some(CodeInvalid) <==> stored.code != code
    ensures r == Some(CodeExpired) <==> stored.code == code && now > stored.expiresAt
    ensures r == Some(InvalidPurpose) <==> stored.code == code && now <= stored.expiresAt && stored.purpose != purpose
    ensures r.None? <==> stored.code == code && now <= stored.expiresAt && stored.purpose == purpose
  {
    if stored.code != code then Some(CodeInvalid)
    else if now > stored.expiresAt then Some(CodeExpired)
    else if stored.purpose != purpose then Some(InvalidPurpose)
    else None
  }

  predicate KnownPurpose(purpose: string)
  {
    purpose == PurposeEmailVerification || purpose == PurposeResetPassword
  }

  /** `VerifyCode`: find the user, fetch the user's code, check it, apply the
      purpose's effect, delete the code. Every failure before the delete leaves
      both tables as they were. */
  function VerifyCode(st: State, email: string, code: string, purpose: string, env: Env): (s: Step<()>)
    requires Consistent(st)
    ensures Consistent(s.post)
    // a failed attempt never consumes the code
    ensures s.result.Err? ==> s.post.codes == st.codes
    // success needs a stored code that passes all three checks and a purpose with an effect
    ensures s.result.Ok? ==>
      && EmailTaken(st.users, email)
      && var id := FindByEmail(st.users, email).value.id;
      && id in st.codes
      && CodeCheck(st.codes[id], code, purpose, env.now).None?
      && KnownPurpose(purpose)
      // and consumes exactly that code
      && s.post.codes == st.codes - {id}
    // only e-mail verification writes to the user table, and only the flag
    ensures purpose != PurposeEmailVerification ==> s.post.users == st.users
    ensures s.post.users != st.users ==>
      && EmailTaken(st.users, email)
      && var u := FindByEmail(st.users, email).value;
      s.post.users == st.users[u.id := u.(verified := true)]
    // conversely, a stored code that passes every check, for a purpose with an
    // effect, is accepted whenever the store can delete it
    ensures
      (&& EmailTaken(st.users, email)
       && (var id := FindByEmail(st.users, email).value.id;
           && id in st.codes
           && CodeCheck(st.codes[id], code, purpose, env.now).None?)
       && KnownPurpose(purpose)
       && env.cacheOk)
      ==> s.result.Ok?
    // and an accepted e-mail verification marks the user verified
    ensures s.result.Ok? && purpose == PurposeEmailVerification ==>
      var u := FindByEmail(st.users, email).value;
      s.post.users == st.users[u.id := u.(verified := true)]
  {
    match FindByEmail(st.users, email)
    case None => Step(Err(UserNotFound), st)
    case Some(user) =>
      if user.id !in st.codes then Step(Err(Wrapped("VerifyCode cache.Get", CacheMiss)), st)
      else match CodeCheck(st.codes[user.id], code, purpose, env.now)
        case Some(e) => Step(Err(e), st)
        case None =>
          if !KnownPurpose(purpose) then Step(Err(InvalidPurpose), st)
          else
            var users :=
              if purpose == PurposeEmailVerification
              then st.users[user.id := WithFields(user, user.(verified := true), {VerifiedField})]
              else st.users;
            if !env.cacheOk then Step(Err(Wrapped("VerifyCode cache.Delete", StoreFailure)), State(users, st.codes))
            else Step(Ok(()), State(users, st.codes - {user.id}))
  }

  // ---------------------------------------------------------- user reads

  /** `GetUserByID`: the stored user, or `ErrUserNotFound`. */
  function GetUserByID(st: State, userID: string): (r: Result<User>)
    ensures r.Ok? <==> userID in st.users
    ensures r.Ok? ==> r.value == st.users[userID]
    ensures r.Err? ==> r.error == UserNotFound
  {
    if userID in st.users then Ok(st.users[userID]) else Err(UserNotFound)
  }

  /** Some user other than `id` has `email`. */
  predicate EmailOfAnother(users: map<string, User>, id: string, email: string)
  {
    exists other :: other in users && other != id && users[other].email == email
  }

  /** `UpdateProfile`: writes e-mail, username, phone and update time of the user
      with `u`'s id. The repository refuses an e-mail another user has, with an
      error that is none of the sentinels. */
  function UpdateProfile(st: State, u: User): (s: Step<User>)
    requires Consistent(st)
    ensures Consistent(s.post) && s.post.codes == st.codes
    ensures u.id !in st.users ==> s == Step(Err(UserNotFound), st)
    // a stored user is updated exactly when no other user holds the new e-mail
    ensures s.result.Ok? <==> u.id in st.users && !EmailOfAnother(st.users, u.id, u.email)
    ensures s.result.Err? ==> s.post == st
    ensures s.result.Ok? ==>
      && u.id in st.users
      && s.result.value == st.users[u.id].(email := u.email, username := u.username, phone := u.phone, updatedAt := u.updatedAt)
      && s.post.users == st.users[u.id := s.result.value]
  {
    if u.id !in st.users then Step(Err(UserNotFound), st)
    else if EmailOfAnother(st.users, u.id, u.email) then
      Step(Err(Wrapped("UpdateProfile", Failure("duplicate e-mail"))), st)
    else
      var updated := WithFields(st.users[u.id], u, {EmailField, UsernameField, PhoneField, UpdatedAtField});
      Step(Ok(updated), State(st.users[u.id := updated], st.codes))
  }

  /** `ChangePassword`: equal old and new passwords are `ErrPasswordUnchanged`
      before the repository is asked anything; otherwise the fetched user is
      written back with its own password field, so nothing ever changes. */
  function ChangePassword(st: State, userID: string, oldPw: string, newPw: string): (s: Step<()>)
    requires Consistent(st)
    ensures s.post == st
    ensures oldPw == newPw ==> s.result == Err(PasswordUnchanged)
    ensures oldPw != newPw ==> (s.result.Ok? <==> userID in st.users)
    ensures oldPw != newPw && userID !in st.users ==> s.result == Err(UserNotFound)
  {
    if oldPw == newPw then Step(Err(PasswordUnchanged), st)
    else match GetUserByID(st, userID)
      case Err(_) => Step(Err(UserNotFound), st)
      case Ok(user) =>
        var written := WithFields(st.users[user.id], user, {PasswordField});
        Step(Ok(()), State(st.users[user.id := written], st.codes))
  }

  /** `ChangePassword` as evidently intended: the old password must verify against
      the stored hash, and the hash of the new one is stored (only the password
      field). */
  function ChangePasswordIntended(st: State, userID: string, oldPw: string, newPw: string, env: Env): (s: Step<()>)
    requires Consistent(st)
    ensures Consistent(s.post) && s.post.codes == st.codes
    ensures s.result.Err? ==> s.post == st
    ensures oldPw == newPw ==> s.result == Err(PasswordUnchanged)
    ensures s.result.Ok? <==>
      oldPw != newPw && userID in st.users && Verify(st.users[userID].password, oldPw) && env.hashOk
    ensures s.result.Ok? ==> s.post.users == st.users[userID := st.users[userID].(password := Hash(newPw))]
  {
    if oldPw == newPw then Step(Err(PasswordUnchanged), st)
    else match GetUserByID(st, userID)
      case Err(_) => Step(Err(UserNotFound), st)
      case Ok(user) =>
        if !Verify(user.password, oldPw) then Step(Err(InvalidCredentials), st)
        else if !env.hashOk then Step(Err(Wrapped("ChangePassword Hash", HashFailure)), st)
        else
          var written := WithFields(user, user.(password := Hash(newPw)), {PasswordField});
          Step(Ok(()), State(st.users[user.id := written], st.codes))
  }

  // ------------------------------------------------- ConfirmResetPassword

  /** `ConfirmResetPassword`: verify the code as a `reset_password` code, then
      store the hash of the new password (only the password field), then delete
      the code, ignoring any error from that last delete. */
  function ConfirmResetPassword(st: State, email: string, code: string, newPw: string, env: Env): (s: Step<()>)
    requires Consistent(st)
    ensures Consistent(s.post)
    ensures var v := VerifyCode(st, email, code, PurposeResetPassword, env);
      v.result.Err? ==> s == Step(Err(Wrapped("ConfirmResetPassword VerifyCode", v.result.error)), v.post)
    // no failure touches a password
    ensures s.result.Err? ==> s.post.users == st.users
    // success exactly when a stored reset code passes every check and both the
    // store and the hasher work
    ensures s.result.Ok? <==>
      (&& EmailTaken(st.users, email)
       && (var id := FindByEmail(st.users, email).value.id;
           && id in st.codes
           && CodeCheck(st.codes[id], code, PurposeResetPassword, env.now).None?)
       && env.cacheOk
       && env.hashOk)
    ensures s.result.Ok? ==>
      && EmailTaken(st.users, email)
      && var u := FindByEmail(st.users, email).value;
      && s.post.users == st.users[u.id := u.(password := Hash(newPw))]
      && u.id !in s.post.codes
  {
    var v := VerifyCode(st, email, code, PurposeResetPassword, env);
    if v.result.Err? then Step(Err(Wrapped("ConfirmResetPassword VerifyCode", v.result.error)), v.post)
    else match FindByEmail(v.post.users, email)
      case None => Step(Err(UserNotFound), v.post)
      case Some(user) =>
        if !env.hashOk then Step(Err(Wrapped("ConfirmResetPassword Hash", HashFailure)), v.post)
        else
          var written := WithFields(user, user.(password := Hash(newPw)), {PasswordField});
          Step(Ok(()), State(v.post.users[user.id := written], v.post.codes - {user.id}))
  }
}
