/** Entities, constants and error values of the domain layer (internal/domain/user.go),
    with the repository's error sentinels and the password hasher it declares. */
module Domain {

  datatype Option<+T> = None | Some(value: T)

  /** A Go `(T, error)` return: exactly one of the two is meaningful. */
  datatype Result<+T> = Ok(value: T) | Err(error: Error)

  // ---------------------------------------------------------------- roles

  /** A role is a plain string; only three values are valid. */
  type Role = string

  const UNSPECIFIED: Role := ""
  const ADMIN: Role := "admin"
  const TEACHER: Role := "teacher"
  const STUDENT: Role := "student"

  /** `Role.IsValid`: only the three named roles; the unspecified role and every
      other string are invalid. */
  predicate IsValid(r: Role)
    ensures IsValid(r) ==> r != UNSPECIFIED && |r| >= 5
  {
    r == ADMIN || r == TEACHER || r == STUDENT
  }

  // ------------------------------------------------------------- purposes

  const PurposeEmailVerification: string := "email_verification"
  const PurposeResetPassword: string := "reset_password"

  /** The two purposes differ, the three valid roles differ, and the unspecified
      role is not valid. */
  lemma ConstantsDistinct()
    ensures PurposeEmailVerification != PurposeResetPassword
    ensures ADMIN != TEACHER && TEACHER != STUDENT && ADMIN != STUDENT
    ensures !IsValid(UNSPECIFIED) && IsValid(ADMIN) && IsValid(TEACHER) && IsValid(STUDENT)
  {
    assert PurposeEmailVerification[0] != PurposeResetPassword[0];
    assert ADMIN[0] != TEACHER[0] && TEACHER[0] != STUDENT[0] && ADMIN[0] != STUDENT[0];
  }

  // --------------------------------------------------------------- errors

  /** Go errors, as far as callers can tell them apart. A sentinel is one fixed
      value compared by identity (`errors.Is`); `Failure` is an error built on the
      spot with `errors.New` or `fmt.Errorf` without `%w`, equal to no sentinel even
      when its text matches one; `Wrapped` is `fmt.Errorf("<context>: %w", cause)`. */
  datatype Error =
    // domain sentinels
    | EmailAlreadyExists | UsernameAlreadyExists | UserNotFound | PasswordUnchanged
    | InvalidCredentials | InvalidArgument | PermissionDenied
    | InvalidToken | TokenExpired
    | CodeInvalid | CodeExpired | PasswordResetCodeExpired | PasswordResetCodeInvalid
    | InvalidPurpose
    // repository sentinels (their text may repeat a domain one; the values differ)
    | RepoNotFound | RepoEmailAlreadyUsed
    // the code store's "no such key"
    | CacheMiss
    | Failure(message: string)
    | Wrapped(context: string, cause: Error)

  predicate IsSentinel(e: Error)
  {
    !e.Failure? && !e.Wrapped?
  }

  /** `errors.Is(e, target)`: `e` is the target or wraps it, at any depth. */
  predicate Is(e: Error, target: Error)
  {
    e == target || (e.Wrapped? && Is(e.cause, target))
  }

  /** The innermost error of a wrapping chain. */
  function Root(e: Error): (r: Error)
    ensures !r.Wrapped?
  {
    if e.Wrapped? then Root(e.cause) else e
  }

  /** Wrapping never hides a sentinel from `errors.Is` and never invents one:
      matching a sentinel is the same as having it at the root. */
  lemma {:induction false} IsSentinelAtRoot(e: Error, target: Error)
    requires IsSentinel(target)
    ensures Is(e, target) <==> Root(e) == target
  {
    if e.Wrapped? {
      IsSentinelAtRoot(e.cause, target);
    }
  }

  /** `err.Error()`: the sentinel's text, or each wrapping context followed by ": "
      and the text of what it wraps. */
  function Text(e: Error): (t: string)
    ensures !e.Failure? ==> |t| > 0
  {
    match e
    case EmailAlreadyExists => "email already exists"
    case UsernameAlreadyExists => "username already exists"
    case UserNotFound => "user not found"
    case PasswordUnchanged => "password unchanged"
    case InvalidCredentials => "invalid credentials"
    case InvalidArgument => "must specify either ID or Email"
    case PermissionDenied => "permission denied"
    case InvalidToken => "invalid token"
    case TokenExpired => "token expired"
    case CodeInvalid => "verification code invalid"
    case CodeExpired => "verification code expired"
    case PasswordResetCodeExpired => "password reset code expired"
    case PasswordResetCodeInvalid => "invalid password reset code"
    case InvalidPurpose => "invalid code purpose"
    case RepoNotFound => "user not found"
    case RepoEmailAlreadyUsed => "email already used"
    case CacheMiss => "cache miss"
    case Failure(message) => message
    case Wrapped(context, cause) => context + ": " + Text(cause)
  }

  predicate EndsWith(s: string, suffix: string)
  {
    |suffix| <= |s| && s[|s| - |suffix|..] == suffix
  }

  lemma EndsWithAppended(prefix: string, s: string, suffix: string)
    requires EndsWith(s, suffix)
    ensures EndsWith(prefix + s, suffix)
  {
    var t := prefix + s;
    assert t[|t| - |suffix|..] == s[|s| - |suffix|..];
  }

  /** However deeply an error is wrapped, its text ends with the text of the error
      at its root, so a status message built from it still names the sentinel. */
  lemma {:induction false} TextEndsWithRoot(e: Error)
    ensures EndsWith(Text(e), Text(Root(e)))
  {
    match e
    case Wrapped(context, cause) =>
      TextEndsWithRoot(cause);
      EndsWithAppended(context + ": ", Text(cause), Text(Root(cause)));
      assert Text(e) == context + ": " + Text(cause);
    case _ =>
      var t := Text(e);
      assert t[|t| - |t|..] == t;
  }

  /** Callers tell errors apart by identity, not by text: the repository's
      not-found reads like the domain's and is still a different error, and an
      error built from a sentinel's text does not match the sentinel. */
  lemma SentinelsByIdentity()
    ensures Text(RepoNotFound) == Text(UserNotFound) && !Is(RepoNotFound, UserNotFound)
    ensures Text(Failure("verification code invalid")) == Text(CodeInvalid)
    ensures !Is(Failure("verification code invalid"), CodeInvalid)
    ensures Is(Wrapped("ConfirmResetPassword VerifyCode", CodeInvalid), CodeInvalid)
  {
  }

  // ---------------------------------------------------------------- users

  /** Times are Unix nanoseconds. */
  const NanosPerSecond: int := 1_000_000_000
  const Minute: int := 60 * NanosPerSecond

  /** Go's zero `time.Time` (1 January of year 1, UTC), in Unix nanoseconds. */
  const ZeroTime: int := -62_135_596_800 * NanosPerSecond

  datatype User = User(
    id: string,
    email: string,
    username: string,
    password: string,   // the password hash
    role: Role,
    phone: string,
    verified: bool,
    createdAt: int,
    updatedAt: int)

  /** `NewUser`: the fresh identifier and the clock reading are its two inputs
      from the outside world. */
  function NewUser(freshId: string, email: string, hashedPwd: string, role: Role, now: int): (u: User)
    ensures u.id == freshId && u.email == email && u.password == hashedPwd && u.role == role
    ensures !u.verified && u.createdAt == now
    ensures u.username == "" && u.phone == "" && u.updatedAt == ZeroTime
  {
    User(freshId, email, "", hashedPwd, role, "", false, now, ZeroTime)
  }

  // ------------------------------------------------------ one-time codes

  datatype VerificationCode = VerificationCode(userID: string, code: string, purpose: string, expiresAt: int)

  /** The constructor of a stored code, as its call sites use it: it expires `ttl`
      after `now`. */
  function NewVerificationCode(userID: string, code: string, purpose: string, ttl: int, now: int): (c: VerificationCode)
    ensures c.userID == userID && c.code == code && c.purpose == purpose
    ensures c.expiresAt - now == ttl
  {
    VerificationCode(userID, code, purpose, now + ttl)
  }

  // -------------------------------------------------------------- tokens

  /** What a validated token says about its bearer. */
  datatype TokenPayload = TokenPayload(userID: string, email: string, role: Role, issuedAt: int, expiresAt: int)

  // ------------------------------------------------------------- hashing

  /** Stand-in for the salted password hash: an injective encoding. The model
      relies on three facts: `Verify(Hash(p), p)`; distinct passwords get
      distinct hashes (HashInjective); and a hash verifies only the password it
      was made from (`Verify(h, q) ==> h == Hash(q)`), which VerifyExactly
      combines with the second. */
  const HashTag: string := "$hash$"

  function Hash(plain: string): string
  {
    HashTag + plain
  }

  predicate Verify(hashed: string, plain: string)
  {
    hashed == Hash(plain)
  }

  lemma HashInjective(p: string, q: string)
    requires Hash(p) == Hash(q)
    ensures p == q
  {
    assert p == Hash(p)[|HashTag|..];
    assert q == Hash(q)[|HashTag|..];
  }

  /** A hash verifies exactly the password it was made from. */
  lemma VerifyExactly(p: string, q: string)
    ensures Verify(Hash(p), q) <==> p == q
  {
    if Verify(Hash(p), q) {
      HashInjective(p, q);
    }
  }
}
