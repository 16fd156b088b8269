/** Properties of the one-time-code life cycle and of the account operations,
    stated over sequences of use-case calls: single use, purpose isolation, a
    failed guess leaving the code in place, the order of the checks, and the
    password-reset and registration scenarios. */
module Lifecycle {
  import opened Domain
  import opened Strs
  import opened Orchestrator
  import Token

  /** The code store miss that a second attempt meets. */
  const Miss: Error := Wrapped("VerifyCode cache.Get", CacheMiss)

  /** Two user tables that differ at most in the `verified` flag of one user give
      the same user id for every e-mail. */
  lemma {:induction false} FlagChangeKeepsLookup(users: map<string, User>, id: string, email: string)
    requires KeyedById(users) && UniqueEmails(users) && id in users
    ensures var users' := users[id := users[id].(verified := true)];
      && KeyedById(users') && UniqueEmails(users')
      && FindByEmail(users', email).Some? == FindByEmail(users, email).Some?
      && (FindByEmail(users, email).Some? ==> FindByEmail(users', email).value.id == FindByEmail(users, email).value.id)
  {
    var users' := users[id := users[id].(verified := true)];
    assert forall k :: k in users' ==> k in users && users'[k].email == users[k].email;
    if EmailTaken(users, email) {
      var u := FindByEmail(users, email).value;
      assert users'[u.id].email == email;
      var u' := FindByEmail(users', email).value;
      assert users[u'.id].email == email;
    }
  }

  /** The order of `VerifyCode`'s failures: unknown e-mail, then no stored code,
      then the first failing check among value, expiry and purpose; each of them
      leaves the state as it was. A code that is wrong in both value and purpose
      is reported as invalid. */
  lemma VerifyCodeFailures(st: State, email: string, code: string, purpose: string, env: Env)
    requires Consistent(st)
    ensures !EmailTaken(st.users, email) ==>
      VerifyCode(st, email, code, purpose, env) == Step(Err(UserNotFound), st)
    ensures EmailTaken(st.users, email) ==>
      var id := FindByEmail(st.users, email).value.id;
      && (id !in st.codes ==> VerifyCode(st, email, code, purpose, env) == Step(Err(Miss), st))
      && (id in st.codes && CodeCheck(st.codes[id], code, purpose, env.now).Some? ==>
            VerifyCode(st, email, code, purpose, env) == Step(Err(CodeCheck(st.codes[id], code, purpose, env.now).value), st))
      && (id in st.codes && st.codes[id].code != code ==>
            VerifyCode(st, email, code, purpose, env) == Step(Err(CodeInvalid), st))
  {
  }

  /** Issue an e-mail verification code, then present it: accepted exactly up to and
      including its expiry instant, five minutes after issue; acceptance marks the
      user verified, changes nothing else about the user, and consumes the code. */
  lemma IssueThenVerifyEmail(st: State, email: string, issue: Env, check: Env)
    requires Consistent(st)
    requires SendVerificationCode(st, email, PurposeEmailVerification, issue).result.Ok?
    requires check.cacheOk
    ensures var s1 := SendVerificationCode(st, email, PurposeEmailVerification, issue).post;
      var s2 := VerifyCode(s1, email, Pad6(issue.draw), PurposeEmailVerification, check);
      var u := FindByEmail(st.users, email).value;
      && (s2.result.Ok? <==> check.now <= issue.now + 5 * Minute)
      && (s2.result.Ok? ==> s2.post == State(st.users[u.id := u.(verified := true)], st.codes - {u.id}))
  {
    var s1 := SendVerificationCode(st, email, PurposeEmailVerification, issue).post;
    var u := FindByEmail(st.users, email).value;
    assert s1.codes == st.codes[u.id := IssuedCode(u.id, PurposeEmailVerification, 5 * Minute, issue)];
    assert s1.codes - {u.id} == st.codes - {u.id};
  }

  /** Single use: once `VerifyCode` has accepted a code, the same call again finds
      no code at all, and changes nothing. */
  lemma SingleUse(st: State, email: string, code: string, purpose: string, env: Env, again: Env)
    requires Consistent(st)
    requires VerifyCode(st, email, code, purpose, env).result.Ok?
    ensures var s1 := VerifyCode(st, email, code, purpose, env).post;
      VerifyCode(s1, email, code, purpose, again) == Step(Err(Miss), s1)
  {
    var s1 := VerifyCode(st, email, code, purpose, env).post;
    var u := FindByEmail(st.users, email).value;
    FlagChangeKeepsLookup(st.users, u.id, email);
    assert FindByEmail(s1.users, email).value.id == u.id;
  }

  /** A failed attempt, other than a failed delete after the checks passed, leaves
      the whole state untouched. */
  lemma FailedAttemptChangesNothing(st: State, email: string, code: string, purpose: string, env: Env)
    requires Consistent(st)
    requires VerifyCode(st, email, code, purpose, env).result.Err?
    requires VerifyCode(st, email, code, purpose, env).result.error != Wrapped("VerifyCode cache.Delete", StoreFailure)
    ensures VerifyCode(st, email, code, purpose, env).post == st
  {
  }

  /** A wrong guess does not use up the code: the right code afterwards does
      exactly what it would have done without the guess. */
  lemma WrongGuessKeepsCode(st: State, email: string, guess: string, code: string, purpose: string, env: Env, later: Env)
    requires Consistent(st)
    requires EmailTaken(st.users, email)
    requires FindByEmail(st.users, email).value.id in st.codes
    requires st.codes[FindByEmail(st.users, email).value.id].code != guess
    ensures var s1 := VerifyCode(st, email, guess, purpose, env);
      && s1 == Step(Err(CodeInvalid), st)
      && VerifyCode(s1.post, email, code, purpose, later) == VerifyCode(st, email, code, purpose, later)
  {
    VerifyCodeFailures(st, email, guess, purpose, env);
  }

  /** Purpose isolation: a code issued for one purpose, presented in time with the
      right value for another purpose, is `ErrInvalidPurpose` and stays stored. */
  lemma PurposeIsolation(st: State, email: string, issued: string, asked: string, issue: Env, check: Env)
    requires Consistent(st)
    requires issued != asked
    requires SendVerificationCode(st, email, issued, issue).result.Ok?
    requires check.now <= issue.now + 5 * Minute
    ensures var s1 := SendVerificationCode(st, email, issued, issue).post;
      VerifyCode(s1, email, Pad6(issue.draw), asked, check) == Step(Err(InvalidPurpose), s1)
  {
  }

  /** A purpose other than the two known ones is never accepted, even when the
      stored code was issued with that very purpose; the code stays stored. */
  lemma UnknownPurposeRejected(st: State, email: string, purpose: string, issue: Env, check: Env)
    requires Consistent(st)
    requires !KnownPurpose(purpose)
    requires SendVerificationCode(st, email, purpose, issue).result.Ok?
    requires check.now <= issue.now + 5 * Minute
    ensures var s1 := SendVerificationCode(st, email, purpose, issue).post;
      VerifyCode(s1, email, Pad6(issue.draw), purpose, check) == Step(Err(InvalidPurpose), s1)
  {
  }

  /** One outstanding code per user: a second issue, of either purpose, replaces
      the first, whose value is then rejected unless the two draws coincide. */
  lemma ReissueSupersedes(st: State, email: string, first: Env, second: Env, purpose: string, check: Env)
    requires Consistent(st)
    requires SendVerificationCode(st, email, purpose, first).result.Ok?
    requires first.draw != second.draw
    requires StartResetPassword(SendVerificationCode(st, email, purpose, first).post, email, second).result.Ok?
    ensures var s1 := SendVerificationCode(st, email, purpose, first).post;
      var s2 := StartResetPassword(s1, email, second).post;
      VerifyCode(s2, email, Pad6(first.draw), purpose, check) == Step(Err(CodeInvalid), s2)
  {
    if Pad6(first.draw) == Pad6(second.draw) {
      Pad6Injective(first.draw, second.draw);
    }
  }

  /** The full reset: a code from `StartResetPassword`, confirmed within ten
      minutes, stores the hash of the new password; the new password then passes
      the login check, an old one that differs no longer does, and the code
      cannot be used again. */
  lemma ResetPasswordScenario(st: State, email: string, oldPw: string, newPw: string,
                              issue: Env, confirm: Env, svc: Token.Service, now: int, later: Env)
    requires Consistent(st)
    requires StartResetPassword(st, email, issue).result.Ok?
    requires confirm.now <= issue.now + 10 * Minute && confirm.cacheOk && confirm.hashOk
    requires oldPw != newPw
    ensures var s1 := StartResetPassword(st, email, issue).post;
      var s2 := ConfirmResetPassword(s1, email, Pad6(issue.draw), newPw, confirm);
      var u := FindByEmail(st.users, email).value;
      && s2.result.Ok?
      && s2.post.users == st.users[u.id := u.(password := Hash(newPw))]
      && Login(s2.post, svc, email, newPw, now) != Err(InvalidCredentials)
      && Login(s2.post, svc, email, newPw, now) != Err(UserNotFound)
      && Login(s2.post, svc, email, oldPw, now) == Err(InvalidCredentials)
      && VerifyCode(s2.post, email, Pad6(issue.draw), PurposeResetPassword, later) == Step(Err(Miss), s2.post)
  {
    var s1 := StartResetPassword(st, email, issue).post;
    var s2 := ConfirmResetPassword(s1, email, Pad6(issue.draw), newPw, confirm);
    var u := FindByEmail(st.users, email).value;
    var users' := st.users[u.id := u.(password := Hash(newPw))];
    assert forall k :: k in users' ==> k in st.users && users'[k].email == st.users[k].email;
    assert users'[u.id].email == email;
    var u' := FindByEmail(users', email).value;
    assert st.users[u'.id].email == email;
    assert u'.id == u.id;
    VerifyExactly(newPw, oldPw);
  }

  /** Registering an e-mail that is already registered fails with
      `ErrEmailAlreadyExists` and leaves the state alone, even when the first
      registration's event was never published. */
  lemma DuplicateRegistration(st: State, email: string, pw1: string, role1: Role, pw2: string, role2: Role,
                              first: Env, second: Env)
    requires Consistent(st)
    requires first.newId !in st.users && first.hashOk
    requires !EmailTaken(st.users, email)
    requires second.hashOk
    requires second.newId !in Register(st, email, pw1, role1, first).post.users
    ensures var s1 := Register(st, email, pw1, role1, first).post;
      Register(s1, email, pw2, role2, second) == Step(Err(EmailAlreadyExists), s1)
  {
    var s1 := Register(st, email, pw1, role1, first).post;
    assert s1.users[first.newId].email == email;
  }

  /** Whoever registers can log in with the same password: the login check passes
      and the token describes the new user. */
  lemma LoginAfterRegister(st: State, email: string, pw: string, role: Role, env: Env, svc: Token.Service, now: int)
    requires Consistent(st)
    requires env.newId !in st.users && env.hashOk && !EmailTaken(st.users, email)
    requires Token.Generate(svc, env.newId, role, now).Ok?
    ensures var s1 := Register(st, email, pw, role, env).post;
      var r := Login(s1, svc, email, pw, now);
      && r.Ok?
      && r.value.payload.userID == env.newId && r.value.payload.email == email && r.value.payload.role == role
  {
    var s1 := Register(st, email, pw, role, env).post;
    assert s1.users[env.newId].email == email;
    var u := FindByEmail(s1.users, email).value;
    assert u.id == env.newId;
  }

  /** `ChangePassword` reports success without changing anything: the login check
      answers as before for every password, the new one included. */
  lemma ChangePasswordChangesNoLogin(st: State, userID: string, oldPw: string, newPw: string,
                                     svc: Token.Service, email: string, pw: string, now: int)
    requires Consistent(st)
    ensures var s := ChangePassword(st, userID, oldPw, newPw);
      Login(s.post, svc, email, pw, now) == Login(st, svc, email, pw, now)
  {
  }

  /** Writing a new hash for one user leaves `FindByEmail` pointing at that user. */
  lemma {:induction false} PasswordChangeKeepsLookup(users: map<string, User>, id: string, hash: string, email: string)
    requires KeyedById(users) && UniqueEmails(users) && id in users && users[id].email == email
    ensures var users' := users[id := users[id].(password := hash)];
      && KeyedById(users') && UniqueEmails(users')
      && FindByEmail(users', email) == Some(users'[id])
  {
    var users' := users[id := users[id].(password := hash)];
    assert forall k :: k in users' ==> k in users && users'[k].email == users[k].email;
    FindByEmailIsThe(users', email, users'[id]);
  }

  /** As written, a successful `ChangePassword` leaves the account on its old
      password: the new one is refused at login and the old one still passes. */
  lemma ChangePasswordKeepsOldPassword(st: State, svc: Token.Service, email: string, oldPw: string, newPw: string, now: int)
    requires Consistent(st)
    requires EmailTaken(st.users, email)
    requires Verify(FindByEmail(st.users, email).value.password, oldPw)
    requires oldPw != newPw
    ensures var id := FindByEmail(st.users, email).value.id;
      var s := ChangePassword(st, id, oldPw, newPw);
      && s.result.Ok?
      && Login(s.post, svc, email, newPw, now) == Err(InvalidCredentials)
      && Login(s.post, svc, email, oldPw, now) != Err(InvalidCredentials)
  {
    VerifyExactly(oldPw, newPw);
  }

  /** With the intended `ChangePassword`, success moves the account to the new
      password: the new one passes the login check and the old one is refused. */
  lemma ChangePasswordIntendedTakesEffect(st: State, svc: Token.Service, email: string, oldPw: string, newPw: string,
                                          env: Env, now: int)
    requires Consistent(st)
    requires EmailTaken(st.users, email)
    requires ChangePasswordIntended(st, FindByEmail(st.users, email).value.id, oldPw, newPw, env).result.Ok?
    ensures var id := FindByEmail(st.users, email).value.id;
      var s := ChangePasswordIntended(st, id, oldPw, newPw, env);
      && Login(s.post, svc, email, newPw, now) != Err(InvalidCredentials)
      && Login(s.post, svc, email, newPw, now) != Err(UserNotFound)
      && Login(s.post, svc, email, oldPw, now) == Err(InvalidCredentials)
  {
    var u := FindByEmail(st.users, email).value;
    PasswordChangeKeepsLookup(st.users, u.id, Hash(newPw), email);
    VerifyExactly(newPw, oldPw);
  }
}
