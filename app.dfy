/** The wiring facts of internal/app/app.go: the public-method list handed to the
    authentication interceptor, the address check in `New`, the order of the two
    unary interceptors, and the failure counter of `healthLoop`. */
module App {
  import opened Domain
  import Token
  import Interceptor
  import Codes

  // ------------------------------------------------------ public methods

  const LoginMethod: string := "/auth.AuthService/Login"
  const RegisterMethod: string := "/auth.AuthService/Register"
  const ValidateTokenMethod: string := "/auth.AuthService/ValidateToken"
  const ResetPasswordMethod: string := "/auth.AuthService/ResetPassword"
  const ConfirmResetPasswordMethod: string := "/auth.AuthService/ConfirmResetPassword"
  const GetUserByIDMethod: string := "/auth.AuthService/GetUserByID"

  /** The RPCs the service registers (the handlers of handler.go and
      user_handler.go), by full method name. */
  const ServiceMethods: set<string> := {
    LoginMethod, RegisterMethod, ValidateTokenMethod, GetUserByIDMethod,
    "/auth.AuthService/UpdateUserProfile", "/auth.AuthService/SendVerificationCode",
    "/auth.AuthService/VerifyAccount", "/auth.AuthService/ChangePassword",
    ResetPasswordMethod, ConfirmResetPasswordMethod }

  /** The routes `New` declares public, as written: the fourth misspells
      `ResetPassword`. */
  const PublicMethods: seq<string> := [LoginMethod, RegisterMethod, ValidateTokenMethod, "/auth.AuthService/RestPassword"]

  /** The list with the evident spelling. */
  const IntendedPublicMethods: seq<string> := [LoginMethod, RegisterMethod, ValidateTokenMethod, ResetPasswordMethod]

  /** As written, one public entry names no RPC, and the password-reset request,
      which a caller who has lost the password cannot authenticate, is not public;
      neither is the admin-only `GetUserByID`. */
  lemma PublicListMisspelled()
    ensures exists m :: m in PublicMethods && m !in ServiceMethods
    ensures ResetPasswordMethod !in PublicMethods && GetUserByIDMethod !in PublicMethods
    ensures forall m :: m in IntendedPublicMethods ==> m in ServiceMethods
    ensures ResetPasswordMethod in IntendedPublicMethods && GetUserByIDMethod !in IntendedPublicMethods
  {
    assert PublicMethods[3] !in ServiceMethods;
  }

  /** So, as written, a reset request without a token is turned away by the gate. */
  lemma ResetPasswordNeedsToken(asWritten: Interceptor.AuthInterceptor, ctx: Interceptor.CallContext)
    requires forall m :: m in asWritten.skipMethods <==> m in PublicMethods
    requires Interceptor.AuthorizationHeader(ctx).None?
    ensures var d := Interceptor.UnaryAuthentificate(asWritten, ctx, ResetPasswordMethod);
      d.Reject? && d.status.code == Codes.Unauthenticated
  {
  }

  /** With the intended list the same request reaches the handler untouched, while
      `GetUserByID` still needs a token. The list corrects only the spelling:
      `ConfirmResetPassword` stays gated, so a caller without a token can ask for a
      reset code but not redeem it. */
  lemma IntendedListOpensReset(intended: Interceptor.AuthInterceptor, ctx: Interceptor.CallContext)
    requires forall m :: m in intended.skipMethods <==> m in IntendedPublicMethods
    requires Interceptor.AuthorizationHeader(ctx).None?
    ensures Interceptor.UnaryAuthentificate(intended, ctx, ResetPasswordMethod) == Interceptor.Proceed(ctx)
    ensures Interceptor.UnaryAuthentificate(intended, ctx, GetUserByIDMethod).Reject?
    ensures Interceptor.UnaryAuthentificate(intended, ctx, ConfirmResetPasswordMethod).Reject?
  {
    assert ResetPasswordMethod in IntendedPublicMethods;
  }

  // ------------------------------------------------------------------ New

  /** The two unary interceptors `New` installs. */
  datatype InterceptorKind = Logging | Authentication

  datatype ServerConfig = ServerConfig(addr: string, jwt: Token.Service)

  datatype Server = Server(interceptors: seq<InterceptorKind>, auth: Interceptor.AuthInterceptor)

  /** `New`, as far as the core goes: an empty server address fails before anything
      is built; otherwise the authentication interceptor skips exactly the public
      list, and logging runs outside authentication. */
  method New(cfg: ServerConfig) returns (r: Result<Server>)
    ensures r.Err? <==> cfg.addr == ""
    ensures r.Err? ==> r.error == Failure("Server address empty")
    ensures r.Ok? ==>
      && r.value.interceptors == [Logging, Authentication]
      && r.value.auth.jwt == cfg.jwt
      && (forall m :: m in r.value.auth.skipMethods <==> m in PublicMethods)
  {
    if cfg.addr == "" {
      return Err(Failure("Server address empty"));
    }
    var authInt := Interceptor.NewAuthInterceptor(PublicMethods, cfg.jwt);
    r := Ok(Server([Logging, Authentication], authInt));
  }

  // ------------------------------------------------------ interceptor chain

  /** What a call through the chain leaves behind: the methods logged, the contexts
      the handler ran with, and the gate's answer. */
  datatype Trace = Trace(logged: seq<string>, handlerRuns: seq<Interceptor.CallContext>, result: Interceptor.Decision)

  /** gRPC's chaining of unary interceptors: the first is outermost. Logging records
      the call and passes it on; authentication decides before anything inner runs;
      at the end the handler runs once. */
  function Chain(kinds: seq<InterceptorKind>, auth: Interceptor.AuthInterceptor, ctx: Interceptor.CallContext, fullMethod: string): (t: Trace)
    ensures |t.handlerRuns| <= 1
    ensures t.result.Proceed? <==> |t.handlerRuns| == 1
    ensures t.result.Proceed? ==> t.handlerRuns == [t.result.ctx]
    decreases |kinds|
  {
    if kinds == [] then Trace([], [ctx], Interceptor.Proceed(ctx))
    else match kinds[0]
      case Logging =>
        var inner := Chain(kinds[1..], auth, ctx, fullMethod);
        Trace([fullMethod] + inner.logged, inner.handlerRuns, inner.result)
      case Authentication =>
        match Interceptor.UnaryAuthentificate(auth, ctx, fullMethod)
        case Reject(s) => Trace([], [], Interceptor.Reject(s))
        case Proceed(ctx') => Chain(kinds[1..], auth, ctx', fullMethod)
  }

  /** With logging outside authentication, every call is logged once, rejected or
      not, and the handler runs exactly when the gate lets the call through, with
      the gate's context. Put the other way round, a rejected call would go
      unlogged. */
  lemma {:induction false} EveryCallIsLogged(auth: Interceptor.AuthInterceptor, ctx: Interceptor.CallContext, fullMethod: string)
    ensures var t := Chain([Logging, Authentication], auth, ctx, fullMethod);
      && t.logged == [fullMethod]
      && t.result == Interceptor.UnaryAuthentificate(auth, ctx, fullMethod)
      && (t.result.Proceed? ==> t.handlerRuns == [t.result.ctx])
      && (t.result.Reject? ==> t.handlerRuns == [])
    ensures Interceptor.UnaryAuthentificate(auth, ctx, fullMethod).Reject? ==>
      Chain([Authentication, Logging], auth, ctx, fullMethod).logged == []
  {
    assert [Logging, Authentication][1..] == [Authentication];
    assert [Authentication][1..] == [];
    assert [Authentication, Logging][1..] == [Logging];
  }

  // ---------------------------------------------------------- healthLoop

  /** What the loop's `select` receives: the context's cancellation with its error,
      or a tick with the health check's result (`None` for success). */
  datatype HealthEvent = Cancelled(ctxErr: Error) | Tick(check: Option<Error>)

  /** How `healthLoop` ends after a sequence of events: cancelled at event `at`,
      unhealthy at event `at`, or still running with `fails` recent failures. */
  datatype LoopExit = Canceled(at: nat, err: Error) | Unhealthy(at: nat, err: Error) | StillRunning(fails: nat)

  predicate Failing(e: HealthEvent)
  {
    e.Tick? && e.check.Some?
  }

  /** The number of failed checks at the end of `events` with no success after them. */
  function ConsecutiveFailures(events: seq<HealthEvent>): (n: nat)
    ensures n <= |events|
  {
    if events == [] then 0
    else if Failing(events[|events| - 1]) then ConsecutiveFailures(events[..|events| - 1]) + 1
    else 0
  }

  /** `ConsecutiveFailures` is the length of the longest all-failing suffix. */
  lemma {:induction false} ConsecutiveFailuresIsFailingSuffix(events: seq<HealthEvent>, n: nat)
    requires n <= |events|
    ensures n <= ConsecutiveFailures(events) <==> forall j :: |events| - n <= j < |events| ==> Failing(events[j])
  {
    if n > 0 {
      var init := events[..|events| - 1];
      assert forall j :: 0 <= j < |init| ==> init[j] == events[j];
      ConsecutiveFailuresIsFailingSuffix(init, n - 1);
    }
  }

  /** A failing suffix of exactly `n` events, with a success or the start before
      it, is `n` consecutive failures. */
  lemma ExactFailingSuffix(events: seq<HealthEvent>, n: nat)
    requires n <= |events|
    requires forall j :: |events| - n <= j < |events| ==> Failing(events[j])
    requires n == |events| || !Failing(events[|events| - n - 1])
    ensures ConsecutiveFailures(events) == n
  {
    ConsecutiveFailuresIsFailingSuffix(events, n);
    if n < |events| {
      ConsecutiveFailuresIsFailingSuffix(events, n + 1);
    }
  }

  /** The loop has not stopped within the first `k` events: each was a tick and
      no point had more than three failures in a row. */
  predicate Calm(events: seq<HealthEvent>, k: nat)
    requires k <= |events|
  {
    forall j :: 0 <= j < k ==> events[j].Tick? && ConsecutiveFailures(events[..j + 1]) <= 3
  }

  lemma CalmExtends(events: seq<HealthEvent>, k: nat)
    requires k < |events| && Calm(events, k)
    requires events[k].Tick? && ConsecutiveFailures(events[..k + 1]) <= 3
    ensures Calm(events, k + 1)
  {
  }

  /** `healthLoop` over the events it receives: each failed check adds one to
      `fails` and the fourth in a row ends the loop with the check's error wrapped;
      a successful check resets `fails`; cancellation returns the context's error. */
  method HealthLoop(events: seq<HealthEvent>) returns (r: LoopExit)
    ensures r.Canceled? ==>
      && r.at < |events| && events[r.at] == Cancelled(r.err) && Calm(events, r.at)
    ensures r.Unhealthy? ==>
      && r.at < |events| && Failing(events[r.at]) && Calm(events, r.at)
      && ConsecutiveFailures(events[..r.at + 1]) == 4
      && r.err == Wrapped("unhealthy", events[r.at].check.value)
    ensures r.StillRunning? ==> Calm(events, |events|) && r.fails == ConsecutiveFailures(events)
  {
    var fails := 0;
    var k := 0;
    while k < |events|
      invariant 0 <= k <= |events|
      invariant fails == ConsecutiveFailures(events[..k])
      invariant Calm(events, k)
    {
      assert events[..k + 1][..k] == events[..k];
      assert events[..k + 1][k] == events[k];
      match events[k]
      case Cancelled(err) =>
        return Canceled(k, err);
      case Tick(check) =>
        if check.Some? {
          fails := fails + 1;
          if fails > 3 {
            return Unhealthy(k, Wrapped("unhealthy", check.value));
          }
        } else {
          fails := 0;
        }
        assert fails == ConsecutiveFailures(events[..k + 1]);
        CalmExtends(events, k);
      k := k + 1;
    }
    assert events[..k] == events;
    r := StillRunning(fails);
  }

  /** Four failed checks in a row after a success (or at the start) are exactly
      the point at which the loop stops; three are not. */
  lemma FourthFailureTrips(history: seq<HealthEvent>, e1: Error, e2: Error, e3: Error, e4: Error)
    requires history == [] || !Failing(history[|history| - 1])
    ensures ConsecutiveFailures(history + [Tick(Some(e1)), Tick(Some(e2)), Tick(Some(e3))]) == 3
    ensures ConsecutiveFailures(history + [Tick(Some(e1)), Tick(Some(e2)), Tick(Some(e3)), Tick(Some(e4))]) == 4
  {
    var h3 := history + [Tick(Some(e1)), Tick(Some(e2)), Tick(Some(e3))];
    var h4 := history + [Tick(Some(e1)), Tick(Some(e2)), Tick(Some(e3)), Tick(Some(e4))];
    if history != [] {
      assert h3[|h3| - 4] == history[|history| - 1];
      assert h4[|h4| - 5] == history[|history| - 1];
    }
    ExactFailingSuffix(h3, 3);
    ExactFailingSuffix(h4, 4);
  }

  /** A success wipes out every earlier failure: afterwards the count is at most
      the number of events since. */
  lemma SuccessResets(history: seq<HealthEvent>, later: seq<HealthEvent>)
    ensures ConsecutiveFailures(history + [Tick(None)]) == 0
    ensures ConsecutiveFailures(history + [Tick(None)] + later) <= |later|
  {
    var t := history + [Tick(None)] + later;
    ConsecutiveFailuresIsFailingSuffix(t, |later| + 1);
    assert t[|t| - (|later| + 1)] == Tick(None);
  }
}
