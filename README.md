# Auth service model

A Dafny model of the authentication core of a Go gRPC service (Neroframe/AuthService). The model covers:

- **Users and one-time codes.** Users register, log in and receive a signed access token. Six-digit codes serve e-mail verification and password reset.
- **The gate.** An interceptor lets a fixed list of public methods through. Every other call must carry a bearer token whose claims it validates.

The model keeps the service's own structure, one module per source file or layer:

| module | file | models |
|---|---|---|
| `Domain` | domain.dfy | `internal/domain/user.go`: roles, purposes, error sentinels, `NewUser`. Also Go error wrapping (`errors.Is`, `Error()`), the stored code, and a stand-in for the password hasher |
| `Strs` | strs.dfy | the Go library behaviour the core relies on: `strings.TrimPrefix`, `strings.TrimSpace` (Unicode white space) and `fmt.Sprintf("%06d", n)` |
| `Token` | token.dfy | `internal/adapters/token/jwt_service.go`: the claims `Generate` signs, `validatePayload`, and `Validate` |
| `Interceptor` | interceptor.dfy | `internal/adapters/grpc/middleware/interseptors.go`: `NewAuthInterceptor` and `UnaryAuthentificate` |
| `Orchestrator` | orchestrator.dfy | the use cases of `internal/usecase/auth_UC.go` and `internal/usecase/user_UC.go`, as functions from a state (user table and code store) to a result and the next state |
| `Usecase` | usecase.dfy | the same use cases as the class `UserUsecase`, whose methods update the two tables step by step and are proved to end where the `Orchestrator` functions say |
| `Lifecycle` | lifecycle.dfy | properties over sequences of calls: single use, purpose isolation, error order, the reset and registration scenarios |
| `Handlers` | handlers.dfy | `internal/adapters/grpc/handler.go` and `internal/adapters/grpc/user_handler.go`: role conversion and status mapping |
| `Codes` | codes.dfy | the gRPC status codes the handlers use |
| `App` | app.dfy | `internal/app/app.go`: the public-method list, the address check in `New`, the interceptor order, and `healthLoop` |

The outside world arrives as parameters:

- An `Env` carries the clock (Unix nanoseconds), the draw of `rand.Intn(1000000)`, the id the repository assigns, and whether the hasher, the code store and the event publisher succeed.
- The JWT package is a pair of function values, `sign` and `parse`.
- Password hashing is a stand-in: `Hash(p)` is a fixed tag followed by `p`, and `Verify(h, p)` holds exactly when `h == Hash(p)`. The model uses three facts about it: `Verify(Hash(p), p)`; distinct passwords get distinct hashes; and a hash verifies only the password it was made from (`Verify(h, q)` implies `h == Hash(q)`). The lemmas that show an old password refused rest on the third fact.

Where the source's files disagree, the model follows the code the use cases call:

- `Generate` returns `(token, iat, exp)`, with `iat` equal to the signed `iat` claim, as `internal/usecase/auth_UC.go:80` uses it. Two declarations are not followed:
  - the three-value declaration in `internal/domain/token.go:12`;
  - `internal/adapters/token/jwt_service.go:42`, which returns `(signed, exp.Unix(), err)` with no issue time. The model's returned `issuedAt` is an addition to that function.
- `TokenPayload` carries `IssuedAt`.
- `GetUserByID` is the admin-gated handler in `user_handler.go`.

## Model

| member | source | states |
|---|---|---|
| Domain.ConstantsDistinct | internal/domain/user.go:14-49 | the two purposes differ; the three valid roles differ; `UNSPECIFIED` is invalid and the three named roles are valid |
| Domain.IsValid | internal/domain/user.go:88-95 | true exactly for admin, teacher and student; a valid role is never the unspecified one |
| Domain.Text | internal/domain/user.go:21-38 | each sentinel's text; a wrapped error is its context, `": "`, then the wrapped text; only an ad hoc error can have empty text |
| Domain.TextEndsWithRoot | internal/domain/user.go:21-38 | however deeply an error is wrapped, its text ends with the text of its root error, so a status message built from it still names the sentinel |
| Domain.IsSentinelAtRoot | internal/domain/user.go:20-40 | `errors.Is` against a sentinel holds exactly when the sentinel is at the root of the wrapping chain |
| Domain.SentinelsByIdentity | internal/domain/user.go:20-40 | errors are told apart by identity: the repository's not-found has the domain's text but is a different error; an error built from a sentinel's text does not match it; wrapping keeps the match |
| Domain.NewUser | internal/domain/user.go:70-79 | copies e-mail, hash and role; sets the fresh id and creation time; `Verified` is false and the other fields are zero |
| Domain.NewVerificationCode | internal/usecase/auth_UC.go:115 | a code for the given user, value and purpose that expires `ttl` after `now` |
| Domain.VerifyExactly | internal/domain/user.go:97-100 | the stored hash of `p` verifies `q` exactly when `q == p` |
| Domain.HashInjective | internal/domain/user.go:97-100 | distinct passwords have distinct hashes |
| Strs.TrimPrefix | internal/adapters/grpc/middleware/interseptors.go:67 | `strings.TrimPrefix`: removes one leading copy of the prefix when present, otherwise returns the input |
| Strs.TrimSpace | internal/adapters/grpc/middleware/interseptors.go:67 | `strings.TrimSpace`: the result is a slice of the input with white space only around it, and neither starts nor ends with white space |
| Strs.TrimSpaceSurrounded | internal/adapters/grpc/middleware/interseptors.go:67 | trimming white-space padding gives back the padded string |
| Strs.TrimSpaceIdempotent | internal/adapters/grpc/middleware/interseptors.go:67 | trimming twice is trimming once |
| Strs.Pad6 | internal/usecase/auth_UC.go:114 | `%06d` of a draw in [0, 1000000) is exactly six decimal digits |
| Strs.ZeroPaddedRoundTrip | internal/usecase/auth_UC.go:114 | reading a zero-padded numeral back gives the number |
| Strs.Pad6RoundTrip | internal/usecase/auth_UC.go:114 | the six digits read back as the draw |
| Strs.Pad6Injective | internal/usecase/auth_UC.go:114 | distinct draws give distinct codes |
| Token.Generate | internal/adapters/token/jwt_service.go:42-59 | signs `sub`, `role`, `iat`, `exp` with HS256 under the secret; `iat` is `now` and `exp` is `now + ttl`, both in floored Unix seconds; the returned issue time and expiry are the signed `iat` and `exp` (the issue time is an addition to the source's return values); fails exactly when signing fails |
| Token.GenerateExpiry | internal/adapters/token/jwt_service.go:43-49 | the expiry is the issue time plus the lifetime in whole seconds (one second more at most), and exactly that when the lifetime is whole seconds |
| Token.ValidatePayload | internal/adapters/token/jwt_service.go:61-78 | fails exactly when `sub` or `role` is not a string or `exp` not a number; the first failing check, in that order, names its claim |
| Token.Validate | internal/adapters/token/jwt_service.go:22-40 | parses with the configured secret whatever the header says; a parse error or invalid token is one opaque error; success exactly when the claims pass `validatePayload`; the payload is `sub`, `role`, `exp` with no e-mail |
| Token.GenerateValidateRoundTrip | internal/adapters/token/jwt_service.go:35-58 | a token from `Generate` that the parser accepts with its signed claims validates to the user, role and expiry `Generate` returned |
| Interceptor.NewAuthInterceptor | internal/adapters/grpc/middleware/interseptors.go:28-41 | the skip set holds exactly the names given, duplicates collapsed |
| Interceptor.BearerToken | internal/adapters/grpc/middleware/interseptors.go:67 | the token is trimmed; a value without the exact `"Bearer "` prefix is only trimmed |
| Interceptor.BearerTokenOfHeader | internal/adapters/grpc/middleware/interseptors.go:67 | `"Bearer "` plus padding plus a token gives back the token |
| Interceptor.BearerTokenStripsOnce | internal/adapters/grpc/middleware/interseptors.go:67 | only one prefix is removed |
| Interceptor.AuthorizationHeader | internal/adapters/grpc/middleware/interseptors.go:57-65 | a header is found exactly when the call carries metadata whose `authorization` list is non-empty; it is the first value of that list |
| Interceptor.UnaryAuthentificate | internal/adapters/grpc/middleware/interseptors.go:44-80 | a listed method proceeds with its context untouched; otherwise, missing metadata, a missing header or any validation error is `Unauthenticated` and the handler is not called; success attaches the payload under `userClaims` |
| Interceptor.AdmittedCallIsAuthenticated | internal/adapters/grpc/middleware/interseptors.go:70-78 | an admitted call to an unlisted method carries, under `userClaims`, exactly the payload its token validates to |
| Orchestrator.FindByEmail | internal/repository/interface.go:17 | the user with the e-mail, if there is one |
| Orchestrator.FindByEmailIsThe | internal/repository/interface.go:17 | with unique e-mails, any stored user with the e-mail is the one found |
| Orchestrator.WithFields | internal/repository/interface.go:19 | `Update(u, fields...)` takes each named field from `u` and keeps every other field, id, role and creation time included; no fields means no change |
| Orchestrator.Register | internal/usecase/auth_UC.go:35-64 | a hash failure stops before the repository; a taken e-mail is `ErrEmailAlreadyExists`; the user is created even when publishing then fails; success exactly when hashing, creating and publishing all succeed |
| Orchestrator.Login | internal/usecase/auth_UC.go:66-92 | unknown e-mail gives `ErrUserNotFound`; a failed verify gives `ErrInvalidCredentials` with no token; otherwise the payload carries the stored id, e-mail, role and the token's times |
| Orchestrator.ValidateToken | internal/usecase/auth_UC.go:94-101 | the token service's verdict, its error wrapped |
| Orchestrator.IssueCode | internal/usecase/auth_UC.go:103-126 | unknown e-mail gives `ErrUserNotFound` and no write; otherwise the user's code is replaced, and a store failure changes nothing |
| Orchestrator.SendVerificationCode | internal/usecase/auth_UC.go:103-126 | the stored code is six digits with the given purpose, unchecked, and expires five minutes after `now` |
| Orchestrator.StartResetPassword | internal/usecase/user_UC.go:61-84 | the stored code is six digits, purpose `reset_password`, and expires ten minutes after `now` |
| Orchestrator.CodeCheck | internal/usecase/auth_UC.go:144-155 | value, then expiry (strictly after `ExpiresAt`), then purpose: each error exactly when the earlier checks pass and its own fails |
| Orchestrator.VerifyCode | internal/usecase/auth_UC.go:128-181 | a failure never consumes the code; success needs a stored code that passes all checks and a known purpose, and removes exactly that code; conversely, such a code is accepted whenever the store can delete it; only `email_verification` writes the user, only `Verified`, and an accepted one sets it |
| Orchestrator.GetUserByID | internal/usecase/user_UC.go:14-24 | the stored user, or `ErrUserNotFound` |
| Orchestrator.UpdateProfile | internal/usecase/user_UC.go:26-36 | an unknown id gives `ErrUserNotFound`; success exactly when the id is stored and no other user holds the new e-mail; success rewrites e-mail, username, phone and update time and nothing else |
| Orchestrator.ChangePassword | internal/usecase/user_UC.go:38-60 | equal passwords give `ErrPasswordUnchanged` before any lookup; an unknown id gives `ErrUserNotFound`; the state is never changed |
| Orchestrator.ChangePasswordIntended | internal/usecase/user_UC.go:38-60 | corrected version: success exactly when the passwords differ, the old one verifies and hashing succeeds; it then stores the new hash |
| Orchestrator.ConfirmResetPassword | internal/usecase/user_UC.go:85-120 | a failed verification is returned wrapped; no failure changes a password; success exactly when a stored reset code passes every check and the store and the hasher work; success stores `Hash(newPw)` for that user only and leaves no code |
| Usecase.UserUsecase.constructor | internal/usecase/auth_UC.go:24-33 | wraps the repository and code store it is handed, given by their contents, and starts valid |
| Usecase.UserUsecase.RepoFindByEmail | internal/repository/interface.go:17 | the stored user with the e-mail, or the repository's not-found |
| Usecase.UserUsecase.RepoFindByID | internal/repository/interface.go:18 | the stored user with the id, or the repository's not-found |
| Usecase.UserUsecase.RepoCreate | internal/repository/interface.go:16 | refuses a taken e-mail; otherwise files the user under the new id |
| Usecase.UserUsecase.RepoUpdate | internal/repository/interface.go:19 | writes the named fields of the user with that id; refuses an unknown id or another user's e-mail |
| Usecase.UserUsecase.CacheSet | internal/usecase/auth_UC.go:118 | files the code under its user id, replacing the old one, or fails and changes nothing |
| Usecase.UserUsecase.CacheGet | internal/usecase/auth_UC.go:139 | the user's code, or a miss |
| Usecase.UserUsecase.CacheDelete | internal/usecase/auth_UC.go:175 | removes the user's code, or fails and changes nothing |
| Usecase.UserUsecase.Register | internal/usecase/auth_UC.go:35-64 | result and new tables equal `Orchestrator.Register` |
| Usecase.UserUsecase.Login | internal/usecase/auth_UC.go:66-92 | result equals `Orchestrator.Login`, with nothing modified |
| Usecase.UserUsecase.ValidateToken | internal/usecase/auth_UC.go:94-101 | result equals `Orchestrator.ValidateToken` |
| Usecase.UserUsecase.SendVerificationCode | internal/usecase/auth_UC.go:103-126 | result and new tables equal `Orchestrator.SendVerificationCode` |
| Usecase.UserUsecase.VerifyCode | internal/usecase/auth_UC.go:128-181 | result and new tables equal `Orchestrator.VerifyCode` |
| Usecase.UserUsecase.GetUserByID | internal/usecase/user_UC.go:14-24 | result equals `Orchestrator.GetUserByID` |
| Usecase.UserUsecase.UpdateProfile | internal/usecase/user_UC.go:26-36 | result and new tables equal `Orchestrator.UpdateProfile` |
| Usecase.UserUsecase.ChangePassword | internal/usecase/user_UC.go:38-60 | result and new tables equal `Orchestrator.ChangePassword` |
| Usecase.UserUsecase.StartResetPassword | internal/usecase/user_UC.go:61-84 | result and new tables equal `Orchestrator.StartResetPassword` |
| Usecase.UserUsecase.ConfirmResetPassword | internal/usecase/user_UC.go:85-120 | result and new tables equal `Orchestrator.ConfirmResetPassword` |
| Lifecycle.VerifyCodeFailures | internal/usecase/auth_UC.go:128-155 | the order of failures: unknown e-mail, no stored code, then the first failing check; a code wrong in value and purpose is `ErrCodeInvalid`; none changes the state |
| Lifecycle.IssueThenVerifyEmail | internal/usecase/auth_UC.go:103-181 | a fresh e-mail code is accepted exactly up to and including five minutes after issue; acceptance sets `Verified` and consumes the code |
| Lifecycle.SingleUse | internal/usecase/auth_UC.go:139-178 | after a success, the same call fails at `cache.Get` and changes nothing |
| Lifecycle.FailedAttemptChangesNothing | internal/usecase/auth_UC.go:139-172 | every failure before the delete leaves both tables unchanged |
| Lifecycle.WrongGuessKeepsCode | internal/usecase/auth_UC.go:145-147 | a wrong guess is `ErrCodeInvalid` and the right code afterwards works as before |
| Lifecycle.PurposeIsolation | internal/usecase/auth_UC.go:153-155 | a code presented in time for another purpose is `ErrInvalidPurpose` and stays stored |
| Lifecycle.UnknownPurposeRejected | internal/usecase/auth_UC.go:158-172 | a purpose other than the two known ones fails even when it matches the stored one |
| Lifecycle.ReissueSupersedes | internal/usecase/user_UC.go:61-84 | a second issue replaces the first code, whose value is then invalid |
| Lifecycle.ResetPasswordScenario | internal/usecase/user_UC.go:85-120 | a reset code confirmed within ten minutes stores the new hash; the new password passes login, an old one that differs does not, and the code is gone |
| Lifecycle.DuplicateRegistration | internal/usecase/auth_UC.go:44-50 | registering an e-mail twice gives `ErrEmailAlreadyExists` the second time and no change |
| Lifecycle.LoginAfterRegister | internal/usecase/auth_UC.go:35-92 | a registered user logs in with the same password and the payload describes the new user |
| Lifecycle.ChangePasswordChangesNoLogin | internal/usecase/user_UC.go:38-60 | after `ChangePassword`, login answers as before for every password |
| Lifecycle.ChangePasswordKeepsOldPassword | internal/usecase/user_UC.go:38-60 | as written, a successful change leaves the new password refused and the old one accepted |
| Lifecycle.ChangePasswordIntendedTakesEffect | internal/usecase/user_UC.go:38-60 | with the corrected version, the new password passes login and the old one is refused |
| Handlers.ConvertRole | internal/adapters/grpc/handler.go:104-115 | a role maps to a named enum value other than unspecified exactly when it is valid; any other role maps to `Role_UNSPECIFIED` |
| Handlers.ConvertProtoRole | internal/adapters/grpc/handler.go:117-128 | succeeds exactly for admin, teacher and student, with a valid role; otherwise `UNSPECIFIED` and an error |
| Handlers.RoleRoundTrip | internal/adapters/grpc/handler.go:104-128 | `convertProtoRole(convertRole(r)) == r` for valid roles, and the converse for the enum values it accepts |
| Handlers.LoginHandler | internal/adapters/grpc/handler.go:26-43 | any use-case error is `Unauthenticated`; success is a `Bearer` token with empty refresh token and the payload's expiry |
| Handlers.LoginHidesWhichCheckFailed | internal/adapters/grpc/handler.go:29-33 | an unknown e-mail and a wrong password get the same answer |
| Handlers.RegisterHandler | internal/adapters/grpc/handler.go:45-67 | an unknown role is `InvalidArgument` before the use case; any use-case error is `Internal` |
| Handlers.RegisterStoresOnlyValidRoles | internal/adapters/grpc/handler.go:49-54 | through this handler only valid roles reach the user table |
| Handlers.DuplicateEmailIsInternal | internal/adapters/grpc/handler.go:54-58 | a taken e-mail is answered `Internal` and changes nothing |
| Handlers.ValidateTokenHandler | internal/adapters/grpc/handler.go:69-86 | an error is `InvalidArgument`; success is `Valid = true` with the payload's id, converted role and expiry |
| Handlers.LoginTokenValidates | internal/adapters/grpc/handler.go:69-86 | a token `Login` issued, accepted by the parser, validates to the user's id, role and expiry |
| Handlers.ToMessage | internal/adapters/grpc/user_handler.go:37-44 | the response copies the stored fields, the password hash included |
| Handlers.GetUserByIDHandler | internal/adapters/grpc/user_handler.go:14-46 | missing claims are `Unauthenticated` and a non-admin is `PermissionDenied`, both before the lookup; success exactly for an admin and a stored id; an unknown id is `NotFound` |
| Handlers.ProfileFromRequest | internal/adapters/grpc/user_handler.go:49-54 | the profile carries id, e-mail, username and phone; the update time is Go's zero time |
| Handlers.UpdateUserProfileHandler | internal/adapters/grpc/user_handler.go:48-74 | any use-case error is `Internal`; success stores the new e-mail, keeps the password, and sets the update time to zero |
| Handlers.SendVerificationCodeHandler | internal/adapters/grpc/user_handler.go:76-84 | a stub answering `(nil, nil)` with no state change |
| Handlers.VerifyAccountHandler | internal/adapters/grpc/user_handler.go:86-95 | a stub answering `(nil, nil)` with no state change |
| Handlers.ChangePasswordHandler | internal/adapters/grpc/user_handler.go:97-108 | any use-case error is `Internal`; the state never changes |
| Handlers.ResetPasswordHandler | internal/adapters/grpc/user_handler.go:110-120 | issues a `reset_password` code that expires five minutes after `now`; any error is `Internal` |
| Handlers.VerifyFailureStatus | internal/adapters/grpc/user_handler.go:124-129 | a wrong or expired code, however wrapped, is `InvalidArgument`; any other error is `Internal` |
| Handlers.ConfirmResetPasswordHandler | internal/adapters/grpc/user_handler.go:122-141 | its own failed verification is mapped by `VerifyFailureStatus` and leaves the state from that verification |
| Handlers.ConfirmResetNeverSucceeds | internal/adapters/grpc/user_handler.go:122-141 | as written, no input gets `OK` or changes a password; a passing first check is followed by `Internal` for the missing code |
| Handlers.ConfirmResetPasswordHandlerFixed | internal/adapters/grpc/user_handler.go:122-141 | corrected version: one verification inside the use case, with the same status mapping |
| Handlers.FixedConfirmResets | internal/adapters/grpc/user_handler.go:122-141 | with the fix, the code from `ResetPassword` resets the password within five minutes, and a wrong code is `InvalidArgument` with no change |
| App.PublicListMisspelled | internal/app/app.go:107-113 | one public entry names no RPC; `ResetPassword` and `GetUserByID` are not public; the intended list names only real RPCs and opens `ResetPassword` |
| App.ResetPasswordNeedsToken | internal/app/app.go:105-117 | as written, a reset request without a token is `Unauthenticated` |
| App.IntendedListOpensReset | internal/app/app.go:105-117 | with the intended list, the reset request reaches the handler untouched; `GetUserByID` and `ConfirmResetPassword` still need a token |
| App.New | internal/app/app.go:46-49 | fails exactly when the address is empty, before anything is built; otherwise the gate skips exactly the public list, and logging runs outside authentication |
| App.Chain | internal/app/app.go:129-132 | the handler runs at most once, exactly when the gate admits the call, with the gate's context |
| App.EveryCallIsLogged | internal/app/app.go:129-132 | with logging first, every call is logged, rejected or not; in the other order a rejected call would not be |
| App.ConsecutiveFailures | internal/app/app.go:218-231 | the count of failed checks since the last success is at most the number of events |
| App.ConsecutiveFailuresIsFailingSuffix | internal/app/app.go:218-231 | the count is the length of the longest all-failing suffix |
| App.HealthLoop | internal/app/app.go:214-234 | cancellation returns the context's error; the loop stops as unhealthy exactly at the fourth consecutive failure, with that check's error wrapped; a success resets the count; otherwise it keeps running |
| App.FourthFailureTrips | internal/app/app.go:224-228 | after a success, three failures count three and the fourth counts four |
| App.SuccessResets | internal/app/app.go:229-231 | a success sets the count to zero, and it can only regrow one event at a time |

## Left out

- Transport failures of the repository (a database that is down) are not modelled. The modelled repository fails only with not-found, or with a refused e-mail. So the `... FindByEmail: %w`, `... Update: %w` and `Register Create: %w` wrappings never occur in the model. The use-case methods go straight to the domain error.
- The code store's `Get` never fails except with a miss. `Set` and `Delete` fail through the `cacheOk` flag, as one outcome per call.
- The code store's own time-to-live (redis) is not modelled. Expiry comes only from the `ExpiresAt` check.
- The Mongo repository (`internal/adapters/mongo/user_repo.go`) defines only its constructor, so its methods are not in the source. Their behaviour is assumed from the interface in `internal/repository/interface.go` and from how the use cases handle their errors:
  - `Create` assigns a fresh id and refuses a taken e-mail.
  - `Update` writes only the named fields and refuses another user's e-mail.
- The source of `NewVerificationCode` is not available. `Domain.NewVerificationCode` assumes it builds `{UserID, Code, Purpose, ExpiresAt = now + ttl}` from its call-site arguments.
- Password hashing (bcrypt), salts included, is replaced by the injective stand-in described above.
- bcrypt looks at no more than the first 72 bytes of a password. Two long passwords that share those bytes verify against the same hash, so the third hashing fact fails for them. The stand-in does not capture this limit. Neither do the lemmas that show an old password refused (`Lifecycle.ResetPasswordScenario`, `Lifecycle.ChangePasswordKeepsOldPassword`, `Lifecycle.ChangePasswordIntendedTakesEffect`).
- HMAC signing, signature checking and the JWT library's own expiry check are the `sign` and `parse` parameters. The float64 `exp` claim is modelled as an integer.
- The token service's `Failure("signing failed")` stands for whatever error the signer returns.
- A context value of the wrong type, or a nil one, under `userClaims` is not modelled. Only a missing payload is.
- The e-mail debug prints, the logging interceptor, the logger and `fmt.Println` are left out, because they write only to logs. `App.Chain` keeps only the fact that a call was logged. Two of those writes leak secrets, and the model does not capture this:
  - `internal/adapters/grpc/handler.go:27` logs the plaintext password on every `Login`;
  - `internal/usecase/auth_UC.go:123` prints the one-time code next to the user's e-mail.
- `App.New` does not model creating the Mongo, NATS, Redis and gRPC clients, or their failures and clean-up. Nor does it model `Run`, `Shutdown`, signal handling or configuration loading.
- `App.HealthLoop` receives the `select` outcomes as a sequence of events. The ticker period, the health-check timeout and the goroutines are not modelled.
- Concurrent RPCs on the shared store are not modelled: calls are sequential.
- The `GetUserByID` of `handler.go` is not modelled. It is superseded by the admin-gated version in `user_handler.go`.
- The older iterations are not modelled: `usecase/auth.go`, `grpc/server.go`, `usecase/interface.go`, `token/jwt_manager.go` and `pkg/redis/redis.go`.
- `Handlers.ConvertProtoRole`: the error text is a fixed message, without the enum value the source formats into it.

## Findings

| source | as written | input that shows it | evidently intended | confidence | as-written member | corrected member |
|---|---|---|---|---|---|---|
| internal/adapters/grpc/user_handler.go:122-141 | the handler verifies the code itself, which deletes it, then calls `ConfirmResetPassword`, which verifies it again | a registered e-mail with the code `ResetPassword` just issued, confirmed in time: the second check meets a missing code and the answer is `Internal`, with the password unchanged | verify once, inside the use case, keeping the `InvalidArgument` mapping | high (not executed) | Handlers.ConfirmResetNeverSucceeds | Handlers.FixedConfirmResets |
| internal/app/app.go:111 | the public list names `/auth.AuthService/RestPassword` | a `ResetPassword` call without an `authorization` header is rejected `Unauthenticated` | `/auth.AuthService/ResetPassword` public. The fix corrects only the spelling: `ConfirmResetPassword` stays gated, so a caller without a token can ask for a reset code but cannot redeem it | high (not executed) | App.ResetPasswordNeedsToken | App.IntendedListOpensReset |
| internal/usecase/user_UC.go:38-60 | `ChangePassword` writes back the fetched user with its own password field: it neither checks the old password nor hashes the new one | a user whose password is `a` calls `ChangePassword(id, "a", "b")`: the answer is success, yet login with `b` is refused and with `a` still accepted | check the old password, then store `Hash(newPw)` | high (not executed) | Lifecycle.ChangePasswordKeepsOldPassword | Lifecycle.ChangePasswordIntendedTakesEffect |
