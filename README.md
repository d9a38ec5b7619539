# parkmate auth-service: the authentication policy, modelled in Dafny

This project models the stateful authentication policy of the parkmate
auth-service and proves properties of it. That policy sits behind the
service's HTTP controllers. It has five parts:

- **The code store** (`RedisService`). This is a key/value map with expiry
  instants and a clock. It holds three kinds of entry:
  - email verification codes, one per role and trimmed email;
  - verification-failure counters and login-failure counters;
  - refresh tokens, one per uuid.

  `KeyValue` gives the five commands the service issues (GET, SET with a
  TTL, DEL, INCR, PEXPIRE). `Decimal` gives how counters are written and
  read back (the store's own parse rules, `Integer.parseInt`, and the
  narrowing `Long.intValue`). `Redis` holds the four key builders and the
  class `RedisService`.
- **Login lockout** (`LoginLockout`), shared by both services. The lock
  flag is checked first, then the password. A mismatch increments the
  counter, and the principal is locked and saved once the count reaches 5.
  A match clears the counter and stores a refresh token.
- **Verification codes** (`VerificationCodes`). A code cannot be issued
  while one is live. A check runs the block pre-check (5 or more), then
  the comparison, which does not consume the code. A failure then runs
  the post-check (more than 5).
- **Registration sagas**:
  - user sign-up (`UserAuth`);
  - host sign-up, with its settlement-cycle and business-number checks
    (`HostAuth`);
  - social login-or-register (`UserAuth`).

  The user and host sign-ups verify the code, save the local row, call
  the remote service, compensate a remote failure with `deleteById`, and
  delete the code only after full success. The social path never reads
  or deletes a verification code. It resolves the provider's handler and
  looks up the email. An existing email is signed in. A new email gets a
  saved row and a call to the remote service, and a remote failure is
  compensated with `deleteById`. Both branches end by issuing tokens for
  the row's uuid.
- **Pure validators and selectors**:
  - business-number normalisation and classification
    (`BiznoVerification`, `BiznoResponse`);
  - the lock threshold (`UserPolicy`);
  - the first-match social-provider lookup (`OAuth`);
  - the JWT filter's path whitelist and `Bearer` extraction (`JwtFilter`).

  The `Bearer` header form is the one in section 2.1 of RFC 6750, with
  the scheme matched case-sensitively.

## How the model is built

- **Imperative parts are Dafny classes.** The store, the repositories,
  the two entities, the two service classes, the security context and the
  filter chain each have the source's fields. Their methods name in
  `modifies` exactly what they change.
- **Each service method is tied to a pure function.** A service method's
  `ensures` equates its result and the new state (table, identity
  sequence, store) with a function of the old state:
  - `LoginLockout.Login`, `FailedLogin` and `PasswordAccepted`;
  - `VerificationCodes.SendCode` and `VerifyCode`;
  - `UserAuth.Registration` and `SocialRegistration`;
  - `HostAuth.HostRegistration` and `SaveHost`.

  The lemmas about these functions carry the properties.
- **Errors are values.** A thrown exception is an `Err(status)` result.
  The state that comes with it holds every write made before the throw.
- **The credential tables are maps keyed by email**, so the unique
  constraint on email holds by construction. `Credentials.TableValid`
  adds the other invariants:
  - ids come from the identity sequence;
  - ids are unique, and uuids are unique;
  - every email, uuid and stored hash fits its column (`length` 100, 36
    and 100 in both entities).

  `SaveRow` reports a broken uuid constraint, or a value longer than its
  column, as a violation.
- **Collaborators are parameters.** This covers:
  - the password encoder's `matches` and `encode`;
  - the authentication manager;
  - the two generated tokens and the generated uuid;
  - the mail sender, which is whether sending succeeded;
  - the remote user and host services, which is whether the call succeeded;
  - the database's violation message;
  - the business registry, a function from number to call outcome;
  - the social provider's email lookup;
  - token validation and subject extraction in the filter.
- **The central result concerns the post-check.** From a store whose
  live verification-failure counters all hold 1 to 5
  (`FailCountersBounded`), no
  operation of either service leaves that bound:
  - `VerifyKeepsBound` and `SendKeepsBound`;
  - `ElapseKeepsBound`;
  - every lemma of `ServiceBounds`.

  Under the bound, the `failCount > 5` branch of `verifyEmailCode` never
  runs (`PostCheckUnreachable`). So a refusal as blocked happens exactly
  when the pre-check blocks (`BlockedOnlyByPreCheck`).

The model follows the code in these places, where one might expect
otherwise:

- checking a code never consumes it, even when it matches; only a
  completed sign-up deletes it;
- issuing a code does not reset the verification-failure counter. The
  operation description of the host's code check
  (AuthHostController.java:118) says that requesting a new code resets
  the failure count, but `sendVerificationCode` never touches the counter
  (`SendKeepsCounter`);
- nothing ever clears a lock flag;
- on the user side, a failed lock notification ends the login with
  `AUTH_LOCK_MAIL_FAILED`, after the lock has been saved;
- the user sign-up maps a constraint violation to
  `AUTH_EMAIL_ALREADY_EXISTS` only when the database's message contains
  `UK_auth_user_email`, and to `INTERNAL_SERVER_ERROR` otherwise;
- the host and social paths map every violation to
  `AUTH_EMAIL_ALREADY_EXISTS`. That includes an email longer than the
  100-character column, which no unique constraint is involved in. On
  the user path such an email fails with `INTERNAL_SERVER_ERROR`,
  unless the database's message happens to name `UK_auth_user_email`;
- the 10-minute block after five wrong codes runs from the FIRST
  failure, not the fifth. The operation description of the host's code
  check (AuthHostController.java:117) says five failures block checks for
  10 minutes. But the counter's expiry is set only when it is created
  (RedisService.java:60-61), and the renewal in
  `blockVerificationAttempts` runs only for counts above 5, which
  sequential use never reaches (`PostCheckUnreachable`). So five failures
  spread over 9 minutes block for about one more minute
  (`FiveMismatchesBlock`, `BlockEndsAfterFirstMismatch`);
- login failures are counted in a fixed 15-minute window that starts at
  the first failure (RedisService.java:89-90), not in a sliding one. A
  wrong password 15 minutes or more after the first one counts as a
  first failure again (`WindowFixedByFirstFailure`);
- refresh tokens live for 7 days, the value the two services pass. The
  14-day constant in `RedisService` is never used.

## Model

| member | source | states |
|---|---|---|
| KeyValue.Get | src/main/java/com/parkmate/authservice/common/redis/RedisService.java:43 | GET returns a value exactly when the key is live, and then its stored value |
| KeyValue.Set | src/main/java/com/parkmate/authservice/common/redis/RedisService.java:36 | SET with a TTL makes the key read back the new value; no other key changes |
| KeyValue.Delete | src/main/java/com/parkmate/authservice/common/redis/RedisService.java:52 | DEL removes exactly that key; an absent key is not an error |
| KeyValue.Incr | src/main/java/com/parkmate/authservice/common/redis/RedisService.java:59 | INCR creates an absent key as "1" without a TTL; a live key goes up by one and keeps its TTL; only that key changes |
| KeyValue.Expire | src/main/java/com/parkmate/authservice/common/redis/RedisService.java:81 | PEXPIRE reports whether the key was live, changes only that key, never its value, and sets the new expiry instant |
| KeyValue.SetThenGet | src/main/java/com/parkmate/authservice/common/redis/RedisService.java:35-49 | a saved code reads back until its TTL has elapsed and reads as absent from then on |
| Decimal.Format | src/main/java/com/parkmate/authservice/common/redis/RedisService.java:59 | the decimal text the store writes for a count: never empty, with a leading minus exactly for negatives; `JavaParseFormat` and `StoreParseFormat` read it back |
| Decimal.JavaParseInt | src/main/java/com/parkmate/authservice/common/redis/RedisService.java:74 | `Integer.parseInt`: an optional sign, at least one ASCII digit, and a value within 32 bits, else a format error; its partner is `JavaParseFormat` |
| Decimal.StoreParse | src/main/java/com/parkmate/authservice/common/redis/RedisService.java:59 | how INCR reads a stored value: only canonical 64-bit decimals; its partners are `StoreParseFormat` and `StoreParseCanonical` |
| Decimal.ToInt32 | src/main/java/com/parkmate/authservice/common/redis/RedisService.java:63 | `Long.intValue` gives a 32-bit value, equal to the input when that fits |
| Decimal.JavaParseFormat | src/main/java/com/parkmate/authservice/common/redis/RedisService.java:74 | `Integer.parseInt` reads every 32-bit count the store wrote back as itself |
| Decimal.StoreParseFormat | src/main/java/com/parkmate/authservice/common/redis/RedisService.java:59 | the store's INCR accepts every 64-bit number it wrote, with its value |
| Decimal.StoreParseCanonical | src/main/java/com/parkmate/authservice/common/redis/RedisService.java:59 | INCR accepts only text that is the canonical decimal of its value |
| JavaText.Trim | src/main/java/com/parkmate/authservice/common/redis/RedisService.java:112 | `trim` is no longer than its input and neither starts nor ends with a character up to U+0020 |
| JavaText.TrimIgnoresPadding | src/main/java/com/parkmate/authservice/common/redis/RedisService.java:111-121 | padding that `trim` removes never changes the trimmed email |
| JavaText.TrimIdempotent | src/main/java/com/parkmate/authservice/common/redis/RedisService.java:112 | trimming twice is trimming once |
| JavaText.TrimLeadingSuffix | src/main/java/com/parkmate/authservice/common/redis/RedisService.java:112 | the leading trim is a suffix of its input |
| JavaText.TrimTrailingPrefix | src/main/java/com/parkmate/authservice/common/redis/RedisService.java:112 | the trailing trim is a prefix of its input |
| JavaText.RemoveAll | src/main/java/com/parkmate/authservice/authhost/application/BiznoVerificationService.java:29 | `replaceAll("-", "")` leaves no '-' and never lengthens its input |
| JavaText.RemoveAllCounts | src/main/java/com/parkmate/authservice/authhost/application/BiznoVerificationService.java:29 | every character other than '-' is kept as often as it occurs; '-' occurs no more |
| JavaText.RemoveAllConcat | src/main/java/com/parkmate/authservice/authhost/application/BiznoVerificationService.java:29 | removal works piece by piece, so the kept characters stay in input order |
| JavaText.ContainsOccurrence | src/main/java/com/parkmate/authservice/authuser/application/AuthServiceImpl.java:131 | a message with the constraint name anywhere in it contains that name |
| Redis.EmailVerificationKey | src/main/java/com/parkmate/authservice/common/redis/RedisService.java:111-113 | the role's code prefix followed by the trimmed email; see `EmailVerificationKeyInjective` |
| Redis.VerificationAttemptFailKey | src/main/java/com/parkmate/authservice/common/redis/RedisService.java:115-117 | the role's verification-failure prefix followed by the trimmed email; see `VerificationAttemptFailKeyInjective` |
| Redis.LoginFailKey | src/main/java/com/parkmate/authservice/common/redis/RedisService.java:119-121 | the role's login-failure prefix followed by the trimmed email; see `LoginFailKeyInjective` |
| Redis.RefreshTokenKey | src/main/java/com/parkmate/authservice/common/redis/RedisService.java:123-125 | the refresh prefix followed by the uuid, untrimmed; see `RefreshTokenKeyInjective` |
| Redis.CountFailure | src/main/java/com/parkmate/authservice/common/redis/RedisService.java:57-64 | the increment-then-expire of both counters: an absent counter becomes 1 and gets its TTL; a live one goes up by one and keeps its expiry; the count is narrowed to 32 bits; nothing else changes |
| Redis.AttemptBlocked | src/main/java/com/parkmate/authservice/common/redis/RedisService.java:70-78 | the block test: the counter is live, parses as an `int` and is at least 5; unparsable text does not block |
| Redis.RedisService.SaveVerificationCode | src/main/java/com/parkmate/authservice/common/redis/RedisService.java:35-37 | stores the code under the role's code key with the given TTL |
| Redis.RedisService.VerifyEmailCode | src/main/java/com/parkmate/authservice/common/redis/RedisService.java:39-45 | a null email or code is an argument error; otherwise true exactly when a live code equals the submitted one; the store does not change |
| Redis.RedisService.GetVerificationCode | src/main/java/com/parkmate/authservice/common/redis/RedisService.java:47-49 | the live code for the role and trimmed email, or none |
| Redis.RedisService.DeleteVerificationCode | src/main/java/com/parkmate/authservice/common/redis/RedisService.java:51-53 | deletes exactly the code key |
| Redis.RedisService.IncrementVerificationAttemptFailCount | src/main/java/com/parkmate/authservice/common/redis/RedisService.java:57-64 | the counted failure of `CountFailure` with the 10-minute TTL, or the store's refusal with the store unchanged |
| Redis.RedisService.ResetVerificationAttemptFailCount | src/main/java/com/parkmate/authservice/common/redis/RedisService.java:66-68 | deletes exactly the verification-failure counter |
| Redis.RedisService.IsVerificationAttemptBlocked | src/main/java/com/parkmate/authservice/common/redis/RedisService.java:70-78 | blocked exactly when the counter is live, parses as an `int` and is at least 5; unparsable text is not blocked |
| Redis.RedisService.BlockVerificationAttempts | src/main/java/com/parkmate/authservice/common/redis/RedisService.java:80-82 | renews only the counter's expiry |
| Redis.RedisService.IncrementLoginFailCount | src/main/java/com/parkmate/authservice/common/redis/RedisService.java:86-93 | the counted failure of `CountFailure` with the 15-minute TTL |
| Redis.RedisService.ResetLoginFailCount | src/main/java/com/parkmate/authservice/common/redis/RedisService.java:95-97 | deletes exactly the login counter |
| Redis.RedisService.SaveRefreshToken | src/main/java/com/parkmate/authservice/common/redis/RedisService.java:101-103 | replaces any earlier token of the uuid (last writer wins) |
| Redis.RedisService.DeleteRefreshToken | src/main/java/com/parkmate/authservice/common/redis/RedisService.java:105-107 | deletes exactly the uuid's refresh token |
| Redis.EmailVerificationKeyInjective | src/main/java/com/parkmate/authservice/common/redis/RedisService.java:111-113 | two code keys coincide exactly when the roles are equal and the emails trim alike |
| Redis.VerificationAttemptFailKeyInjective | src/main/java/com/parkmate/authservice/common/redis/RedisService.java:115-117 | the same for failure-counter keys |
| Redis.LoginFailKeyInjective | src/main/java/com/parkmate/authservice/common/redis/RedisService.java:119-121 | the same for login-counter keys |
| Redis.RefreshTokenKeyInjective | src/main/java/com/parkmate/authservice/common/redis/RedisService.java:123-125 | refresh keys coincide exactly when the uuids are equal; the uuid is not trimmed |
| Redis.PaddedEmailSharesKeys | src/main/java/com/parkmate/authservice/common/redis/RedisService.java:111-121 | emails that differ only in surrounding whitespace share all three keys |
| Redis.KeyFamiliesDisjoint | src/main/java/com/parkmate/authservice/common/redis/RedisService.java:19-25 | keys of different kinds never collide |
| Redis.VerifyFailKeyKinds | src/main/java/com/parkmate/authservice/common/redis/RedisService.java:21-22 | only verification-failure keys carry the failure-counter prefixes |
| VerificationCodes.SendCode | src/main/java/com/parkmate/authservice/authuser/application/AuthServiceImpl.java:179-189 | a code is issued exactly when none is live and the mail went out; the issued code then reads back; a refusal changes nothing |
| VerificationCodes.VerifyCode | src/main/java/com/parkmate/authservice/authuser/application/AuthServiceImpl.java:193-212 | a check succeeds, with `true`, exactly when the counter does not block and a code was given that equals the live one |
| VerificationCodes.SendRefusedWhileLive | src/main/java/com/parkmate/authservice/authuser/application/AuthServiceImpl.java:181-184 | while a code is live, issuing fails with `VERIFICATION_CODE_ALREADY_SENT` and nothing changes |
| VerificationCodes.IssuedCodeLifetime | src/main/java/com/parkmate/authservice/authuser/application/AuthServiceImpl.java:186-188 | an issued code reads back for 3 minutes, then is gone and a new one may be issued |
| VerificationCodes.SendKeepsCounter | src/main/java/com/parkmate/authservice/authuser/application/AuthServiceImpl.java:179-189 | issuing writes only the code key and never touches the verification-failure counter |
| VerificationCodes.BlockedRefusesAnyCode | src/main/java/com/parkmate/authservice/authuser/application/AuthServiceImpl.java:195-197 | while blocked, every check fails with `VERIFICATION_ATTEMPT_BLOCKED`, the right code included, and nothing changes |
| VerificationCodes.VerifyTouchesOnlyCounter | src/main/java/com/parkmate/authservice/authuser/application/AuthServiceImpl.java:193-212 | a check writes only its own verification-failure counter; the code is never consumed |
| VerificationCodes.MatchClearsCounter | src/main/java/com/parkmate/authservice/authuser/application/AuthServiceImpl.java:199-211 | the right code, when not blocked, returns true, clears the counter and leaves the code in place |
| VerificationCodes.UnblockedCountBelowLimit | src/main/java/com/parkmate/authservice/common/redis/RedisService.java:70-78 | under the counter bound, a live counter that does not block holds 1 to 4 |
| VerificationCodes.BoundedCountStaysSmall | src/main/java/com/parkmate/authservice/common/redis/RedisService.java:57-64 | under the counter bound, counting one more failure on an unblocked counter succeeds with a count from 1 to 5 |
| VerificationCodes.CountFromFormatted | src/main/java/com/parkmate/authservice/common/redis/RedisService.java:57-64 | a counter that reads k (below 5, absent for 0) reads k + 1 after one counted failure |
| VerificationCodes.CounterAfterCheck | src/main/java/com/parkmate/authservice/authuser/application/AuthServiceImpl.java:193-212 | under the counter bound, the check's own counter afterwards is absent or holds 1 to 5 |
| VerificationCodes.PostCheckUnreachable | src/main/java/com/parkmate/authservice/authuser/application/AuthServiceImpl.java:201-206 | under the counter bound, the `failCount > 5` branch never fires |
| VerificationCodes.BlockedOnlyByPreCheck | src/main/java/com/parkmate/authservice/authuser/application/AuthServiceImpl.java:195-207 | under the bound, a check fails as blocked exactly when the pre-check blocks, and then changes nothing |
| VerificationCodes.VerifyKeepsBound | src/main/java/com/parkmate/authservice/authuser/application/AuthServiceImpl.java:193-212 | a check keeps every live verification-failure counter between 1 and 5 |
| VerificationCodes.SendKeepsBound | src/main/java/com/parkmate/authservice/authuser/application/AuthServiceImpl.java:179-189 | issuing a code keeps the bound |
| VerificationCodes.ElapseKeepsBound | src/main/java/com/parkmate/authservice/common/redis/RedisService.java:57-64 | time passing keeps the bound, since counters only expire |
| VerificationCodes.MismatchStep | src/main/java/com/parkmate/authservice/authuser/application/AuthServiceImpl.java:199-207 | a wrong code on a counter holding k below 5 fails with `INVALID_VERIFICATION_CODE_MISMATCH`, leaves k + 1, and keeps the code; only the counter is written, a new counter expires 10 minutes later and an existing one keeps its expiry |
| VerificationCodes.MismatchEntryStep | src/main/java/com/parkmate/authservice/common/redis/RedisService.java:57-64 | the counter's whole entry goes from k with expiry e to k + 1 with the same e; a first failure sets e to 10 minutes ahead |
| VerificationCodes.SameCode | src/main/java/com/parkmate/authservice/common/redis/RedisService.java:18-21 | stores that differ only in the failure counter hold the same code at every instant |
| VerificationCodes.MismatchesCounted | src/main/java/com/parkmate/authservice/authuser/application/AuthServiceImpl.java:199-207 | n wrong codes (n up to 5) at any instants within 10 minutes of the first, starting from no counter, leave it at n, still expiring 10 minutes after the first failure; no other key changes, the code included |
| VerificationCodes.FiveMismatchesBlock | src/main/java/com/parkmate/authservice/authuser/application/AuthServiceImpl.java:193-207 | after five wrong codes within 10 minutes of the first, every check is refused as blocked, the right code included, until 10 minutes after the first failure |
| VerificationCodes.BlockEndsAfterFirstMismatch | src/main/java/com/parkmate/authservice/common/redis/RedisService.java:57-64 | from 10 minutes after the first of the five failures the block is over, and a check succeeds exactly when its code is the live one |
| VerificationCodes.RolesIndependent | src/main/java/com/parkmate/authservice/authhost/application/AuthHostServiceImpl.java:190-210 | a check in one role changes no code and no counter of the other role, for any email |
| Credentials.WithoutId | src/main/java/com/parkmate/authservice/authuser/application/AuthServiceImpl.java:137 | `deleteById` keeps exactly the rows with another id, unchanged |
| Credentials.SaveRow | src/main/java/com/parkmate/authservice/authuser/domain/AuthUser.java:21-36 | a saved row fits its columns and is stored under its email with its id; a new row breaks the email constraint exactly when the email is taken; a new row with a free email and uuid is inserted under the next id when its email, uuid and hash fit their columns, and is refused as too long otherwise |
| Credentials.SaveKeepsValid | src/main/java/com/parkmate/authservice/authuser/domain/AuthUser.java:21-36 | a successful save keeps ids issued, ids and uuids unique, and every value within its column |
| Credentials.InsertThenDeleteRestores | src/main/java/com/parkmate/authservice/authuser/application/AuthServiceImpl.java:136-138 | deleting the id a fresh insert received gives back exactly the table before it |
| Credentials.LockWriteSucceeds | src/main/java/com/parkmate/authservice/authuser/application/AuthServiceImpl.java:150-151 | writing back a stored row with its lock set always succeeds and changes only that flag |
| Credentials.Repository.FindByEmail | src/main/java/com/parkmate/authservice/authuser/application/AuthServiceImpl.java:76-77 | the row stored under the email, or none |
| Credentials.Repository.Save | src/main/java/com/parkmate/authservice/authuser/application/AuthServiceImpl.java:121 | the outcome of `SaveRow`; the table changes only on success and stays valid |
| Credentials.Repository.DeleteById | src/main/java/com/parkmate/authservice/authuser/application/AuthServiceImpl.java:137 | the table without that id, still valid |
| AuthUserEntity.AuthUser.constructor | src/main/java/com/parkmate/authservice/authuser/domain/AuthUser.java:52-67 | every field takes its argument |
| AuthUserEntity.AuthUser.LockAccount | src/main/java/com/parkmate/authservice/authuser/domain/AuthUser.java:69-71 | sets the flag and changes no other field; repeating it changes nothing more |
| AuthUserEntity.AuthUser.IsAccountLocked | src/main/java/com/parkmate/authservice/authuser/domain/AuthUser.java:73-75 | the stored flag |
| AuthUserEntity.AuthUser.IsAccountNonLocked | src/main/java/com/parkmate/authservice/authuser/domain/AuthUser.java:92-95 | always the negation of `isAccountLocked` |
| AuthUserEntity.AuthUser.GetUsername | src/main/java/com/parkmate/authservice/authuser/domain/AuthUser.java:82-85 | the email |
| AuthUserEntity.AuthUser.IsAccountNonExpired | src/main/java/com/parkmate/authservice/authuser/domain/AuthUser.java:87-90 | always true |
| AuthUserEntity.AuthUser.IsCredentialsNonExpired | src/main/java/com/parkmate/authservice/authuser/domain/AuthUser.java:97-100 | always true |
| AuthUserEntity.AuthUser.IsEnabled | src/main/java/com/parkmate/authservice/authuser/domain/AuthUser.java:102-105 | always true |
| AuthHostEntity.AuthHost.constructor | src/main/java/com/parkmate/authservice/authhost/domain/AuthHost.java:42-53 | every field takes its argument; a host row is a password login without a provider |
| AuthHostEntity.AuthHost.LockAccount | src/main/java/com/parkmate/authservice/authhost/domain/AuthHost.java:55-57 | sets the flag and changes no other field |
| AuthHostEntity.AuthHost.IsAccountLocked | src/main/java/com/parkmate/authservice/authhost/domain/AuthHost.java:38-40 | the generated getter returns the stored flag |
| AuthHostEntity.AuthHost.IsAccountNonLocked | src/main/java/com/parkmate/authservice/authhost/domain/AuthHost.java:74-77 | always the negation of the flag |
| AuthHostEntity.AuthHost.GetUsername | src/main/java/com/parkmate/authservice/authhost/domain/AuthHost.java:64-67 | the email |
| AuthHostEntity.AuthHost.IsAccountNonExpired | src/main/java/com/parkmate/authservice/authhost/domain/AuthHost.java:69-72 | always true |
| AuthHostEntity.AuthHost.IsCredentialsNonExpired | src/main/java/com/parkmate/authservice/authhost/domain/AuthHost.java:79-82 | always true |
| AuthHostEntity.AuthHost.IsEnabled | src/main/java/com/parkmate/authservice/authhost/domain/AuthHost.java:84-87 | always true |
| UserPolicy.ShouldLockAccount | src/main/java/com/parkmate/authservice/authuser/application/policy/AuthUserPolicyService.java:14-17 | a count locks when it has reached the limit; see `LockThresholdMonotone` and `LimitIsLeastLockingCount` |
| UserPolicy.IsAccountLocked | src/main/java/com/parkmate/authservice/authuser/application/policy/AuthUserPolicyService.java:19-22 | the entity's own `isAccountLocked`, the opposite of `isAccountNonLocked` |
| UserPolicy.LockThresholdMonotone | src/main/java/com/parkmate/authservice/authuser/application/policy/AuthUserPolicyService.java:14-17 | if a count locks, every larger count locks |
| UserPolicy.LimitIsLeastLockingCount | src/main/java/com/parkmate/authservice/authuser/application/policy/AuthUserPolicyService.java:14-17 | the limit locks and every smaller count does not, so the test is `c >= limit` |
| UserPolicy.DefaultPolicyMatchesServices | src/main/java/com/parkmate/authservice/common/config/LoginFailPolicyProperties.java:14 | with the default limit of 5 the policy agrees with the services' hard-coded rule: 4 does not lock, 5 does |
| OAuth.Supports | src/main/java/com/parkmate/authservice/authuser/application/oauth/KakaoOAuthServiceImpl.java:15-17 | the Kakao handler supports exactly `KAKAO`; see `KakaoOnly` |
| OAuth.FirstSupporting | src/main/java/com/parkmate/authservice/authuser/application/oauth/OAuthServiceFactory.java:17-19 | the position of the first handler that supports the provider; every earlier one does not |
| OAuth.GetOAuthService | src/main/java/com/parkmate/authservice/authuser/application/oauth/OAuthServiceFactory.java:16-21 | the first supporting handler in list order, which supports the provider; `AUTH_SOCIAL_PROVIDER_NOT_SUPPORTED` exactly when none does |
| OAuth.LaterServicesIrrelevant | src/main/java/com/parkmate/authservice/authuser/application/oauth/OAuthServiceFactory.java:17-19 | handlers after the first supporting one do not affect the result |
| OAuth.KakaoOnly | src/main/java/com/parkmate/authservice/authuser/application/oauth/KakaoOAuthServiceImpl.java:15-17 | with only the Kakao handler, KAKAO resolves to it and every other provider is refused |
| BiznoResponse.IsActive | src/main/java/com/parkmate/authservice/authhost/dto/response/BiznoValidationResponseDto.java:80-83 | an item is active when its status code is absent, blank or "01" |
| BiznoResponse.HasValidBusiness | src/main/java/com/parkmate/authservice/authhost/dto/response/BiznoValidationResponseDto.java:35-40 | a list is present and one of its non-null items is active; see `HasValidBusinessViaValidItems` |
| BiznoResponse.NonNull | src/main/java/com/parkmate/authservice/authhost/dto/response/BiznoValidationResponseDto.java:46-48 | the filtered list is no longer than the input and holds exactly its non-null items |
| BiznoResponse.GetValidItemList | src/main/java/com/parkmate/authservice/authhost/dto/response/BiznoValidationResponseDto.java:42-49 | empty for a null list, otherwise the non-null items |
| BiznoResponse.NonNullConcat | src/main/java/com/parkmate/authservice/authhost/dto/response/BiznoValidationResponseDto.java:46-48 | the filter keeps the input order |
| BiznoResponse.NonNullOfNulls | src/main/java/com/parkmate/authservice/authhost/dto/response/BiznoValidationResponseDto.java:42-49 | a list holding only nulls has no valid items |
| BiznoResponse.FirstValidItem | src/main/java/com/parkmate/authservice/authhost/application/BiznoVerificationService.java:50-54 | the first valid item is the first non-null item of the list |
| BiznoResponse.NonNullOfPresent | src/main/java/com/parkmate/authservice/authhost/dto/response/BiznoValidationResponseDto.java:46-48 | a list without nulls passes through unchanged |
| BiznoResponse.HasValidBusinessViaValidItems | src/main/java/com/parkmate/authservice/authhost/dto/response/BiznoValidationResponseDto.java:35-49 | `hasValidBusiness` holds exactly when some element of `getValidItemList` is active |
| BiznoVerification.Normalize | src/main/java/com/parkmate/authservice/authhost/application/BiznoVerificationService.java:29 | the normalised number contains no '-' |
| BiznoVerification.ValidFormat | src/main/java/com/parkmate/authservice/authhost/application/BiznoVerificationService.java:72-76 | the whole normalised number is exactly ten ASCII digits |
| BiznoVerification.Verify | src/main/java/com/parkmate/authservice/authhost/application/BiznoVerificationService.java:28-70 | valid exactly when the normalised number is ten digits, the registry returned a body and that body has a valid business; a malformed number is `AUTH_BUSINESS_NUMBER_INVALID`; a null body is `AUTH_BIZNO_API_FAILED` with the no-response reason; any other failure is `AUTH_BIZNO_API_FAILED` with its message; a business exception from the call passes through unchanged; an inactive business is `AUTH_BUSINESS_NUMBER_INVALID`, with the no-items reason exactly when no item is non-null |
| BiznoVerification.OnlyNormalizedNumberSent | src/main/java/com/parkmate/authservice/authhost/application/BiznoVerificationService.java:35-40 | the registry is consulted only with the normalised number |
| BiznoVerification.FormatCheckedFirst | src/main/java/com/parkmate/authservice/authhost/application/BiznoVerificationService.java:30 | a malformed number is refused whatever the registry would say |
| BiznoVerification.InactiveReason | src/main/java/com/parkmate/authservice/authhost/application/BiznoVerificationService.java:48-58 | an inactive business is refused with the first non-null item's status as the reason |
| BiznoVerification.NoItemsReason | src/main/java/com/parkmate/authservice/authhost/application/BiznoVerificationService.java:48-58 | a response whose list is absent or holds only nulls is refused with `AUTH_BUSINESS_NUMBER_INVALID` and the no-items reason |
| BiznoVerification.DashedFormNormalizes | src/main/java/com/parkmate/authservice/authhost/application/BiznoVerificationService.java:29-30 | the form `ddd-dd-ddddd` normalises to its ten digits |
| JwtFilter.AnyPrefix | src/main/java/com/parkmate/authservice/common/security/jwt/JwtAuthenticationFilter.java:33-42 | true exactly when the path starts with one of the prefixes |
| JwtFilter.ShouldNotFilter | src/main/java/com/parkmate/authservice/common/security/jwt/JwtAuthenticationFilter.java:29-43 | the path starts with one of the ten whitelisted prefixes; see `ExtensionsSkipped` and `NearMissesFiltered` |
| JwtFilter.ExtensionsSkipped | src/main/java/com/parkmate/authservice/common/security/jwt/JwtAuthenticationFilter.java:33-42 | any extension of a skipped path is skipped too |
| JwtFilter.NearMissesFiltered | src/main/java/com/parkmate/authservice/common/security/jwt/JwtAuthenticationFilter.java:33-42 | "/api/v1/login/user" and "/api/v1/checkEmail" are filtered; "/api/v1/user/login" is not |
| JwtFilter.ExtractBearerToken | src/main/java/com/parkmate/authservice/common/security/jwt/JwtAuthenticationFilter.java:50-53 | a token exactly when the header is present and starts with "Bearer "; the header is then "Bearer " followed by the token |
| JwtFilter.BearerRoundTrip | src/main/java/com/parkmate/authservice/common/security/jwt/JwtAuthenticationFilter.java:50-53 | "Bearer " plus a token gives back that token |
| JwtFilter.SchemeCaseSensitive | src/main/java/com/parkmate/authservice/common/security/jwt/JwtAuthenticationFilter.java:50 | a lower-case "bearer " header yields no token |
| JwtFilter.AuthenticatedPrincipal | src/main/java/com/parkmate/authservice/common/security/jwt/JwtAuthenticationFilter.java:55-73 | an authentication exactly when the token is present and validates and its subject is a stored email; the principal is that user's uuid |
| JwtFilter.DoFilterInternal | src/main/java/com/parkmate/authservice/common/security/jwt/JwtAuthenticationFilter.java:46-78 | sets the context to that authentication when there is one, otherwise leaves it alone; continues the chain exactly once |
| JwtFilter.DoFilter | src/main/java/com/parkmate/authservice/common/security/jwt/JwtAuthenticationFilter.java:28-42 | a whitelisted path leaves the context alone; every path continues the chain exactly once |
| ServiceState.IssueTokens | src/main/java/com/parkmate/authservice/authuser/application/AuthServiceImpl.java:261-269 | the tokens are for the given uuid; its refresh token is stored under it; nothing else changes |
| LoginLockout.Login | src/main/java/com/parkmate/authservice/authuser/application/AuthServiceImpl.java:75-96 | a login succeeds only for a known, unlocked principal whose password matches and whose credentials authenticate, with tokens for that principal's uuid; success leaves the table as it was |
| LoginLockout.FailedLogin | src/main/java/com/parkmate/authservice/authuser/application/AuthServiceImpl.java:146-160 | a counted failure returns normally exactly when counting succeeded with a count below 5, and then leaves the table as it was |
| LoginLockout.PasswordAccepted | src/main/java/com/parkmate/authservice/authuser/application/AuthServiceImpl.java:88-95 | after a matching password the table is untouched; it succeeds exactly when authentication does, with tokens for the principal's uuid and the refresh token stored under it |
| LoginLockout.Logout | src/main/java/com/parkmate/authservice/authuser/application/AuthServiceImpl.java:100-102 | the uuid's refresh-token key is removed from the store; nothing else changes |
| LoginLockout.UnknownEmailRefused | src/main/java/com/parkmate/authservice/authuser/application/AuthServiceImpl.java:76-77 | an unknown email fails with the role's not-found status and nothing changes |
| LoginLockout.LockedAccountRefused | src/main/java/com/parkmate/authservice/authuser/application/AuthServiceImpl.java:79-81 | a locked principal fails with `AUTH_ACCOUNT_LOCKED` whatever the password; the counter is not touched |
| LoginLockout.WrongPasswordCounted | src/main/java/com/parkmate/authservice/authuser/application/AuthServiceImpl.java:146-160 | a wrong password counts a failure; below 5 it fails with `INVALID_AUTH_PASSWORD` and the table is untouched; at 5 or more the row is locked and saved, and the call fails with `AUTH_ACCOUNT_LOCKED`, or with `AUTH_LOCK_MAIL_FAILED` when the notice failed |
| LoginLockout.RightPasswordAccepted | src/main/java/com/parkmate/authservice/authuser/application/AuthServiceImpl.java:88-95 | the right password clears the counter; on authentication it returns tokens for the principal's own uuid and stores the refresh token under it |
| LoginLockout.CountRestartsAfterSuccess | src/main/java/com/parkmate/authservice/authuser/application/AuthServiceImpl.java:83-96 | after a successful login the next wrong password counts 1, not 6 |
| LoginLockout.FailedLoginTable | src/main/java/com/parkmate/authservice/authuser/application/AuthServiceImpl.java:146-160 | a counted failure leaves the table unchanged or with that row locked |
| LoginLockout.LockAfterFailure | src/main/java/com/parkmate/authservice/authuser/application/AuthServiceImpl.java:149-159 | the lock branch always fails and keeps the counted store |
| LoginLockout.LockingKeepsLocks | src/main/java/com/parkmate/authservice/authuser/domain/AuthUser.java:69-71 | locking one row keeps every lock and keeps the table valid |
| LoginLockout.LoginKeepsLocks | src/main/java/com/parkmate/authservice/authuser/application/AuthServiceImpl.java:75-96 | no login clears a lock, and every login keeps the table valid |
| LoginLockout.WrongPasswordStep | src/main/java/com/parkmate/authservice/authuser/application/AuthServiceImpl.java:146-151 | a wrong password on a counter holding k below 5 leaves k + 1, and locks exactly when that is 5; only the counter is written in the store, a new counter expires 15 minutes later and an existing one keeps its expiry |
| LoginLockout.WrongPasswordEntryStep | src/main/java/com/parkmate/authservice/common/redis/RedisService.java:86-93 | the counter's whole entry goes from k with expiry e to k + 1 with the same e; a first failure sets e to 15 minutes ahead |
| LoginLockout.WrongPasswordsCounted | src/main/java/com/parkmate/authservice/authuser/application/AuthServiceImpl.java:146-151 | n wrong passwords (n from 1 to 4) at any instants within 15 minutes of the first, starting from no counter, leave it at n, still expiring 15 minutes after the first failure; the table and every other key are unchanged |
| LoginLockout.FiveWrongPasswordsLock | src/main/java/com/parkmate/authservice/authuser/application/AuthServiceImpl.java:75-160 | five wrong passwords within 15 minutes of the first lock the principal; from then on every login fails with `AUTH_ACCOUNT_LOCKED`, the right password included, at any later time |
| LoginLockout.WindowFixedByFirstFailure | src/main/java/com/parkmate/authservice/common/redis/RedisService.java:86-93 | a wrong password 15 minutes or more after the first of up to four failures counts as a first failure again: `INVALID_AUTH_PASSWORD`, no lock, counter "1" |
| UserAuth.Registration | src/main/java/com/parkmate/authservice/authuser/application/AuthServiceImpl.java:106-140 | a sign-up succeeds only with a matching code, a free email whose row fits its columns and the remote service's acceptance, and then deletes the code; every failure leaves the store as it was |
| UserAuth.SocialRegistration | src/main/java/com/parkmate/authservice/authuser/application/AuthServiceImpl.java:216-259 | a social sign-in succeeds only for a supported provider, and then the refresh token of the returned uuid is stored; every failure leaves the store as it was |
| UserAuth.RegisterWrongCode | src/main/java/com/parkmate/authservice/authuser/application/AuthServiceImpl.java:107-115 | a wrong or expired code fails with `INVALID_VERIFICATION_CODE` and writes nothing |
| UserAuth.RegisterDuplicateEmail | src/main/java/com/parkmate/authservice/authuser/application/AuthServiceImpl.java:129-135 | a taken email fails with `AUTH_EMAIL_ALREADY_EXISTS` if the database's message names `UK_auth_user_email`, else `INTERNAL_SERVER_ERROR`; nothing changes |
| UserAuth.DuplicateEmailNamed | src/main/java/com/parkmate/authservice/authuser/application/AuthServiceImpl.java:129-132 | a message naming the constraint anywhere is reported as `AUTH_EMAIL_ALREADY_EXISTS` |
| UserAuth.RegisterOutcome | src/main/java/com/parkmate/authservice/authuser/application/AuthServiceImpl.java:106-140 | sign-up succeeds exactly when the code matches, the email and uuid are free, the email, uuid and hash fit their columns and the remote call succeeds; then the row is inserted and the code deleted; a value too long for its column fails with the status the database's message selects; a remote failure, after compensation, fails with `AUTH_USER_REGISTER_FAILED`; on every failure the table and the code are as before; the table stays valid and no lock is lost |
| UserAuth.SocialUnsupportedProvider | src/main/java/com/parkmate/authservice/authuser/application/AuthServiceImpl.java:218 | an unsupported provider fails with `AUTH_SOCIAL_PROVIDER_NOT_SUPPORTED` and nothing changes |
| UserAuth.SocialExisting | src/main/java/com/parkmate/authservice/authuser/application/AuthServiceImpl.java:221-241 | an existing email writes no row and gets tokens for the stored uuid, stored under it; the lock flag is not consulted |
| UserAuth.SocialNew | src/main/java/com/parkmate/authservice/authuser/application/AuthServiceImpl.java:223-259 | a new email whose row fits its columns becomes a SOCIAL row without a password under the next id, with tokens for the new uuid; a remote failure deletes the row again and fails with `AUTH_USER_REGISTER_FAILED`; an email or uuid too long for its column fails with `AUTH_EMAIL_ALREADY_EXISTS`; every failure leaves table and store unchanged |
| UserAuth.SocialKeepsTable | src/main/java/com/parkmate/authservice/authuser/application/AuthServiceImpl.java:216-259 | social sign-in keeps the table valid and never clears a lock |
| UserAuth.AuthService.Login | src/main/java/com/parkmate/authservice/authuser/application/AuthServiceImpl.java:75-96 | result, table and store are those of `LoginLockout.Login` for the user role with the notice's outcome |
| UserAuth.AuthService.AcceptPassword | src/main/java/com/parkmate/authservice/authuser/application/AuthServiceImpl.java:88-95 | the tail of a login after a matching password, as `PasswordAccepted` |
| UserAuth.AuthService.HandleFailedLogin | src/main/java/com/parkmate/authservice/authuser/application/AuthServiceImpl.java:146-160 | as `FailedLogin` for the user role: count, lock and save at 5, then the notice |
| UserAuth.AuthService.LockAndSave | src/main/java/com/parkmate/authservice/authuser/application/AuthServiceImpl.java:149-159 | locks and saves the user, then sends the notice; result, table and store are those of `LockAfterFailure` |
| UserAuth.AuthService.Logout | src/main/java/com/parkmate/authservice/authuser/application/AuthServiceImpl.java:100-102 | the store after `LoginLockout.Logout` |
| UserAuth.AuthService.Register | src/main/java/com/parkmate/authservice/authuser/application/AuthServiceImpl.java:106-140 | result, table and store are those of `Registration` |
| UserAuth.AuthService.SendVerificationCode | src/main/java/com/parkmate/authservice/authuser/application/AuthServiceImpl.java:179-189 | result and store are those of `SendCode` for the user role |
| UserAuth.AuthService.VerifyEmailCode | src/main/java/com/parkmate/authservice/authuser/application/AuthServiceImpl.java:193-212 | result and store are those of `VerifyCode` for the user role |
| UserAuth.AuthService.RegisterSocialUser | src/main/java/com/parkmate/authservice/authuser/application/AuthServiceImpl.java:216-242 | result, table and store are those of `SocialRegistration` |
| UserAuth.AuthService.RegisterNewSocialUser | src/main/java/com/parkmate/authservice/authuser/application/AuthServiceImpl.java:244-259 | saves a SOCIAL row without a password; the new id on success; any violation is `AUTH_EMAIL_ALREADY_EXISTS` with the table unchanged |
| UserAuth.AuthService.GenerateTokensAndSave | src/main/java/com/parkmate/authservice/authuser/application/AuthServiceImpl.java:261-269 | as `IssueTokens` with the 7-day expiry |
| HostAuth.HostRegistration | src/main/java/com/parkmate/authservice/authhost/application/AuthHostServiceImpl.java:113-157 | a host sign-up succeeds only with an allowed cycle, a matching code, a vouched business number, a row that fits its columns and the remote service's acceptance; every failure leaves the store as it was |
| HostAuth.SaveHost | src/main/java/com/parkmate/authservice/authhost/application/AuthHostServiceImpl.java:137-156 | the saga succeeds only for a free email whose row fits its columns and the remote service's acceptance, and then deletes the code; a failure leaves the store as it was and is a duplicate email, an internal error or `AUTH_HOST_SERVICE_ERROR` |
| HostAuth.SaveHostOutcome | src/main/java/com/parkmate/authservice/authhost/application/AuthHostServiceImpl.java:137-156 | the host saga succeeds exactly when the email and uuid are free, the row fits its columns and the remote call succeeds, and then inserts the row and deletes the code; a taken email or uuid, or a value too long for its column, fails with `AUTH_EMAIL_ALREADY_EXISTS`; a remote failure, after compensation, fails with `AUTH_HOST_SERVICE_ERROR`; on failure the table and store are as before |
| HostAuth.CycleCheckedFirst | src/main/java/com/parkmate/authservice/authhost/application/AuthHostServiceImpl.java:115-118 | a cycle other than 15 or 30 fails with `INVALID_SETTLEMENT_CYCLE` before anything else, and nothing changes |
| HostAuth.BusinessNumberCheckedBeforeSave | src/main/java/com/parkmate/authservice/authhost/application/AuthHostServiceImpl.java:120-130 | a refused business number fails with the check's own status before any row is saved |
| HostAuth.HostRegisterWrongCode | src/main/java/com/parkmate/authservice/authhost/application/AuthHostServiceImpl.java:120-128 | with an allowed cycle, a wrong or expired code fails with `INVALID_VERIFICATION_CODE` before the registry is asked, and writes nothing |
| HostAuth.MalformedNumberRefused | src/main/java/com/parkmate/authservice/authhost/application/AuthHostServiceImpl.java:115-130 | a number that is not ten digits after normalisation fails with `AUTH_BUSINESS_NUMBER_INVALID` and nothing changes |
| HostAuth.HostRegisterOutcome | src/main/java/com/parkmate/authservice/authhost/application/AuthHostServiceImpl.java:113-157 | host sign-up succeeds exactly when the cycle is allowed, the code matches, the registry vouches, the email and uuid are free, the row fits its columns and the remote call succeeds; then the row is inserted and the code deleted; with every check passed, a taken email or uuid or a too-long value fails with `AUTH_EMAIL_ALREADY_EXISTS` and a remote failure, after compensation, with `AUTH_HOST_SERVICE_ERROR`; otherwise the table and the code are as before |
| HostAuth.HostDuplicateEmail | src/main/java/com/parkmate/authservice/authhost/application/AuthHostServiceImpl.java:137-141 | a taken email fails with `AUTH_EMAIL_ALREADY_EXISTS`, with no remote call and nothing written |
| HostAuth.HostLockStatus | src/main/java/com/parkmate/authservice/authhost/application/AuthHostServiceImpl.java:91-98 | a host's fifth wrong password locks and saves it and fails with `AUTH_ACCOUNT_LOCKED`; there is no notice step |
| HostAuth.AuthHostService.Login | src/main/java/com/parkmate/authservice/authhost/application/AuthHostServiceImpl.java:65-89 | result, table and store are those of `LoginLockout.Login` for the host role without a notice |
| HostAuth.AuthHostService.AcceptPassword | src/main/java/com/parkmate/authservice/authhost/application/AuthHostServiceImpl.java:79-88 | resets the host counter and stores the refresh token under `hostUuid`, as `PasswordAccepted` |
| HostAuth.AuthHostService.HandleFailedLogin | src/main/java/com/parkmate/authservice/authhost/application/AuthHostServiceImpl.java:91-99 | as `FailedLogin` for the host role without a notice |
| HostAuth.AuthHostService.LockAndSave | src/main/java/com/parkmate/authservice/authhost/application/AuthHostServiceImpl.java:95-98 | locks and saves the host; result, table and store are those of `LockAfterFailure` without a notice |
| HostAuth.AuthHostService.Logout | src/main/java/com/parkmate/authservice/authhost/application/AuthHostServiceImpl.java:107-109 | the store after `LoginLockout.Logout` |
| HostAuth.AuthHostService.Register | src/main/java/com/parkmate/authservice/authhost/application/AuthHostServiceImpl.java:113-157 | result, table and store are those of `HostRegistration` |
| HostAuth.AuthHostService.SaveAndPublish | src/main/java/com/parkmate/authservice/authhost/application/AuthHostServiceImpl.java:137-156 | result, table and store are those of `SaveHost` |
| HostAuth.AuthHostService.SendVerificationCode | src/main/java/com/parkmate/authservice/authhost/application/AuthHostServiceImpl.java:176-188 | result and store are those of `SendCode` for the host role |
| HostAuth.AuthHostService.VerifyEmailCode | src/main/java/com/parkmate/authservice/authhost/application/AuthHostServiceImpl.java:191-210 | result and store are those of `VerifyCode` for the host role |
| ServiceBounds.IssueKeepsBound | src/main/java/com/parkmate/authservice/authuser/application/AuthServiceImpl.java:261-269 | issuing tokens keeps every live verification-failure counter between 1 and 5 |
| ServiceBounds.FailedLoginKeepsBound | src/main/java/com/parkmate/authservice/authuser/application/AuthServiceImpl.java:146-160 | a counted login failure keeps every live verification-failure counter between 1 and 5 |
| ServiceBounds.AcceptedKeepsBound | src/main/java/com/parkmate/authservice/authuser/application/AuthServiceImpl.java:88-95 | an accepted password keeps every live verification-failure counter between 1 and 5 |
| ServiceBounds.LoginKeepsBound | src/main/java/com/parkmate/authservice/authuser/application/AuthServiceImpl.java:75-96 | every login of either role keeps every live verification-failure counter between 1 and 5 |
| ServiceBounds.LogoutKeepsBound | src/main/java/com/parkmate/authservice/authuser/application/AuthServiceImpl.java:100-102 | logout keeps every live verification-failure counter between 1 and 5 |
| ServiceBounds.RegisterKeepsBound | src/main/java/com/parkmate/authservice/authuser/application/AuthServiceImpl.java:106-140 | user sign-up keeps every live verification-failure counter between 1 and 5 |
| ServiceBounds.HostRegisterKeepsBound | src/main/java/com/parkmate/authservice/authhost/application/AuthHostServiceImpl.java:113-157 | host sign-up keeps every live verification-failure counter between 1 and 5 |
| ServiceBounds.SocialKeepsBound | src/main/java/com/parkmate/authservice/authuser/application/AuthServiceImpl.java:216-242 | social sign-in keeps every live verification-failure counter between 1 and 5 |

## Left out

- Token signing and validation (`JwtProvider`, HMAC-SHA-256 via a
  library, and the system clock) are left out. Tokens are opaque values
  given as parameters. The filter's `validateToken` and `extractSubject`
  are parameters too.
- Spring Security is left out. The authentication manager is a
  success-or-failure parameter, BCrypt is an abstract `matches`, and the
  `SecurityContextHolder` set after a login is not modelled. The filter's
  context is modelled as the class `SecurityContext`.
- Remote and I/O calls are each a success-or-failure parameter:
  - the Feign clients (user service, host service, business registry);
  - the social provider's HTTP call;
  - the mail sender;
  - the name lookup before the lock notice.

  Code generation and uuid generation are parameters.
- The `count != null ? count.intValue() : 0` fallback of both increments
  (`RedisService.java` lines 63 and 92) is left out. INCR answers null
  only inside a pipeline or a transaction, and these calls run in neither.
- Login-failure counters are outside `FailCountersBounded`, which bounds
  only verification-failure counters. Two stored emails that trim alike
  share one login counter, which can then pass 5.
- Concurrency and store atomicity are left out. The model is sequential,
  and the unreachability of the post-check holds only for sequential
  runs.
- `@Transactional` rollback is left out. Writes happen in program order,
  and a thrown status keeps the writes made before it, such as the lock
  saved before `AUTH_ACCOUNT_LOCKED`.
- The lemmas about repeated logins and repeated checks start from no
  live counter and stay within one counter lifetime. Series that cross
  a counter's expiry appear only as the restart that
  `WindowFixedByFirstFailure` and `BlockEndsAfterFirstMismatch` state.
- Entities are not merged on save. Each save writes the full row the
  entity holds, and an id no row has is modelled as a failed save.
- Constraint violations surface at `save`, not at flush time.
- `SaveRow` also rejects a taken uuid. The source relies on the column's
  unique constraint for that.
- `SaveRow` reports a broken unique constraint ahead of a value too
  long for its column. Which of the two the database reports first is
  its own choice. Only the email, uuid and hash columns are checked: the
  `length = 20` enum columns hold `NORMAL`, `SOCIAL`, `NONE` or `KAKAO`,
  which always fit.
- Database collation is left out. Emails compare exactly, not
  case-insensitively.
- The digits of `\d` and of counters are ASCII only.
- `isEmailDuplicate` and `getEmailByUserUuid` are left out. They are
  single repository reads outside the policy.
- The controllers, DTO mappers, Bean Validation annotations,
  configuration wiring and the exception handler are left out.
- `socialProvider(...)` on the entity builder does not exist in the
  source: the builder parameter is called `provider`. The model gives the
  row the provider that was evidently meant: `NONE` for a password
  sign-up, the requested provider for a social one.
- The generators are called without a subject, which does not compile as
  shown. Token contents are not modelled, only the uuid the response
  carries.
