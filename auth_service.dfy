/** The user-role use cases: password login with lockout, logout, sign-up
    with an email code (a saga across the local table and the remote user
    service), social login-or-register, and issuing and checking email
    codes. Collaborators outside the service are parameters: the password
    encoder, the authentication manager, the token generator, uuid
    generation, the mail sender, the remote user service and the social
    provider's email lookup. */
module UserAuth {
  import opened Common
  import opened JavaText
  import opened KeyValue
  import opened Redis
  import opened Credentials
  import opened AuthUserEntity
  import opened UserPolicy
  import opened OAuth
  import opened VerificationCodes
  import opened ServiceState
  import opened LoginLockout

  /** The name of the email unique constraint the sign-up looks for in the
      database's message. */
  const UserEmailConstraint: string := "UK_auth_user_email"

  /** The collaborators of a sign-up: the password encoder, the generated
      uuid, whether the remote user service accepted the profile, and the
      message the database gives for each broken constraint. */
  datatype RegisterEnv = RegisterEnv(encode: string -> string, uuid: string, remoteOk: bool,
                                     violationMessage: Constraint -> string)

  /** The collaborators of a social sign-in: each handler's email lookup
      (which may fail), the uuid for a new principal, the remote user
      service, and the two generated tokens. */
  datatype SocialEnv = SocialEnv(getEmail: (OAuthClient, string) -> Result<string>, uuid: string,
                                 remoteOk: bool, accessToken: string, refreshToken: string)

  /** The row a sign-up creates. */
  function NewUserRow(email: string, password: string, env: RegisterEnv): Row {
    Row(None, env.uuid, email, Some(env.encode(password)), Normal, NoProvider, false)
  }

  /** The row a social sign-up creates: no password. */
  function NewSocialRow(email: string, provider: SocialProvider, uuid: string): Row {
    Row(None, uuid, email, None, Social, provider, false)
  }

  /** `register`. */
  function Registration(rows: Table, nextId: int, store: Store, now: int, email: string, password: string,
                    code: Option<string>, env: RegisterEnv): (r: Step<Unit>)
    ensures r.result.Ok? ==>
              && code.Some? && Get(store, now, EmailVerificationKey(email, User)) == Some(code.value)
              && email !in rows && FitsColumns(NewUserRow(email, password, env)) && env.remoteOk
              && r.store == Delete(store, EmailVerificationKey(email, User))
    ensures r.result.Err? ==> r.store == store
  {
    if code.None? then Step(Err(IllegalArgument), rows, nextId, store)
    else if Get(store, now, EmailVerificationKey(email, User)) != Some(code.value) then
      Step(Err(InvalidVerificationCode), rows, nextId, store)
    else
      match SaveRow(rows, nextId, NewUserRow(email, password, env))
      case Violated(c) =>
        Step(Err(if Contains(env.violationMessage(c), UserEmailConstraint) then AuthEmailAlreadyExists
                 else InternalServerError), rows, nextId, store)
      case StaleRow => Step(Err(InternalServerError), rows, nextId, store)
      case Saved(t, id, n) =>
        if !env.remoteOk then Step(Err(AuthUserRegisterFailed), WithoutId(t, id), n, store)
        else Step(Ok(Unit), t, n, Delete(store, EmailVerificationKey(email, User)))
  }

  /** `registerSocialUser`: an existing email signs in, a new one is
      registered first. */
  function SocialRegistration(rows: Table, nextId: int, store: Store, now: int, services: seq<OAuthClient>,
                          provider: SocialProvider, socialToken: string, env: SocialEnv): (r: Step<LoginTokens>)
    ensures r.result.Ok? ==>
              && GetOAuthService(services, Supports, provider).Ok?
              && Get(r.store, now, RefreshTokenKey(r.result.value.uuid)) == Some(env.refreshToken)
    ensures r.result.Err? ==> r.store == store
  {
    match GetOAuthService(services, Supports, provider)
    case Err(e) => Step(Err(e), rows, nextId, store)
    case Ok(client) =>
      match env.getEmail(client, socialToken)
      case Err(e) => Step(Err(e), rows, nextId, store)
      case Ok(email) =>
        if email in rows then
          var (tokens, issued) := IssueTokens(store, now, rows[email].uuid, env.accessToken, env.refreshToken);
          Step(Ok(tokens), rows, nextId, issued)
        else
          match SaveRow(rows, nextId, NewSocialRow(email, provider, env.uuid))
          case Violated(_) => Step(Err(AuthEmailAlreadyExists), rows, nextId, store)
          case StaleRow => Step(Err(InternalServerError), rows, nextId, store)
          case Saved(t, id, n) =>
            if !env.remoteOk then Step(Err(AuthUserRegisterFailed), WithoutId(t, id), n, store)
            else
              var (tokens, issued) := IssueTokens(store, now, env.uuid, env.accessToken, env.refreshToken);
              Step(Ok(tokens), t, n, issued)
  }

  // ---------------------------------------------------------------------
  // Properties of the sign-up saga

  /** A code that is absent or does not match refuses the sign-up before
      anything is written. */
  lemma RegisterWrongCode(rows: Table, nextId: int, store: Store, now: int, email: string, password: string,
                          code: string, env: RegisterEnv)
    requires Get(store, now, EmailVerificationKey(email, User)) != Some(code)
    ensures Registration(rows, nextId, store, now, email, password, Some(code), env)
            == Step(Err(InvalidVerificationCode), rows, nextId, store)
  {
  }

  /** With a valid code, an email that is already registered breaks the
      email constraint; the database's message decides the status. */
  lemma RegisterDuplicateEmail(rows: Table, nextId: int, store: Store, now: int, email: string, password: string,
                               code: string, env: RegisterEnv)
    requires Get(store, now, EmailVerificationKey(email, User)) == Some(code) && email in rows
    ensures Registration(rows, nextId, store, now, email, password, Some(code), env)
            == Step(Err(if Contains(env.violationMessage(EmailUnique), UserEmailConstraint)
                        then AuthEmailAlreadyExists else InternalServerError), rows, nextId, store)
  {
    assert SaveRow(rows, nextId, NewUserRow(email, password, env)) == Violated(EmailUnique);
  }

  /** A message naming the email constraint is reported as a duplicate. */
  lemma DuplicateEmailNamed(rows: Table, nextId: int, store: Store, now: int, email: string, password: string,
                            code: string, env: RegisterEnv, before: string, after: string)
    requires Get(store, now, EmailVerificationKey(email, User)) == Some(code) && email in rows
    requires env.violationMessage(EmailUnique) == before + UserEmailConstraint + after
    ensures Registration(rows, nextId, store, now, email, password, Some(code), env).result
            == Err(AuthEmailAlreadyExists)
  {
    RegisterDuplicateEmail(rows, nextId, store, now, email, password, code, env);
    ContainsOccurrence(before, UserEmailConstraint, after);
  }

  /** The outcome of a sign-up on a valid table. It succeeds exactly when
      the code matches, the email and uuid are free, the email, uuid and
      hash fit their columns and the remote user service accepts the
      profile; then the row is inserted under the next id and the code is
      deleted. A value too long for its column is reported by the
      database's message like any other violation. On every failure the
      table is as before (the remote failure is compensated by deleting the
      new row and reported as `AUTH_USER_REGISTER_FAILED`) and the code
      stays. Either way the table stays valid and no lock is lost. */
  lemma RegisterOutcome(rows: Table, nextId: int, store: Store, now: int, email: string, password: string,
                        code: Option<string>, env: RegisterEnv)
    requires TableValid(rows, nextId)
    ensures var r := Registration(rows, nextId, store, now, email, password, code, env);
            && (r.result.Ok? <==>
                  && code.Some? && Get(store, now, EmailVerificationKey(email, User)) == Some(code.value)
                  && email !in rows && !UuidTaken(rows, env.uuid)
                  && FitsColumns(NewUserRow(email, password, env)) && env.remoteOk)
            && (r.result.Err? ==> r.rows == rows && r.store == store)
            && (code.Some? && Get(store, now, EmailVerificationKey(email, User)) == Some(code.value)
                && email !in rows && !UuidTaken(rows, env.uuid) && !FitsColumns(NewUserRow(email, password, env))
                ==> r.result == Err(if Contains(env.violationMessage(ValueTooLong), UserEmailConstraint)
                                    then AuthEmailAlreadyExists else InternalServerError))
            && (code.Some? && Get(store, now, EmailVerificationKey(email, User)) == Some(code.value)
                && email !in rows && !UuidTaken(rows, env.uuid) && FitsColumns(NewUserRow(email, password, env))
                && !env.remoteOk
                ==> r.result == Err(AuthUserRegisterFailed))
            && (r.result.Ok? ==>
                  && r.rows == rows[email := NewUserRow(email, password, env).(id := Some(nextId))]
                  && r.nextId == nextId + 1
                  && r.store == Delete(store, EmailVerificationKey(email, User)))
            && TableValid(r.rows, r.nextId) && LocksKept(rows, r.rows)
  {
    var row := NewUserRow(email, password, env);
    var s := SaveRow(rows, nextId, row);
    SaveKeepsValid(rows, nextId, row);
    if s.Saved? {
      InsertThenDeleteRestores(rows, nextId, row);
      assert s.table == rows[email := row.(id := Some(nextId))];
      assert TableValid(rows, s.nextId);
    }
  }

  // ---------------------------------------------------------------------
  // Properties of social sign-in

  /** A provider no handler supports is refused and nothing changes. */
  lemma SocialUnsupportedProvider(rows: Table, nextId: int, store: Store, now: int, services: seq<OAuthClient>,
                                  provider: SocialProvider, socialToken: string, env: SocialEnv)
    requires forall i | 0 <= i < |services| :: !Supports(services[i], provider)
    ensures SocialRegistration(rows, nextId, store, now, services, provider, socialToken, env)
            == Step(Err(AuthSocialProviderNotSupported), rows, nextId, store)
  {
  }

  /** An email that is already registered signs in: no row is written and
      the tokens are for the stored uuid, whatever the row's lock flag. */
  lemma SocialExisting(rows: Table, nextId: int, store: Store, now: int, services: seq<OAuthClient>,
                       provider: SocialProvider, socialToken: string, env: SocialEnv, client: OAuthClient)
    requires GetOAuthService(services, Supports, provider) == Ok(client)
    requires env.getEmail(client, socialToken).Ok? && env.getEmail(client, socialToken).value in rows
    ensures var email := env.getEmail(client, socialToken).value;
            var r := SocialRegistration(rows, nextId, store, now, services, provider, socialToken, env);
            && r.result == Ok(LoginTokens(rows[email].uuid, env.accessToken, env.refreshToken))
            && r.rows == rows && r.nextId == nextId
            && Get(r.store, now, RefreshTokenKey(rows[email].uuid)) == Some(env.refreshToken)
  {
  }

  /** A new email is registered as a social row without a password, then
      signed in; if the remote user service refuses it, the row is deleted
      again, the call fails and nothing else changed. An email or uuid too
      long for its column is refused as a duplicate email. */
  lemma SocialNew(rows: Table, nextId: int, store: Store, now: int, services: seq<OAuthClient>,
                  provider: SocialProvider, socialToken: string, env: SocialEnv, client: OAuthClient)
    requires TableValid(rows, nextId)
    requires GetOAuthService(services, Supports, provider) == Ok(client)
    requires env.getEmail(client, socialToken).Ok?
    requires env.getEmail(client, socialToken).value !in rows && !UuidTaken(rows, env.uuid)
    ensures var email := env.getEmail(client, socialToken).value;
            var r := SocialRegistration(rows, nextId, store, now, services, provider, socialToken, env);
            var fits := FitsColumns(NewSocialRow(email, provider, env.uuid));
            && (fits && env.remoteOk ==>
                  && r.rows == rows[email := Row(Some(nextId), env.uuid, email, None, Social, provider, false)]
                  && r.result == Ok(LoginTokens(env.uuid, env.accessToken, env.refreshToken))
                  && Get(r.store, now, RefreshTokenKey(env.uuid)) == Some(env.refreshToken))
            && (fits && !env.remoteOk ==>
                  r.result == Err(AuthUserRegisterFailed) && r.rows == rows && r.store == store)
            && (!fits ==> r.result == Err(AuthEmailAlreadyExists) && r.rows == rows && r.store == store)
  {
    var email := env.getEmail(client, socialToken).value;
    InsertThenDeleteRestores(rows, nextId, NewSocialRow(email, provider, env.uuid));
  }

  /** Social sign-in keeps the table valid and never clears a lock. */
  lemma SocialKeepsTable(rows: Table, nextId: int, store: Store, now: int, services: seq<OAuthClient>,
                         provider: SocialProvider, socialToken: string, env: SocialEnv)
    requires TableValid(rows, nextId)
    ensures var r := SocialRegistration(rows, nextId, store, now, services, provider, socialToken, env);
            TableValid(r.rows, r.nextId) && LocksKept(rows, r.rows)
  {
    var service := GetOAuthService(services, Supports, provider);
    if service.Ok? && env.getEmail(service.value, socialToken).Ok? {
      var email := env.getEmail(service.value, socialToken).value;
      var row := NewSocialRow(email, provider, env.uuid);
      SaveKeepsValid(rows, nextId, row);
      var s := SaveRow(rows, nextId, row);
      if email !in rows && s.Saved? {
        InsertThenDeleteRestores(rows, nextId, row);
        assert s.table == rows[email := row.(id := Some(nextId))];
        assert TableValid(rows, s.nextId);
      }
    }
  }

  class AuthService {
    const users: Repository
    const redis: RedisService
    const oAuthServices: seq<OAuthClient>

    constructor(users: Repository, redis: RedisService, oAuthServices: seq<OAuthClient>)
      ensures this.users == users && this.redis == redis && this.oAuthServices == oAuthServices
    {
      this.users := users;
      this.redis := redis;
      this.oAuthServices := oAuthServices;
    }

    /** `login`. */
    method Login(email: string, password: string, env: LoginEnv, lockNoticeSent: bool)
      returns (r: Result<LoginTokens>)
      requires users.Valid()
      modifies users, redis
      ensures users.Valid() && redis.now == old(redis.now)
      ensures Step(r, users.rows, users.nextId, redis.store)
              == LoginLockout.Login(old(users.rows), old(users.nextId), old(redis.store), redis.now,
                                    email, password, User, env, Some(lockNoticeSent))
    {
      var found := users.FindByEmail(email);
      if found.None? {
        return Err(AuthUserNotFound);
      }
      var user := new AuthUser.Load(found.value);
      if user.IsAccountLocked() {
        return Err(AuthAccountLocked);
      }
      if !(user.password.Some? && env.matches(password, user.password.value)) {
        var failed := HandleFailedLogin(user, lockNoticeSent);
        ghost var f := FailedLogin(old(users.rows), old(users.nextId), old(redis.store), redis.now,
                                   found.value, User, Some(lockNoticeSent));
        assert failed == f.result && users.rows == f.rows && users.nextId == f.nextId && redis.store == f.store;
        if failed.Err? {
          return Err(failed.status);
        }
        return Err(InvalidAuthPassword);
      }
      r := AcceptPassword(user, env);
    }

    /** The end of `login`, once the password matched. */
    method AcceptPassword(user: AuthUser, env: LoginEnv) returns (r: Result<LoginTokens>)
      modifies redis
      ensures redis.now == old(redis.now)
      ensures Step(r, users.rows, users.nextId, redis.store)
              == PasswordAccepted(users.rows, users.nextId, old(redis.store), redis.now, user.Record(), User, env)
    {
      redis.ResetLoginFailCount(user.GetUsername(), User);
      if !env.authenticates {
        return Err(AuthenticationError);
      }
      var tokens := GenerateTokensAndSave(user.userUuid, env.accessToken, env.refreshToken);
      r := Ok(tokens);
    }

    /** `handleFailedLogin`: a normal return is `Ok`. */
    method HandleFailedLogin(user: AuthUser, lockNoticeSent: bool) returns (r: Result<Unit>)
      requires users.Valid()
      modifies users, redis, user
      ensures users.Valid() && redis.now == old(redis.now)
      ensures Step(r, users.rows, users.nextId, redis.store)
              == FailedLogin(old(users.rows), old(users.nextId), old(redis.store), redis.now,
                             old(user.Record()), User, Some(lockNoticeSent))
    {
      ghost var row0 := user.Record();
      ghost var c := CountFailure(redis.store, redis.now, LoginFailKey(row0.email, User), LoginFailTtl);
      var failCount := redis.IncrementLoginFailCount(user.email, User);
      if failCount.Err? {
        return Err(failCount.status);
      }
      assert c.Ok? && failCount.value == c.value.1 && redis.store == c.value.0;
      if ShouldLockAccount(failCount.value, ServiceLoginFailLimit) {
        r := LockAndSave(user, lockNoticeSent);
        return;
      }
      r := Ok(Unit);
    }

    /** The locking branch of `handleFailedLogin`: lock, save, notify. */
    method LockAndSave(user: AuthUser, lockNoticeSent: bool) returns (r: Result<Unit>)
      requires users.Valid()
      modifies users, user
      ensures users.Valid()
      ensures Step(r, users.rows, users.nextId, redis.store)
              == LockAfterFailure(old(users.rows), old(users.nextId), redis.store, old(user.Record()),
                                  Some(lockNoticeSent))
    {
      ghost var row0 := user.Record();
      user.LockAccount();
      var saved := users.Save(user.Record());
      assert saved == SaveRow(old(users.rows), old(users.nextId), row0.(locked := true));
      if !saved.Saved? {
        return Err(InternalServerError);
      }
      if !lockNoticeSent {
        return Err(AuthLockMailFailed);
      }
      r := Err(AuthAccountLocked);
    }

    /** `logout`. */
    method Logout(userUuid: string)
      modifies redis
      ensures redis.store == LoginLockout.Logout(old(redis.store), userUuid) && redis.now == old(redis.now)
    {
      redis.DeleteRefreshToken(userUuid);
    }

    /** `register`. */
    method Register(email: string, password: string, code: Option<string>, env: RegisterEnv)
      returns (r: Result<Unit>)
      requires users.Valid()
      modifies users, redis
      ensures users.Valid() && redis.now == old(redis.now)
      ensures Step(r, users.rows, users.nextId, redis.store)
              == Registration(old(users.rows), old(users.nextId), old(redis.store), redis.now,
                                   email, password, code, env)
    {
      var verified := redis.VerifyEmailCode(Some(email), code, User);
      if verified.Err? {
        return Err(verified.status);
      }
      if !verified.value {
        return Err(InvalidVerificationCode);
      }
      var newUser := new AuthUser(None, env.uuid, email, Some(env.encode(password)), Normal, NoProvider, false);
      var saved := users.Save(newUser.Record());
      if saved.Violated? {
        if Contains(env.violationMessage(saved.constraint), UserEmailConstraint) {
          return Err(AuthEmailAlreadyExists);
        }
        return Err(InternalServerError);
      }
      if saved.StaleRow? {
        return Err(InternalServerError);
      }
      if !env.remoteOk {
        users.DeleteById(saved.id);
        return Err(AuthUserRegisterFailed);
      }
      redis.DeleteVerificationCode(email, User);
      r := Ok(Unit);
    }

    /** `sendVerificationCode`: `code` is the generated code and `mailSent`
        whether the mail went out. */
    method SendVerificationCode(email: string, code: string, mailSent: bool) returns (r: Result<Unit>)
      modifies redis
      ensures redis.now == old(redis.now)
      ensures (r, redis.store) == SendCode(old(redis.store), redis.now, email, code, mailSent, User)
    {
      var existing := redis.GetVerificationCode(email, User);
      if existing.Some? {
        return Err(VerificationCodeAlreadySent);
      }
      if !mailSent {
        return Err(MailError);
      }
      redis.SaveVerificationCode(email, code, EmailVerificationTtl, User);
      r := Ok(Unit);
    }

    /** `verifyEmailCode`. */
    method VerifyEmailCode(email: string, code: Option<string>) returns (r: Result<bool>)
      modifies redis
      ensures redis.now == old(redis.now)
      ensures (r, redis.store) == VerifyCode(old(redis.store), redis.now, email, code, User)
    {
      var blocked := redis.IsVerificationAttemptBlocked(email, User);
      if blocked {
        return Err(VerificationAttemptBlocked);
      }
      var verified := redis.VerifyEmailCode(Some(email), code, User);
      if verified.Err? {
        return Err(verified.status);
      }
      if !verified.value {
        var failCount := redis.IncrementVerificationAttemptFailCount(email, User);
        if failCount.Err? {
          return Err(failCount.status);
        }
        if failCount.value > PostCheckLimit {
          redis.BlockVerificationAttempts(email, User, VerifyBlockDuration);
          return Err(VerificationAttemptBlocked);
        }
        return Err(InvalidVerificationCodeMismatch);
      }
      redis.ResetVerificationAttemptFailCount(email, User);
      r := Ok(true);
    }

    /** `registerSocialUser`. */
    method RegisterSocialUser(provider: SocialProvider, socialToken: string, env: SocialEnv)
      returns (r: Result<LoginTokens>)
      requires users.Valid()
      modifies users, redis
      ensures users.Valid() && redis.now == old(redis.now)
      ensures Step(r, users.rows, users.nextId, redis.store)
              == SocialRegistration(old(users.rows), old(users.nextId), old(redis.store), redis.now,
                                oAuthServices, provider, socialToken, env)
    {
      var service := GetOAuthService(oAuthServices, Supports, provider);
      if service.Err? {
        return Err(service.status);
      }
      var email := env.getEmail(service.value, socialToken);
      if email.Err? {
        return Err(email.status);
      }
      var found := users.FindByEmail(email.value);
      if found.None? {
        var created := RegisterNewSocialUser(email.value, provider, env.uuid);
        if created.Err? {
          return Err(created.status);
        }
        if !env.remoteOk {
          users.DeleteById(created.value);
          return Err(AuthUserRegisterFailed);
        }
        var tokens := GenerateTokensAndSave(env.uuid, env.accessToken, env.refreshToken);
        return Ok(tokens);
      }
      var tokens := GenerateTokensAndSave(found.value.uuid, env.accessToken, env.refreshToken);
      r := Ok(tokens);
    }

    /** `registerNewSocialUser`: the new row's id, or the error its save
        turned into. */
    method RegisterNewSocialUser(email: string, provider: SocialProvider, uuid: string)
      returns (r: Result<int>)
      requires users.Valid()
      modifies users
      ensures users.Valid()
      ensures var s := SaveRow(old(users.rows), old(users.nextId), NewSocialRow(email, provider, uuid));
              && (s.Saved? ==> r == Ok(s.id) && users.rows == s.table && users.nextId == s.nextId)
              && (s.Violated? ==> r == Err(AuthEmailAlreadyExists))
              && (s.StaleRow? ==> r == Err(InternalServerError))
              && (!s.Saved? ==> users.rows == old(users.rows) && users.nextId == old(users.nextId))
    {
      var user := new AuthUser(None, uuid, email, None, Social, provider, false);
      var saved := users.Save(user.Record());
      if saved.Violated? {
        return Err(AuthEmailAlreadyExists);
      }
      if saved.StaleRow? {
        return Err(InternalServerError);
      }
      r := Ok(saved.id);
    }

    /** `generateTokensAndSave`. */
    method GenerateTokensAndSave(userUuid: string, accessToken: string, refreshToken: string)
      returns (tokens: LoginTokens)
      modifies redis
      ensures redis.now == old(redis.now)
      ensures (tokens, redis.store) == IssueTokens(old(redis.store), redis.now, userUuid, accessToken, refreshToken)
    {
      redis.SaveRefreshToken(userUuid, refreshToken, RefreshTokenExpiry);
      tokens := LoginTokens(userUuid, accessToken, refreshToken);
    }
  }
}
