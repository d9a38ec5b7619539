/** The host-role use cases: password login with lockout (without a lock
    notification), logout, sign-up with an email code, a settlement-cycle
    check and a business-number check (a saga across the local table and
    the remote host service), and issuing and checking email codes in the
    host keyspace. */
module HostAuth {
  import opened Common
  import opened KeyValue
  import opened Redis
  import opened Credentials
  import opened AuthHostEntity
  import opened UserPolicy
  import opened BiznoVerification
  import opened VerificationCodes
  import opened ServiceState
  import opened LoginLockout

  /** The collaborators of a host sign-up: the password encoder, the
      generated uuid, the business registry, and whether the remote host
      service accepted the profile. */
  datatype HostRegisterEnv = HostRegisterEnv(encode: string -> string, uuid: string,
                                             registry: string -> ApiCall, remoteOk: bool)

  /** The two settlement cycles a host may choose. */
  predicate ValidSettlementCycle(cycle: int) {
    cycle == 15 || cycle == 30
  }

  /** Every row of the host table is a password login without a provider,
      as every host entity is written back. */
  ghost predicate HostTable(t: Table) {
    forall e | e in t :: t[e].loginType == Normal && t[e].provider == NoProvider
  }

  /** The row a host sign-up creates. */
  function NewHostRow(email: string, password: string, env: HostRegisterEnv): Row {
    Row(None, env.uuid, email, Some(env.encode(password)), Normal, NoProvider, false)
  }

  /** Saving a host record keeps the table a host table. */
  lemma SaveKeepsHostTable(t: Table, nextId: int, row: Row)
    requires HostTable(t) && row.loginType == Normal && row.provider == NoProvider
    ensures var s := SaveRow(t, nextId, row);
            s.Saved? ==> HostTable(s.table)
  {
    var s := SaveRow(t, nextId, row);
    if s.Saved? {
      var rest := if row.id.Some? then WithoutId(t, row.id.value) else t;
      assert s.table == rest[row.email := row.(id := Some(s.id))];
    }
  }

  /** `register`. */
  function HostRegistration(rows: Table, nextId: int, store: Store, now: int, cycle: int, email: string,
                            password: string, code: Option<string>, businessNumber: string,
                            env: HostRegisterEnv): (r: Step<Unit>)
    ensures r.result.Ok? ==>
              && ValidSettlementCycle(cycle)
              && code.Some? && Get(store, now, EmailVerificationKey(email, Host)) == Some(code.value)
              && Verify(businessNumber, env.registry) == Valid && env.remoteOk
    ensures r.result.Err? ==> r.store == store
  {
    if !ValidSettlementCycle(cycle) then Step(Err(InvalidSettlementCycle), rows, nextId, store)
    else if code.None? then Step(Err(IllegalArgument), rows, nextId, store)
    else if Get(store, now, EmailVerificationKey(email, Host)) != Some(code.value) then
      Step(Err(InvalidVerificationCode), rows, nextId, store)
    else
      match Verify(businessNumber, env.registry)
      case Invalid(status, _) => Step(Err(status), rows, nextId, store)
      case Valid => SaveHost(rows, nextId, store, email, password, env)
  }

  /** The saga part of `register`, once every check passed: save the row
      (any broken constraint is a duplicate email), publish it to the host
      service, compensate a failure by deleting the row, and delete the
      code only after the remote call succeeded. */
  function SaveHost(rows: Table, nextId: int, store: Store, email: string, password: string,
                    env: HostRegisterEnv): (r: Step<Unit>)
    ensures r.result.Ok? ==>
              && email !in rows && FitsColumns(NewHostRow(email, password, env)) && env.remoteOk
              && r.store == Delete(store, EmailVerificationKey(email, Host))
    ensures r.result.Err? ==>
              && r.store == store
              && r.result.status in {AuthEmailAlreadyExists, InternalServerError, AuthHostServiceError}
  {
    match SaveRow(rows, nextId, NewHostRow(email, password, env))
    case Violated(_) => Step(Err(AuthEmailAlreadyExists), rows, nextId, store)
    case StaleRow => Step(Err(InternalServerError), rows, nextId, store)
    case Saved(t, id, n) =>
      if !env.remoteOk then Step(Err(AuthHostServiceError), WithoutId(t, id), n, store)
      else Step(Ok(Unit), t, n, Delete(store, EmailVerificationKey(email, Host)))
  }

  /** The saga on a valid host table: it succeeds exactly when the email
      and uuid are free, the email, uuid and hash fit their columns and the
      remote host service accepts the profile, and then inserts the row
      under the next id and deletes the code; on failure the table and the
      store are as before. Every violation (a broken unique constraint or a
      value too long) is reported as a duplicate email, and a refusal of
      the remote host service (after compensation) as
      `AUTH_HOST_SERVICE_ERROR`. */
  lemma SaveHostOutcome(rows: Table, nextId: int, store: Store, email: string, password: string,
                        env: HostRegisterEnv)
    requires TableValid(rows, nextId) && HostTable(rows)
    ensures var r := SaveHost(rows, nextId, store, email, password, env);
            var fits := FitsColumns(NewHostRow(email, password, env));
            && (r.result.Ok? <==> email !in rows && !UuidTaken(rows, env.uuid) && fits && env.remoteOk)
            && (r.result.Err? ==> r.rows == rows && r.store == store)
            && (email in rows || UuidTaken(rows, env.uuid) || !fits ==> r.result == Err(AuthEmailAlreadyExists))
            && (email !in rows && !UuidTaken(rows, env.uuid) && fits && !env.remoteOk
                ==> r.result == Err(AuthHostServiceError))
            && (r.result.Ok? ==>
                  && r.rows == rows[email := NewHostRow(email, password, env).(id := Some(nextId))]
                  && r.nextId == nextId + 1
                  && r.store == Delete(store, EmailVerificationKey(email, Host)))
            && TableValid(r.rows, r.nextId) && HostTable(r.rows) && LocksKept(rows, r.rows)
  {
    var row := NewHostRow(email, password, env);
    var s := SaveRow(rows, nextId, row);
    SaveKeepsValid(rows, nextId, row);
    SaveKeepsHostTable(rows, nextId, row);
    if s.Saved? {
      InsertThenDeleteRestores(rows, nextId, row);
      assert s.table == rows[email := row.(id := Some(nextId))];
      assert TableValid(rows, s.nextId);
    }
  }

  // ---------------------------------------------------------------------
  // Properties of the host sign-up

  /** A settlement cycle other than 15 or 30 is refused first: no code is
      looked at, the registry is not asked and nothing is written. */
  lemma CycleCheckedFirst(rows: Table, nextId: int, store: Store, now: int, cycle: int, email: string,
                          password: string, code: Option<string>, businessNumber: string, env: HostRegisterEnv)
    requires cycle != 15 && cycle != 30
    ensures HostRegistration(rows, nextId, store, now, cycle, email, password, code, businessNumber, env)
            == Step(Err(InvalidSettlementCycle), rows, nextId, store)
  {
  }

  /** A refused business number fails the sign-up with the registry
      check's own status before any row is saved. */
  lemma BusinessNumberCheckedBeforeSave(rows: Table, nextId: int, store: Store, now: int, cycle: int,
                                        email: string, password: string, code: string,
                                        businessNumber: string, env: HostRegisterEnv)
    requires ValidSettlementCycle(cycle) && Get(store, now, EmailVerificationKey(email, Host)) == Some(code)
    requires Verify(businessNumber, env.registry).Invalid?
    ensures HostRegistration(rows, nextId, store, now, cycle, email, password, Some(code), businessNumber, env)
            == Step(Err(Verify(businessNumber, env.registry).status), rows, nextId, store)
  {
  }

  /** With an allowed cycle, a code that does not match the live one (or
      none is live) refuses the sign-up before the registry is asked or
      anything is written. */
  lemma HostRegisterWrongCode(rows: Table, nextId: int, store: Store, now: int, cycle: int, email: string,
                              password: string, code: string, businessNumber: string, env: HostRegisterEnv)
    requires ValidSettlementCycle(cycle)
    requires Get(store, now, EmailVerificationKey(email, Host)) != Some(code)
    ensures HostRegistration(rows, nextId, store, now, cycle, email, password, Some(code), businessNumber, env)
            == Step(Err(InvalidVerificationCode), rows, nextId, store)
  {
  }

  /** A malformed business number is refused without asking the registry. */
  lemma MalformedNumberRefused(rows: Table, nextId: int, store: Store, now: int, cycle: int,
                               email: string, password: string, code: string,
                               businessNumber: string, env: HostRegisterEnv)
    requires ValidSettlementCycle(cycle) && Get(store, now, EmailVerificationKey(email, Host)) == Some(code)
    requires !ValidFormat(Normalize(businessNumber))
    ensures HostRegistration(rows, nextId, store, now, cycle, email, password, Some(code), businessNumber, env)
            == Step(Err(AuthBusinessNumberInvalid), rows, nextId, store)
  {
    BusinessNumberCheckedBeforeSave(rows, nextId, store, now, cycle, email, password, code, businessNumber, env);
  }

  /** The outcome of a host sign-up on a valid table. It succeeds exactly
      when the cycle is allowed, the code matches, the registry vouches for
      the business, the email and uuid are free, the email, uuid and hash
      fit their columns and the remote host service accepts the profile;
      then the row is inserted under the next id and the code deleted.
      Every violation is reported as a duplicate email. On every failure the table is as before (a remote failure is
      compensated and reported as `AUTH_HOST_SERVICE_ERROR`) and the code
      stays. */
  lemma HostRegisterOutcome(rows: Table, nextId: int, store: Store, now: int, cycle: int, email: string,
                            password: string, code: Option<string>, businessNumber: string, env: HostRegisterEnv)
    requires TableValid(rows, nextId) && HostTable(rows)
    ensures var r := HostRegistration(rows, nextId, store, now, cycle, email, password, code, businessNumber, env);
            var checked := && ValidSettlementCycle(cycle)
                           && code.Some? && Get(store, now, EmailVerificationKey(email, Host)) == Some(code.value)
                           && Verify(businessNumber, env.registry) == Valid;
            var fits := FitsColumns(NewHostRow(email, password, env));
            && (r.result.Ok? <==> checked && email !in rows && !UuidTaken(rows, env.uuid) && fits && env.remoteOk)
            && (r.result.Err? ==> r.rows == rows && r.store == store)
            && (checked && (email in rows || UuidTaken(rows, env.uuid) || !fits)
                ==> r.result == Err(AuthEmailAlreadyExists))
            && (checked && email !in rows && !UuidTaken(rows, env.uuid) && fits && !env.remoteOk
                ==> r.result == Err(AuthHostServiceError))
            && (r.result.Ok? ==>
                  && r.rows == rows[email := NewHostRow(email, password, env).(id := Some(nextId))]
                  && r.nextId == nextId + 1
                  && r.store == Delete(store, EmailVerificationKey(email, Host)))
            && TableValid(r.rows, r.nextId) && HostTable(r.rows) && LocksKept(rows, r.rows)
  {
    if ValidSettlementCycle(cycle) && code.Some? && Get(store, now, EmailVerificationKey(email, Host)) == Some(code.value)
       && Verify(businessNumber, env.registry) == Valid
    {
      SaveHostOutcome(rows, nextId, store, email, password, env);
    }
  }

  /** An email already registered as a host, with everything else in
      order, is reported as a duplicate and nothing is written. */
  lemma HostDuplicateEmail(rows: Table, nextId: int, store: Store, now: int, cycle: int, email: string,
                           password: string, code: string, businessNumber: string, env: HostRegisterEnv)
    requires ValidSettlementCycle(cycle) && Get(store, now, EmailVerificationKey(email, Host)) == Some(code)
    requires Verify(businessNumber, env.registry) == Valid && email in rows
    ensures HostRegistration(rows, nextId, store, now, cycle, email, password, Some(code), businessNumber, env)
            == Step(Err(AuthEmailAlreadyExists), rows, nextId, store)
  {
    assert SaveRow(rows, nextId, NewHostRow(email, password, env)) == Violated(EmailUnique);
  }

  // ---------------------------------------------------------------------
  // Properties of host login

  /** Host login keeps the host table a host table. */
  lemma HostLoginKeepsHostTable(rows: Table, nextId: int, store: Store, now: int, email: string,
                                password: string, env: LoginEnv)
    requires TableValid(rows, nextId) && HostTable(rows)
    ensures HostTable(Login(rows, nextId, store, now, email, password, Host, env, None).rows)
  {
    if email in rows && !rows[email].locked && !PasswordMatches(env, rows[email], password) {
      FailedLoginTable(rows, nextId, store, now, email, Host, None);
    }
  }

  /** A host's fifth wrong password locks it with `AUTH_ACCOUNT_LOCKED`:
      there is no notification step that could fail. */
  lemma HostLockStatus(rows: Table, nextId: int, store: Store, now: int, email: string, password: string,
                       env: LoginEnv)
    requires TableValid(rows, nextId) && email in rows && !rows[email].locked
    requires !PasswordMatches(env, rows[email], password)
    requires CountFailure(store, now, LoginFailKey(email, Host), LoginFailTtl).Ok?
    requires CountFailure(store, now, LoginFailKey(email, Host), LoginFailTtl).value.1 >= 5
    ensures var r := Login(rows, nextId, store, now, email, password, Host, env, None);
            r.result == Err(AuthAccountLocked) && r.rows == rows[email := rows[email].(locked := true)]
  {
    WrongPasswordCounted(rows, nextId, store, now, email, password, Host, env, None);
  }

  class AuthHostService {
    const hosts: Repository
    const redis: RedisService

    constructor(hosts: Repository, redis: RedisService)
      ensures this.hosts == hosts && this.redis == redis
    {
      this.hosts := hosts;
      this.redis := redis;
    }

    /** `login`. */
    method Login(email: string, password: string, env: LoginEnv) returns (r: Result<LoginTokens>)
      requires hosts.Valid() && HostTable(hosts.rows)
      modifies hosts, redis
      ensures hosts.Valid() && HostTable(hosts.rows) && redis.now == old(redis.now)
      ensures Step(r, hosts.rows, hosts.nextId, redis.store)
              == LoginLockout.Login(old(hosts.rows), old(hosts.nextId), old(redis.store), redis.now,
                                    email, password, Host, env, None)
    {
      HostLoginKeepsHostTable(hosts.rows, hosts.nextId, redis.store, redis.now, email, password, env);
      var found := hosts.FindByEmail(email);
      if found.None? {
        return Err(AuthHostNotFound);
      }
      var host := new AuthHost.Load(found.value);
      if host.IsAccountLocked() {
        return Err(AuthAccountLocked);
      }
      if !(host.password.Some? && env.matches(password, host.password.value)) {
        var failed := HandleFailedLogin(host);
        if failed.Err? {
          return Err(failed.status);
        }
        return Err(InvalidAuthPassword);
      }
      r := AcceptPassword(host, env);
    }

    /** The end of `login`, once the password matched. */
    method AcceptPassword(host: AuthHost, env: LoginEnv) returns (r: Result<LoginTokens>)
      modifies redis
      ensures redis.now == old(redis.now)
      ensures Step(r, hosts.rows, hosts.nextId, redis.store)
              == PasswordAccepted(hosts.rows, hosts.nextId, old(redis.store), redis.now, host.Record(), Host, env)
    {
      redis.ResetLoginFailCount(host.email, Host);
      if !env.authenticates {
        return Err(AuthenticationError);
      }
      redis.SaveRefreshToken(host.hostUuid, env.refreshToken, RefreshTokenExpiry);
      r := Ok(LoginTokens(host.hostUuid, env.accessToken, env.refreshToken));
    }

    /** `handleFailedLogin`: a normal return is `Ok`. */
    method HandleFailedLogin(host: AuthHost) returns (r: Result<Unit>)
      requires hosts.Valid()
      modifies hosts, redis, host
      ensures hosts.Valid() && redis.now == old(redis.now)
      ensures Step(r, hosts.rows, hosts.nextId, redis.store)
              == FailedLogin(old(hosts.rows), old(hosts.nextId), old(redis.store), redis.now,
                             old(host.Record()), Host, None)
    {
      ghost var row0 := host.Record();
      ghost var c := CountFailure(redis.store, redis.now, LoginFailKey(row0.email, Host), LoginFailTtl);
      var failCount := redis.IncrementLoginFailCount(host.email, Host);
      if failCount.Err? {
        return Err(failCount.status);
      }
      assert c.Ok? && failCount.value == c.value.1 && redis.store == c.value.0;
      if ShouldLockAccount(failCount.value, ServiceLoginFailLimit) {
        r := LockAndSave(host);
        return;
      }
      r := Ok(Unit);
    }

    /** The locking branch of `handleFailedLogin`: lock and save. */
    method LockAndSave(host: AuthHost) returns (r: Result<Unit>)
      requires hosts.Valid()
      modifies hosts, host
      ensures hosts.Valid()
      ensures Step(r, hosts.rows, hosts.nextId, redis.store)
              == LockAfterFailure(old(hosts.rows), old(hosts.nextId), redis.store, old(host.Record()), None)
    {
      ghost var row0 := host.Record();
      host.LockAccount();
      var saved := hosts.Save(host.Record());
      assert saved == SaveRow(old(hosts.rows), old(hosts.nextId), row0.(locked := true));
      if !saved.Saved? {
        return Err(InternalServerError);
      }
      r := Err(AuthAccountLocked);
    }

    /** `logout`. */
    method Logout(hostUuid: string)
      modifies redis
      ensures redis.store == LoginLockout.Logout(old(redis.store), hostUuid) && redis.now == old(redis.now)
    {
      redis.DeleteRefreshToken(hostUuid);
    }

    /** `register`. */
    method Register(cycle: int, email: string, password: string, code: Option<string>,
                    businessNumber: string, env: HostRegisterEnv) returns (r: Result<Unit>)
      requires hosts.Valid() && HostTable(hosts.rows)
      modifies hosts, redis
      ensures hosts.Valid() && HostTable(hosts.rows) && redis.now == old(redis.now)
      ensures Step(r, hosts.rows, hosts.nextId, redis.store)
              == HostRegistration(old(hosts.rows), old(hosts.nextId), old(redis.store), redis.now,
                                  cycle, email, password, code, businessNumber, env)
    {
      if cycle != 15 && cycle != 30 {
        return Err(InvalidSettlementCycle);
      }
      var verified := redis.VerifyEmailCode(Some(email), code, Host);
      if verified.Err? {
        return Err(verified.status);
      }
      if !verified.value {
        return Err(InvalidVerificationCode);
      }
      var verdict := Verify(businessNumber, env.registry);
      if verdict.Invalid? {
        return Err(verdict.status);
      }
      r := SaveAndPublish(email, password, env);
    }

    /** The two `try` blocks of `register`. */
    method SaveAndPublish(email: string, password: string, env: HostRegisterEnv) returns (r: Result<Unit>)
      requires hosts.Valid() && HostTable(hosts.rows)
      modifies hosts, redis
      ensures hosts.Valid() && HostTable(hosts.rows) && redis.now == old(redis.now)
      ensures Step(r, hosts.rows, hosts.nextId, redis.store)
              == SaveHost(old(hosts.rows), old(hosts.nextId), old(redis.store), email, password, env)
    {
      SaveHostOutcome(hosts.rows, hosts.nextId, redis.store, email, password, env);
      var host := new AuthHost(None, env.uuid, email, Some(env.encode(password)), false);
      var saved := hosts.Save(host.Record());
      if saved.Violated? {
        return Err(AuthEmailAlreadyExists);
      }
      if saved.StaleRow? {
        return Err(InternalServerError);
      }
      if !env.remoteOk {
        hosts.DeleteById(saved.id);
        return Err(AuthHostServiceError);
      }
      redis.DeleteVerificationCode(email, Host);
      r := Ok(Unit);
    }

    /** `sendVerificationCode`: `code` is the generated code and `mailSent`
        whether the mail went out. */
    method SendVerificationCode(email: string, code: string, mailSent: bool) returns (r: Result<Unit>)
      modifies redis
      ensures redis.now == old(redis.now)
      ensures (r, redis.store) == SendCode(old(redis.store), redis.now, email, code, mailSent, Host)
    {
      var existing := redis.GetVerificationCode(email, Host);
      if existing.Some? {
        return Err(VerificationCodeAlreadySent);
      }
      if !mailSent {
        return Err(MailError);
      }
      redis.SaveVerificationCode(email, code, EmailVerificationTtl, Host);
      r := Ok(Unit);
    }

    /** `verifyEmailCode`. */
    method VerifyEmailCode(email: string, code: Option<string>) returns (r: Result<bool>)
      modifies redis
      ensures redis.now == old(redis.now)
      ensures (r, redis.store) == VerifyCode(old(redis.store), redis.now, email, code, Host)
    {
      var blocked := redis.IsVerificationAttemptBlocked(email, Host);
      if blocked {
        return Err(VerificationAttemptBlocked);
      }
      var verified := redis.VerifyEmailCode(Some(email), code, Host);
      if verified.Err? {
        return Err(verified.status);
      }
      if !verified.value {
        var failCount := redis.IncrementVerificationAttemptFailCount(email, Host);
        if failCount.Err? {
          return Err(failCount.status);
        }
        if failCount.value > PostCheckLimit {
          redis.BlockVerificationAttempts(email, Host, VerifyBlockDuration);
          return Err(VerificationAttemptBlocked);
        }
        return Err(InvalidVerificationCodeMismatch);
      }
      redis.ResetVerificationAttemptFailCount(email, Host);
      r := Ok(true);
    }
  }
}
