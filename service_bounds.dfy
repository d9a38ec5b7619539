/** The counter bound behind the unreachable post-check, carried through
    every use case of both services: logins, logouts and sign-ups only write
    codes, login counters and refresh tokens, so they never disturb a
    verification-failure counter. Together with the lemmas of the code
    store, every sequential run from a bounded store stays bounded, and the
    post-check of `verifyEmailCode` never fires in it. */
module ServiceBounds {
  import opened Common
  import opened KeyValue
  import opened Redis
  import opened Credentials
  import opened OAuth
  import opened VerificationCodes
  import opened ServiceState
  import opened LoginLockout
  import opened UserAuth
  import opened HostAuth

  /** Issuing tokens writes only the refresh-token key. */
  lemma IssueKeepsBound(s: Store, now: int, uuid: string, access: string, refresh: string)
    requires FailCountersBounded(s, now)
    ensures FailCountersBounded(IssueTokens(s, now, uuid, access, refresh).1, now)
  {
    VerifyFailKeyKinds("", User, uuid);
    OtherWriteKeepsBound(s, IssueTokens(s, now, uuid, access, refresh).1, now, RefreshTokenKey(uuid));
  }

  /** A counted login failure writes only the login counter. */
  lemma FailedLoginKeepsBound(rows: Table, nextId: int, store: Store, now: int, row: Row,
                              role: RoleType, lockNotice: Option<bool>)
    requires FailCountersBounded(store, now)
    ensures FailCountersBounded(FailedLogin(rows, nextId, store, now, row, role, lockNotice).store, now)
  {
    var key := LoginFailKey(row.email, role);
    var c := CountFailure(store, now, key, LoginFailTtl);
    var f := FailedLogin(rows, nextId, store, now, row, role, lockNotice);
    if c.Ok? {
      assert f.store == c.value.0;
      VerifyFailKeyKinds(row.email, role, "");
      OtherWriteKeepsBound(store, c.value.0, now, key);
    } else {
      assert f.store == store;
    }
  }

  /** An accepted password clears the login counter and stores a token. */
  lemma AcceptedKeepsBound(rows: Table, nextId: int, store: Store, now: int, row: Row,
                           role: RoleType, env: LoginEnv)
    requires FailCountersBounded(store, now)
    ensures FailCountersBounded(PasswordAccepted(rows, nextId, store, now, row, role, env).store, now)
  {
    var key := LoginFailKey(row.email, role);
    var cleared := Delete(store, key);
    VerifyFailKeyKinds(row.email, role, "");
    OtherWriteKeepsBound(store, cleared, now, key);
    IssueKeepsBound(cleared, now, row.uuid, env.accessToken, env.refreshToken);
  }

  /** A login, successful or not, keeps the bound. */
  lemma LoginKeepsBound(rows: Table, nextId: int, store: Store, now: int, email: string, password: string,
                        role: RoleType, env: LoginEnv, lockNotice: Option<bool>)
    requires FailCountersBounded(store, now)
    ensures FailCountersBounded(Login(rows, nextId, store, now, email, password, role, env, lockNotice).store, now)
  {
    if email in rows && !rows[email].locked {
      if !PasswordMatches(env, rows[email], password) {
        FailedLoginKeepsBound(rows, nextId, store, now, rows[email], role, lockNotice);
      } else {
        AcceptedKeepsBound(rows, nextId, store, now, rows[email], role, env);
      }
    }
  }

  /** Logging out keeps the bound. */
  lemma LogoutKeepsBound(store: Store, now: int, uuid: string)
    requires FailCountersBounded(store, now)
    ensures FailCountersBounded(Logout(store, uuid), now)
  {
    VerifyFailKeyKinds("", User, uuid);
    OtherWriteKeepsBound(store, Logout(store, uuid), now, RefreshTokenKey(uuid));
  }

  /** A user sign-up keeps the bound. */
  lemma RegisterKeepsBound(rows: Table, nextId: int, store: Store, now: int, email: string, password: string,
                           code: Option<string>, env: RegisterEnv)
    requires FailCountersBounded(store, now)
    ensures FailCountersBounded(Registration(rows, nextId, store, now, email, password, code, env).store, now)
  {
    var key := EmailVerificationKey(email, User);
    VerifyFailKeyKinds(email, User, "");
    OtherWriteKeepsBound(store, Delete(store, key), now, key);
  }

  /** A host sign-up keeps the bound. */
  lemma HostRegisterKeepsBound(rows: Table, nextId: int, store: Store, now: int, cycle: int, email: string,
                               password: string, code: Option<string>, businessNumber: string,
                               env: HostRegisterEnv)
    requires FailCountersBounded(store, now)
    ensures FailCountersBounded(
              HostRegistration(rows, nextId, store, now, cycle, email, password, code, businessNumber, env).store, now)
  {
    var key := EmailVerificationKey(email, Host);
    VerifyFailKeyKinds(email, Host, "");
    OtherWriteKeepsBound(store, Delete(store, key), now, key);
  }

  /** A social sign-in keeps the bound. */
  lemma SocialKeepsBound(rows: Table, nextId: int, store: Store, now: int, services: seq<OAuthClient>,
                         provider: SocialProvider, socialToken: string, env: SocialEnv)
    requires FailCountersBounded(store, now)
    ensures FailCountersBounded(
              SocialRegistration(rows, nextId, store, now, services, provider, socialToken, env).store, now)
  {
    var service := GetOAuthService(services, Supports, provider);
    if service.Ok? && env.getEmail(service.value, socialToken).Ok? {
      var email := env.getEmail(service.value, socialToken).value;
      if email in rows {
        IssueKeepsBound(store, now, rows[email].uuid, env.accessToken, env.refreshToken);
      } else {
        IssueKeepsBound(store, now, env.uuid, env.accessToken, env.refreshToken);
      }
    }
  }
}
