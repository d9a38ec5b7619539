/** Password login with brute-force lockout, as both services run it for
    their own role: lock check, then password check, then on a mismatch a
    counted failure that locks the principal once the count reaches five;
    on a match the counter is cleared and a refresh token stored. */
module LoginLockout {
  import opened Common
  import opened Decimal
  import opened KeyValue
  import opened Redis
  import opened Credentials
  import opened UserPolicy
  import opened ServiceState

  /** The collaborators of a login: the password encoder's `matches`, whether
      the authentication manager accepts the credentials, and the two
      tokens the provider generates. */
  datatype LoginEnv = LoginEnv(matches: (string, string) -> bool, authenticates: bool,
                               accessToken: string, refreshToken: string)

  /** The not-found status of each role. */
  function NotFound(role: RoleType): Status {
    if role == Host then AuthHostNotFound else AuthUserNotFound
  }

  /** The stored hash accepts the password; a principal without a hash
      accepts none. */
  predicate PasswordMatches(env: LoginEnv, row: Row, password: string) {
    row.password.Some? && env.matches(password, row.password.value)
  }

  /** `handleFailedLogin`: count the failure; at the limit, lock the row
      and write it back, then (users only) notify. `lockNotice` is `None`
      for a role without the notification step, else whether it succeeded.
      A normal return is `Ok`. */
  function FailedLogin(rows: Table, nextId: int, store: Store, now: int, row: Row,
                       role: RoleType, lockNotice: Option<bool>): (r: Step<Unit>)
    ensures r.result.Ok? <==>
              var c := CountFailure(store, now, LoginFailKey(row.email, role), LoginFailTtl);
              c.Ok? && c.value.1 < ServiceLoginFailLimit
    ensures r.result.Ok? ==> r.rows == rows && r.nextId == nextId
  {
    match CountFailure(store, now, LoginFailKey(row.email, role), LoginFailTtl)
    case Err(e) => Step(Err(e), rows, nextId, store)
    case Ok((counted, count)) =>
      if !ShouldLockAccount(count, ServiceLoginFailLimit) then Step(Ok(Unit), rows, nextId, counted)
      else LockAfterFailure(rows, nextId, counted, row, lockNotice)
  }

  /** The locking branch of `handleFailedLogin`: write the row back locked,
      then (users only) notify; the counted store is kept either way. */
  function LockAfterFailure(rows: Table, nextId: int, counted: Store, row: Row,
                            lockNotice: Option<bool>): (r: Step<Unit>)
    ensures r.store == counted && r.result.Err?
  {
    match SaveRow(rows, nextId, row.(locked := true))
    case Saved(t, _, n) =>
      Step(Err(if lockNotice == Some(false) then AuthLockMailFailed else AuthAccountLocked), t, n, counted)
    case Violated(_) => Step(Err(InternalServerError), rows, nextId, counted)
    case StaleRow => Step(Err(InternalServerError), rows, nextId, counted)
  }

  /** `login` of either service. */
  function Login(rows: Table, nextId: int, store: Store, now: int, email: string, password: string,
                 role: RoleType, env: LoginEnv, lockNotice: Option<bool>): (r: Step<LoginTokens>)
    ensures r.result.Ok? ==>
              && email in rows && !rows[email].locked && PasswordMatches(env, rows[email], password)
              && env.authenticates && r.result.value.uuid == rows[email].uuid
    ensures r.result.Ok? ==> r.rows == rows && r.nextId == nextId
  {
    if email !in rows then Step(Err(NotFound(role)), rows, nextId, store)
    else
      var row := rows[email];
      if row.locked then Step(Err(AuthAccountLocked), rows, nextId, store)
      else if !PasswordMatches(env, row, password) then
        var f := FailedLogin(rows, nextId, store, now, row, role, lockNotice);
        Step(Err(if f.result.Ok? then InvalidAuthPassword else f.result.status), f.rows, f.nextId, f.store)
      else PasswordAccepted(rows, nextId, store, now, row, role, env)
  }

  /** What follows a matching password: the counter is cleared, the
      credentials are authenticated, and tokens are issued. */
  function PasswordAccepted(rows: Table, nextId: int, store: Store, now: int, row: Row,
                            role: RoleType, env: LoginEnv): (r: Step<LoginTokens>)
    ensures r.rows == rows && r.nextId == nextId
    ensures r.result.Ok? <==> env.authenticates
    ensures r.result.Ok? ==>
              && r.result.value.uuid == row.uuid
              && Get(r.store, now, RefreshTokenKey(row.uuid)) == Some(env.refreshToken)
  {
    var cleared := Delete(store, LoginFailKey(row.email, role));
    if !env.authenticates then Step(Err(AuthenticationError), rows, nextId, cleared)
    else
      var (tokens, issued) := IssueTokens(cleared, now, row.uuid, env.accessToken, env.refreshToken);
      Step(Ok(tokens), rows, nextId, issued)
  }

  /** `logout`: the refresh token of the uuid is revoked. */
  function Logout(store: Store, uuid: string): (s: Store)
    ensures RefreshTokenKey(uuid) !in s && s - {RefreshTokenKey(uuid)} == store - {RefreshTokenKey(uuid)}
  {
    Delete(store, RefreshTokenKey(uuid))
  }

  // ---------------------------------------------------------------------
  // Properties

  /** An unknown email is refused and nothing changes. */
  lemma UnknownEmailRefused(rows: Table, nextId: int, store: Store, now: int, email: string, password: string,
                            role: RoleType, env: LoginEnv, lockNotice: Option<bool>)
    requires email !in rows
    ensures Login(rows, nextId, store, now, email, password, role, env, lockNotice)
            == Step(Err(NotFound(role)), rows, nextId, store)
  {
  }

  /** A locked principal is refused before its password is looked at, with
      any password, and neither the counter nor anything else changes. */
  lemma LockedAccountRefused(rows: Table, nextId: int, store: Store, now: int, email: string, password: string,
                             role: RoleType, env: LoginEnv, lockNotice: Option<bool>)
    requires email in rows && rows[email].locked
    ensures Login(rows, nextId, store, now, email, password, role, env, lockNotice)
            == Step(Err(AuthAccountLocked), rows, nextId, store)
  {
  }

  /** A wrong password counts a failure. Below five the call fails with
      `INVALID_AUTH_PASSWORD` and the table is untouched; at five or more
      the row is locked and the call fails with `AUTH_ACCOUNT_LOCKED`, or
      `AUTH_LOCK_MAIL_FAILED` when the notification failed. */
  lemma WrongPasswordCounted(rows: Table, nextId: int, store: Store, now: int, email: string, password: string,
                             role: RoleType, env: LoginEnv, lockNotice: Option<bool>)
    requires TableValid(rows, nextId) && email in rows && !rows[email].locked
    requires !PasswordMatches(env, rows[email], password)
    requires CountFailure(store, now, LoginFailKey(email, role), LoginFailTtl).Ok?
    ensures var c := CountFailure(store, now, LoginFailKey(email, role), LoginFailTtl).value;
            var r := Login(rows, nextId, store, now, email, password, role, env, lockNotice);
            && r.store == c.0 && r.nextId == nextId
            && (c.1 < 5 ==> r.result == Err(InvalidAuthPassword) && r.rows == rows)
            && (c.1 >= 5 ==>
                  && r.rows == rows[email := rows[email].(locked := true)]
                  && r.result == Err(if lockNotice == Some(false) then AuthLockMailFailed else AuthAccountLocked))
  {
    LockWriteSucceeds(rows, nextId, email);
  }

  /** The right password clears the failure counter; when authentication
      also succeeds, the tokens are for the principal's own uuid and the
      refresh token is stored under it. */
  lemma RightPasswordAccepted(rows: Table, nextId: int, store: Store, now: int, email: string, password: string,
                              role: RoleType, env: LoginEnv, lockNotice: Option<bool>)
    requires TableValid(rows, nextId)
    requires email in rows && !rows[email].locked && PasswordMatches(env, rows[email], password)
    ensures var r := Login(rows, nextId, store, now, email, password, role, env, lockNotice);
            && r.rows == rows
            && !Live(r.store, now, LoginFailKey(email, role))
            && (env.authenticates ==>
                  && r.result == Ok(LoginTokens(rows[email].uuid, env.accessToken, env.refreshToken))
                  && Get(r.store, now, RefreshTokenKey(rows[email].uuid)) == Some(env.refreshToken))
            && (!env.authenticates ==> r.result == Err(AuthenticationError))
  {
    var key := LoginFailKey(email, role);
    var cleared := Delete(store, key);
    KeyFamiliesDisjoint(email, role, email, role, rows[email].uuid);
    if env.authenticates {
      var s' := IssueTokens(cleared, now, rows[email].uuid, env.accessToken, env.refreshToken).1;
      assert key !in s' - {RefreshTokenKey(rows[email].uuid)};
    }
  }

  /** After a successful login the count starts again: the next wrong
      password counts as the first failure, not the sixth. */
  lemma CountRestartsAfterSuccess(rows: Table, nextId: int, store: Store, now: int, email: string,
                                  right: string, wrong: string, role: RoleType, env: LoginEnv,
                                  lockNotice: Option<bool>)
    requires TableValid(rows, nextId) && email in rows && !rows[email].locked
    requires PasswordMatches(env, rows[email], right) && !PasswordMatches(env, rows[email], wrong)
    ensures var a := Login(rows, nextId, store, now, email, right, role, env, lockNotice);
            var b := Login(a.rows, a.nextId, a.store, now, email, wrong, role, env, lockNotice);
            && b.result == Err(InvalidAuthPassword) && b.rows == rows
            && Get(b.store, now, LoginFailKey(email, role)) == Some("1")
  {
    RightPasswordAccepted(rows, nextId, store, now, email, right, role, env, lockNotice);
    var a := Login(rows, nextId, store, now, email, right, role, env, lockNotice);
    assert a.nextId == nextId;
    WrongPasswordStep(a.rows, a.nextId, a.store, now, email, wrong, role, env, lockNotice, 0);
    WrongPasswordCounted(a.rows, a.nextId, a.store, now, email, wrong, role, env, lockNotice);
    assert Format(1) == "1";
  }

  /** The table after a counted failure: unchanged, or the row locked. */
  lemma FailedLoginTable(rows: Table, nextId: int, store: Store, now: int, email: string,
                         role: RoleType, lockNotice: Option<bool>)
    requires TableValid(rows, nextId) && email in rows
    ensures var f := FailedLogin(rows, nextId, store, now, rows[email], role, lockNotice);
            && f.nextId == nextId
            && (f.rows == rows || f.rows == rows[email := rows[email].(locked := true)])
  {
    LockWriteSucceeds(rows, nextId, email);
  }

  /** Locking one row keeps every lock and the table's validity. */
  lemma LockingKeepsLocks(rows: Table, nextId: int, email: string)
    requires TableValid(rows, nextId) && email in rows
    ensures LocksKept(rows, rows[email := rows[email].(locked := true)])
    ensures TableValid(rows[email := rows[email].(locked := true)], nextId)
  {
    LockWriteSucceeds(rows, nextId, email);
    SaveKeepsValid(rows, nextId, rows[email].(locked := true));
  }

  /** A login never unlocks anything and keeps the table valid. */
  lemma LoginKeepsLocks(rows: Table, nextId: int, store: Store, now: int, email: string, password: string,
                        role: RoleType, env: LoginEnv, lockNotice: Option<bool>)
    requires TableValid(rows, nextId)
    ensures var r := Login(rows, nextId, store, now, email, password, role, env, lockNotice);
            LocksKept(rows, r.rows) && TableValid(r.rows, r.nextId)
  {
    var r := Login(rows, nextId, store, now, email, password, role, env, lockNotice);
    if email in rows && !rows[email].locked && !PasswordMatches(env, rows[email], password) {
      FailedLoginTable(rows, nextId, store, now, email, role, lockNotice);
      assert r.nextId == nextId;
      if r.rows != rows {
        assert r.rows == rows[email := rows[email].(locked := true)];
        LockingKeepsLocks(rows, nextId, email);
      }
    } else {
      assert r.rows == rows && r.nextId == nextId;
    }
  }

  /** One more wrong password on an unlocked principal whose counter holds
      `k` (none for `k == 0`): the counter then holds `k + 1`, and the row is
      locked exactly when that reaches five. Only the counter is written in
      the store: a new counter expires fifteen minutes from now, an
      existing one keeps its expiry. */
  lemma {:induction false} WrongPasswordStep(rows: Table, nextId: int, store: Store, now: int, email: string,
                                             wrong: string, role: RoleType, env: LoginEnv,
                                             lockNotice: Option<bool>, k: nat)
    requires TableValid(rows, nextId) && email in rows && !rows[email].locked
    requires !PasswordMatches(env, rows[email], wrong) && k < 5
    requires k == 0 ==> !Live(store, now, LoginFailKey(email, role))
    requires k > 0 ==> Get(store, now, LoginFailKey(email, role)) == Some(Format(k))
    ensures var key := LoginFailKey(email, role);
            var r := Login(rows, nextId, store, now, email, wrong, role, env, lockNotice);
            && r.nextId == nextId
            && Get(r.store, now, key) == Some(Format(k + 1))
            && (k + 1 < 5 ==> r.rows == rows && r.result == Err(InvalidAuthPassword))
            && (k + 1 == 5 ==> r.rows == rows[email := rows[email].(locked := true)])
            && r.store - {key} == store - {key}
            && (k == 0 ==> r.store[key].expiresAt == Some(now + LoginFailTtl))
            && (k > 0 ==> r.store[key].expiresAt == store[key].expiresAt)
  {
    var key := LoginFailKey(email, role);
    if k > 0 {
      StoreParseFormat(k);
    }
    assert Format(1) == "1";
    WrongPasswordCounted(rows, nextId, store, now, email, wrong, role, env, lockNotice);
  }

  /** The state after the same login has run once at each of the first
      `n` of `instants`, in that order. */
  function AfterLogins(rows: Table, nextId: int, store: Store, instants: seq<int>, n: nat, email: string,
                       password: string, role: RoleType, env: LoginEnv, lockNotice: Option<bool>): (Table, int, Store)
    requires n <= |instants|
    decreases n
  {
    if n == 0 then (rows, nextId, store)
    else
      var before := AfterLogins(rows, nextId, store, instants, n - 1, email, password, role, env, lockNotice);
      var r := Login(before.0, before.1, before.2, instants[n - 1], email, password, role, env, lockNotice);
      (r.rows, r.nextId, r.store)
  }

  /** A series of logins whose first finds no counter and which all fall
      before fifteen minutes from the first. */
  predicate LoginWindow(store: Store, instants: seq<int>, email: string, role: RoleType) {
    && |instants| >= 1
    && !Live(store, instants[0], LoginFailKey(email, role))
    && forall i | 0 <= i < |instants| :: instants[i] < instants[0] + LoginFailTtl
  }

  /** One wrong password in terms of the counter's whole entry: `k`
      failures so far, expiring at `expiry`, become `k + 1` with the same
      expiry, and a first failure sets the expiry fifteen minutes ahead. */
  lemma WrongPasswordEntryStep(rows: Table, nextId: int, store: Store, now: int, email: string, wrong: string,
                               role: RoleType, env: LoginEnv, lockNotice: Option<bool>, k: nat, expiry: int)
    requires TableValid(rows, nextId) && email in rows && !rows[email].locked
    requires !PasswordMatches(env, rows[email], wrong) && k < 5
    requires k == 0 ==> !Live(store, now, LoginFailKey(email, role)) && expiry == now + LoginFailTtl
    requires k > 0 ==> && LoginFailKey(email, role) in store && now < expiry
                       && store[LoginFailKey(email, role)] == Entry(Format(k), Some(expiry))
    ensures var key := LoginFailKey(email, role);
            var r := Login(rows, nextId, store, now, email, wrong, role, env, lockNotice);
            && r.nextId == nextId
            && (k + 1 < 5 ==> r.rows == rows)
            && (k + 1 == 5 ==> r.rows == rows[email := rows[email].(locked := true)])
            && key in r.store && r.store[key] == Entry(Format(k + 1), Some(expiry))
            && r.store - {key} == store - {key}
  {
    WrongPasswordStep(rows, nextId, store, now, email, wrong, role, env, lockNotice, k);
  }

  /** After `n` wrong passwords (n from 1 to 4) in such a window, the
      counter holds `n` and still expires fifteen minutes after the first
      failure, whatever the later instants were; the table and every other
      key are as they were. */
  lemma {:induction false} WrongPasswordsCounted(rows: Table, nextId: int, store: Store, instants: seq<int>, n: nat,
                                                 email: string, wrong: string, role: RoleType, env: LoginEnv,
                                                 lockNotice: Option<bool>)
    requires TableValid(rows, nextId) && email in rows && !rows[email].locked
    requires !PasswordMatches(env, rows[email], wrong)
    requires 1 <= n <= |instants| && n < 5 && LoginWindow(store, instants, email, role)
    ensures var key := LoginFailKey(email, role);
            var a := AfterLogins(rows, nextId, store, instants, n, email, wrong, role, env, lockNotice);
            && a.0 == rows && a.1 == nextId
            && key in a.2 && a.2[key] == Entry(Format(n), Some(instants[0] + LoginFailTtl))
            && a.2 - {key} == store - {key}
  {
    var a := AfterLogins(rows, nextId, store, instants, n - 1, email, wrong, role, env, lockNotice);
    if n > 1 {
      WrongPasswordsCounted(rows, nextId, store, instants, n - 1, email, wrong, role, env, lockNotice);
    }
    WrongPasswordEntryStep(a.0, a.1, a.2, instants[n - 1], email, wrong, role, env, lockNotice, n - 1,
                           instants[0] + LoginFailTtl);
  }

  /** Five wrong passwords within fifteen minutes of the first lock the
      principal, whether or not the notification went out; from then on
      every login is refused, the right password included. */
  lemma FiveWrongPasswordsLock(rows: Table, nextId: int, store: Store, instants: seq<int>, email: string,
                               wrong: string, role: RoleType, env: LoginEnv, lockNotice: Option<bool>,
                               later: int, password: string, env': LoginEnv, lockNotice': Option<bool>)
    requires TableValid(rows, nextId) && email in rows && !rows[email].locked
    requires !PasswordMatches(env, rows[email], wrong)
    requires |instants| == 5 && LoginWindow(store, instants, email, role)
    ensures var a := AfterLogins(rows, nextId, store, instants, 5, email, wrong, role, env, lockNotice);
            && email in a.0 && a.0[email].locked
            && Login(a.0, a.1, a.2, later, email, password, role, env', lockNotice')
               == Step(Err(AuthAccountLocked), a.0, a.1, a.2)
  {
    WrongPasswordsCounted(rows, nextId, store, instants, 4, email, wrong, role, env, lockNotice);
    var a := AfterLogins(rows, nextId, store, instants, 4, email, wrong, role, env, lockNotice);
    WrongPasswordEntryStep(a.0, a.1, a.2, instants[4], email, wrong, role, env, lockNotice, 4,
                           instants[0] + LoginFailTtl);
  }

  /** The window is fixed by the first failure, not sliding: a wrong
      password fifteen minutes or more after the first of up to four
      failures counts as a first failure again, and does not lock. */
  lemma WindowFixedByFirstFailure(rows: Table, nextId: int, store: Store, instants: seq<int>, n: nat, email: string,
                                  wrong: string, role: RoleType, env: LoginEnv, lockNotice: Option<bool>,
                                  later: int)
    requires TableValid(rows, nextId) && email in rows && !rows[email].locked
    requires !PasswordMatches(env, rows[email], wrong)
    requires 1 <= n <= |instants| && n < 5 && LoginWindow(store, instants, email, role)
    requires later >= instants[0] + LoginFailTtl
    ensures var a := AfterLogins(rows, nextId, store, instants, n, email, wrong, role, env, lockNotice);
            var r := Login(a.0, a.1, a.2, later, email, wrong, role, env, lockNotice);
            && r.result == Err(InvalidAuthPassword) && r.rows == rows
            && Get(r.store, later, LoginFailKey(email, role)) == Some("1")
  {
    WrongPasswordsCounted(rows, nextId, store, instants, n, email, wrong, role, env, lockNotice);
    var a := AfterLogins(rows, nextId, store, instants, n, email, wrong, role, env, lockNotice);
    WrongPasswordStep(a.0, a.1, a.2, later, email, wrong, role, env, lockNotice, 0);
    assert Format(1) == "1";
  }
}
