/** The service's view of the key/value store: four key builders and the
    verification-code, failure-counter and refresh-token operations, as a
    class whose state is the store's contents and the store's clock. */
module Redis {
  import opened Common
  import opened Decimal
  import opened JavaText
  import opened KeyValue

  const EmailVerificationPrefixUser: string := "email:verification:code:user:"
  const EmailVerificationPrefixHost: string := "email:verification:code:host:"
  const VerifyFailPrefixUser: string := "verify:fail:user:"
  const VerifyFailPrefixHost: string := "verify:fail:host:"
  const LoginFailPrefixUser: string := "login:fail:user:"
  const LoginFailPrefixHost: string := "login:fail:host:"
  const RefreshTokenPrefix: string := "refresh:"

  const LoginFailTtl: int := 15 * Minute
  const VerifyFailBlockTtl: int := 10 * Minute
  const VerifyFailLimit: int := 5

  function RolePrefix(role: RoleType, user: string, host: string): string {
    if role == Host then host else user
  }

  function EmailVerificationKey(email: string, role: RoleType): string {
    RolePrefix(role, EmailVerificationPrefixUser, EmailVerificationPrefixHost) + Trim(email)
  }

  function VerificationAttemptFailKey(email: string, role: RoleType): string {
    RolePrefix(role, VerifyFailPrefixUser, VerifyFailPrefixHost) + Trim(email)
  }

  function LoginFailKey(email: string, role: RoleType): string {
    RolePrefix(role, LoginFailPrefixUser, LoginFailPrefixHost) + Trim(email)
  }

  /** Refresh-token keys use the uuid exactly as given, untrimmed. */
  function RefreshTokenKey(uuid: string): string {
    RefreshTokenPrefix + uuid
  }

  /** The keys that hold verification-failure counters, of either role. */
  predicate IsVerifyFailKey(key: string) {
    VerifyFailPrefixUser <= key || VerifyFailPrefixHost <= key
  }

  /** An increment followed, when the counter has just been created, by
      attaching its TTL; the count comes back narrowed to 32 bits. */
  function CountFailure(s: Store, now: int, key: string, ttl: int): (r: Result<(Store, int)>)
    requires ttl > 0
    ensures r.Ok? ==> r.value.0 - {key} == s - {key}
    ensures !Live(s, now, key) ==>
              r.Ok? && r.value.1 == 1
              && key in r.value.0 && r.value.0[key] == Entry("1", Some(now + ttl))
    ensures Live(s, now, key) && r.Ok? ==>
              && StoreParse(s[key].value).Some?
              && var n := StoreParse(s[key].value).value + 1;
              && r.value.1 == ToInt32(n)
              && Get(r.value.0, now, key) == Some(Format(n))
              && (n != 1 ==> r.value.0[key].expiresAt == s[key].expiresAt)
  {
    match Incr(s, now, key)
    case Err(e) => Err(e)
    case Ok((s1, n)) =>
      var s2 := if n == 1 then Expire(s1, now, key, ttl).0 else s1;
      Ok((s2, ToInt32(n)))
  }

  /** The block test: the counter exists, reads as an `int`, and is at least
      the limit. */
  predicate AttemptBlocked(s: Store, now: int, key: string) {
    match Get(s, now, key)
    case None => false
    case Some(v) =>
      match JavaParseInt(v)
      case None => false
      case Some(n) => n >= VerifyFailLimit
  }

  class RedisService {
    var store: Store
    var now: int

    constructor(start: int)
      ensures store == map[] && now == start
    {
      store := map[];
      now := start;
    }

    /** Time passing between requests. */
    method Elapse(d: nat)
      modifies this`now
      ensures now == old(now) + d
    {
      now := now + d;
    }

    method SaveVerificationCode(email: string, code: string, ttl: int, role: RoleType)
      requires ttl > 0
      modifies this`store
      ensures store == Set(old(store), now, EmailVerificationKey(email, role), code, ttl)
    {
      store := Set(store, now, EmailVerificationKey(email, role), code, ttl);
    }

    /** Compares without consuming: the stored code stays in place. */
    method VerifyEmailCode(email: Option<string>, code: Option<string>, role: RoleType)
      returns (r: Result<bool>)
      ensures email.None? || code.None? <==> r == Err(IllegalArgument)
      ensures r.Err? ==> r == Err(IllegalArgument)
      ensures r == Ok(true) <==>
                email.Some? && code.Some?
                && Get(store, now, EmailVerificationKey(email.value, role)) == Some(code.value)
    {
      if email.None? || code.None? {
        return Err(IllegalArgument);
      }
      var stored := Get(store, now, EmailVerificationKey(email.value, role));
      r := Ok(stored.Some? && stored.value == code.value);
    }

    method GetVerificationCode(email: string, role: RoleType) returns (r: Option<string>)
      ensures r.Some? <==> Live(store, now, EmailVerificationKey(email, role))
      ensures r.Some? ==> r.value == store[EmailVerificationKey(email, role)].value
    {
      r := Get(store, now, EmailVerificationKey(email, role));
    }

    method DeleteVerificationCode(email: string, role: RoleType)
      modifies this`store
      ensures store == Delete(old(store), EmailVerificationKey(email, role))
    {
      store := Delete(store, EmailVerificationKey(email, role));
    }

    /** Increments the verification-failure counter; the TTL is attached
        only when the increment created the counter. */
    method IncrementVerificationAttemptFailCount(email: string, role: RoleType)
      returns (r: Result<int>)
      modifies this`store
      ensures var c := CountFailure(old(store), now, VerificationAttemptFailKey(email, role), VerifyFailBlockTtl);
              && (c.Ok? ==> r == Ok(c.value.1) && store == c.value.0)
              && (c.Err? ==> r == Err(c.status) && store == old(store))
    {
      var key := VerificationAttemptFailKey(email, role);
      var incr := Incr(store, now, key);
      if incr.Err? {
        return Err(incr.status);
      }
      var (s1, count) := incr.value;
      store := s1;
      if count == 1 {
        store := Expire(store, now, key, VerifyFailBlockTtl).0;
      }
      r := Ok(ToInt32(count));
    }

    method ResetVerificationAttemptFailCount(email: string, role: RoleType)
      modifies this`store
      ensures store == Delete(old(store), VerificationAttemptFailKey(email, role))
    {
      store := Delete(store, VerificationAttemptFailKey(email, role));
    }

    method IsVerificationAttemptBlocked(email: string, role: RoleType) returns (b: bool)
      ensures b <==> AttemptBlocked(store, now, VerificationAttemptFailKey(email, role))
    {
      var countStr := Get(store, now, VerificationAttemptFailKey(email, role));
      if countStr.None? {
        return false;
      }
      var parsed := JavaParseInt(countStr.value);
      b := parsed.Some? && parsed.value >= VerifyFailLimit;
    }

    /** Renews the counter's TTL and nothing else. */
    method BlockVerificationAttempts(email: string, role: RoleType, duration: int)
      modifies this`store
      ensures store == Expire(old(store), now, VerificationAttemptFailKey(email, role), duration).0
    {
      var (s1, _) := Expire(store, now, VerificationAttemptFailKey(email, role), duration);
      store := s1;
    }

    method IncrementLoginFailCount(email: string, role: RoleType) returns (r: Result<int>)
      modifies this`store
      ensures var c := CountFailure(old(store), now, LoginFailKey(email, role), LoginFailTtl);
              && (c.Ok? ==> r == Ok(c.value.1) && store == c.value.0)
              && (c.Err? ==> r == Err(c.status) && store == old(store))
    {
      var key := LoginFailKey(email, role);
      var incr := Incr(store, now, key);
      if incr.Err? {
        return Err(incr.status);
      }
      var (s1, count) := incr.value;
      store := s1;
      if count == 1 {
        store := Expire(store, now, key, LoginFailTtl).0;
      }
      r := Ok(ToInt32(count));
    }

    method ResetLoginFailCount(email: string, role: RoleType)
      modifies this`store
      ensures store == Delete(old(store), LoginFailKey(email, role))
    {
      store := Delete(store, LoginFailKey(email, role));
    }

    /** Last writer wins: an earlier token for the same uuid is replaced. */
    method SaveRefreshToken(uuid: string, token: string, ttl: int)
      requires ttl > 0
      modifies this`store
      ensures store == Set(old(store), now, RefreshTokenKey(uuid), token, ttl)
    {
      store := Set(store, now, RefreshTokenKey(uuid), token, ttl);
    }

    method DeleteRefreshToken(uuid: string)
      modifies this`store
      ensures store == Delete(old(store), RefreshTokenKey(uuid))
    {
      store := Delete(store, RefreshTokenKey(uuid));
    }
  }

  // ---------------------------------------------------------------------
  // Properties of the key builders

  lemma {:induction false} AppendCancel(p: string, a: string, q: string, b: string)
    requires |p| == |q|
    ensures p + a == q + b <==> p == q && a == b
  {
    if p + a == q + b {
      assert p == (p + a)[..|p|] && q == (q + b)[..|q|];
      assert a == (p + a)[|p|..] && b == (q + b)[|q|..];
    }
  }

  /** Two code keys coincide exactly when the role is the same and the
      emails trim to the same string. */
  lemma EmailVerificationKeyInjective(e1: string, r1: RoleType, e2: string, r2: RoleType)
    ensures EmailVerificationKey(e1, r1) == EmailVerificationKey(e2, r2)
            <==> r1 == r2 && Trim(e1) == Trim(e2)
  {
    AppendCancel(RolePrefix(r1, EmailVerificationPrefixUser, EmailVerificationPrefixHost), Trim(e1),
                 RolePrefix(r2, EmailVerificationPrefixUser, EmailVerificationPrefixHost), Trim(e2));
  }

  lemma VerificationAttemptFailKeyInjective(e1: string, r1: RoleType, e2: string, r2: RoleType)
    ensures VerificationAttemptFailKey(e1, r1) == VerificationAttemptFailKey(e2, r2)
            <==> r1 == r2 && Trim(e1) == Trim(e2)
  {
    AppendCancel(RolePrefix(r1, VerifyFailPrefixUser, VerifyFailPrefixHost), Trim(e1),
                 RolePrefix(r2, VerifyFailPrefixUser, VerifyFailPrefixHost), Trim(e2));
  }

  lemma LoginFailKeyInjective(e1: string, r1: RoleType, e2: string, r2: RoleType)
    ensures LoginFailKey(e1, r1) == LoginFailKey(e2, r2)
            <==> r1 == r2 && Trim(e1) == Trim(e2)
  {
    AppendCancel(RolePrefix(r1, LoginFailPrefixUser, LoginFailPrefixHost), Trim(e1),
                 RolePrefix(r2, LoginFailPrefixUser, LoginFailPrefixHost), Trim(e2));
  }

  lemma RefreshTokenKeyInjective(u1: string, u2: string)
    ensures RefreshTokenKey(u1) == RefreshTokenKey(u2) <==> u1 == u2
  {
    AppendCancel(RefreshTokenPrefix, u1, RefreshTokenPrefix, u2);
  }

  /** Emails that differ only in characters `trim` removes share every key. */
  lemma PaddedEmailSharesKeys(email: string, front: string, back: string, role: RoleType)
    requires AllTrimmable(front) && AllTrimmable(back)
    ensures EmailVerificationKey(front + email + back, role) == EmailVerificationKey(email, role)
    ensures VerificationAttemptFailKey(front + email + back, role) == VerificationAttemptFailKey(email, role)
    ensures LoginFailKey(front + email + back, role) == LoginFailKey(email, role)
  {
    TrimIgnoresPadding(front, email, back);
  }

  /** The four kinds of key never collide: each starts with its own letter. */
  lemma KeyFamiliesDisjoint(e1: string, r1: RoleType, e2: string, r2: RoleType, uuid: string)
    ensures EmailVerificationKey(e1, r1) != VerificationAttemptFailKey(e2, r2)
    ensures EmailVerificationKey(e1, r1) != LoginFailKey(e2, r2)
    ensures EmailVerificationKey(e1, r1) != RefreshTokenKey(uuid)
    ensures VerificationAttemptFailKey(e1, r1) != LoginFailKey(e2, r2)
    ensures VerificationAttemptFailKey(e1, r1) != RefreshTokenKey(uuid)
    ensures LoginFailKey(e1, r1) != RefreshTokenKey(uuid)
  {
    assert EmailVerificationKey(e1, r1)[0] == 'e';
    assert VerificationAttemptFailKey(e2, r2)[0] == 'v' && VerificationAttemptFailKey(e1, r1)[0] == 'v';
    assert LoginFailKey(e2, r2)[0] == 'l' && LoginFailKey(e1, r1)[0] == 'l';
    assert RefreshTokenKey(uuid)[0] == 'r';
  }

  /** Both failure-counter prefixes start with 'v'. */
  lemma NotVerifyFailKey(key: string)
    requires |key| > 0 && key[0] != 'v'
    ensures !IsVerifyFailKey(key)
  {
  }

  /** Exactly the failure-counter keys are counted as such. */
  lemma VerifyFailKeyKinds(email: string, role: RoleType, uuid: string)
    ensures IsVerifyFailKey(VerificationAttemptFailKey(email, role))
    ensures !IsVerifyFailKey(EmailVerificationKey(email, role))
    ensures !IsVerifyFailKey(LoginFailKey(email, role))
    ensures !IsVerifyFailKey(RefreshTokenKey(uuid))
  {
    var p := RolePrefix(role, VerifyFailPrefixUser, VerifyFailPrefixHost);
    assert VerificationAttemptFailKey(email, role)[..|p|] == p;
    NotVerifyFailKey(EmailVerificationKey(email, role));
    NotVerifyFailKey(LoginFailKey(email, role));
    NotVerifyFailKey(RefreshTokenKey(uuid));
  }
}
