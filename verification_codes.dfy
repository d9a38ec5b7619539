/** The verification-code state machine that the user service and the host
    service each implement, once per role keyspace: issuing a code (refused
    while one is live), and checking a submitted code against it with a
    failure counter that blocks further checks at five failures. */
module VerificationCodes {
  import opened Common
  import opened Decimal
  import opened JavaText
  import opened KeyValue
  import opened Redis

  const EmailVerificationTtl: int := 3 * Minute
  const VerifyBlockDuration: int := 10 * Minute
  /** The failure count above which the check renews the counter's TTL. */
  const PostCheckLimit: int := 5

  /** sendVerificationCode: refused while a code is live; otherwise the mail
      goes out first and the code is stored only if sending succeeded.
      `code` is the generated code and `mailSent` whether sending worked. */
  function SendCode(s: Store, now: int, email: string, code: string, mailSent: bool, role: RoleType)
    : (r: (Result<Unit>, Store))
    ensures r.0.Ok? <==> !Live(s, now, EmailVerificationKey(email, role)) && mailSent
    ensures r.0.Ok? ==> Get(r.1, now, EmailVerificationKey(email, role)) == Some(code)
    ensures r.0.Err? ==> r.1 == s
  {
    var key := EmailVerificationKey(email, role);
    if Get(s, now, key).Some? then (Err(VerificationCodeAlreadySent), s)
    else if !mailSent then (Err(MailError), s)
    else (Ok(Unit), Set(s, now, key, code, EmailVerificationTtl))
  }

  /** verifyEmailCode: the block pre-check, the comparison (which does not
      consume the code), then either a counter reset or a counted failure
      whose count above five renews the block. */
  function VerifyCode(s: Store, now: int, email: string, code: Option<string>, role: RoleType)
    : (r: (Result<bool>, Store))
    ensures r.0.Ok? <==>
              && !AttemptBlocked(s, now, VerificationAttemptFailKey(email, role))
              && code.Some? && Get(s, now, EmailVerificationKey(email, role)) == Some(code.value)
    ensures r.0.Ok? ==> r.0.value
  {
    var failKey := VerificationAttemptFailKey(email, role);
    if AttemptBlocked(s, now, failKey) then (Err(VerificationAttemptBlocked), s)
    else if code.None? then (Err(IllegalArgument), s)
    else if Get(s, now, EmailVerificationKey(email, role)) == Some(code.value) then
      (Ok(true), Delete(s, failKey))
    else
      match CountFailure(s, now, failKey, VerifyFailBlockTtl)
      case Err(e) => (Err(e), s)
      case Ok((s1, n)) =>
        if n > PostCheckLimit then
          (Err(VerificationAttemptBlocked), Expire(s1, now, failKey, VerifyBlockDuration).0)
        else (Err(InvalidVerificationCodeMismatch), s1)
  }

  /** The failure check ran and found the new count above five. */
  predicate PostCheckFires(s: Store, now: int, email: string, code: Option<string>, role: RoleType) {
    var failKey := VerificationAttemptFailKey(email, role);
    && !AttemptBlocked(s, now, failKey)
    && code.Some?
    && Get(s, now, EmailVerificationKey(email, role)) != Some(code.value)
    && var c := CountFailure(s, now, failKey, VerifyFailBlockTtl);
    && c.Ok? && c.value.1 > PostCheckLimit
  }

  /** A counter value the store can increment, between 1 and 5. */
  predicate SmallCount(v: string) {
    StoreParse(v).Some? && 1 <= StoreParse(v).value <= VerifyFailLimit
  }

  /** What sequential use of the service maintains: every live
      verification-failure counter holds a count from 1 to 5. */
  ghost predicate FailCountersBounded(s: Store, now: int) {
    forall k :: IsVerifyFailKey(k) && Live(s, now, k) ==> SmallCount(s[k].value)
  }

  // ---------------------------------------------------------------------
  // Issuing codes

  /** A live code refuses a new one and changes nothing. */
  lemma SendRefusedWhileLive(s: Store, now: int, email: string, code: string, mailSent: bool, role: RoleType)
    requires Live(s, now, EmailVerificationKey(email, role))
    ensures SendCode(s, now, email, code, mailSent, role) == (Err(VerificationCodeAlreadySent), s)
  {
  }

  /** An issued code reads back for three minutes and is gone afterwards,
      when a new code may be issued. */
  lemma IssuedCodeLifetime(s: Store, now: int, email: string, code: string, role: RoleType, later: int)
    requires !Live(s, now, EmailVerificationKey(email, role)) && now <= later
    ensures var s' := SendCode(s, now, email, code, true, role).1;
            && Get(s', later, EmailVerificationKey(email, role))
               == (if later < now + EmailVerificationTtl then Some(code) else None)
            && (later >= now + EmailVerificationTtl ==>
                  SendCode(s', later, email, code, true, role).0 == Ok(Unit))
  {
    SetThenGet(s, now, EmailVerificationKey(email, role), code, EmailVerificationTtl, later);
  }

  /** Issuing a code never touches the failure counter, whatever happens. */
  lemma SendKeepsCounter(s: Store, now: int, email: string, code: string, mailSent: bool, role: RoleType)
    ensures var s' := SendCode(s, now, email, code, mailSent, role).1;
            && s' - {EmailVerificationKey(email, role)} == s - {EmailVerificationKey(email, role)}
            && Get(s', now, VerificationAttemptFailKey(email, role))
               == Get(s, now, VerificationAttemptFailKey(email, role))
  {
    KeyFamiliesDisjoint(email, role, email, role, "");
    var s' := SendCode(s, now, email, code, mailSent, role).1;
    var k := VerificationAttemptFailKey(email, role);
    assert k in s' <==> k in (s' - {EmailVerificationKey(email, role)});
    assert k in s <==> k in (s - {EmailVerificationKey(email, role)});
    if k in s' {
      assert s'[k] == (s' - {EmailVerificationKey(email, role)})[k];
    }
  }

  // ---------------------------------------------------------------------
  // Checking codes

  /** While the counter says blocked, even the right code is refused, and
      nothing changes. */
  lemma BlockedRefusesAnyCode(s: Store, now: int, email: string, code: Option<string>, role: RoleType)
    requires AttemptBlocked(s, now, VerificationAttemptFailKey(email, role))
    ensures VerifyCode(s, now, email, code, role) == (Err(VerificationAttemptBlocked), s)
  {
  }

  /** A check never consumes the code and touches only its own counter. */
  lemma VerifyTouchesOnlyCounter(s: Store, now: int, email: string, code: Option<string>, role: RoleType)
    ensures var s' := VerifyCode(s, now, email, code, role).1;
            var failKey := VerificationAttemptFailKey(email, role);
            s' - {failKey} == s - {failKey}
  {
  }

  /** The right code, when not blocked, succeeds and clears the counter. */
  lemma MatchClearsCounter(s: Store, now: int, email: string, code: string, role: RoleType)
    requires !AttemptBlocked(s, now, VerificationAttemptFailKey(email, role))
    requires Get(s, now, EmailVerificationKey(email, role)) == Some(code)
    ensures var r := VerifyCode(s, now, email, Some(code), role);
            && r.0 == Ok(true)
            && !Live(r.1, now, VerificationAttemptFailKey(email, role))
            && Get(r.1, now, EmailVerificationKey(email, role)) == Some(code)
  {
    KeyFamiliesDisjoint(email, role, email, role, "");
  }

  /** Under the counter bound, a counter that does not block reads as a
      count below five, or is absent. */
  lemma {:induction false} UnblockedCountBelowLimit(s: Store, now: int, key: string)
    requires FailCountersBounded(s, now) && IsVerifyFailKey(key)
    requires !AttemptBlocked(s, now, key) && Live(s, now, key)
    ensures StoreParse(s[key].value).Some?
    ensures 1 <= StoreParse(s[key].value).value < VerifyFailLimit
  {
    var v := s[key].value;
    assert SmallCount(v);
    var m := StoreParse(v).value;
    StoreParseCanonical(v, m);
    JavaParseFormat(m);
  }

  /** The main sequential result: as long as the counters are bounded, the
      count after a failed check is at most five, so the branch that renews
      the block can never run. */
  lemma {:induction false} PostCheckUnreachable(s: Store, now: int, email: string, code: Option<string>, role: RoleType)
    requires FailCountersBounded(s, now)
    ensures !PostCheckFires(s, now, email, code, role)
  {
    var failKey := VerificationAttemptFailKey(email, role);
    VerifyFailKeyKinds(email, role, "");
    if PostCheckFires(s, now, email, code, role) && Live(s, now, failKey) {
      UnblockedCountBelowLimit(s, now, failKey);
    }
  }

  /** Consequently a refusal for being blocked happens exactly when the
      pre-check blocks, and it leaves the store as it was. */
  lemma {:induction false} BlockedOnlyByPreCheck(s: Store, now: int, email: string, code: Option<string>, role: RoleType)
    requires FailCountersBounded(s, now)
    ensures var r := VerifyCode(s, now, email, code, role);
            && (r.0 == Err(VerificationAttemptBlocked)
                <==> AttemptBlocked(s, now, VerificationAttemptFailKey(email, role)))
            && (r.0 == Err(VerificationAttemptBlocked) ==> r.1 == s)
  {
    PostCheckUnreachable(s, now, email, code, role);
  }

  /** Counting one more failure on an unblocked counter under the bound
      gives a count from 1 to 5. */
  lemma {:induction false} BoundedCountStaysSmall(s: Store, now: int, key: string)
    requires FailCountersBounded(s, now) && IsVerifyFailKey(key)
    requires !AttemptBlocked(s, now, key)
    ensures var c := CountFailure(s, now, key, VerifyFailBlockTtl);
            && c.Ok? && 1 <= c.value.1 <= VerifyFailLimit
            && Live(c.value.0, now, key) && SmallCount(c.value.0[key].value)
  {
    var c := CountFailure(s, now, key, VerifyFailBlockTtl);
    if Live(s, now, key) {
      UnblockedCountBelowLimit(s, now, key);
      var n := StoreParse(s[key].value).value + 1;
      assert c.Ok? && c.value.0[key].value == Format(n);
      StoreParseFormat(n);
    } else {
      assert c.value.0[key].value == "1" == Format(1);
      StoreParseFormat(1);
    }
  }

  /** After a check under the counter bound, the check's own counter, if
      live, holds a count from 1 to 5. */
  lemma {:induction false} CounterAfterCheck(s: Store, now: int, email: string, code: Option<string>, role: RoleType)
    requires FailCountersBounded(s, now)
    ensures var s' := VerifyCode(s, now, email, code, role).1;
            var failKey := VerificationAttemptFailKey(email, role);
            Live(s', now, failKey) ==> SmallCount(s'[failKey].value)
  {
    var failKey := VerificationAttemptFailKey(email, role);
    var s' := VerifyCode(s, now, email, code, role).1;
    VerifyFailKeyKinds(email, role, "");
    if AttemptBlocked(s, now, failKey) || code.None? {
      assert s' == s;
    } else if Get(s, now, EmailVerificationKey(email, role)) == Some(code.value) {
      assert s' == Delete(s, failKey);
    } else {
      BoundedCountStaysSmall(s, now, failKey);
      assert s' == CountFailure(s, now, failKey, VerifyFailBlockTtl).value.0;
    }
  }

  /** A check keeps the counters bounded. */
  lemma {:induction false} VerifyKeepsBound(s: Store, now: int, email: string, code: Option<string>, role: RoleType)
    requires FailCountersBounded(s, now)
    ensures FailCountersBounded(VerifyCode(s, now, email, code, role).1, now)
  {
    var failKey := VerificationAttemptFailKey(email, role);
    var s' := VerifyCode(s, now, email, code, role).1;
    VerifyTouchesOnlyCounter(s, now, email, code, role);
    CounterAfterCheck(s, now, email, code, role);
    forall k | IsVerifyFailKey(k) && Live(s', now, k)
      ensures SmallCount(s'[k].value)
    {
      if k != failKey {
        assert k in s - {failKey} && k in s' - {failKey};
        assert s'[k] == (s' - {failKey})[k] == (s - {failKey})[k] == s[k];
      }
    }
  }

  /** Writing one key that is not a failure counter keeps the bound. */
  lemma OtherWriteKeepsBound(s: Store, s': Store, now: int, key: string)
    requires FailCountersBounded(s, now) && !IsVerifyFailKey(key)
    requires s' - {key} == s - {key}
    ensures FailCountersBounded(s', now)
  {
    forall k | IsVerifyFailKey(k) && Live(s', now, k)
      ensures SmallCount(s'[k].value)
    {
      assert k in s' - {key};
      assert s'[k] == (s' - {key})[k] == (s - {key})[k] == s[k];
    }
  }

  /** Issuing a code keeps the bound. */
  lemma SendKeepsBound(s: Store, now: int, email: string, code: string, mailSent: bool, role: RoleType)
    requires FailCountersBounded(s, now)
    ensures FailCountersBounded(SendCode(s, now, email, code, mailSent, role).1, now)
  {
    VerifyFailKeyKinds(email, role, "");
    OtherWriteKeepsBound(s, SendCode(s, now, email, code, mailSent, role).1, now,
                         EmailVerificationKey(email, role));
  }

  /** Time passing keeps the bound: counters only disappear. */
  lemma ElapseKeepsBound(s: Store, now: int, later: int)
    requires FailCountersBounded(s, now) && now <= later
    ensures FailCountersBounded(s, later)
  {
  }

  /** Counting a failure on a counter that reads `k` (absent for `k == 0`)
      leaves it reading `k + 1`. */
  lemma CountFromFormatted(s: Store, now: int, key: string, ttl: int, k: nat)
    requires ttl > 0 && k < VerifyFailLimit
    requires k == 0 ==> !Live(s, now, key)
    requires k > 0 ==> Get(s, now, key) == Some(Format(k))
    ensures var c := CountFailure(s, now, key, ttl);
            c.Ok? && c.value.1 == k + 1 && Get(c.value.0, now, key) == Some(Format(k + 1))
  {
    if k > 0 {
      StoreParseFormat(k);
    } else {
      assert Format(1) == "1";
    }
  }

  /** One more mismatch on an unblocked counter holding `k` (or none, for
      `k == 0`) leaves it holding `k + 1`, with the code untouched. Only the
      counter is written: a new counter expires ten minutes from now, an
      existing one keeps its expiry. */
  lemma {:induction false} MismatchStep(s: Store, now: int, email: string, wrong: string, role: RoleType, k: nat)
    requires k < VerifyFailLimit
    requires Get(s, now, EmailVerificationKey(email, role)) != Some(wrong)
    requires k == 0 ==> !Live(s, now, VerificationAttemptFailKey(email, role))
    requires k > 0 ==> Get(s, now, VerificationAttemptFailKey(email, role)) == Some(Format(k))
    ensures var failKey := VerificationAttemptFailKey(email, role);
            var r := VerifyCode(s, now, email, Some(wrong), role);
            && r.0 == Err(InvalidVerificationCodeMismatch)
            && Get(r.1, now, failKey) == Some(Format(k + 1))
            && Get(r.1, now, EmailVerificationKey(email, role)) == Get(s, now, EmailVerificationKey(email, role))
            && r.1 - {failKey} == s - {failKey}
            && (k == 0 ==> r.1[failKey].expiresAt == Some(now + VerifyFailBlockTtl))
            && (k > 0 ==> r.1[failKey].expiresAt == s[failKey].expiresAt)
  {
    var failKey := VerificationAttemptFailKey(email, role);
    KeyFamiliesDisjoint(email, role, email, role, "");
    if k > 0 {
      JavaParseFormat(k);
      StoreParseFormat(k);
    }
    CountFromFormatted(s, now, failKey, VerifyFailBlockTtl, k);
    var s' := VerifyCode(s, now, email, Some(wrong), role).1;
    var codeKey := EmailVerificationKey(email, role);
    VerifyTouchesOnlyCounter(s, now, email, Some(wrong), role);
    assert codeKey in s' <==> codeKey in s' - {failKey};
    assert codeKey in s <==> codeKey in s - {failKey};
    if codeKey in s {
      assert s'[codeKey] == (s' - {failKey})[codeKey] == (s - {failKey})[codeKey] == s[codeKey];
    }
  }

  /** The store after the same check has run once at each of the first
      `n` of `instants`, in that order. */
  function Checks(s: Store, instants: seq<int>, n: nat, email: string, code: Option<string>, role: RoleType): Store
    requires n <= |instants|
    decreases n
  {
    if n == 0 then s
    else VerifyCode(Checks(s, instants, n - 1, email, code, role), instants[n - 1], email, code, role).1
  }

  /** A series of wrong codes whose first finds no counter and which all
      fall before ten minutes from the first. */
  predicate MismatchWindow(s0: Store, instants: seq<int>, email: string, wrong: string, role: RoleType) {
    && |instants| >= 1
    && !Live(s0, instants[0], VerificationAttemptFailKey(email, role))
    && forall i | 0 <= i < |instants| ::
         && instants[i] < instants[0] + VerifyFailBlockTtl
         && Get(s0, instants[i], EmailVerificationKey(email, role)) != Some(wrong)
  }

  /** Two stores that differ at most in the failure counter hold the same
      code at every instant. */
  lemma SameCode(s: Store, s': Store, now: int, email: string, role: RoleType)
    requires s' - {VerificationAttemptFailKey(email, role)} == s - {VerificationAttemptFailKey(email, role)}
    ensures Get(s', now, EmailVerificationKey(email, role)) == Get(s, now, EmailVerificationKey(email, role))
  {
    var failKey, codeKey := VerificationAttemptFailKey(email, role), EmailVerificationKey(email, role);
    KeyFamiliesDisjoint(email, role, email, role, "");
    assert codeKey in s' <==> codeKey in s' - {failKey};
    assert codeKey in s <==> codeKey in s - {failKey};
    if codeKey in s {
      assert s'[codeKey] == (s' - {failKey})[codeKey] == (s - {failKey})[codeKey] == s[codeKey];
    }
  }

  /** One mismatch in terms of the counter's whole entry: `k` failures so
      far, expiring at `expiry`, become `k + 1` with the same expiry, and a
      first failure sets the expiry ten minutes ahead. */
  lemma MismatchEntryStep(s: Store, now: int, email: string, wrong: string, role: RoleType, k: nat, expiry: int)
    requires k < VerifyFailLimit
    requires Get(s, now, EmailVerificationKey(email, role)) != Some(wrong)
    requires k == 0 ==> !Live(s, now, VerificationAttemptFailKey(email, role)) && expiry == now + VerifyFailBlockTtl
    requires k > 0 ==> && VerificationAttemptFailKey(email, role) in s && now < expiry
                       && s[VerificationAttemptFailKey(email, role)] == Entry(Format(k), Some(expiry))
    ensures var failKey := VerificationAttemptFailKey(email, role);
            var s' := VerifyCode(s, now, email, Some(wrong), role).1;
            && failKey in s' && s'[failKey] == Entry(Format(k + 1), Some(expiry))
            && s' - {failKey} == s - {failKey}
  {
    MismatchStep(s, now, email, wrong, role, k);
  }

  /** After `n` mismatches (n from 1 to 5) in such a window, the counter
      holds `n` and still expires ten minutes after the first mismatch,
      whatever the later instants were; no other key changed, the code
      included. */
  lemma {:induction false} MismatchesCounted(s0: Store, instants: seq<int>, n: nat, email: string, wrong: string,
                                             role: RoleType)
    requires 1 <= n <= |instants| && n <= VerifyFailLimit && MismatchWindow(s0, instants, email, wrong, role)
    ensures var failKey := VerificationAttemptFailKey(email, role);
            var s := Checks(s0, instants, n, email, Some(wrong), role);
            && failKey in s
            && s[failKey] == Entry(Format(n), Some(instants[0] + VerifyFailBlockTtl))
            && s - {failKey} == s0 - {failKey}
  {
    var prev := Checks(s0, instants, n - 1, email, Some(wrong), role);
    if n > 1 {
      MismatchesCounted(s0, instants, n - 1, email, wrong, role);
    }
    SameCode(s0, prev, instants[n - 1], email, role);
    MismatchEntryStep(prev, instants[n - 1], email, wrong, role, n - 1, instants[0] + VerifyFailBlockTtl);
  }

  /** Five mismatches within ten minutes of the first block every check,
      even one that brings the right code, until ten minutes after the
      FIRST mismatch: the counter's expiry is set when it is created and
      never renewed. */
  lemma FiveMismatchesBlock(s0: Store, instants: seq<int>, email: string, wrong: string, role: RoleType,
                            later: int, code: Option<string>)
    requires |instants| == VerifyFailLimit && MismatchWindow(s0, instants, email, wrong, role)
    requires later < instants[0] + VerifyFailBlockTtl
    ensures var s5 := Checks(s0, instants, 5, email, Some(wrong), role);
            VerifyCode(s5, later, email, code, role) == (Err(VerificationAttemptBlocked), s5)
  {
    MismatchesCounted(s0, instants, 5, email, wrong, role);
    JavaParseFormat(5);
    var s5 := Checks(s0, instants, 5, email, Some(wrong), role);
    assert AttemptBlocked(s5, later, VerificationAttemptFailKey(email, role));
  }

  /** The block ends exactly ten minutes after the first of the five
      mismatches, not ten minutes after the fifth: from then on the right
      code is accepted again. */
  lemma BlockEndsAfterFirstMismatch(s0: Store, instants: seq<int>, email: string, wrong: string, role: RoleType,
                                    later: int, code: Option<string>)
    requires |instants| == VerifyFailLimit && MismatchWindow(s0, instants, email, wrong, role)
    requires later >= instants[0] + VerifyFailBlockTtl
    ensures var s5 := Checks(s0, instants, 5, email, Some(wrong), role);
            && !AttemptBlocked(s5, later, VerificationAttemptFailKey(email, role))
            && (VerifyCode(s5, later, email, code, role).0 == Ok(true) <==>
                  code.Some? && Get(s0, later, EmailVerificationKey(email, role)) == Some(code.value))
  {
    MismatchesCounted(s0, instants, 5, email, wrong, role);
    SameCode(s0, Checks(s0, instants, 5, email, Some(wrong), role), later, email, role);
  }

  /** The two roles keep separate state: a host check changes no user key
      and a user check changes no host key, for any email. */
  lemma RolesIndependent(s: Store, now: int, email: string, code: Option<string>, role: RoleType,
                         other: string, otherRole: RoleType)
    requires otherRole != role
    ensures var s' := VerifyCode(s, now, email, code, role).1;
            && Get(s', now, VerificationAttemptFailKey(other, otherRole))
               == Get(s, now, VerificationAttemptFailKey(other, otherRole))
            && Get(s', now, EmailVerificationKey(other, otherRole))
               == Get(s, now, EmailVerificationKey(other, otherRole))
  {
    var failKey := VerificationAttemptFailKey(email, role);
    var s' := VerifyCode(s, now, email, code, role).1;
    VerificationAttemptFailKeyInjective(email, role, other, otherRole);
    KeyFamiliesDisjoint(other, otherRole, email, role, "");
    forall k | k != failKey
      ensures Get(s', now, k) == Get(s, now, k)
    {
      assert k in s' <==> k in s' - {failKey};
      assert k in s <==> k in s - {failKey};
      if k in s {
        assert s[k] == (s - {failKey})[k];
      }
      if k in s' {
        assert s'[k] == (s' - {failKey})[k];
      }
    }
  }
}
