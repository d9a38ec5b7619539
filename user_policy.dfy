/** The user-side lock policy: the configurable failure limit and the
    threshold test against it. */
module UserPolicy {
  import opened AuthUserEntity

  /** The limit when configuration does not override it. */
  const DefaultLoginFailLimit: int := 5

  /** The limit both services hard-code. */
  const ServiceLoginFailLimit: int := 5

  /** `shouldLockAccount`: the count has reached the limit. */
  function ShouldLockAccount(currentFailCount: int, limit: int): bool {
    currentFailCount >= limit
  }

  /** `isAccountLocked(user)`: the entity's own flag. */
  function IsAccountLocked(user: AuthUser): (r: bool)
    reads user
    ensures r == user.IsAccountLocked()
    ensures r != user.IsAccountNonLocked()
  {
    user.IsAccountLocked()
  }

  /** Once a count locks, every larger count locks too. */
  lemma LockThresholdMonotone(count: int, larger: int, limit: int)
    requires ShouldLockAccount(count, limit) && count <= larger
    ensures ShouldLockAccount(larger, limit)
  {
  }

  /** The limit is the least count that locks. */
  lemma LimitIsLeastLockingCount(limit: int)
    ensures ShouldLockAccount(limit, limit)
    ensures forall c :: c < limit ==> !ShouldLockAccount(c, limit)
  {
  }

  /** With the default configuration the policy agrees with the services'
      hard-coded rule: four failures do not lock, five do. */
  lemma DefaultPolicyMatchesServices()
    ensures !ShouldLockAccount(4, DefaultLoginFailLimit) && ShouldLockAccount(5, DefaultLoginFailLimit)
  {
  }
}
