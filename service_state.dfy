/** What every use case of the two services acts on: the principal table of
    its role, the repository's identity sequence and the key/value store. */
module ServiceState {
  import opened Common
  import opened KeyValue
  import opened Redis
  import opened Credentials

  /** The result of a use case together with the state it leaves behind;
      an `Err` result is the exception the use case throws, and the state
      then holds every write made before the throw. */
  datatype Step<T> = Step(result: Result<T>, rows: Table, nextId: int, store: Store)

  /** Refresh tokens are stored for seven days by both services. */
  const RefreshTokenExpiry: int := 7 * Day

  /** Tokens handed out by a successful login. */
  datatype LoginTokens = LoginTokens(uuid: string, accessToken: string, refreshToken: string)

  /** `generateTokensAndSave`: the tokens for `uuid`, with the refresh token
      stored under it, replacing any earlier one. */
  function IssueTokens(store: Store, now: int, uuid: string, accessToken: string, refreshToken: string)
    : (r: (LoginTokens, Store))
    ensures r.0.uuid == uuid && r.0.refreshToken == refreshToken
    ensures Get(r.1, now, RefreshTokenKey(uuid)) == Some(refreshToken)
    ensures r.1 - {RefreshTokenKey(uuid)} == store - {RefreshTokenKey(uuid)}
  {
    (LoginTokens(uuid, accessToken, refreshToken),
     Set(store, now, RefreshTokenKey(uuid), refreshToken, RefreshTokenExpiry))
  }

  /** Every row that was locked is still there and still locked. */
  ghost predicate LocksKept(before: Table, after: Table) {
    forall e | e in before && before[e].locked :: e in after && after[e].locked
  }
}
