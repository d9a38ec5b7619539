/** Shared vocabulary of the authentication service: optional values, the
    tagged result that replaces thrown exceptions, the response statuses the
    services raise, the two principal roles and the store durations. */
module Common {

  datatype Option<+T> = None | Some(value: T)

  /** The outcome of an operation that would throw in the service: `Err`
      carries the status of the exception instead of unwinding. */
  datatype Result<+T> = Ok(value: T) | Err(status: Status)

  datatype Unit = Unit

  /** Statuses of the service's business exceptions, plus the kinds of
      foreign exceptions that escape the services unchanged. */
  datatype Status =
    | AuthUserNotFound
    | AuthHostNotFound
    | AuthAccountLocked
    | InvalidAuthPassword
    | AuthLockMailFailed
    | InvalidVerificationCode
    | InvalidVerificationCodeMismatch
    | VerificationCodeAlreadySent
    | VerificationAttemptBlocked
    | AuthEmailAlreadyExists
    | AuthUserRegisterFailed
    | AuthHostServiceError
    | InvalidSettlementCycle
    | AuthBusinessNumberInvalid
    | AuthBiznoApiFailed
    | AuthSocialProviderNotSupported
    | AuthUserServiceError
    | InternalServerError
    // exceptions that are not business exceptions
    | IllegalArgument     // argument check inside the code store
    | StoreError          // the key/value store refused a command
    | MailError           // the mail transport failed
    | AuthenticationError // the authentication manager rejected the credentials

  /** Which keyspace of the code store an operation works in. */
  datatype RoleType = User | Host

  // Durations, in milliseconds.
  const Minute: int := 60 * 1000
  const Day: int := 24 * 60 * Minute
}
