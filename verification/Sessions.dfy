/** The session record and the access check that VerifyAccess performs on it. */
module Sessions {
  import opened Text
  import opened Address

  /** Time in nanoseconds, as time.Time and time.Duration count it. */
  type Time = int

  const MAX_FAILED_ATTEMPTS: nat := 5
  const LOCKOUT_WINDOW: Time := 300_000_000_000
  const TOKEN_MAX_AGE: Time := 43_200_000_000_000

  type Id = string

  datatype Status = Active | Expired | Revoked

  datatype Session = Session(
    id: Id,
    cidr: Cidr,
    expiresAt: Time,
    status: Status,
    playgroundDB: string,
    failedAttempts: nat,
    lastAttempt: Time)
  {
    predicate IsLive(now: Time) {
      status == Active && now < expiresAt
    }

    predicate Due(now: Time) {
      status == Active && now >= expiresAt
    }

    /** Address checks of a request whose client address may be unreadable. */
    predicate Admits(client: Option<Addr>) {
      client.Some? && Valid(cidr) && IPAllowed(cidr, client.value)
    }

    /** The firewall rule of this session, as the firewall keeps it. */
    function Rule(): Source {
      RuleOf(cidr)
    }
  }

  /** What comparing the candidate key with the stored hash can give. */
  datatype KeyCheck = GoodKey | WrongKey | UnreadableHash

  datatype Outcome = NotFound | NotLive | LockedOut | IPRejected | HashError | BadKey | Granted

  predicate Locked(s: Session, now: Time) {
    s.failedAttempts >= MAX_FAILED_ATTEMPTS && now - s.lastAttempt < LOCKOUT_WINDOW
  }

  function RecordFailure(s: Session, now: Time): Session {
    s.(failedAttempts := s.failedAttempts + 1, lastAttempt := now)
  }

  /** The body of VerifyAccess once the session has been found. */
  function Check(s: Session, now: Time, client: Option<Addr>, key: KeyCheck): (Outcome, Session) {
    if !s.IsLive(now) then (NotLive, s)
    else if Locked(s, now) then (LockedOut, s)
    else if !s.Admits(client) then (IPRejected, RecordFailure(s, now))
    else match key
      case UnreadableHash => (HashError, s)
      case WrongKey => (BadKey, RecordFailure(s, now))
      case GoodKey => (Granted, s.(failedAttempts := 0))
  }
}
