/** VerifyAccess in terms of what is written in the session record: when it grants access, what it looks at,
    and what it writes down. */
module Access {
  import opened Text
  import opened Address
  import opened Sessions

  const MINUTE: Time := 60_000_000_000
  const HOUR: Time := 60 * MINUTE

  /** An address that can be read has 4 or 16 bytes. */
  predicate ClientOk(client: Option<Addr>) {
    client.Some? ==> ValidAddr(client.value)
  }

  /** The address can be read and lies in the range. */
  predicate InRange(c: Cidr, client: Option<Addr>) {
    client.Some? && Valid(c) && InPrefix(c, client.value)
  }

  /** Active, before its expiry, and not within five minutes of the latest of five failures. */
  predicate Open(s: Session, now: Time) {
    s.status == Active && now < s.expiresAt && !(s.failedAttempts >= 5 && now - s.lastAttempt < 5 * MINUTE)
  }

  /** What it takes to get in. */
  predicate Grants(s: Session, now: Time, client: Option<Addr>, key: KeyCheck) {
    Open(s, now) && InRange(s.cidr, client) && key == GoodKey
  }

  lemma AdmitsIsInRange(s: Session, client: Option<Addr>)
    requires ClientOk(client)
    ensures s.Admits(client) <==> InRange(s.cidr, client)
  {
    hide IPAllowed, InPrefix, ValidAddr;
    if client.Some? && Valid(s.cidr) {
      AllowedIsPrefix(s.cidr, client.value);
    }
  }

  /** Each answer, exactly when it is given. */
  lemma OutcomeExactly(s: Session, now: Time, client: Option<Addr>, key: KeyCheck)
    requires ClientOk(client)
    ensures var r := Check(s, now, client, key).0;
      && (r == Granted <==> Grants(s, now, client, key))
      && (r == NotLive <==> s.status != Active || now >= s.expiresAt)
      && (r == LockedOut <==> s.status == Active && now < s.expiresAt && !Open(s, now))
      && (r == IPRejected <==> Open(s, now) && !InRange(s.cidr, client))
      && (r == BadKey <==> Open(s, now) && InRange(s.cidr, client) && key == WrongKey)
      && (r == HashError <==> Open(s, now) && InRange(s.cidr, client) && key == UnreadableHash)
  {
    hide InRange, Session.Admits;
    AdmitsIsInRange(s, client);
  }

  /** The key makes a difference only to a caller from the right address, on a session that is open: nobody else
      learns anything about it. */
  lemma KeyIsKeptFromOthers(s: Session, now: Time, client: Option<Addr>)
    requires ClientOk(client)
    ensures (forall k: KeyCheck, l: KeyCheck :: Check(s, now, client, k) == Check(s, now, client, l))
       <==> !(Open(s, now) && InRange(s.cidr, client))
  {
    hide InRange, Session.Admits;
    AdmitsIsInRange(s, client);
    if Open(s, now) && InRange(s.cidr, client) {
      assert Check(s, now, client, GoodKey).0 != Check(s, now, client, WrongKey).0;
    }
  }

  /** Nothing but the counter and its time stamp ever changes: a wrong address or a wrong key on an open session
      adds one and is stamped, a success sets the counter back, and no other call leaves a trace. */
  lemma RecordExactly(s: Session, now: Time, client: Option<Addr>, key: KeyCheck)
    requires ClientOk(client)
    ensures Check(s, now, client, key).1 ==
      if Grants(s, now, client, key) then s.(failedAttempts := 0)
      else if Open(s, now) && (!InRange(s.cidr, client) || key == WrongKey) then
        s.(failedAttempts := s.failedAttempts + 1, lastAttempt := now)
      else s
  {
    hide InRange, Session.Admits;
    AdmitsIsInRange(s, client);
  }
}
