/** The lockout over whole runs: how many failures can be recorded in how much time. */
module Lockout {
  import opened Text
  import opened Address
  import opened Sessions

  /** What happens to one session, in the order in which the manager's lock admits it. */
  datatype Event = Try(at: Time, client: Option<Addr>, key: KeyCheck) | Mark(status: Status)

  function Step(s: Session, e: Event): Session {
    match e
    case Try(at, client, key) => Check(s, at, client, key).1
    case Mark(st) => s.(status := st)
  }

  function After(s: Session, es: seq<Event>): Session {
    if es == [] then s else Step(After(s, es[..|es| - 1]), es[|es| - 1])
  }

  predicate Is(s: Session, e: Event, outcomes: set<Outcome>) {
    e.Try? && Check(s, e.at, e.client, e.key).0 in outcomes
  }

  const FAILURES: set<Outcome> := {IPRejected, BadKey}

  /** The times of the failures recorded in a run, in order. */
  function Failures(s: Session, es: seq<Event>): seq<Time> {
    if es == [] then [] else
      var before, e := es[..|es| - 1], es[|es| - 1];
      Failures(s, before) + (if Is(After(s, before), e, FAILURES) then [e.at] else [])
  }

  /** The same, forgetting everything up to the latest successful call. */
  function Streak(s: Session, es: seq<Event>): seq<Time> {
    if es == [] then [] else
      var before, e := es[..|es| - 1], es[|es| - 1];
      if Is(After(s, before), e, {Granted}) then []
      else Streak(s, before) + (if Is(After(s, before), e, FAILURES) then [e.at] else [])
  }

  ghost predicate NoGrant(s: Session, es: seq<Event>) {
    forall k :: 0 <= k < |es| ==> !Is(After(s, es[..k]), es[k], {Granted})
  }

  /** The clock that stamps the attempts does not run backwards, starting from the last one on record. */
  ghost predicate Clocked(s: Session, es: seq<Event>) {
    && (forall k :: 0 <= k < |es| && es[k].Try? ==> s.lastAttempt <= es[k].at)
    && (forall j, k :: 0 <= j < k < |es| && es[j].Try? && es[k].Try? ==> es[j].at <= es[k].at)
  }

  /** The stored pair is the history: the counter is the number of failures recorded since the last
      success, the time stamp is the time of the latest recorded failure. */
  lemma {:induction false} StoredPairIsHistory(s: Session, es: seq<Event>)
    requires s.failedAttempts == 0
    ensures After(s, es).failedAttempts == |Streak(s, es)|
    ensures After(s, es).lastAttempt == (var f := Failures(s, es); if f == [] then s.lastAttempt else f[|f| - 1])
  {
    if es != [] {
      StoredPairIsHistory(s, es[..|es| - 1]);
    }
  }

  lemma StepCases(s: Session, e: Event)
    ensures Is(s, e, FAILURES) ==> Step(s, e) == RecordFailure(s, e.at) && !Locked(s, e.at)
    ensures !Is(s, e, FAILURES) && !Is(s, e, {Granted}) ==>
              Step(s, e).failedAttempts == s.failedAttempts && Step(s, e).lastAttempt == s.lastAttempt
    ensures Step(s, e).lastAttempt == s.lastAttempt || (e.Try? && Step(s, e).lastAttempt == e.at)
  {
  }

  /** Locked-out calls, dead sessions and unreadable hashes change nothing: a stretch with no recorded
      failure and no success leaves the stored pair as it was, whatever was tried. */
  lemma {:induction false} QuietStretch(s: Session, es: seq<Event>)
    requires Failures(s, es) == [] && NoGrant(s, es)
    ensures After(s, es).failedAttempts == s.failedAttempts && After(s, es).lastAttempt == s.lastAttempt
  {
    hide Step, Is;
    if es != [] {
      var before, e := es[..|es| - 1], es[|es| - 1];
      assert forall k :: 0 <= k < |before| ==> before[..k] == es[..k] && before[k] == es[k];
      QuietStretch(s, before);
      assert !Is(After(s, before), e, {Granted});
      StepCases(After(s, before), e);
    }
  }

  lemma {:induction false} LastAttemptIsPast(s: Session, es: seq<Event>, t: Time)
    requires s.lastAttempt <= t && forall k :: 0 <= k < |es| && es[k].Try? ==> es[k].at <= t
    ensures After(s, es).lastAttempt <= t
  {
    if es != [] {
      LastAttemptIsPast(s, es[..|es| - 1], t);
      StepCases(After(s, es[..|es| - 1]), es[|es| - 1]);
    }
  }

  /** Without a success the counter only grows, and from the sixth failure on each one comes at
      least a full window after the one before. */
  lemma {:induction false} FailuresAreSpaced(s: Session, es: seq<Event>)
    requires NoGrant(s, es) && Clocked(s, es)
    ensures var f := Failures(s, es);
            && After(s, es).failedAttempts == s.failedAttempts + |f|
            && After(s, es).lastAttempt == (if f == [] then s.lastAttempt else f[|f| - 1])
            && Spaced(f)
  {
    hide Step, Is, Locked, NoGrant, Clocked, Spaced;
    SpacedNone();
    if es != [] {
      var before, e := es[..|es| - 1], es[|es| - 1];
      EarlierStretch(s, es);
      FailuresAreSpaced(s, before);
      StepCases(After(s, before), e);
      TriesOnly(After(s, before), e);
      if e.Try? { LastAttemptIsPast(s, before, e.at); }
      NextFailure(After(s, before), e);
      if Is(After(s, before), e, FAILURES) {
        SpacedAppend(Failures(s, before), e.at);
      } else {
        assert Failures(s, before) + [] == Failures(s, before);
      }
    }
  }

  /** Times in order, and from the sixth on at least a full window apart. */
  ghost predicate Spaced(f: seq<Time>) {
    && (forall k :: 0 < k < |f| ==> f[k - 1] <= f[k])
    && (forall k :: MAX_FAILED_ATTEMPTS <= k < |f| ==> f[k] - f[k - 1] >= LOCKOUT_WINDOW)
  }

  lemma SpacedNone()
    ensures Spaced([])
  {
  }

  lemma SpacedAppend(f: seq<Time>, t: Time)
    requires Spaced(f) && (f != [] ==> f[|f| - 1] <= t)
    requires |f| >= MAX_FAILED_ATTEMPTS ==> t - f[|f| - 1] >= LOCKOUT_WINDOW
    ensures Spaced(f + [t])
  {
  }

  lemma EarlierStretch(s: Session, es: seq<Event>)
    requires es != [] && NoGrant(s, es) && Clocked(s, es)
    ensures var before, e := es[..|es| - 1], es[|es| - 1];
      && NoGrant(s, before) && Clocked(s, before) && !Is(After(s, before), e, {Granted})
      && (e.Try? ==> s.lastAttempt <= e.at && forall k :: 0 <= k < |before| && before[k].Try? ==> before[k].at <= e.at)
  {
    hide Step, Is;
    var before := es[..|es| - 1];
    assert forall k :: 0 <= k < |before| ==> before[..k] == es[..k] && before[k] == es[k];
    assert !Is(After(s, es[..|es| - 1]), es[|es| - 1], {Granted});
  }

  /** A failure that is recorded with five already on record comes a full window after the last one. */
  lemma NextFailure(s: Session, e: Event)
    ensures Is(s, e, FAILURES) && s.failedAttempts >= MAX_FAILED_ATTEMPTS ==> e.at - s.lastAttempt >= LOCKOUT_WINDOW
  {
    StepCases(s, e);
  }

  lemma TriesOnly(s: Session, e: Event)
    ensures Is(s, e, FAILURES) ==> e.Try?
  {
  }

  lemma {:induction false} SpacedSpan(f: seq<Time>, n: nat)
    requires MAX_FAILED_ATTEMPTS <= n <= |f|
    requires forall k :: 0 < k < |f| ==> f[k - 1] <= f[k]
    requires forall k :: MAX_FAILED_ATTEMPTS <= k < |f| ==> f[k] - f[k - 1] >= LOCKOUT_WINDOW
    ensures f[n - 1] - f[0] >= (n - MAX_FAILED_ATTEMPTS) * LOCKOUT_WINDOW
  {
    if n > MAX_FAILED_ATTEMPTS {
      SpacedSpan(f, n - 1);
      assert f[n - 1] - f[n - 2] >= LOCKOUT_WINDOW;
    } else {
      assert f[0] <= f[1] <= f[2] <= f[3] <= f[4];
    }
  }

  /** The bound: in any stretch without a success, from any starting record, the failures whose
      first and last are T apart number at most 5 + T / 5 minutes. */
  lemma LockoutBound(s: Session, es: seq<Event>)
    requires NoGrant(s, es) && Clocked(s, es)
    ensures var f := Failures(s, es);
            f != [] ==> |f| <= MAX_FAILED_ATTEMPTS + (f[|f| - 1] - f[0]) / LOCKOUT_WINDOW
  {
    var f := Failures(s, es);
    FailuresAreSpaced(s, es);
    if |f| > MAX_FAILED_ATTEMPTS {
      SpacedSpan(f, |f|);
    } else if f != [] {
      FirstIsLeast(f, |f|);
    }
  }

  lemma {:induction false} FirstIsLeast(f: seq<Time>, n: nat)
    requires 0 < n <= |f| && forall k :: 0 < k < |f| ==> f[k - 1] <= f[k]
    ensures f[0] <= f[n - 1]
  {
    if n > 1 {
      FirstIsLeast(f, n - 1);
      assert f[n - 2] <= f[n - 1];
    }
  }

  /** Five wrong keys at once, then one at the end of every window. */
  function Patient(t: Time, client: Addr, n: nat): seq<Event> {
    seq(n, i requires 0 <= i < n =>
      Try(t + (if i < MAX_FAILED_ATTEMPTS then 0 else (i + 1 - MAX_FAILED_ATTEMPTS) * LOCKOUT_WINDOW),
          Some(client), WrongKey))
  }

  /** The bound is reached: a live session can be made to record exactly that many failures. */
  lemma {:induction false} LockoutBoundIsTight(s: Session, t: Time, client: Addr, n: nat)
    requires s.status == Active && s.failedAttempts == 0 && s.Admits(Some(client)) && n > 0
    requires t + n * LOCKOUT_WINDOW < s.expiresAt
    ensures var f := Failures(s, Patient(t, client, n));
            && |f| == n && f[0] == t
            && (n >= MAX_FAILED_ATTEMPTS ==> n == MAX_FAILED_ATTEMPTS + (f[n - 1] - t) / LOCKOUT_WINDOW)
  {
    PatientRun(s, t, client, n);
    var es, f := Patient(t, client, n), Failures(s, Patient(t, client, n));
    assert f[0] == es[0].at;
    if n >= MAX_FAILED_ATTEMPTS {
      assert f[n - 1] == es[n - 1].at;
    }
  }

  lemma {:induction false} PatientRun(s: Session, t: Time, client: Addr, n: nat)
    requires s.status == Active && s.failedAttempts == 0 && s.Admits(Some(client))
    requires t + n * LOCKOUT_WINDOW < s.expiresAt
    ensures var es := Patient(t, client, n);
            && |Failures(s, es)| == n
            && (forall k :: 0 <= k < n ==> Failures(s, es)[k] == es[k].at)
            && After(s, es) == s.(failedAttempts := n, lastAttempt := if n == 0 then s.lastAttempt else es[n - 1].at)
  {
    hide Check, Session.Admits;
    if n > 0 {
      var es := Patient(t, client, n);
      PatientRun(s, t, client, n - 1);
      assert es[..n - 1] == Patient(t, client, n - 1);
      PatientTry(s, t, client, n);
    }
  }

  /** The next wrong key is recorded. */
  lemma PatientTry(s: Session, t: Time, client: Addr, n: nat)
    requires s.status == Active && s.Admits(Some(client)) && n > 0 && t + n * LOCKOUT_WINDOW < s.expiresAt
    ensures var es := Patient(t, client, n);
            var b := s.(failedAttempts := n - 1, lastAttempt := if n == 1 then s.lastAttempt else es[n - 2].at);
            Check(b, es[n - 1].at, Some(client), WrongKey) == (BadKey, RecordFailure(b, es[n - 1].at))
  {
    hide IPAllowed, Address.Valid;
    var es := Patient(t, client, n);
    assert es[n - 1].at <= t + n * LOCKOUT_WINDOW;
  }

  /** A good key from an allowed address opens a live session once a window has passed since the
      latest recorded failure of the run, however many failures there were. */
  lemma PatienceIsRewarded(s: Session, es: seq<Event>, at: Time, client: Option<Addr>)
    requires s.failedAttempts == 0
    requires After(s, es).IsLive(at) && After(s, es).Admits(client)
    requires var f := Failures(s, es); f == [] || at >= f[|f| - 1] + LOCKOUT_WINDOW
    ensures Check(After(s, es), at, client, GoodKey).0 == Granted
  {
    StoredPairIsHistory(s, es);
    StreakIsShorter(s, es);
  }

  lemma {:induction false} StreakIsShorter(s: Session, es: seq<Event>)
    ensures |Streak(s, es)| <= |Failures(s, es)|
  {
    if es != [] { StreakIsShorter(s, es[..|es| - 1]); }
  }
}
