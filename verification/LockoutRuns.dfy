/** The lockout over runs of the whole protocol, and what a crash does to it. */
module LockoutRuns {
  import opened Text
  import opened Address
  import opened Sessions
  import opened Lifecycle
  import opened Structure
  import K = Lockout
  import D = Durability

  /** What an action is to the session `id`: a try, a change of its status, or nothing. */
  function EventsOf(s: State, a: Action, id: Id): seq<K.Event> {
    var s' := Next(s, a);
    if id !in s.sessions || id !in s'.sessions then []
    else match a
      case Verify(v, client, key) => if v == id then [K.Try(s.now, client, key)] else []
      case _ => if s'.sessions[id].status == s.sessions[id].status then [] else [K.Mark(s'.sessions[id].status)]
  }

  function History(s: State, actions: seq<Action>, id: Id): seq<K.Event>
    decreases |actions|
  {
    if actions == [] then [] else EventsOf(s, actions[0], id) + History(Next(s, actions[0]), actions[1..], id)
  }

  /** The session stays in the map throughout. */
  ghost predicate Stays(s: State, actions: seq<Action>, id: Id)
    decreases |actions|
  {
    id in s.sessions && (actions != [] ==> Stays(Next(s, actions[0]), actions[1..], id))
  }

  /** The same session, but for the playground's name. */
  predicate Alike(x: Session, y: Session) {
    x == y.(playgroundDB := x.playgroundDB)
  }

  lemma AlikeStep(x: Session, y: Session, e: K.Event)
    requires Alike(x, y)
    ensures Alike(K.Step(x, e), K.Step(y, e))
  {
  }

  lemma {:induction false} AfterCons(x: Session, e: K.Event, es: seq<K.Event>)
    ensures K.After(x, [e] + es) == K.After(K.Step(x, e), es)
  {
    hide K.Step;
    var all := [e] + es;
    if es == [] {
      assert all[..0] == [];
    } else {
      AfterCons(x, e, es[..|es| - 1]);
      assert all[..|all| - 1] == [e] + es[..|es| - 1];
    }
  }

  lemma {:induction false} AfterAlike(x: Session, y: Session, es: seq<K.Event>)
    requires Alike(x, y)
    ensures Alike(K.After(x, es), K.After(y, es))
  {
    if es != [] {
      AfterAlike(x, y, es[..|es| - 1]);
      AlikeStep(K.After(x, es[..|es| - 1]), K.After(y, es[..|es| - 1]), es[|es| - 1]);
    }
  }

  /** Only VerifyAccess touches the counter and its time stamp. */
  predicate OnlyMarked(x: Session, y: Session) {
    y == x.(status := y.status, playgroundDB := y.playgroundDB)
  }

  lemma AdvanceMarks(s: State, i: nat, ok: bool, id: Id)
    requires Wellformed(s) && Enabled(s, Advance(i, ok))
    requires id in s.sessions && id in Next(s, Advance(i, ok)).sessions
    ensures OnlyMarked(s.sessions[id], Next(s, Advance(i, ok)).sessions[id])
  {
    if s.ops[i].New? && s.ops[i].pc == Registering {
      NewFacts(s, i);
    }
    hide Wellformed, Check;
  }

  lemma StartMarks(s: State, a: Action, id: Id)
    requires Enabled(s, a) && !a.Advance? && !a.Verify? && id in s.sessions && id in Next(s, a).sessions
    ensures OnlyMarked(s.sessions[id], Next(s, a).sessions[id])
  {
    hide NewStep, EndStep, ReapStep, TouchStep, Check;
  }

  lemma VerifyIsTry(s: State, a: Action, id: Id)
    requires Enabled(s, a) && a.Verify? && id in s.sessions && id in Next(s, a).sessions
    ensures K.After(s.sessions[id], EventsOf(s, a, id)) == Next(s, a).sessions[id]
  {
    hide Check, NewStep, EndStep, ReapStep, TouchStep, Enabled;
    if a.id == id {
      var e := K.Try(s.now, a.client, a.key);
      AfterCons(s.sessions[id], e, []);
      assert [e] + [] == [e];
    }
  }

  lemma MarkIsMark(x: Session, y: Session)
    requires OnlyMarked(x, y)
    ensures Alike(K.After(x, if y.status == x.status then [] else [K.Mark(y.status)]), y)
  {
    AfterCons(x, K.Mark(y.status), []);
    assert [K.Mark(y.status)] + [] == [K.Mark(y.status)];
  }

  /** One action is its event. */
  lemma ActionIsEvent(s: State, a: Action, id: Id)
    requires Wellformed(s) && Enabled(s, a) && id in s.sessions && id in Next(s, a).sessions
    ensures Alike(K.After(s.sessions[id], EventsOf(s, a, id)), Next(s, a).sessions[id])
  {
    hide Wellformed, Enabled, Next, OnlyMarked, Alike, K.After;
    if a.Verify? {
      VerifyIsTry(s, a, id);
      AlikeItself(Next(s, a).sessions[id]);
    } else {
      if a.Advance? { AdvanceMarks(s, a.i, a.ok, id); } else { StartMarks(s, a, id); }
      MarkIsMark(s.sessions[id], Next(s, a).sessions[id]);
    }
  }

  lemma AlikeItself(x: Session)
    ensures Alike(x, x)
  {
  }

  lemma HistoryTail(x: Session, s: State, a: Action, id: Id, rest: seq<K.Event>)
    ensures K.After(x, EventsOf(s, a, id) + rest) == K.After(K.After(x, EventsOf(s, a, id)), rest)
  {
    hide K.Step, K.After;
    var es := EventsOf(s, a, id);
    if es == [] {
      assert es + rest == rest;
      AfterNothing(x);
    } else {
      assert es == [es[0]];
      AfterCons(x, es[0], rest);
      AfterCons(x, es[0], []);
      AfterNothing(K.Step(x, es[0]));
      assert [es[0]] + [] == es;
    }
  }

  lemma AfterNothing(x: Session)
    ensures K.After(x, []) == x
  {
  }

  /** The record that a run leaves is the one that the session's own history gives. */
  lemma {:induction false} RunIsHistory(s: State, actions: seq<Action>, id: Id)
    requires Wellformed(s) && Run(s, actions) && Stays(s, actions, id)
    ensures id in Final(s, actions).sessions
    ensures Alike(K.After(s.sessions[id], History(s, actions, id)), Final(s, actions).sessions[id])
    decreases |actions|
  {
    hide Next, Enabled, Wellformed, EventsOf, K.After, K.Step;
    if actions == [] {
      AfterNothing(s.sessions[id]);
    } else {
      var s1, rest := Next(s, actions[0]), actions[1..];
      StepWellformed(s, actions[0]);
      RunIsHistory(s1, rest, id);
      ActionIsEvent(s, actions[0], id);
      HistoryTail(s.sessions[id], s, actions[0], id, History(s1, rest, id));
      AfterAlike(K.After(s.sessions[id], EventsOf(s, actions[0], id)), s1.sessions[id], History(s1, rest, id));
    }
  }

  /** The times of a run's tries, which never run backwards. */
  ghost predicate Later(es: seq<K.Event>, t: Time) {
    && (forall k :: 0 <= k < |es| && es[k].Try? ==> t <= es[k].at)
    && (forall j, k :: 0 <= j < k < |es| && es[j].Try? && es[k].Try? ==> es[j].at <= es[k].at)
  }

  lemma {:induction false} HistoryIsLater(s: State, actions: seq<Action>, id: Id)
    requires Run(s, actions)
    ensures Later(History(s, actions, id), s.now)
    decreases |actions|
  {
    hide Next, Enabled, EventsOf;
    if actions != [] {
      var s1 := Next(s, actions[0]);
      HistoryIsLater(s1, actions[1..], id);
      EventTime(s, actions[0], id);
      LaterCons(EventsOf(s, actions[0], id), History(s1, actions[1..], id), s.now, s1.now);
    }
  }

  lemma EventTime(s: State, a: Action, id: Id)
    requires Enabled(s, a)
    ensures s.now <= Next(s, a).now && |EventsOf(s, a, id)| <= 1
    ensures forall e :: e in EventsOf(s, a, id) && e.Try? ==> e.at == s.now
  {
  }

  lemma LaterCons(es: seq<K.Event>, rest: seq<K.Event>, t: Time, u: Time)
    requires |es| <= 1 && (forall e :: e in es && e.Try? ==> e.at == t) && t <= u && Later(rest, u)
    ensures Later(es + rest, t)
  {
    var all := es + rest;
    assert forall k :: 0 <= k < |all| ==> all[k] == if k < |es| then es[k] else rest[k - |es|];
    assert es != [] ==> es[0] in es;
  }

  /** Over every run: in any stretch in which nobody gets in, the recorded failures of a session whose first
      and last are T apart number at most 5 + T / 5 minutes, whatever else goes on. */
  lemma RunLockoutBound(s: State, actions: seq<Action>, id: Id)
    requires Wellformed(s) && Run(s, actions) && id in s.sessions && s.sessions[id].lastAttempt <= s.now
    requires K.NoGrant(s.sessions[id], History(s, actions, id))
    ensures var f := K.Failures(s.sessions[id], History(s, actions, id));
            f != [] ==> |f| <= MAX_FAILED_ATTEMPTS + (f[|f| - 1] - f[0]) / LOCKOUT_WINDOW
  {
    hide Wellformed, Run, History, K.NoGrant, K.Failures;
    HistoryIsLater(s, actions, id);
    K.LockoutBound(s.sessions[id], History(s, actions, id));
  }

  // ---- A crash --------------------------------------------------------------------------------------

  /** How many failures the moves record for a session. */
  function Recorded(s: State, ms: seq<D.Move>, id: Id): nat
    decreases |ms|
  {
    if ms == [] then 0
    else Recorded(D.NextMove(s, ms[0]), ms[1..], id)
         + if ms[0].Act? && ms[0].a.Verify? && ms[0].a.id == id && id in s.sessions
              && Check(s.sessions[id], s.now, ms[0].a.client, ms[0].a.key).0 in K.FAILURES then 1 else 0
  }

  function Guesses(id: Id, client: Addr, n: nat): seq<D.Move> {
    seq(n, i => D.Act(Verify(id, Some(client), WrongKey)))
  }

  /** With fewer than five failures on record, wrong keys are recorded one by one. */
  lemma {:induction false} GuessesAreRecorded(s: State, id: Id, client: Addr, n: nat, rest: seq<D.Move>)
    requires id in s.sessions && s.sessions[id].IsLive(s.now) && s.sessions[id].Admits(Some(client))
    requires s.sessions[id].failedAttempts + n <= MAX_FAILED_ATTEMPTS
    ensures exists t: State :: t.disk == s.disk && t.now == s.now
              && Recorded(s, Guesses(id, client, n) + rest, id) == n + Recorded(t, rest, id)
    decreases n
  {
    var all := Guesses(id, client, n) + rest;
    if n == 0 {
      assert all == rest;
    } else {
      var x := s.sessions[id];
      var s1 := D.NextMove(s, all[0]);
      assert Check(x, s.now, Some(client), WrongKey) == (BadKey, RecordFailure(x, s.now));
      assert all[1..] == Guesses(id, client, n - 1) + rest;
      GuessesAreRecorded(s1, id, client, n - 1, rest);
    }
  }

  /** VerifyAccess never saves, so a crash forgets the failures: ten wrong keys are recorded at one and the
      same time, where the bound is five. */
  lemma CrashForgetsFailures(s: State, id: Id, client: Addr)
    requires id in s.sessions && s.disk == s.sessions
    requires s.sessions[id].IsLive(s.now) && s.sessions[id].Admits(Some(client)) && s.sessions[id].failedAttempts == 0
    ensures var ms := Guesses(id, client, 5) + ([D.Crash] + Guesses(id, client, 5));
            Recorded(s, ms, id) == 10
  {
    hide Check, Session.Admits, Session.IsLive, Recorded;
    var second := Guesses(id, client, 5);
    GuessesAreRecorded(s, id, client, 5, [D.Crash] + second);
    var t: State :| t.disk == s.disk && t.now == s.now
      && Recorded(s, Guesses(id, client, 5) + ([D.Crash] + second), id) == 5 + Recorded(t, [D.Crash] + second, id);
    var r := D.Restart(t);
    AfterCrash(t, second, id);
    assert second + [] == second;
    GuessesAreRecorded(r, id, client, 5, []);
    NothingRecorded(id);
  }

  lemma AfterCrash(t: State, rest: seq<D.Move>, id: Id)
    ensures Recorded(t, [D.Crash] + rest, id) == Recorded(D.Restart(t), rest, id)
  {
    assert ([D.Crash] + rest)[1..] == rest;
  }

  lemma NothingRecorded(id: Id)
    ensures forall t: State :: Recorded(t, [], id) == 0
  {
  }
}
