/** Sessions end when their time is over and not before: what the reaper does, in terms of the expiry that is
    written in the record. */
module Expiry {
  import opened Address
  import opened Sessions
  import opened Lifecycle
  import opened Structure
  import opened Revocations
  import A = Agreement
  import F = RuleAgreement

  /** A reap that read the clock at `t` expires exactly the active sessions whose time was over then, and leaves
      everything else in the map as it was. */
  lemma ReapExpiresExactly(s: State, order: seq<Id>, t: Time)
    requires VisitsAt(s, order, t)
    ensures Next(s, StartReap(order)).sessions ==
      map id | id in s.sessions ::
        if s.sessions[id].status == Active && s.sessions[id].expiresAt <= t then s.sessions[id].(status := Expired)
        else s.sessions[id]
  {
    forall id | id in order ensures id in s.sessions { assert DueIn(s.sessions, t, id); }
    forall id | id in s.sessions
      ensures id in order <==> s.sessions[id].status == Active && s.sessions[id].expiresAt <= t
    {
      assert id in order <==> DueIn(s.sessions, t, id);
    }
  }

  /** One step expires a session only when its time is over. */
  lemma StepExpires(s: State, a: Action, id: Id)
    requires Wellformed(s) && Enabled(s, a) && id in s.sessions && id in Next(s, a).sessions
    requires s.sessions[id].status == Active && Next(s, a).sessions[id].status == Expired
    ensures s.now >= s.sessions[id].expiresAt
  {
    match a
    case Advance(i, ok) => AdvanceExpiresNothing(s, i, ok, id);
    case Verify(v, client, key) => CheckKeepsIdentity(s.sessions[id], s.now, client, key);
    case StartReap(order) => assert id in order ==> DueIn(s.sessions, s.now, id);
    case _ =>
  }

  lemma AdvanceExpiresNothing(s: State, i: nat, ok: bool, id: Id)
    requires Wellformed(s) && Enabled(s, Advance(i, ok)) && id in s.sessions && id in Next(s, Advance(i, ok)).sessions
    ensures Next(s, Advance(i, ok)).sessions[id] == s.sessions[id]
  {
    if s.ops[i].New? && s.ops[i].pc == Registering {
      NewFacts(s, i);
    }
    hide Wellformed, Check;
  }

  /** Time does not run backwards. */
  lemma {:induction false} RunTime(s: State, actions: seq<Action>)
    requires Run(s, actions)
    ensures s.now <= Final(s, actions).now
    decreases |actions|
  {
    if actions != [] {
      StepTime(s, actions[0]);
      RunTime(Next(s, actions[0]), actions[1..]);
    }
  }

  lemma StepTime(s: State, a: Action)
    requires Enabled(s, a)
    ensures s.now <= Next(s, a).now
  {
    hide Check, Targets, SetStatus, ReapMarks;
  }

  /** Over every run: a session that was active and has expired has reached its expiry. */
  lemma {:induction false} ExpiredIsOver(s: State, actions: seq<Action>, id: Id)
    requires Wellformed(s) && Run(s, actions)
    requires id in s.sessions && s.sessions[id].status == Active
    requires id in Final(s, actions).sessions && Final(s, actions).sessions[id].status == Expired
    ensures s.sessions[id].expiresAt <= Final(s, actions).now
    decreases |actions|
  {
    hide Wellformed, Next, Enabled;
    var s', rest := Next(s, actions[0]), actions[1..];
    StepLater(s, actions[0], id);
    StepWellformed(s, actions[0]);
    RunTime(s', rest);
    if Gone(s', id) {
      RunGone(s', rest, id);
    } else if s'.sessions[id].status == Active {
      ExpiredIsOver(s', rest, id);
    } else {
      StatusesMoveForward(s', rest, id);
      StepExpires(s, actions[0], id);
      StepTime(s, actions[0]);
    }
  }

  // ---- And not before -------------------------------------------------------------------------------

  /** No New is at work on the session: it has been handed out, or loaded. */
  ghost predicate HandedOut(s: State, id: Id) {
    id in s.sessions && s.sessions[id].status == Active
    && forall j :: 0 <= j < |s.ops| ==> !(s.ops[j].New? && s.ops[j].s.id == id)
  }

  lemma AdvanceStays(s: State, i: nat, ok: bool, id: Id)
    requires Wellformed(s) && Enabled(s, Advance(i, ok)) && HandedOut(s, id)
    ensures HandedOut(Next(s, Advance(i, ok)), id) && Next(s, Advance(i, ok)).sessions[id] == s.sessions[id]
  {
    var s' := Next(s, Advance(i, ok));
    if s.ops[i].New? {
      NewFacts(s, i);
      NewStepMoves(s, i, s.ops[i].s, s.ops[i].pc, ok);
      hide NewStep;
    } else {
      OtherStepFrame(s, i, ok);
      hide Next;
    }
    forall j | 0 <= j < |s'.ops| && j != i ensures s'.ops[j] == s.ops[j] {}
  }

  lemma StartStays(s: State, a: Action, id: Id)
    requires Wellformed(s) && Enabled(s, a) && !a.Advance? && a != StartEnd(id) && HandedOut(s, id)
    requires s.now < s.sessions[id].expiresAt
    ensures HandedOut(Next(s, a), id) && Next(s, a).sessions[id].expiresAt == s.sessions[id].expiresAt
  {
    StartFrame(s, a);
    var s' := Next(s, a);
    assert forall j :: 0 <= j < |s.ops| ==> s'.ops[j] == s.ops[j];
    if a.StartReap? {
      assert id in a.order ==> DueIn(s.sessions, s.now, id);
    }
    hide Wellformed, Targets;
  }

  lemma {:induction false} HandedOutLasts(s: State, actions: seq<Action>, id: Id)
    requires Wellformed(s) && Run(s, actions) && HandedOut(s, id)
    requires StartEnd(id) !in actions && Final(s, actions).now < s.sessions[id].expiresAt
    ensures HandedOut(Final(s, actions), id)
    decreases |actions|
  {
    hide Wellformed, Next, Enabled;
    if actions != [] {
      RunTime(s, actions);
      StepWellformed(s, actions[0]);
      if actions[0].Advance? {
        AdvanceStays(s, actions[0].i, actions[0].ok, id);
      } else {
        StartStays(s, actions[0], id);
      }
      HandedOutLasts(Next(s, actions[0]), actions[1..], id);
    }
  }

  /** Over every run, whatever else goes on and whatever fails: a session that has been handed out, that nobody
      ends and whose time is not over stays active and keeps its MySQL user. */
  lemma UserLasts(s: State, actions: seq<Action>, id: Id)
    requires Wellformed(s) && A.UsersOk(s) && Run(s, actions) && HandedOut(s, id)
    requires StartEnd(id) !in actions && Final(s, actions).now < s.sessions[id].expiresAt
    ensures var f := Final(s, actions);
            id in f.sessions && f.sessions[id].status == Active && id in f.users
  {
    HandedOutLasts(s, actions, id);
    A.RunUsers(s, actions);
    assert A.Owned(Final(s, actions), id);
  }

  /** And the firewall stays open to every address in its range, if no New is started on a rule in use. */
  lemma FirewallLasts(s: State, actions: seq<Action>, id: Id, x: Addr)
    requires Wellformed(s) && F.Distinct(s) && F.RulesOk(s) && F.ConsiderateRun(s, actions) && HandedOut(s, id)
    requires StartEnd(id) !in actions && Final(s, actions).now < s.sessions[id].expiresAt
    requires ValidAddr(x) && Valid(s.sessions[id].cidr) && InPrefix(s.sessions[id].cidr, x)
    ensures OpenTo(Final(s, actions).rules, x)
  {
    ConsiderateIsRun(s, actions);
    HandedOutLasts(s, actions, id);
    StatusesMoveForward(s, actions, id);
    F.RunRules(s, actions);
    var f := Final(s, actions);
    assert F.Owns(f, id);
    RuleIsTheRange(f.sessions[id].cidr, x);
  }

  lemma {:induction false} ConsiderateIsRun(s: State, actions: seq<Action>)
    requires F.ConsiderateRun(s, actions)
    ensures Run(s, actions)
    decreases |actions|
  {
    if actions != [] { ConsiderateIsRun(Next(s, actions[0]), actions[1..]); }
  }
}
