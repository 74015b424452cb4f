/** Resource agreement across a crash: the restarted manager knows what is on disk, and nothing it does makes
    up for users that do not fit. */
module CrashAgreement {
  import opened Text
  import opened Address
  import opened Sessions
  import opened Lifecycle
  import opened Structure
  import opened Agreement
  import opened Scenarios
  import D = Durability

  /** The users that exist are those of the active sessions. */
  ghost predicate UsersMatch(s: State) {
    s.users == ActiveIds(s)
  }

  /** The map and the disk hold the same active sessions. */
  ghost predicate DiskAgrees(s: State) {
    forall id :: (id in s.sessions && s.sessions[id].status == Active)
            <==> (id in s.disk && s.disk[id].status == Active)
  }

  /** No operation in flight holds a user that the map does not have, or has dropped one that it has: it is
      done, has not called MySQL yet, or has only its save to come. */
  ghost predicate Calm(s: State) {
    forall i, id :: 0 <= i < |s.ops| ==> !AnswersForUser(s.ops[i], id) && !Undone(s.ops[i], id)
  }

  lemma QuiescentIsCalm(s: State)
    requires Quiescent(s)
    ensures Calm(s)
  {
  }

  /** At every calm moment of every run, such as one with nothing in flight, if no drop was refused: a crash
      keeps the agreement if and only if the disk has the active sessions of the map. A save that failed,
      that is still to come, or that an End skipped loses it. */
  lemma CrashWhenCalm(s: State, actions: seq<Action>)
    requires Init(s) && Run(s, actions) && Calm(Final(s, actions)) && Final(s, actions).leakedUsers == {}
    ensures var f := Final(s, actions);
            UsersMatch(D.NextMove(f, D.Crash)) <==> DiskAgrees(f)
  {
    hide Run, Final, Init, Next, Wellformed;
    InitWellformed(s);
    InitUsers(s);
    RunUsers(s, actions);
    CalmMatches(Final(s, actions));
    RestartAgrees(Final(s, actions));
  }

  lemma CalmMatches(f: State)
    requires UsersOk(f) && Calm(f) && f.leakedUsers == {}
    ensures UsersMatch(f)
  {
    forall id | id in ActiveIds(f) ensures Owned(f, id) {}
    forall id ensures !Answered(f, id) {}
  }

  lemma RestartAgrees(f: State)
    requires UsersMatch(f)
    ensures UsersMatch(D.NextMove(f, D.Crash)) <==> DiskAgrees(f)
  {
    var r := D.NextMove(f, D.Crash);
    if DiskAgrees(f) {
      assert ActiveIds(f) == ActiveIds(r);
    }
    assert forall id :: id in ActiveIds(f) <==> id in f.sessions && f.sessions[id].status == Active;
    assert forall id :: id in ActiveIds(r) <==> id in f.disk && f.disk[id].status == Active;
  }

  // ---- In flight ------------------------------------------------------------------------------------

  /** New has been here: the id is taken and its session is not about to be registered. */
  ghost predicate Known(s: State, id: Id) {
    id in s.used && forall j :: 0 <= j < |s.ops| ==> !PreNew(s.ops[j], id)
  }

  ghost predicate SavedKnown(s: State) {
    && (forall id :: id in s.disk ==> Known(s, id))
    && (forall i, id :: 0 <= i < |s.ops| && D.Listed(s.ops[i]).Some? && id in D.Listed(s.ops[i]).value ==> Known(s, id))
  }

  /** An End that has dropped the user, and has yet to save. */
  predicate Dropped(op: Op, id: Id) {
    HasDropped(op) && op.t.id == id
  }

  ghost predicate DroppedGone(s: State) {
    forall i, id :: 0 <= i < |s.ops| && Dropped(s.ops[i], id) ==> id !in s.users
  }

  /** What a starting operation looks like. */
  lemma StepOps(s: State, a: Action)
    requires Enabled(s, a) && !a.Advance?
    ensures var s' := Next(s, a);
      && (s'.ops == s.ops || exists op :: s'.ops == s.ops + [op] && D.Listed(op).None? && !HasDropped(op)
                                          && (op.New? ==> op.s.id !in s.used))
      && s.used <= s'.used && s'.users == s.users && s'.disk == s.disk
  {
    hide NewStep, EndStep, ReapStep, TouchStep, Check, SetStatus, ReapMarks;
    var s' := Next(s, a);
    if a.StartNew? || a.StartEnd? || a.StartReap? || a.StartPlayground? {
      assert |s'.ops| == |s.ops| || s'.ops == s.ops + [s'.ops[|s.ops|]];
    }
  }

  predicate HasDropped(op: Op) {
    op.End? && (op.pc == Denying(true) || op.pc == Listing || op.pc.Saving?)
  }

  /** What operation `i` does in one step: to itself and to the copies, */
  ghost predicate MovesItself(s: State, s': State, i: nat)
    requires i < |s.ops| == |s'.ops|
  {
    var op, next := s.ops[i], s'.ops[i];
    && s'.used == s.used && s'.ops == s.ops[i := next]
    && (next.New? ==> op.New? && next.s == op.s && (BeforeRegistration(next.pc) ==> BeforeRegistration(op.pc)))
    && (D.Listed(next).Some? ==> D.Listed(next).value == s.sessions || D.Listed(next) == D.Listed(op))
    && (s'.disk == s.disk || D.Listed(op) == Some(s'.disk))
  }

  /** and to the users. */
  ghost predicate MovesUsers(s: State, s': State, i: nat)
    requires i < |s.ops| == |s'.ops|
  {
    var op, next := s.ops[i], s'.ops[i];
    && (HasDropped(next) ==> op.End? && op.t == next.t && (HasDropped(op) || next.t.id !in s'.users))
    && s'.users <= s.users + (if op.New? && op.pc == Creating then {op.s.id} else {})
  }

  lemma NewMoves(s: State, i: nat, ok: bool)
    requires i < |s.ops| && s.ops[i].New?
    ensures var s' := NewStep(s, i, s.ops[i].s, s.ops[i].pc, ok);
            |s'.ops| == |s.ops| && MovesItself(s, s', i) && MovesUsers(s, s', i)
  {
    hide MovesItself, MovesUsers, NewStep;
    NewMovesItself(s, i, ok);
    NewMovesUsers(s, i, s.ops[i].s, s.ops[i].pc, ok);
  }

  lemma NewMovesItself(s: State, i: nat, ok: bool)
    requires i < |s.ops| && s.ops[i].New?
    ensures var s' := NewStep(s, i, s.ops[i].s, s.ops[i].pc, ok); |s'.ops| == |s.ops| && MovesItself(s, s', i)
  {
    hide NewStep;
    NewStepMoves(s, i, s.ops[i].s, s.ops[i].pc, ok);
    D.NewStepCopies(s, i, s.ops[i].s, s.ops[i].pc, ok);
  }

  lemma NewMovesUsers(s: State, i: nat, x: Session, pc: Pc, ok: bool)
    requires i < |s.ops| && s.ops[i] == New(x, pc)
    ensures var s' := NewStep(s, i, x, pc, ok);
            |s'.ops| == |s.ops| && MovesUsers(s, s', i)
  {
  }

  lemma EndMoves(s: State, i: nat, ok: bool)
    requires i < |s.ops| && s.ops[i].End?
    ensures var s' := EndStep(s, i, s.ops[i].t, s.ops[i].pc, ok);
            |s'.ops| == |s.ops| && MovesItself(s, s', i) && MovesUsers(s, s', i)
  {
    hide MovesItself, MovesUsers, EndStep;
    EndMovesItself(s, i, ok);
    EndMovesUsers(s, i, s.ops[i].t, s.ops[i].pc, ok);
  }

  lemma EndSaves(s: State, i: nat, t: Target, pc: Pc, ok: bool)
    requires i < |s.ops| && s.ops[i] == End(t, pc)
    ensures var s' := EndStep(s, i, t, pc, ok);
      && |s'.ops| == |s.ops| && (if pc.Saving? && ok then s'.disk == pc.list else s'.disk == s.disk)
      && (D.Listed(s'.ops[i]).Some? ==> D.Listed(s'.ops[i]).value == s.sessions || s'.ops[i] == s.ops[i])
  {
  }

  lemma EndOps(s: State, i: nat, ok: bool)
    requires i < |s.ops| && s.ops[i].End?
    ensures var s' := EndStep(s, i, s.ops[i].t, s.ops[i].pc, ok);
            |s'.ops| == |s.ops| && s'.ops == s.ops[i := s'.ops[i]] && s'.used == s.used && !s'.ops[i].New?
  {
  }

  lemma EndMovesItself(s: State, i: nat, ok: bool)
    requires i < |s.ops| && s.ops[i].End?
    ensures var s' := EndStep(s, i, s.ops[i].t, s.ops[i].pc, ok); |s'.ops| == |s.ops| && MovesItself(s, s', i)
  {
    hide EndStep;
    EndOps(s, i, ok);
    EndSaves(s, i, s.ops[i].t, s.ops[i].pc, ok);
  }

  lemma EndMovesUsers(s: State, i: nat, t: Target, pc: Pc, ok: bool)
    requires i < |s.ops| && s.ops[i] == End(t, pc)
    ensures var s' := EndStep(s, i, t, pc, ok);
            |s'.ops| == |s.ops| && MovesUsers(s, s', i)
  {
  }

  lemma ReapMoves(s: State, i: nat, ok: bool)
    requires i < |s.ops| && s.ops[i].Reap?
    ensures var s' := ReapStep(s, i, s.ops[i].batch, s.ops[i].pc, ok);
            |s'.ops| == |s.ops| && MovesItself(s, s', i) && MovesUsers(s, s', i)
  {
    hide MovesItself, MovesUsers, ReapStep;
    ReapMovesItself(s, i, ok);
    ReapMovesUsers(s, i, ok);
  }

  lemma ReapSaves(s: State, i: nat, batch: seq<Target>, pc: Pc, ok: bool)
    requires i < |s.ops| && s.ops[i] == Reap(batch, pc)
    ensures var s' := ReapStep(s, i, batch, pc, ok);
      && |s'.ops| == |s.ops| && (if pc.Saving? && ok then s'.disk == pc.list else s'.disk == s.disk)
      && (D.Listed(s'.ops[i]).Some? ==> D.Listed(s'.ops[i]).value == s.sessions || s'.ops[i] == s.ops[i])
  {
  }

  lemma ReapOps(s: State, i: nat, ok: bool)
    requires i < |s.ops| && s.ops[i].Reap?
    ensures var s' := ReapStep(s, i, s.ops[i].batch, s.ops[i].pc, ok);
            |s'.ops| == |s.ops| && s'.ops == s.ops[i := s'.ops[i]] && s'.used == s.used && !s'.ops[i].New?
  {
  }

  lemma ReapMovesItself(s: State, i: nat, ok: bool)
    requires i < |s.ops| && s.ops[i].Reap?
    ensures var s' := ReapStep(s, i, s.ops[i].batch, s.ops[i].pc, ok); |s'.ops| == |s.ops| && MovesItself(s, s', i)
  {
    hide ReapStep;
    ReapOps(s, i, ok);
    ReapSaves(s, i, s.ops[i].batch, s.ops[i].pc, ok);
  }

  lemma ReapMovesUsers(s: State, i: nat, ok: bool)
    requires i < |s.ops| && s.ops[i].Reap?
    ensures var s' := ReapStep(s, i, s.ops[i].batch, s.ops[i].pc, ok); |s'.ops| == |s.ops| && MovesUsers(s, s', i)
  {
  }

  lemma TouchMoves(s: State, i: nat, ok: bool)
    requires i < |s.ops| && s.ops[i].Touch?
    ensures var s' := TouchStep(s, i, s.ops[i].pc, ok);
            |s'.ops| == |s.ops| && MovesItself(s, s', i) && MovesUsers(s, s', i)
  {
    hide MovesItself, MovesUsers, TouchStep;
    TouchMovesItself(s, i, ok);
    TouchMovesUsers(s, i, ok);
  }

  lemma TouchMovesItself(s: State, i: nat, ok: bool)
    requires i < |s.ops| && s.ops[i].Touch?
    ensures var s' := TouchStep(s, i, s.ops[i].pc, ok); |s'.ops| == |s.ops| && MovesItself(s, s', i)
  {
  }

  lemma TouchMovesUsers(s: State, i: nat, ok: bool)
    requires i < |s.ops| && s.ops[i].Touch?
    ensures var s' := TouchStep(s, i, s.ops[i].pc, ok); |s'.ops| == |s.ops| && MovesUsers(s, s', i)
  {
  }

  lemma AdvanceMoves(s: State, i: nat, ok: bool)
    requires Enabled(s, Advance(i, ok))
    ensures var s' := Next(s, Advance(i, ok)); |s'.ops| == |s.ops| && MovesItself(s, s', i) && MovesUsers(s, s', i)
  {
    hide NewStep, EndStep, ReapStep, TouchStep, MovesItself, MovesUsers;
    match s.ops[i]
    case New(_, _) => NewMoves(s, i, ok);
    case End(_, _) => EndMoves(s, i, ok);
    case Reap(_, _) => ReapMoves(s, i, ok);
    case Touch(_) => TouchMoves(s, i, ok);
  }

  /** The invariant: what is saved is known, and what an End has dropped stays gone. */
  ghost predicate CrashOk(s: State) {
    Wellformed(s) && SavedKnown(s) && DroppedGone(s)
  }

  lemma MapIsKnown(s: State)
    requires Wellformed(s)
    ensures forall id :: id in s.sessions ==> Known(s, id)
  {
  }

  lemma AdvanceCrashOk(s: State, i: nat, ok: bool)
    requires CrashOk(s) && Enabled(s, Advance(i, ok))
    ensures SavedKnown(Next(s, Advance(i, ok))) && DroppedGone(Next(s, Advance(i, ok)))
  {
    hide Next, Wellformed, D.Listed, HasDropped;
    AdvanceMoves(s, i, ok);
    MapIsKnown(s);
    var s' := Next(s, Advance(i, ok));
    forall id | Known(s, id) ensures Known(s', id) {
      forall j | 0 <= j < |s'.ops| ensures !PreNew(s'.ops[j], id) {
        assert !PreNew(s.ops[j], id);
      }
    }
    forall j, id | 0 <= j < |s'.ops| && Dropped(s'.ops[j], id) ensures id !in s'.users {
      if j != i || Dropped(s.ops[j], id) {
        DroppedIsNotNew(s, j, id);
      }
    }
  }

  lemma DroppedIsNotNew(s: State, j: nat, id: Id)
    requires CrashOk(s) && j < |s.ops| && Dropped(s.ops[j], id)
    ensures id !in s.users && forall k :: 0 <= k < |s.ops| ==> !PreNew(s.ops[k], id)
  {
    assert Revokes(s.ops[j], id) && Retired(s, id);
  }

  lemma StartCrashOk(s: State, a: Action)
    requires CrashOk(s) && Enabled(s, a) && !a.Advance?
    ensures SavedKnown(Next(s, a)) && DroppedGone(Next(s, a))
  {
    hide Wellformed, Next, D.Listed, HasDropped;
    StepOps(s, a);
    MapIsKnown(s);
    var s' := Next(s, a);
    forall id | Known(s, id) ensures Known(s', id) {
      forall j | 0 <= j < |s'.ops| ensures !PreNew(s'.ops[j], id) {
        if j < |s.ops| { assert s'.ops[j] == s.ops[j]; }
      }
    }
  }

  lemma {:induction false} RunCrashOk(s: State, actions: seq<Action>)
    requires CrashOk(s) && Run(s, actions)
    ensures CrashOk(Final(s, actions))
    decreases |actions|
  {
    hide CrashOk, Next, Enabled;
    if actions != [] {
      StepCrashOk(s, actions[0]);
      RunCrashOk(Next(s, actions[0]), actions[1..]);
    }
  }

  lemma StepCrashOk(s: State, a: Action)
    requires CrashOk(s) && Enabled(s, a)
    ensures CrashOk(Next(s, a))
  {
    hide Wellformed, SavedKnown, DroppedGone, Next, Enabled;
    StepWellformed(s, a);
    match a
    case Advance(i, ok) => AdvanceCrashOk(s, i, ok);
    case _ => StartCrashOk(s, a);
  }

  lemma InitCrashOk(s: State)
    requires Init(s)
    ensures CrashOk(s)
  {
    InitWellformed(s);
  }

  /** Over every interleaving: a crash while a New holds a user that it has not registered, or while an End
      has dropped the user of a session that the disk still has as active, breaks the agreement. */
  lemma CrashInFlight(s: State, actions: seq<Action>, i: nat, id: Id)
    requires Init(s) && Run(s, actions)
    requires var f := Final(s, actions);
             i < |f.ops| && (NeedsUser(f.ops[i], id)
                             || (Dropped(f.ops[i], id) && id in f.disk && f.disk[id].status == Active))
    ensures !UsersMatch(D.NextMove(Final(s, actions), D.Crash))
  {
    hide Run, Final, Init, Next, NeedsUser, Dropped;
    InitCrashOk(s);
    RunCrashOk(s, actions);
    InitWellformed(s);
    InitUsers(s);
    RunUsers(s, actions);
    CrashBreaks(Final(s, actions), i, id);
  }

  lemma CrashBreaks(f: State, i: nat, id: Id)
    requires CrashOk(f) && UsersOk(f) && i < |f.ops|
    requires NeedsUser(f.ops[i], id) || (Dropped(f.ops[i], id) && id in f.disk && f.disk[id].status == Active)
    ensures !UsersMatch(D.NextMove(f, D.Crash))
  {
    var r := D.NextMove(f, D.Crash);
    if NeedsUser(f.ops[i], id) {
      assert PreNew(f.ops[i], id);
      assert id in r.users && id !in ActiveIds(r);
    } else {
      assert id !in r.users && id in ActiveIds(r);
    }
  }

  lemma TwoSteps(s: State, a: Action, b: Action)
    requires Enabled(s, a) && Enabled(Next(s, a), b)
    ensures Run(s, [a, b]) && Final(s, [a, b]) == Next(Next(s, a), b)
  {
    hide Next, Enabled;
    var u := Next(s, a);
    var t := Next(u, b);
    assert [a, b][1..] == [b] && [b][1..] == [];
    assert Run(t, []) && Final(t, []) == t;
    assert Run(u, [b]) && Final(u, [b]) == t;
  }

  /** It takes two steps from any state: a New whose CREATE USER has succeeded; */
  lemma CrashAfterCreateUser(s: State, x: Session)
    requires CrashOk(s) && Enabled(s, StartNew(x)) && !x.cidr.Malformed?
    ensures var run := [StartNew(x), Advance(|s.ops|, true)];
            Run(s, run) && x.id in Final(s, run).users && !UsersMatch(D.NextMove(Final(s, run), D.Crash))
  {
    hide Wellformed;
    var n := |s.ops|;
    TwoSteps(s, StartNew(x), Advance(n, true));
    var f := Next(Next(s, StartNew(x)), Advance(n, true));
    assert f.users == s.users + {x.id} && f.disk == s.disk;
    assert x.id !in s.disk;
    assert x.id in D.NextMove(f, D.Crash).users && x.id !in ActiveIds(D.NextMove(f, D.Crash));
  }

  lemma EndDrops(s: State, a: Id)
    requires a in s.sessions && s.sessions[a].id == a
    ensures var u := Next(s, StartEnd(a));
      && Enabled(u, Advance(|s.ops|, true))
      && var f := Next(u, Advance(|s.ops|, true)); a !in f.users && f.disk == s.disk
  {
    hide NewStep, ReapStep, TouchStep, Check;
  }

  /** or an End that has dropped the user of a session that is active on disk. */
  lemma CrashAfterDrop(s: State, a: Id)
    requires CrashOk(s) && a in s.sessions && a in s.disk && s.disk[a].status == Active
    ensures var run := [StartEnd(a), Advance(|s.ops|, true)];
            Run(s, run) && !UsersMatch(D.NextMove(Final(s, run), D.Crash))
  {
    hide Run, Final, Next, SavedKnown, DroppedGone, NewOpsOk, RevokersOk;
    EndDrops(s, a);
    var n := |s.ops|;
    TwoSteps(s, StartEnd(a), Advance(n, true));
    var f := Next(Next(s, StartEnd(a)), Advance(n, true));
    assert a !in D.NextMove(f, D.Crash).users && a in ActiveIds(D.NextMove(f, D.Crash));
  }
}
