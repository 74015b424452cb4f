/** Revocation accounting: how often OnRevoke is called for a session, and how statuses move. */
module Revocations {
  import opened Sessions
  import opened Lifecycle
  import opened Structure

  /* ---- Retirement and statuses ---- */

  /** Once retired, always retired. */
  lemma StepRetired(s: State, a: Action, id: Id)
    requires Wellformed(s) && Enabled(s, a) && Retired(s, id)
    ensures Retired(Next(s, a), id)
  {
    var s' := Next(s, a);
    match a
    case Advance(i, ok) =>
      if s.ops[i].New? {
        var x, pc := s.ops[i].s, s.ops[i].pc;
        NewFacts(s, i);
        NewStepMoves(s, i, x, pc, ok);
        hide NewStep;
        assert !PreNew(s.ops[i], id);
        forall j | 0 <= j < |s'.ops| ensures !PreNew(s'.ops[j], id) { assert !PreNew(s.ops[j], id); }
      } else {
        OtherStepFrame(s, i, ok);
        hide Next;
        forall j | 0 <= j < |s'.ops| ensures !PreNew(s'.ops[j], id) { assert !PreNew(s.ops[j], id); }
      }
    case _ =>
      StartFrame(s, a);
      hide Next;
      forall j | 0 <= j < |s'.ops| ensures !PreNew(s'.ops[j], id) {
        if j < |s.ops| { assert s'.ops[j] == s.ops[j] && !PreNew(s.ops[j], id); }
      }
  }

  lemma OtherStepFrame(s: State, i: nat, ok: bool)
    requires i < |s.ops| && !s.ops[i].New?
    ensures var s' := Next(s, Advance(i, ok));
            && s'.sessions == s.sessions && s'.used == s.used && |s'.ops| == |s.ops|
            && s'.ops == s.ops[i := s'.ops[i]] && !s'.ops[i].New?
  {
  }

  predicate StatusLe(a: Status, b: Status) {
    a == b || a == Active || b == Revoked
  }

  /** The identity of a session, its range and its expiry, never change. */
  predicate Later(x: Session, y: Session) {
    StatusLe(x.status, y.status) && y.cidr == x.cidr && y.expiresAt == x.expiresAt
  }

  /** What the actions that start something, and the ones that only touch the map, leave alone. */
  lemma StartFrame(s: State, a: Action)
    requires Wellformed(s) && Enabled(s, a) && !a.Advance?
    ensures var s' := Next(s, a);
            && s'.sessions.Keys == s.sessions.Keys && s.used <= s'.used
            && (forall id :: id in s.sessions ==> Later(s.sessions[id], s'.sessions[id]))
            && |s.ops| <= |s'.ops| <= |s.ops| + 1 && s'.ops[..|s.ops|] == s.ops
            && (|s'.ops| > |s.ops| && s'.ops[|s.ops|].New? ==> s'.ops[|s.ops|].s.id !in s.used)
  {
    match a
    case Verify(id, client, key) =>
      if id in s.sessions { CheckKeepsIdentity(s.sessions[id], s.now, client, key); }
    case StartReap(order) =>
      forall id | id in order ensures id in s.sessions && s.sessions[id].status == Active {
        assert DueIn(s.sessions, s.now, id);
      }
    case _ =>
  }

  /** `id` was withdrawn by its own New and will not come back. */
  ghost predicate Gone(s: State, id: Id) {
    id in s.used && id !in s.sessions && forall j :: 0 <= j < |s.ops| ==> !(s.ops[j].New? && s.ops[j].s.id == id)
  }

  /** One step: a session of the map stays, later in the order of statuses, or is gone for good. */
  lemma StepLater(s: State, a: Action, id: Id)
    requires Wellformed(s) && Enabled(s, a)
    ensures var s' := Next(s, a);
            id in s.sessions ==> (id in s'.sessions && Later(s.sessions[id], s'.sessions[id])) || Gone(s', id)
    ensures Gone(s, id) ==> Gone(Next(s, a), id)
  {
    var s' := Next(s, a);
    match a
    case Advance(i, ok) =>
      if s.ops[i].New? {
        var x, pc := s.ops[i].s, s.ops[i].pc;
        NewFacts(s, i);
        NewIdsDiffer(s, i);
        NewStepMoves(s, i, x, pc, ok);
        hide NewStep;
        assert forall j :: 0 <= j < |s.ops| && j != i ==> s'.ops[j] == s.ops[j];
      } else {
        OtherStepFrame(s, i, ok);
        hide Next;
        assert forall j :: 0 <= j < |s.ops| && j != i ==> s'.ops[j] == s.ops[j];
      }
    case _ =>
      StartFrame(s, a);
      hide Next;
      assert forall j :: 0 <= j < |s.ops| ==> s'.ops[j] == s.ops[j];
  }

  lemma {:induction false} RunGone(s: State, actions: seq<Action>, id: Id)
    requires Wellformed(s) && Run(s, actions) && Gone(s, id)
    ensures Gone(Final(s, actions), id)
    decreases |actions|
  {
    if actions != [] {
      StepLater(s, actions[0], id);
      StepWellformed(s, actions[0]);
      RunGone(Next(s, actions[0]), actions[1..], id);
    }
  }

  /** Over every run, between any two states that both hold the session: the status only moves from
      active to expired or revoked and from expired to revoked; range and expiry are unchanged. */
  lemma {:induction false} StatusesMoveForward(s: State, actions: seq<Action>, id: Id)
    requires Wellformed(s) && Run(s, actions)
    requires id in s.sessions && id in Final(s, actions).sessions
    ensures Later(s.sessions[id], Final(s, actions).sessions[id])
    decreases |actions|
  {
    if actions != [] {
      var s' := Next(s, actions[0]);
      StepLater(s, actions[0], id);
      StepWellformed(s, actions[0]);
      if Gone(s', id) {
        RunGone(s', actions[1..], id);
      } else {
        StatusesMoveForward(s', actions[1..], id);
      }
    }
  }

  /* ---- Counting ---- */

  function CountIn(batch: seq<Target>, id: Id): nat {
    if batch == [] then 0 else (if batch[0].id == id then 1 else 0) + CountIn(batch[1..], id)
  }

  /** OnRevoke calls for `id` that the operation has still to make. */
  function Pending(op: Op, id: Id): nat {
    match op
    case New(x, pc) => if pc == Dropping && x.id == id then 1 else 0
    case End(t, pc) => if pc == Dropping && t.id == id then 1 else 0
    case Reap(batch, pc) =>
      if pc == Dropping then CountIn(batch, id)
      else if pc.Denying? && batch != [] then CountIn(batch[1..], id)
      else 0
    case _ => 0
  }

  function PendingAll(ops: seq<Op>, id: Id): nat {
    if ops == [] then 0 else Pending(ops[0], id) + PendingAll(ops[1..], id)
  }

  lemma {:induction false} PendingSet(ops: seq<Op>, i: nat, op: Op, id: Id)
    requires i < |ops|
    ensures PendingAll(ops[i := op], id) + Pending(ops[i], id) == PendingAll(ops, id) + Pending(op, id)
  {
    if i == 0 {
      assert ops[0 := op][1..] == ops[1..];
    } else {
      assert ops[i := op][1..] == ops[1..][i - 1 := op];
      PendingSet(ops[1..], i - 1, op, id);
    }
  }

  lemma {:induction false} PendingAppend(ops: seq<Op>, op: Op, id: Id)
    ensures PendingAll(ops + [op], id) == PendingAll(ops, id) + Pending(op, id)
  {
    if ops == [] {
      assert ([] + [op])[1..] == [];
    } else {
      assert (ops + [op])[1..] == ops[1..] + [op];
      PendingAppend(ops[1..], op, id);
    }
  }

  function Reasons(h: multiset<Event>, id: Id): nat {
    h[ReapMarked(id)] + h[EndMarked(id)] + h[SaveFailed(id)]
  }

  /** Every reason to revoke is answered by a call that was made or is pending. */
  ghost predicate Balanced(s: State) {
    forall id :: s.hist[Called(id)] + PendingAll(s.ops, id) == Reasons(s.hist, id)
  }

  lemma TargetsTail(sessions: map<Id, Session>, order: seq<Id>)
    requires order != [] && forall d :: d in order ==> d in sessions && sessions[d].id == d
    ensures var ts := Targets(sessions, order);
            ts != [] && ts[0].id == order[0] && ts[1..] == Targets(sessions, order[1..])
  {
  }

  lemma {:induction false} ReapMarksCount(sessions: map<Id, Session>, order: seq<Id>, id: Id)
    requires forall d :: d in order ==> d in sessions && sessions[d].id == d
    ensures ReapMarks(order)[ReapMarked(id)] == CountIn(Targets(sessions, order), id)
    ensures forall e :: e in ReapMarks(order) ==> e.ReapMarked? && e.id in order
  {
    if order != [] {
      hide Targets;
      TargetsTail(sessions, order);
      ReapMarksCount(sessions, order[1..], id);
    }
  }

  lemma {:induction false} MarkedOnce(order: seq<Id>, id: Id)
    requires forall i, j :: 0 <= i < j < |order| ==> order[i] != order[j]
    ensures ReapMarks(order)[ReapMarked(id)] == if id in order then 1 else 0
  {
    if order != [] {
      MarkedOnce(order[1..], id);
      assert order[0] !in order[1..];
    }
  }

  /** Operation `i` moves from `s` to `s'`: every call it stops owing is made, every reason it logs
      is one more call it owes. */
  ghost predicate MoveBalanced(s: State, s': State, i: nat, id: Id) {
    && i < |s.ops| && |s'.ops| == |s.ops| && s'.ops == s.ops[i := s'.ops[i]]
    && s'.hist[ReapMarked(id)] == s.hist[ReapMarked(id)]
    && s'.hist[Called(id)] - s.hist[Called(id)] + Pending(s'.ops[i], id) - Pending(s.ops[i], id)
       == Reasons(s'.hist, id) - Reasons(s.hist, id)
  }

  lemma NewStepBalance(s: State, i: nat, x: Session, pc: Pc, ok: bool, id: Id)
    requires i < |s.ops| && s.ops[i] == New(x, pc)
    ensures MoveBalanced(s, NewStep(s, i, x, pc, ok), i, id)
  {
  }

  lemma EndStepBalance(s: State, i: nat, t: Target, pc: Pc, ok: bool, id: Id)
    requires i < |s.ops| && s.ops[i] == End(t, pc)
    ensures MoveBalanced(s, EndStep(s, i, t, pc, ok), i, id)
  {
  }

  lemma ReapStepBalance(s: State, i: nat, batch: seq<Target>, pc: Pc, ok: bool, id: Id)
    requires i < |s.ops| && s.ops[i] == Reap(batch, pc)
    ensures MoveBalanced(s, ReapStep(s, i, batch, pc, ok), i, id)
  {
  }

  lemma TouchStepBalance(s: State, i: nat, pc: Pc, ok: bool, id: Id)
    requires i < |s.ops| && s.ops[i] == Touch(pc)
    ensures MoveBalanced(s, TouchStep(s, i, pc, ok), i, id)
  {
  }

  lemma AdvanceBalance(s: State, i: nat, ok: bool, id: Id)
    requires i < |s.ops|
    ensures MoveBalanced(s, Next(s, Advance(i, ok)), i, id)
  {
    hide NewStep, EndStep, ReapStep, TouchStep;
    match s.ops[i]
    case New(x, pc) => NewStepBalance(s, i, x, pc, ok, id);
    case End(t, pc) => EndStepBalance(s, i, t, pc, ok, id);
    case Reap(batch, pc) => ReapStepBalance(s, i, batch, pc, ok, id);
    case Touch(pc) => TouchStepBalance(s, i, pc, ok, id);
    case Done =>
  }

  lemma StepBalanced(s: State, a: Action)
    requires Wellformed(s) && Balanced(s) && Enabled(s, a)
    ensures Balanced(Next(s, a))
  {
    var s' := Next(s, a);
    forall id ensures s'.hist[Called(id)] + PendingAll(s'.ops, id) == Reasons(s'.hist, id) {
      assert s.hist[Called(id)] + PendingAll(s.ops, id) == Reasons(s.hist, id);
      match a
      case Advance(i, ok) =>
        AdvanceBalance(s, i, ok, id);
        PendingSet(s.ops, i, s'.ops[i], id);
      case StartReap(order) =>
        StartReapBalance(s, order, id);
      case _ =>
        StartBalance(s, a, id);
    }
  }

  lemma StartBalance(s: State, a: Action, id: Id)
    requires Wellformed(s) && !a.Advance? && !a.StartReap?
    ensures var s' := Next(s, a);
            s'.hist[Called(id)] - s.hist[Called(id)] + PendingAll(s'.ops, id) - PendingAll(s.ops, id)
            == Reasons(s'.hist, id) - Reasons(s.hist, id)
  {
    var s' := Next(s, a);
    if |s'.ops| > |s.ops| {
      PendingAppend(s.ops, s'.ops[|s.ops|], id);
    }
  }

  lemma StartReapBalance(s: State, order: seq<Id>, id: Id)
    requires Wellformed(s) && Visits(s, order)
    ensures var s' := Next(s, StartReap(order));
            s'.hist[Called(id)] - s.hist[Called(id)] + PendingAll(s'.ops, id) - PendingAll(s.ops, id)
            == Reasons(s'.hist, id) - Reasons(s.hist, id)
  {
    var s' := Next(s, StartReap(order));
    forall d | d in order ensures d in s.sessions && s.sessions[d].id == d { assert DueIn(s.sessions, s.now, d); }
    PendingAppend(s.ops, s'.ops[|s.ops|], id);
    ReapMarksCount(s.sessions, order, id);
    assert Called(id) !in ReapMarks(order) && EndMarked(id) !in ReapMarks(order) && SaveFailed(id) !in ReapMarks(order);
  }

  /* ---- One batch per session ---- */

  ghost predicate ReapedOnce(s: State) {
    forall id :: s.hist[ReapMarked(id)] <= 1 && (s.hist[ReapMarked(id)] > 0 ==> Retired(s, id))
  }

  lemma StepReapedOnce(s: State, a: Action)
    requires Wellformed(s) && ReapedOnce(s) && Enabled(s, a)
    ensures ReapedOnce(Next(s, a))
  {
    var s' := Next(s, a);
    StepWellformed(s, a);
    forall id ensures s'.hist[ReapMarked(id)] <= 1 && (s'.hist[ReapMarked(id)] > 0 ==> Retired(s', id)) {
      if s.hist[ReapMarked(id)] > 0 {
        StepRetired(s, a, id);
      }
      if a.StartReap? {
        MarkedOnce(a.order, id);
        assert id in a.order ==> DueIn(s.sessions, s.now, id);
        if id in a.order { FreshlyReaped(s, a.order, id); }
      } else {
        NoReapMark(s, a, id);
      }
    }
  }

  lemma NoReapMark(s: State, a: Action, id: Id)
    requires Enabled(s, a) && !a.StartReap?
    ensures Next(s, a).hist[ReapMarked(id)] == s.hist[ReapMarked(id)]
  {
    if a.Advance? {
      AdvanceBalance(s, a.i, a.ok, id);
      hide Next;
    }
  }

  lemma FreshlyReaped(s: State, order: seq<Id>, id: Id)
    requires Wellformed(s) && Visits(s, order) && id in order
    ensures Retired(Next(s, StartReap(order)), id) && s.sessions[id].status == Active
  {
    var s' := Next(s, StartReap(order));
    assert DueIn(s.sessions, s.now, id);
    forall d | d in order ensures d in s.sessions { assert DueIn(s.sessions, s.now, d); }
    forall j | 0 <= j < |s'.ops| ensures !PreNew(s'.ops[j], id) {
      if j < |s.ops| { assert s'.ops[j] == s.ops[j]; }
    }
  }

  lemma {:induction false} RunAccounts(s: State, actions: seq<Action>)
    requires Wellformed(s) && Balanced(s) && ReapedOnce(s) && Run(s, actions)
    ensures Balanced(Final(s, actions)) && ReapedOnce(Final(s, actions))
    decreases |actions|
  {
    if actions != [] {
      StepWellformed(s, actions[0]);
      StepBalanced(s, actions[0]);
      StepReapedOnce(s, actions[0]);
      RunAccounts(Next(s, actions[0]), actions[1..]);
    }
  }

  lemma {:induction false} QuiescentPending(ops: seq<Op>, id: Id)
    requires forall i :: 0 <= i < |ops| ==> ops[i] == Done
    ensures PendingAll(ops, id) == 0
  {
    if ops != [] { QuiescentPending(ops[1..], id); }
  }

  /** Over every run: each session is picked by at most one reap batch ever, and when nothing is in
      flight OnRevoke has been called for it once per reap mark, once per End that found it, and once
      if its New failed to save. */
  lemma RevocationsAccounted(s: State, actions: seq<Action>, id: Id)
    requires Init(s) && Run(s, actions)
    ensures var f := Final(s, actions); f.hist[ReapMarked(id)] <= 1
    ensures var f := Final(s, actions);
            Quiescent(f) ==>
              f.hist[Called(id)] == f.hist[ReapMarked(id)] + f.hist[EndMarked(id)] + f.hist[SaveFailed(id)]
  {
    InitWellformed(s);
    RunAccounts(s, actions);
    var f := Final(s, actions);
    assert f.hist[Called(id)] + PendingAll(f.ops, id) == Reasons(f.hist, id);
    if Quiescent(f) { QuiescentPending(f.ops, id); }
  }
}
