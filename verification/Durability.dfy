/** Durability: with operations run one at a time, and a crash allowed between any two steps, a
    session that New has returned is never lost before its access has been revoked. */
module Durability {
  import opened Text
  import opened Address
  import opened Sessions
  import opened Lifecycle
  import opened Structure
  import opened Revocations
  import opened Scenarios

  /** One step of the daemon, or a crash followed by a restart on what is on disk. */
  datatype Move = Act(a: Action) | Crash

  /** NewManager on the saved list; whatever was in flight is gone. */
  function Restart(s: State): State {
    s.(sessions := s.disk, ops := seq(|s.ops|, i => Done))
  }

  function NextMove(s: State, m: Move): State {
    match m
    case Act(a) => Next(s, a)
    case Crash => Restart(s)
  }

  predicate Starts(a: Action) {
    a.StartNew? || a.StartEnd? || a.StartReap? || a.StartPlayground?
  }

  /** One at a time: an operation starts only when none is in flight. */
  ghost predicate OneAtATime(s: State, m: Move) {
    m.Act? ==> Enabled(s, m.a) && (Starts(m.a) ==> Quiescent(s))
  }

  ghost predicate SerialRun(s: State, ms: seq<Move>)
    decreases |ms|
  {
    ms == [] || (OneAtATime(s, ms[0]) && SerialRun(NextMove(s, ms[0]), ms[1..]))
  }

  function FinalMove(s: State, ms: seq<Move>): State
    decreases |ms|
  {
    if ms == [] then s else FinalMove(NextMove(s, ms[0]), ms[1..])
  }

  /* ---- The invariant ---- */

  ghost predicate Solo(s: State) {
    forall i, j :: 0 <= i < |s.ops| && 0 <= j < |s.ops| && s.ops[i] != Done && s.ops[j] != Done ==> i == j
  }

  predicate Settled(s: State, base: set<Id>, x: Session) {
    x.status == Active || s.hist[Called(x.id)] > 0 || x.id in base
  }

  /** Everything on disk is active, or handed to OnRevoke (or was retired before the run began). */
  ghost predicate DiskOk(s: State, base: set<Id>) {
    forall id :: id in s.disk ==> s.disk[id].id == id && id in s.used && Settled(s, base, s.disk[id])
  }

  ghost predicate ReturnedKept(s: State, base: set<Id>) {
    forall id :: s.hist[Returned(id)] > 0 ==> id in s.disk && id in s.sessions && id !in base
  }

  /** In the map too, except for sessions the one operation in flight is about to revoke. */
  ghost predicate MapOk(s: State, base: set<Id>) {
    forall id :: id in s.sessions ==>
      Settled(s, base, s.sessions[id]) || exists i :: 0 <= i < |s.ops| && Pending(s.ops[i], id) > 0
  }

  predicate SameButCounters(list: map<Id, Session>, sessions: map<Id, Session>) {
    list.Keys == sessions.Keys &&
    forall id :: id in list ==> list[id].status == sessions[id].status && list[id].id == sessions[id].id
  }

  function Listed(op: Op): Option<map<Id, Session>> {
    match op
    case New(_, Saving(list)) => Some(list)
    case End(_, Saving(list)) => Some(list)
    case Reap(_, Saving(list)) => Some(list)
    case Touch(Saving(list)) => Some(list)
    case _ => None
  }

  ghost predicate CopiesOk(s: State) {
    forall i :: 0 <= i < |s.ops| && Listed(s.ops[i]).Some? ==> SameButCounters(Listed(s.ops[i]).value, s.sessions)
  }

  ghost predicate NewNotReturned(s: State) {
    forall i :: 0 <= i < |s.ops| && s.ops[i].New? ==> s.hist[Returned(s.ops[i].s.id)] == 0
  }

  ghost predicate Durable(s: State, base: set<Id>) {
    && Wellformed(s) && Solo(s) && base <= s.used
    && DiskOk(s, base) && ReturnedKept(s, base) && MapOk(s, base) && CopiesOk(s) && NewNotReturned(s)
    && (forall i :: 0 <= i < |s.ops| && s.ops[i].New? ==> s.ops[i].s.status == Active)
  }

  /** Sessions that were already expired or revoked when the run began. */
  function OldIds(s: State): set<Id> {
    set id | id in s.disk && s.disk[id].status != Active
  }

  lemma InitDurable(s: State)
    requires Init(s)
    ensures Durable(s, OldIds(s))
  {
    InitWellformed(s);
  }

  /* ---- Preservation ---- */

  lemma RestartDurable(s: State, base: set<Id>)
    requires Durable(s, base)
    ensures Durable(Restart(s), base)
  {
  }

  /** The map changes without a status changing; nothing else does. */
  lemma TouchMap(s: State, s': State, base: set<Id>)
    requires Durable(s, base) && Wellformed(s')
    requires s'.ops == s.ops && s'.disk == s.disk && s'.hist == s.hist && s'.used == s.used
    requires s'.sessions.Keys == s.sessions.Keys
    requires forall id :: id in s.sessions ==>
               s'.sessions[id].status == s.sessions[id].status && s'.sessions[id].id == s.sessions[id].id
    ensures Durable(s', base)
  {
    forall id | id in s'.sessions
      ensures Settled(s', base, s'.sessions[id]) || exists i :: 0 <= i < |s'.ops| && Pending(s'.ops[i], id) > 0
    {
      assert Settled(s, base, s.sessions[id]) || exists i :: 0 <= i < |s.ops| && Pending(s.ops[i], id) > 0;
    }
  }

  /** An operation starts, owing a call for every session it takes out of Active. */
  lemma StartDurable(s: State, s': State, op: Op, base: set<Id>)
    requires Durable(s, base) && Wellformed(s') && Quiescent(s)
    requires s'.ops == s.ops + [op] && s'.disk == s.disk && s.used <= s'.used
    requires s'.sessions.Keys == s.sessions.Keys
    requires forall id :: id in s.sessions ==> s'.sessions[id].id == s.sessions[id].id
    requires forall id :: id in s.sessions ==>
               s'.sessions[id].status == s.sessions[id].status || Pending(op, id) > 0
    requires forall id :: s'.hist[Called(id)] == s.hist[Called(id)] && s'.hist[Returned(id)] == s.hist[Returned(id)]
    requires Listed(op).None?
    requires op.New? ==> op.s.status == Active && op.s.id !in s.used
    ensures Durable(s', base)
  {
    hide MapOk, Wellformed, Pending, SameButCounters;
    assert forall i :: 0 <= i < |s.ops| ==> s'.ops[i] == Done;
    assert s'.ops[|s.ops|] == op;
    StartMapOk(s, s', op, base);
    if op.New? {
      UnusedIsNotReturned(s, base, op.s.id);
    }
  }

  lemma UnusedIsNotReturned(s: State, base: set<Id>, id: Id)
    requires Wellformed(s) && ReturnedKept(s, base) && id !in s.used
    ensures s.hist[Returned(id)] == 0
  {
  }

  lemma StartMapOk(s: State, s': State, op: Op, base: set<Id>)
    requires MapOk(s, base) && Quiescent(s) && s'.ops == s.ops + [op]
    requires s'.sessions.Keys == s.sessions.Keys
    requires forall id :: id in s.sessions ==> s'.sessions[id].id == s.sessions[id].id
    requires forall id :: id in s.sessions ==>
               s'.sessions[id].status == s.sessions[id].status || Pending(op, id) > 0
    requires forall id :: s'.hist[Called(id)] == s.hist[Called(id)]
    ensures MapOk(s', base)
  {
    forall id | id in s'.sessions
      ensures Settled(s', base, s'.sessions[id]) || exists i :: 0 <= i < |s'.ops| && Pending(s'.ops[i], id) > 0
    {
      assert Settled(s, base, s.sessions[id]) by {
        assert forall i :: 0 <= i < |s.ops| ==> s.ops[i] == Done;
        assert forall i :: 0 <= i < |s.ops| ==> Pending(s.ops[i], id) == 0;
      }
      if s'.sessions[id].status != s.sessions[id].status {
        assert Pending(s'.ops[|s.ops|], id) > 0;
      }
    }
  }

  /** The one operation in flight moves on: the calls it stops owing are on record; what it saves
      or registers is settled. */
  lemma MoveDurable(s: State, s': State, i: nat, base: set<Id>)
    requires Durable(s, base) && Wellformed(s') && i < |s.ops| && s.ops[i] != Done
    requires |s'.ops| == |s.ops| && s'.ops == s.ops[i := s'.ops[i]] && s'.used == s.used
    requires s'.ops[i].New? ==> s.ops[i].New? && s'.ops[i].s == s.ops[i].s && s'.hist[Returned(s.ops[i].s.id)] == 0
    requires forall id :: s'.hist[Called(id)] >= s.hist[Called(id)]
    requires forall id :: Pending(s.ops[i], id) > 0 ==> Pending(s'.ops[i], id) > 0 || s'.hist[Called(id)] > 0
    requires Listed(s'.ops[i]).Some? ==> Listed(s'.ops[i]).value == s.sessions == s'.sessions
    requires s'.disk == s.disk || (Listed(s.ops[i]) == Some(s'.disk) && s'.sessions == s.sessions)
    requires forall id :: id in s'.sessions ==>
               (id in s.sessions && s'.sessions[id] == s.sessions[id]) || s'.sessions[id].status == Active
    requires forall id :: s'.hist[Returned(id)] > s.hist[Returned(id)] ==>
               id in s'.disk && id in s'.sessions && s.ops[i].New? && s.ops[i].s.id == id
    requires s.ops[i].New? ==> s.ops[i].s.id !in base
    requires forall id :: id in s.sessions && id !in s'.sessions ==> s'.hist[Returned(id)] == 0
    ensures Durable(s', base)
  {
    hide MapOk, DiskOk, CopiesOk, Settled, Pending, Wellformed, SameButCounters;
    assert forall k :: 0 <= k < |s'.ops| && k != i ==> s'.ops[k] == Done;
    MapHasItsIds(s');
    MoveMapOk(s, s', i, base);
    MoveDiskOk(s, s', i, base);
    MoveCopiesOk(s, s', i);
    MoveReturned(s, s', i, base);
  }

  lemma MapHasItsIds(s: State)
    requires Wellformed(s)
    ensures forall id :: id in s.sessions ==> s.sessions[id].id == id
  {
  }

  lemma MoveReturned(s: State, s': State, i: nat, base: set<Id>)
    requires ReturnedKept(s, base) && NewNotReturned(s) && CopiesOk(s) && i < |s.ops|
    requires |s'.ops| == |s.ops| && s'.ops == s.ops[i := s'.ops[i]]
    requires forall k :: 0 <= k < |s'.ops| && k != i ==> s'.ops[k] == Done
    requires s'.ops[i].New? ==> s.ops[i].New? && s'.ops[i].s == s.ops[i].s && s'.hist[Returned(s.ops[i].s.id)] == 0
    requires s'.disk == s.disk || (Listed(s.ops[i]) == Some(s'.disk) && s'.sessions == s.sessions)
    requires forall id :: s'.hist[Returned(id)] > s.hist[Returned(id)] ==>
               id in s'.disk && id in s'.sessions && s.ops[i].New? && s.ops[i].s.id == id
    requires s.ops[i].New? ==> s.ops[i].s.id !in base
    requires forall id :: id in s.sessions && id !in s'.sessions ==> s'.hist[Returned(id)] == 0
    ensures ReturnedKept(s', base) && NewNotReturned(s')
  {
  }

  lemma MoveCopiesOk(s: State, s': State, i: nat)
    requires CopiesOk(s) && i < |s.ops| && |s'.ops| == |s.ops|
    requires forall k :: 0 <= k < |s'.ops| && k != i ==> s'.ops[k] == Done
    requires Listed(s'.ops[i]).Some? ==> Listed(s'.ops[i]).value == s.sessions == s'.sessions
    ensures CopiesOk(s')
  {
  }

  lemma MoveDiskOk(s: State, s': State, i: nat, base: set<Id>)
    requires DiskOk(s, base) && MapOk(s, base) && CopiesOk(s) && Solo(s) && Wellformed(s)
    requires i < |s.ops| && s.ops[i] != Done && s'.used == s.used
    requires forall id :: s'.hist[Called(id)] >= s.hist[Called(id)]
    requires s'.disk == s.disk || (Listed(s.ops[i]) == Some(s'.disk) && s'.sessions == s.sessions)
    ensures DiskOk(s', base)
  {
    hide Pending, RevokersOk, NewOpsOk;
    if s'.disk != s.disk {
      SavedIsSettled(s, i, base);
    }
  }

  lemma MoveMapOk(s: State, s': State, i: nat, base: set<Id>)
    requires MapOk(s, base) && Solo(s) && i < |s.ops| && s.ops[i] != Done
    requires |s'.ops| == |s.ops| && s'.ops == s.ops[i := s'.ops[i]]
    requires forall id :: s'.hist[Called(id)] >= s.hist[Called(id)]
    requires forall id :: Pending(s.ops[i], id) > 0 ==> Pending(s'.ops[i], id) > 0 || s'.hist[Called(id)] > 0
    requires forall id :: id in s'.sessions ==> s'.sessions[id].id == id
    requires forall id :: id in s'.sessions ==>
               (id in s.sessions && s'.sessions[id] == s.sessions[id]) || s'.sessions[id].status == Active
    ensures MapOk(s', base)
  {
    assert forall k :: 0 <= k < |s.ops| && k != i ==> s.ops[k] == Done;
    forall id | id in s'.sessions
      ensures Settled(s', base, s'.sessions[id]) || exists k :: 0 <= k < |s'.ops| && Pending(s'.ops[k], id) > 0
    {
      if s'.sessions[id].status != Active && !Settled(s, base, s.sessions[id]) {
        var k :| 0 <= k < |s.ops| && Pending(s.ops[k], id) > 0;
        assert k == i;
        assert Pending(s'.ops[i], id) > 0 || s'.hist[Called(id)] > 0;
      }
    }
  }

  /** When a copy is written out, every call that was owed has been made: what goes to disk is settled. */
  lemma SavedIsSettled(s: State, i: nat, base: set<Id>)
    requires Wellformed(s) && Solo(s) && MapOk(s, base) && CopiesOk(s) && i < |s.ops| && Listed(s.ops[i]).Some?
    ensures forall id :: id in Listed(s.ops[i]).value ==>
              && Listed(s.ops[i]).value[id].id == id && id in s.used
              && Settled(s, base, Listed(s.ops[i]).value[id])
  {
    var list := Listed(s.ops[i]).value;
    assert SameButCounters(list, s.sessions);
    forall id | id in list ensures list[id].id == id && id in s.used && Settled(s, base, list[id]) {
      forall k | 0 <= k < |s.ops| ensures Pending(s.ops[k], id) == 0 {
        if k != i { assert s.ops[k] == Done; }
      }
      assert Settled(s, base, s.sessions[id]);
    }
  }

  lemma {:induction false} CountPositive(batch: seq<Target>, t: Target)
    requires t in batch
    ensures CountIn(batch, t.id) > 0
  {
    if batch[0] != t { CountPositive(batch[1..], t); }
  }

  lemma NewStepDurable(s: State, i: nat, ok: bool, base: set<Id>)
    requires Durable(s, base) && i < |s.ops| && s.ops[i].New? && s.ops[i].s.id !in base
    ensures Durable(NewStep(s, i, s.ops[i].s, s.ops[i].pc, ok), base)
  {
    NewStepKeeps(s, i, ok);
    NewStepMoves(s, i, s.ops[i].s, s.ops[i].pc, ok);
    NewStepFacts(s, i, ok, base);
    hide NewStep, Durable;
    MoveDurable(s, NewStep(s, i, s.ops[i].s, s.ops[i].pc, ok), i, base);
  }

  /** Calls and returns in one step of New. */
  lemma NewStepHistory(s: State, i: nat, x: Session, pc: Pc, ok: bool, id: Id)
    requires i < |s.ops| && s.ops[i] == New(x, pc)
    ensures var s' := NewStep(s, i, x, pc, ok);
            && s'.hist[Called(id)] >= s.hist[Called(id)]
            && (Pending(s.ops[i], id) > 0 ==> s'.hist[Called(id)] > 0)
            && s'.hist[Returned(id)] ==
               s.hist[Returned(id)] + (if pc.Saving? && ok && id == x.id then 1 else 0)
  {
  }

  /** Copies, disk and map in one step of New. */
  lemma NewStepCopies(s: State, i: nat, x: Session, pc: Pc, ok: bool)
    requires i < |s.ops| && s.ops[i] == New(x, pc)
    ensures var s' := NewStep(s, i, x, pc, ok);
            && (Listed(s'.ops[i]).Some? ==> Listed(s'.ops[i]).value == s.sessions == s'.sessions)
            && (if pc.Saving? && ok then s'.disk == pc.list && s'.ops[i] == Done else s'.disk == s.disk)
            && (pc.Saving? ==> s'.sessions == s.sessions)
  {
  }

  lemma NewStepFacts(s: State, i: nat, ok: bool, base: set<Id>)
    requires Durable(s, base) && i < |s.ops| && s.ops[i].New?
    ensures var x, s' := s.ops[i].s, NewStep(s, i, s.ops[i].s, s.ops[i].pc, ok);
            && (forall id :: s'.hist[Called(id)] >= s.hist[Called(id)])
            && (forall id :: Pending(s.ops[i], id) > 0 ==> s'.hist[Called(id)] > 0)
            && (Listed(s'.ops[i]).Some? ==> Listed(s'.ops[i]).value == s.sessions == s'.sessions)
            && (s'.disk == s.disk || (Listed(s.ops[i]) == Some(s'.disk) && s'.sessions == s.sessions))
            && (forall id :: s'.hist[Returned(id)] > s.hist[Returned(id)] ==>
                  id in s'.disk && id in s'.sessions && x.id == id)
            && (s'.ops[i].New? ==> s'.hist[Returned(x.id)] == 0)
            && (forall id :: id in s.sessions && id !in s'.sessions ==> s'.hist[Returned(id)] == 0)
            && x.status == Active
  {
    NewFacts(s, i);
    NewSavesItself(s, i);
    NewIsUnreturned(s, i, base);
    hide NewStep, Durable, Wellformed;
    var x, pc := s.ops[i].s, s.ops[i].pc;
    NewStepMoves(s, i, x, pc, ok);
    NewStepCopies(s, i, x, pc, ok);
    forall id { NewStepHistory(s, i, x, pc, ok, id); }
  }

  lemma NewIsUnreturned(s: State, i: nat, base: set<Id>)
    requires Durable(s, base) && i < |s.ops| && s.ops[i].New?
    ensures s.hist[Returned(s.ops[i].s.id)] == 0 && s.ops[i].s.status == Active
  {
  }

  /** The copy a New is about to save holds its own session. */
  lemma NewSavesItself(s: State, i: nat)
    requires Wellformed(s) && CopiesOk(s) && i < |s.ops| && s.ops[i].New?
    ensures Listed(s.ops[i]).Some? ==> s.ops[i].s.id in Listed(s.ops[i]).value && s.ops[i].s.id in s.sessions
  {
    NewFacts(s, i);
    if Listed(s.ops[i]).Some? {
      assert SameButCounters(Listed(s.ops[i]).value, s.sessions);
    }
  }

  /** What operation `i` leaves owing, copied and saved when it moves from `s` to `s'`. */
  ghost predicate OtherMove(s: State, s': State, i: nat) {
    && i < |s.ops| && |s'.ops| == |s.ops|
    && (forall id :: s'.hist[Called(id)] >= s.hist[Called(id)] && s'.hist[Returned(id)] == s.hist[Returned(id)])
    && (Listed(s'.ops[i]).Some? ==> Listed(s'.ops[i]).value == s.sessions == s'.sessions || s' == s)
    && (s'.disk == s.disk || Listed(s.ops[i]) == Some(s'.disk))
    && (forall id :: Pending(s.ops[i], id) > 0 ==> Pending(s'.ops[i], id) > 0 || s'.hist[Called(id)] > 0)
  }

  lemma EndStepMove(s: State, i: nat, t: Target, pc: Pc, ok: bool)
    requires i < |s.ops| && s.ops[i] == End(t, pc)
    ensures OtherMove(s, EndStep(s, i, t, pc, ok), i)
  {
  }

  lemma ReapStepMove(s: State, i: nat, batch: seq<Target>, pc: Pc, ok: bool)
    requires i < |s.ops| && s.ops[i] == Reap(batch, pc)
    ensures OtherMove(s, ReapStep(s, i, batch, pc, ok), i)
  {
    forall id | CountIn(batch, id) > 0 ensures batch[0].id == id || CountIn(batch[1..], id) > 0 {}
  }

  lemma TouchStepMove(s: State, i: nat, pc: Pc, ok: bool)
    requires i < |s.ops| && s.ops[i] == Touch(pc)
    ensures OtherMove(s, TouchStep(s, i, pc, ok), i)
  {
  }

  lemma OtherStepFacts(s: State, i: nat, ok: bool)
    requires i < |s.ops| && !s.ops[i].New?
    ensures OtherMove(s, Next(s, Advance(i, ok)), i)
  {
    hide EndStep, ReapStep, TouchStep;
    match s.ops[i]
    case End(t, pc) => EndStepMove(s, i, t, pc, ok);
    case Reap(batch, pc) => ReapStepMove(s, i, batch, pc, ok);
    case Touch(pc) => TouchStepMove(s, i, pc, ok);
    case Done =>
  }

  lemma AdvanceDurable(s: State, i: nat, ok: bool, base: set<Id>)
    requires Durable(s, base) && Enabled(s, Advance(i, ok))
    requires s.ops[i].New? ==> s.ops[i].s.id !in base
    ensures Durable(Next(s, Advance(i, ok)), base)
  {
    if s.ops[i].New? {
      NewStepDurable(s, i, ok, base);
    } else {
      StepWellformed(s, Advance(i, ok));
      OtherStepFrame(s, i, ok);
      OtherStepFacts(s, i, ok);
      hide Next, Durable;
      if Next(s, Advance(i, ok)) != s {
        MoveDurable(s, Next(s, Advance(i, ok)), i, base);
      }
    }
  }

  lemma ReapBatchOwes(sessions: map<Id, Session>, order: seq<Id>, id: Id)
    requires forall d :: d in order ==> d in sessions && sessions[d].id == d
    requires id in order
    ensures Pending(Reap(Targets(sessions, order), Dropping), id) > 0
  {
    var batch := Targets(sessions, order);
    var k :| 0 <= k < |order| && order[k] == id;
    CountPositive(batch, batch[k]);
  }

  lemma ReapStarts(s: State, order: seq<Id>)
    requires Wellformed(s) && Visits(s, order)
    ensures forall d :: d in order ==> d in s.sessions && s.sessions[d].id == d
    ensures var s' := Next(s, StartReap(order));
      && s'.ops == s.ops + [if order == [] then Done else Reap(Targets(s.sessions, order), Dropping)]
      && s'.sessions == SetStatus(s.sessions, (set id | id in order), Expired)
      && s'.disk == s.disk && s'.used == s.used && s'.hist == s.hist + ReapMarks(order)
  {
    hide SetStatus, Targets, ReapMarks;
    forall d | d in order ensures d in s.sessions && s.sessions[d].id == d { assert DueIn(s.sessions, s.now, d); }
  }

  /** Everything a reap batch marks, it owes a call for. */
  lemma ReapOwes(s: State, order: seq<Id>)
    requires Wellformed(s) && Visits(s, order)
    ensures var s' := Next(s, StartReap(order));
            && |s'.ops| == |s.ops| + 1 && s'.ops == s.ops + [s'.ops[|s.ops|]]
            && s'.sessions.Keys == s.sessions.Keys && s'.disk == s.disk && s'.used == s.used
            && (forall id :: id in s.sessions ==> s'.sessions[id].id == s.sessions[id].id)
            && (forall id :: id in s.sessions ==>
                  s'.sessions[id].status == s.sessions[id].status || Pending(s'.ops[|s.ops|], id) > 0)
            && (forall id :: s'.hist[Called(id)] == s.hist[Called(id)] && s'.hist[Returned(id)] == s.hist[Returned(id)])
            && Listed(s'.ops[|s.ops|]).None? && !s'.ops[|s.ops|].New?
  {
    hide Next, Wellformed, Visits, Pending, ReapMarks, Targets;
    ReapStarts(s, order);
    forall id | id in s.sessions && id in order ensures Pending(Reap(Targets(s.sessions, order), Dropping), id) > 0 {
      ReapBatchOwes(s.sessions, order, id);
    }
    forall id ensures Called(id) !in ReapMarks(order) && Returned(id) !in ReapMarks(order) {
      ReapMarksCount(s.sessions, order, id);
    }
  }

  lemma StartReapDurable(s: State, order: seq<Id>, base: set<Id>)
    requires Durable(s, base) && Quiescent(s) && Visits(s, order)
    ensures Durable(Next(s, StartReap(order)), base)
  {
    StepWellformed(s, StartReap(order));
    ReapOwes(s, order);
    hide Next, Durable, Wellformed;
    var s' := Next(s, StartReap(order));
    StartDurable(s, s', s'.ops[|s.ops|], base);
  }

  /** The sessions of New operations in flight are newer than the run. */
  ghost predicate NewsAreNew(s: State, base: set<Id>) {
    forall i :: 0 <= i < |s.ops| && s.ops[i].New? ==> s.ops[i].s.id !in base
  }

  lemma StepNewsAreNew(s: State, a: Action, base: set<Id>)
    requires Wellformed(s) && NewsAreNew(s, base) && base <= s.used && Enabled(s, a)
    ensures NewsAreNew(Next(s, a), base)
  {
    var s' := Next(s, a);
    match a
    case Advance(i, ok) =>
      if s.ops[i].New? {
        NewStepMoves(s, i, s.ops[i].s, s.ops[i].pc, ok);
        hide NewStep;
        assert forall k :: 0 <= k < |s.ops| && k != i ==> s'.ops[k] == s.ops[k];
      } else {
        OtherStepFrame(s, i, ok);
        hide Next;
        assert forall k :: 0 <= k < |s.ops| && k != i ==> s'.ops[k] == s.ops[k];
      }
    case _ =>
      StartFrame(s, a);
      hide Next;
      assert forall k :: 0 <= k < |s.ops| ==> s'.ops[k] == s.ops[k];
  }

  lemma TouchStepDurable(s: State, a: Action, base: set<Id>)
    requires Durable(s, base) && Enabled(s, a) && (a.Tick? || a.Verify?)
    ensures Durable(Next(s, a), base)
  {
    StepWellformed(s, a);
    hide Durable, Wellformed;
    if a.Verify? && a.id in s.sessions {
      CheckKeepsIdentity(s.sessions[a.id], s.now, a.client, a.key);
    }
    TouchMap(s, Next(s, a), base);
  }

  /** What starting New, End or SetPlaygroundDB changes. */
  lemma StartOwes(s: State, a: Action)
    requires Wellformed(s) && Enabled(s, a) && (a.StartNew? || a.StartEnd? || a.StartPlayground?)
    ensures var s' := Next(s, a);
            && |s'.ops| == |s.ops| + 1 && s'.ops == s.ops + [s'.ops[|s.ops|]]
            && s'.sessions.Keys == s.sessions.Keys && s'.disk == s.disk && s.used <= s'.used
            && (forall id :: id in s.sessions ==> s'.sessions[id].id == s.sessions[id].id)
            && (forall id :: id in s.sessions ==>
                  s'.sessions[id].status == s.sessions[id].status || Pending(s'.ops[|s.ops|], id) > 0)
            && (forall id :: s'.hist[Called(id)] == s.hist[Called(id)] && s'.hist[Returned(id)] == s.hist[Returned(id)])
            && Listed(s'.ops[|s.ops|]).None?
            && (s'.ops[|s.ops|].New? ==>
                  s'.ops[|s.ops|].s.status == Active && s'.ops[|s.ops|].s.id !in s.used)
  {
  }

  lemma StartStepDurable(s: State, a: Action, base: set<Id>)
    requires Durable(s, base) && Enabled(s, a) && (a.StartNew? || a.StartEnd? || a.StartPlayground?) && Quiescent(s)
    ensures Durable(Next(s, a), base)
  {
    StepWellformed(s, a);
    StartOwes(s, a);
    hide Durable, Wellformed, Next, Enabled;
    var s' := Next(s, a);
    StartDurable(s, s', s'.ops[|s.ops|], base);
  }

  lemma MoveKeepsDurable(s: State, m: Move, base: set<Id>)
    requires Durable(s, base) && NewsAreNew(s, base) && OneAtATime(s, m)
    ensures Durable(NextMove(s, m), base) && NewsAreNew(NextMove(s, m), base)
  {
    match m
    case Crash => RestartDurable(s, base);
    case Act(a) =>
      StepNewsAreNew(s, a, base);
      hide Durable;
      match a
      case Advance(i, ok) => AdvanceDurable(s, i, ok, base);
      case StartReap(order) => StartReapDurable(s, order, base);
      case Tick(_) => TouchStepDurable(s, a, base);
      case Verify(_, _, _) => TouchStepDurable(s, a, base);
      case _ => StartStepDurable(s, a, base);
  }

  lemma {:induction false} RunDurable(s: State, ms: seq<Move>, base: set<Id>)
    requires Durable(s, base) && NewsAreNew(s, base) && SerialRun(s, ms)
    ensures Durable(FinalMove(s, ms), base)
    decreases |ms|
  {
    if ms != [] {
      MoveKeepsDurable(s, ms[0], base);
      RunDurable(NextMove(s, ms[0]), ms[1..], base);
    }
  }

  /** At every moment of every such run, crashes included, each session that New has returned is on
      disk, and is active there or has been handed to OnRevoke. */
  lemma ReturnedSessionsSurvive(s: State, ms: seq<Move>, id: Id)
    requires Init(s) && SerialRun(s, ms)
    requires FinalMove(s, ms).hist[Returned(id)] > 0
    ensures var f := FinalMove(s, ms);
            && id in f.disk && id in f.sessions
            && (f.disk[id].status == Active || f.hist[Called(id)] > 0)
  {
    InitDurable(s);
    RunDurable(s, ms, OldIds(s));
    var f := FinalMove(s, ms);
    assert id in f.disk && Settled(f, OldIds(s), f.disk[id]);
  }

  /** After a crash the reaper of the restarted manager still owes what is due: a session that is active on
      disk is in the first batch for which it has read the clock after the expiry. */
  lemma RestartedReaperPicksUp(s: State, ms: seq<Move>, id: Id, order: seq<Id>, t: Time)
    requires Init(s) && SerialRun(s, ms)
    requires var f := Restart(FinalMove(s, ms));
             && f.hist[Returned(id)] > 0 && f.hist[Called(id)] == 0 && VisitsAt(f, order, t)
             && id in f.disk && t >= f.disk[id].expiresAt
    ensures id in order
  {
    ReturnedSessionsSurvive(s, ms, id);
    var f := Restart(FinalMove(s, ms));
    assert DueIn(f.sessions, t, id);
  }

  /* ---- One at a time is needed ---- */

  /** From every quiescent state with an active session: let a New run between the two halves of
      an End, and a crash finds the session revoked on disk although nobody has revoked its access. */
  lemma OverlapLosesRevocation(s: State, a: Id, x: Session)
    requires Wellformed(s) && Quiescent(s) && a in s.sessions && s.sessions[a].status == Active
    requires s.hist[Called(a)] == 0 && Enabled(s, StartNew(x)) && !x.cidr.Malformed?
    ensures exists run ::
              var f := Restart(Final(s, run));
              && Run(s, run) && a in f.disk && f.disk[a].status == Revoked && f.hist[Called(a)] == 0
              && Quiescent(f)
  {
    var s1 := Next(s, StartEnd(a));
    NewAlone(s1, x);
    var run := [StartEnd(a)] + NewActions(s1, x);
    assert run[1..] == NewActions(s1, x);
    var f := Restart(Final(s, run));
    assert Final(s, run) == NewDone(s1, x) && x.id != a;
    assert f.hist[Called(a)] == 0;
  }

  /** SetPlaygroundDB up to the copy of the map, and its save later on. */
  lemma TouchInTwo(s: State, a: Id, db: string)
    requires a in s.sessions
    ensures var n, m := |s.ops|, s.(sessions := s.sessions[a := s.sessions[a].(playgroundDB := db)]);
            var first := [StartPlayground(a, db), Advance(n, true)];
            Run(s, first) && Final(s, first) == With(m, Touch(Saving(m.sessions)))
  {
    var n, m := |s.ops|, s.(sessions := s.sessions[a := s.sessions[a].(playgroundDB := db)]);
    var first := [StartPlayground(a, db), Advance(n, true)];
    WithMoves(m, Touch(Listing), Touch(Saving(m.sessions)));
    assert Next(s, first[0]) == With(m, Touch(Listing));
    var t := With(m, Touch(Listing));
    assert Next(t, Advance(n, true)) == With(m, Touch(Saving(m.sessions)));
    assert first[1..] == [Advance(n, true)] && first[1..][1..] == [];
    assert Final(t, first[1..]) == With(m, Touch(Saving(m.sessions)));
  }

  lemma SaveOnce(s: State, n: nat, list: map<Id, Session>)
    requires n < |s.ops| && s.ops[n] == Touch(Saving(list))
    ensures var last := [Advance(n, true)];
            Run(s, last) && Final(s, last) == At(s.(disk := list), n, Done)
  {
    assert [Advance(n, true)][1..] == [];
  }

  lemma NewIsNotInMap(s: State, x: Session)
    requires Wellformed(s) && Enabled(s, StartNew(x))
    ensures x.id !in s.sessions
  {
  }

  lemma NewIsDone(s: State, x: Session)
    ensures var t := NewDone(s, x); t.ops == s.ops + [Done] && t.hist[Returned(x.id)] > 0
  {
  }

  /** And a save that was prepared before a New registered wipes that New's session off the disk. */
  lemma StaleSaveLosesSession(s: State, a: Id, x: Session)
    requires Wellformed(s) && Quiescent(s) && a in s.sessions
    requires Enabled(s, StartNew(x)) && !x.cidr.Malformed?
    ensures exists run ::
              var f := Final(s, run);
              && Run(s, run) && Quiescent(f) && f.hist[Returned(x.id)] > 0 && x.id !in f.disk
  {
    hide Run, Final, Next, Wellformed, NewDone, NewActions;
    var n, db := |s.ops|, s.sessions[a].playgroundDB;
    NewIsNotInMap(s, x);
    var m := s.(sessions := s.sessions[a := s.sessions[a].(playgroundDB := db)]);
    var s2 := With(m, Touch(Saving(m.sessions)));
    TouchInTwo(s, a, db);
    NewAlone(s2, x);
    var s3 := NewDone(s2, x);
    NewIsDone(s2, x);
    SaveOnce(s3, n, m.sessions);
    var first, last := [StartPlayground(a, db), Advance(n, true)], [Advance(n, true)];
    RunConcat(s2, NewActions(s2, x), last);
    RunConcat(s, first, NewActions(s2, x) + last);
    var run := first + (NewActions(s2, x) + last);
    assert Quiescent(At(s3.(disk := m.sessions), n, Done));
    assert Final(s, run) == At(s3.(disk := m.sessions), n, Done);
  }
}
