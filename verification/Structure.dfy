/** What every step of the lifecycle protocol keeps, before any resource is looked at. */
module Structure {
  import opened Text
  import opened Address
  import opened Sessions
  import opened Lifecycle

  predicate BeforeRegistration(pc: Pc) {
    pc in {Creating, Granting, Flushing, CleaningUp, Allowing, RollingBack, Registering}
  }

  /** A New for `id` that has not yet put the session into the map. */
  predicate PreNew(op: Op, id: Id) {
    op.New? && op.s.id == id && BeforeRegistration(op.pc)
  }

  /** A New for `id` whose session is in the map. */
  predicate PostNew(op: Op, id: Id) {
    op.New? && op.s.id == id && !BeforeRegistration(op.pc)
  }

  /** An End or a reap batch that has marked `id` and carries its target. */
  predicate Revokes(op: Op, id: Id) {
    (op.End? && op.t.id == id) || (op.Reap? && exists t :: t in op.batch && t.id == id)
  }

  ghost predicate SessionsOk(s: State) {
    forall id :: id in s.sessions ==> s.sessions[id].id == id && id in s.used
  }

  ghost predicate NewOpsOk(s: State) {
    && (forall i, id :: 0 <= i < |s.ops| && PreNew(s.ops[i], id) ==> id in s.used && id !in s.sessions)
    && (forall i, id :: 0 <= i < |s.ops| && PostNew(s.ops[i], id) ==> id in s.used && id in s.sessions)
    && (forall i, j :: 0 <= i < j < |s.ops| && s.ops[i].New? && s.ops[j].New? ==> s.ops[i].s.id != s.ops[j].s.id)
  }

  /** `id` was once in the map as an active session and never will be again. */
  ghost predicate Retired(s: State, id: Id) {
    && id in s.used
    && (id in s.sessions ==> s.sessions[id].status != Active)
    && (forall j :: 0 <= j < |s.ops| ==> !PreNew(s.ops[j], id))
  }

  ghost predicate RevokersOk(s: State) {
    forall i, id :: 0 <= i < |s.ops| && Revokes(s.ops[i], id) ==> Retired(s, id)
  }

  ghost predicate Wellformed(s: State) {
    SessionsOk(s) && NewOpsOk(s) && RevokersOk(s)
  }

  lemma InitWellformed(s: State)
    requires Init(s)
    ensures Wellformed(s)
  {
  }

  /* ---- Preservation, action by action ---- */

  lemma AppendKeeps(s: State, s': State, op: Op)
    requires Wellformed(s) && s'.ops == s.ops + [op] && s.used <= s'.used && SessionsOk(s')
    requires s'.sessions.Keys == s.sessions.Keys
    requires forall id :: id in s.sessions && s.sessions[id].status != Active ==> s'.sessions[id].status != Active
    requires op.New? ==> op.s.id !in s.used && op.s.id in s'.used && op.pc == Creating
    requires forall id :: Revokes(op, id) ==> id in s.sessions && s'.sessions[id].status != Active
    ensures Wellformed(s')
  {
    forall i, id | 0 <= i < |s'.ops| && Revokes(s'.ops[i], id)
      ensures Retired(s', id)
    {
      if i < |s.ops| {
        assert s'.ops[i] == s.ops[i] && Retired(s, id);
      }
    }
  }

  /** One operation moves on: the map may gain its session, lose it, or stay. */
  lemma MoveKeeps(s: State, s': State, i: nat, op: Op)
    requires Wellformed(s) && i < |s.ops| && s'.ops == s.ops[i := op] && s'.used == s.used
    requires forall id :: Revokes(op, id) ==> Revokes(s.ops[i], id)
    requires op.New? ==> s.ops[i].New? && op.s == s.ops[i].s
    requires op.New? && BeforeRegistration(op.pc) ==> BeforeRegistration(s.ops[i].pc)
    requires s'.sessions == s.sessions
             || (op.New? && s'.sessions == s.sessions[op.s.id := op.s] && PreNew(s.ops[i], op.s.id))
             || (op == Done && s.ops[i].New? && s'.sessions == s.sessions - {s.ops[i].s.id}
                 && PostNew(s.ops[i], s.ops[i].s.id))
    requires op.New? && !BeforeRegistration(op.pc) ==> op.s.id in s'.sessions
    requires op.New? && BeforeRegistration(op.pc) ==> s'.sessions == s.sessions
    ensures Wellformed(s')
  {
    forall k, id | 0 <= k < |s'.ops| && Revokes(s'.ops[k], id)
      ensures Retired(s', id)
    {
      assert Revokes(s.ops[k], id) && Retired(s, id);
      assert !PreNew(s.ops[i], id);
    }
  }

  lemma NewFacts(s: State, i: nat)
    requires Wellformed(s) && i < |s.ops| && s.ops[i].New?
    ensures var id, before := s.ops[i].s.id, BeforeRegistration(s.ops[i].pc);
            && (before ==> PreNew(s.ops[i], id) && id !in s.sessions)
            && (!before ==> PostNew(s.ops[i], id) && id in s.sessions)
  {
  }

  lemma NewIdsDiffer(s: State, i: nat)
    requires Wellformed(s) && i < |s.ops| && s.ops[i].New?
    ensures forall k :: 0 <= k < |s.ops| && k != i && s.ops[k].New? ==> s.ops[k].s.id != s.ops[i].s.id
  {
    forall k | 0 <= k < |s.ops| && k != i && s.ops[k].New? ensures s.ops[k].s.id != s.ops[i].s.id {
      if k < i { assert s.ops[k].s.id != s.ops[i].s.id; } else { assert s.ops[i].s.id != s.ops[k].s.id; }
    }
  }

  /** Nobody revokes a session that has not been registered. */
  lemma FreshUnrevoked(s: State, i: nat)
    requires Wellformed(s) && i < |s.ops| && s.ops[i].New? && BeforeRegistration(s.ops[i].pc)
    ensures forall k :: 0 <= k < |s.ops| ==> !Revokes(s.ops[k], s.ops[i].s.id)
  {
    assert PreNew(s.ops[i], s.ops[i].s.id);
    forall k | 0 <= k < |s.ops| ensures !Revokes(s.ops[k], s.ops[i].s.id) {
      assert Revokes(s.ops[k], s.ops[i].s.id) ==> Retired(s, s.ops[i].s.id);
    }
  }

  /** What a step of New does to the map and to its own position. */
  lemma NewStepMoves(s: State, i: nat, x: Session, pc: Pc, ok: bool)
    requires i < |s.ops|
    ensures var s' := NewStep(s, i, x, pc, ok);
            && |s'.ops| == |s.ops| && s'.ops == s.ops[i := s'.ops[i]] && s'.used == s.used
            && (s'.ops[i] == Done || (s'.ops[i].New? && s'.ops[i].s == x))
            && (pc == Registering ==> s'.sessions == s.sessions[x.id := x] && s'.ops[i] == New(x, Listing))
            && (pc == Unregistering ==> s'.sessions == s.sessions - {x.id} && s'.ops[i] == Done)
            && (pc != Registering && pc != Unregistering ==> s'.sessions == s.sessions)
            && (pc != Registering && s'.ops[i] != Done ==>
                  BeforeRegistration(s'.ops[i].pc) == BeforeRegistration(pc))
  {
  }

  lemma NewStepKeeps(s: State, i: nat, ok: bool)
    requires Wellformed(s) && i < |s.ops| && s.ops[i].New?
    ensures Wellformed(NewStep(s, i, s.ops[i].s, s.ops[i].pc, ok))
  {
    NewFacts(s, i);
    NewStepMoves(s, i, s.ops[i].s, s.ops[i].pc, ok);
    hide Wellformed, PreNew, PostNew, NewStep;
    var s' := NewStep(s, i, s.ops[i].s, s.ops[i].pc, ok);
    assert forall id :: !Revokes(s'.ops[i], id);
    MoveKeeps(s, s', i, s'.ops[i]);
  }

  lemma EndStepKeeps(s: State, i: nat, ok: bool)
    requires Wellformed(s) && i < |s.ops| && s.ops[i].End?
    ensures Wellformed(EndStep(s, i, s.ops[i].t, s.ops[i].pc, ok))
  {
    hide Wellformed;
    var s' := EndStep(s, i, s.ops[i].t, s.ops[i].pc, ok);
    assert s'.ops == s.ops[i := s'.ops[i]];
    MoveKeeps(s, s', i, s'.ops[i]);
  }

  lemma ReapStepKeeps(s: State, i: nat, ok: bool)
    requires Wellformed(s) && i < |s.ops| && s.ops[i].Reap?
    ensures Wellformed(ReapStep(s, i, s.ops[i].batch, s.ops[i].pc, ok))
  {
    hide Wellformed;
    var s' := ReapStep(s, i, s.ops[i].batch, s.ops[i].pc, ok);
    assert s'.ops == s.ops[i := s'.ops[i]];
    MoveKeeps(s, s', i, s'.ops[i]);
  }

  lemma TouchStepKeeps(s: State, i: nat, ok: bool)
    requires Wellformed(s) && i < |s.ops| && s.ops[i].Touch?
    ensures Wellformed(TouchStep(s, i, s.ops[i].pc, ok))
  {
    hide Wellformed;
    var s' := TouchStep(s, i, s.ops[i].pc, ok);
    assert s'.ops == s.ops[i := s'.ops[i]];
    MoveKeeps(s, s', i, s'.ops[i]);
  }

  lemma UpdateKeeps(s: State, id: Id, x: Session)
    requires Wellformed(s) && id in s.sessions && x.id == id
    requires s.sessions[id].status != Active ==> x.status != Active
    ensures Wellformed(s.(sessions := s.sessions[id := x]))
  {
    var s' := s.(sessions := s.sessions[id := x]);
    forall k, d | 0 <= k < |s'.ops| && Revokes(s'.ops[k], d)
      ensures Retired(s', d)
    {
      assert Revokes(s.ops[k], d) && Retired(s, d);
    }
  }

  lemma SameKeeps(s: State, s': State)
    requires Wellformed(s) && s'.ops == s.ops && s'.sessions == s.sessions && s'.used == s.used
    ensures Wellformed(s')
  {
    forall id | Retired(s, id) ensures Retired(s', id) {}
  }

  lemma StartReapKeeps(s: State, order: seq<Id>)
    requires Wellformed(s) && Visits(s, order)
    ensures Wellformed(Next(s, StartReap(order)))
  {
    var s' := Next(s, StartReap(order));
    forall id | id in order ensures id in s.sessions && s.sessions[id].id == id && s'.sessions[id].status == Expired {
      assert DueIn(s.sessions, s.now, id);
    }
    var op := s'.ops[|s.ops|];
    forall id | Revokes(op, id) ensures id in s.sessions && s'.sessions[id].status != Active {
      var t :| t in op.batch && t.id == id;
    }
    AppendKeeps(s, s', op);
  }

  lemma CheckKeepsIdentity(x: Session, now: Time, client: Option<Addr>, key: KeyCheck)
    ensures var y := Check(x, now, client, key).1;
            y.id == x.id && y.cidr == x.cidr && y.expiresAt == x.expiresAt && y.status == x.status
  {
  }

  /** Every enabled action keeps the structure. */
  lemma StepWellformed(s: State, a: Action)
    requires Wellformed(s) && Enabled(s, a)
    ensures Wellformed(Next(s, a))
  {
    match a
    case Tick(t) => SameKeeps(s, s.(now := t));
    case Verify(id, client, key) =>
      if id in s.sessions {
        CheckKeepsIdentity(s.sessions[id], s.now, client, key);
        UpdateKeeps(s, id, Check(s.sessions[id], s.now, client, key).1);
      }
    case StartNew(x) =>
      var s' := Next(s, a);
      AppendKeeps(s, s', s'.ops[|s.ops|]);
    case StartEnd(id) =>
      var s' := Next(s, a);
      AppendKeeps(s, s', s'.ops[|s.ops|]);
    case StartReap(order) => StartReapKeeps(s, order);
    case StartPlayground(id, db) =>
      var s' := Next(s, a);
      AppendKeeps(s, s', s'.ops[|s.ops|]);
    case Advance(i, ok) =>
      hide NewStep, EndStep, ReapStep, TouchStep, Wellformed;
      match s.ops[i]
      case New(x, pc) => NewStepKeeps(s, i, ok);
      case End(t, pc) => EndStepKeeps(s, i, ok);
      case Reap(batch, pc) => ReapStepKeeps(s, i, ok);
      case Touch(pc) => TouchStepKeeps(s, i, ok);
  }

  /** And so does every run. */
  lemma {:induction false} RunWellformed(s: State, actions: seq<Action>)
    requires Wellformed(s) && Run(s, actions)
    ensures Wellformed(Final(s, actions))
    decreases |actions|
  {
    if actions != [] {
      StepWellformed(s, actions[0]);
      RunWellformed(Next(s, actions[0]), actions[1..]);
    }
  }
}
