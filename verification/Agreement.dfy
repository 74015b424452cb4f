/** Resource agreement: whenever nothing is in flight, the temporary MySQL users are those of the
    active sessions - over every interleaving, with any forward call failing. */
module Agreement {
  import opened Sessions
  import opened Lifecycle
  import opened Structure

  /** New is undoing itself and has already dropped the user of `id`. */
  predicate Undone(op: Op, id: Id) {
    op.New? && op.s.id == id && (op.pc.Denying? || op.pc == Unregistering)
  }

  /** `id` is active in the map, and not about to be withdrawn by its own New. */
  ghost predicate Owned(s: State, id: Id) {
    id in s.sessions && s.sessions[id].status == Active &&
    forall i :: 0 <= i < |s.ops| ==> !Undone(s.ops[i], id)
  }

  /** The operation relies on the user of `id`. */
  predicate NeedsUser(op: Op, id: Id) {
    op.New? && op.s.id == id && op.pc in {Granting, Flushing, Allowing, RollingBack, Registering}
  }

  predicate InBatch(batch: seq<Target>, id: Id) {
    exists t :: t in batch && t.id == id
  }

  /** The operation still has to drop the user of `id`, or to hand it to the map. */
  predicate AnswersForUser(op: Op, id: Id) {
    match op
    case New(x, pc) => x.id == id && (NeedsUser(op, id) || pc == CleaningUp || pc == Dropping)
    case End(t, pc) => t.id == id && pc == Dropping
    case Reap(batch, pc) =>
      if pc == Dropping then InBatch(batch, id) else pc.Denying? && batch != [] && InBatch(batch[1..], id)
    case _ => false
  }

  ghost predicate Answered(s: State, id: Id) {
    exists i :: 0 <= i < |s.ops| && AnswersForUser(s.ops[i], id)
  }

  ghost predicate UsersOk(s: State) {
    && (forall i :: 0 <= i < |s.ops| && s.ops[i].New? ==> s.ops[i].s.status == Active)
    && (forall id :: id in s.users ==> id in s.leakedUsers || Owned(s, id) || Answered(s, id))
    && (forall id :: Owned(s, id) ==> id in s.users)
    && (forall i, id :: 0 <= i < |s.ops| && NeedsUser(s.ops[i], id) ==> id in s.users)
  }

  lemma InitUsers(s: State)
    requires Init(s)
    ensures UsersOk(s)
  {
  }

  /** A step that moves operation `i` and deals only with the user of `d`. */
  lemma MoveUsers(s: State, s': State, i: nat, op: Op, d: Id)
    requires Wellformed(s) && UsersOk(s) && i < |s.ops| && s'.ops == s.ops[i := op]
    requires op.New? ==> s.ops[i].New? && op.s == s.ops[i].s
    requires s.leakedUsers <= s'.leakedUsers
    requires forall id :: id != d ==> (id in s'.users <==> id in s.users)
    requires forall id :: id != d ==> (id in s'.sessions <==> id in s.sessions)
    requires forall id :: id != d && id in s.sessions ==> s'.sessions[id].status == s.sessions[id].status
    requires forall id :: id != d && AnswersForUser(s.ops[i], id) ==> AnswersForUser(op, id)
    requires forall id :: id != d ==> !Undone(op, id) && !NeedsUser(op, id) && !Undone(s.ops[i], id)
    requires d in s'.users ==> d in s'.leakedUsers || Owned(s', d) || Answered(s', d)
    requires Owned(s', d) ==> d in s'.users
    requires forall k :: 0 <= k < |s'.ops| && NeedsUser(s'.ops[k], d) ==> d in s'.users
    ensures UsersOk(s')
  {
    forall id | id != d
      ensures Owned(s', id) <==> Owned(s, id)
    {
      assert Owned(s, id) ==> forall k :: 0 <= k < |s'.ops| ==> !Undone(s'.ops[k], id);
      if Owned(s', id) {
        forall k | 0 <= k < |s.ops| ensures !Undone(s.ops[k], id) {
          assert k != i ==> s'.ops[k] == s.ops[k];
        }
      }
    }
    forall id | id != d && Answered(s, id)
      ensures Answered(s', id)
    {
      var k :| 0 <= k < |s.ops| && AnswersForUser(s.ops[k], id);
      assert AnswersForUser(s'.ops[k], id);
    }
  }

  /** Nobody else touches the session a New is working on: it needs its user, and only it undoes it. */
  lemma OnlyOneNew(s: State, i: nat)
    requires Wellformed(s) && i < |s.ops| && s.ops[i].New?
    ensures forall k :: 0 <= k < |s.ops| && k != i ==>
              !Undone(s.ops[k], s.ops[i].s.id) && !NeedsUser(s.ops[k], s.ops[i].s.id)
  {
    NewIdsDiffer(s, i);
  }

  /** Before registration nobody else answers for the user of a New either. */
  lemma OnlyNewAnswers(s: State, i: nat)
    requires Wellformed(s) && i < |s.ops| && s.ops[i].New? && BeforeRegistration(s.ops[i].pc)
    ensures forall k :: 0 <= k < |s.ops| && k != i ==> !AnswersForUser(s.ops[k], s.ops[i].s.id)
    ensures s.ops[i].s.id !in s.sessions
  {
    NewFacts(s, i);
    NewIdsDiffer(s, i);
    FreshUnrevoked(s, i);
    forall k | 0 <= k < |s.ops| && k != i ensures !AnswersForUser(s.ops[k], s.ops[i].s.id) {
      assert s.ops[k].Reap? && s.ops[k].batch != [] ==> forall t :: t in s.ops[k].batch[1..] ==> t in s.ops[k].batch;
    }
  }

  lemma NewStepUsersBefore(s: State, i: nat, ok: bool)
    requires Wellformed(s) && UsersOk(s) && i < |s.ops| && s.ops[i].New? && BeforeRegistration(s.ops[i].pc)
    ensures UsersOk(NewStep(s, i, s.ops[i].s, s.ops[i].pc, ok))
  {
    var x, pc := s.ops[i].s, s.ops[i].pc;
    var s' := NewStep(s, i, x, pc, ok);
    NewFacts(s, i);
    NewStepMoves(s, i, x, pc, ok);
    OnlyOneNew(s, i);
    OnlyNewAnswers(s, i);
    hide Wellformed;
    assert AnswersForUser(s'.ops[i], x.id) ==> Answered(s', x.id);
    MoveUsers(s, s', i, s'.ops[i], x.id);
  }

  lemma NewStepUsersAfter(s: State, i: nat, ok: bool)
    requires Wellformed(s) && UsersOk(s) && i < |s.ops| && s.ops[i].New? && !BeforeRegistration(s.ops[i].pc)
    ensures UsersOk(NewStep(s, i, s.ops[i].s, s.ops[i].pc, ok))
  {
    var x, pc := s.ops[i].s, s.ops[i].pc;
    var s' := NewStep(s, i, x, pc, ok);
    NewStepMoves(s, i, x, pc, ok);
    OnlyOneNew(s, i);
    hide Wellformed;
    if AnswersForUser(s'.ops[i], x.id) {
      assert Answered(s', x.id);
    } else if Answered(s, x.id) {
      var k :| 0 <= k < |s.ops| && AnswersForUser(s.ops[k], x.id);
      assert k != i ==> AnswersForUser(s'.ops[k], x.id);
    }
    MoveUsers(s, s', i, s'.ops[i], x.id);
  }

  /** An End or a reap batch drops only users that no active session and no New relies on. */
  lemma RevokedIsFree(s: State, i: nat, id: Id)
    requires Wellformed(s) && i < |s.ops| && Revokes(s.ops[i], id)
    ensures id in s.sessions ==> s.sessions[id].status != Active
    ensures forall k :: 0 <= k < |s.ops| ==> !NeedsUser(s.ops[k], id)
  {
    assert Retired(s, id);
    forall k | 0 <= k < |s.ops| ensures !NeedsUser(s.ops[k], id) {
      assert !PreNew(s.ops[k], id);
    }
  }

  /** Another operation's answer survives a move of operation `i`. */
  lemma OthersAnswer(s: State, s': State, i: nat, d: Id)
    requires i < |s.ops| && |s'.ops| == |s.ops| && s'.ops == s.ops[i := s'.ops[i]]
    requires Answered(s, d)
    ensures Answered(s', d) || AnswersForUser(s.ops[i], d)
  {
    var k :| 0 <= k < |s.ops| && AnswersForUser(s.ops[k], d);
    assert k != i ==> AnswersForUser(s'.ops[k], d);
  }

  lemma EndStepUsers(s: State, i: nat, ok: bool)
    requires Wellformed(s) && UsersOk(s) && i < |s.ops| && s.ops[i].End?
    ensures UsersOk(EndStep(s, i, s.ops[i].t, s.ops[i].pc, ok))
  {
    hide Wellformed, UsersOk, Answered;
    var d := s.ops[i].t.id;
    var s' := EndStep(s, i, s.ops[i].t, s.ops[i].pc, ok);
    assert s'.ops == s.ops[i := s'.ops[i]];
    RevokedIsFree(s, i, d);
    UserAfterDrop(s, s', i, d);
    MoveUsers(s, s', i, s'.ops[i], d);
  }

  /** The user of a retired session: still answered for, gone, or refused by the server. */
  lemma UserAfterDrop(s: State, s': State, i: nat, d: Id)
    requires UsersOk(s) && i < |s.ops| && |s'.ops| == |s.ops| && s'.ops == s.ops[i := s'.ops[i]]
    requires s.leakedUsers <= s'.leakedUsers && (d in s'.users ==> d in s.users)
    requires d in s.sessions ==> s.sessions[d].status != Active
    requires AnswersForUser(s.ops[i], d) ==> AnswersForUser(s'.ops[i], d) || d !in s'.users || d in s'.leakedUsers
    ensures d in s'.users ==> d in s'.leakedUsers || Answered(s', d)
  {
    if d in s'.users && d !in s.leakedUsers {
      OthersAnswer(s, s', i, d);
      assert AnswersForUser(s'.ops[i], d) ==> Answered(s', d);
    }
  }

  lemma ReapStepUsers(s: State, i: nat, ok: bool)
    requires Wellformed(s) && UsersOk(s) && i < |s.ops| && s.ops[i].Reap?
    ensures UsersOk(ReapStep(s, i, s.ops[i].batch, s.ops[i].pc, ok))
  {
    hide Wellformed, UsersOk, Answered;
    var batch, pc := s.ops[i].batch, s.ops[i].pc;
    var s' := ReapStep(s, i, batch, pc, ok);
    assert s'.ops == s.ops[i := s'.ops[i]];
    if pc == Dropping && batch != [] {
      var d := batch[0].id;
      assert Revokes(s.ops[i], d);
      RevokedIsFree(s, i, d);
      BatchTail(batch);
      UserAfterDrop(s, s', i, d);
      MoveUsers(s, s', i, s'.ops[i], d);
    } else {
      SameAnswers(s, s', i);
    }
  }

  lemma BatchTail(batch: seq<Target>)
    requires batch != []
    ensures forall id :: InBatch(batch, id) && id != batch[0].id ==> InBatch(batch[1..], id)
  {
    forall id | InBatch(batch, id) && id != batch[0].id ensures InBatch(batch[1..], id) {
      var t :| t in batch && t.id == id;
      assert t in batch[1..];
    }
  }

  /** A step that neither touches users or sessions nor drops an answer. */
  lemma SameAnswers(s: State, s': State, i: nat)
    requires UsersOk(s) && i < |s.ops| && |s'.ops| == |s.ops| && s'.ops == s.ops[i := s'.ops[i]]
    requires !s.ops[i].New? && !s'.ops[i].New?
    requires s'.users == s.users && s'.sessions == s.sessions && s.leakedUsers == s'.leakedUsers
    requires forall id :: AnswersForUser(s.ops[i], id) ==> AnswersForUser(s'.ops[i], id)
    ensures UsersOk(s')
  {
    forall id ensures Owned(s', id) <==> Owned(s, id) {
      assert Owned(s, id) ==> forall k :: 0 <= k < |s'.ops| ==> !Undone(s'.ops[k], id);
      if Owned(s', id) {
        forall k | 0 <= k < |s.ops| ensures !Undone(s.ops[k], id) {
          assert k != i ==> s'.ops[k] == s.ops[k];
        }
      }
    }
    forall id | Answered(s, id) ensures Answered(s', id) {
      OthersAnswer(s, s', i, id);
      assert AnswersForUser(s.ops[i], id) ==> AnswersForUser(s'.ops[i], id);
    }
  }

  /** A step that appends an operation which answers for everything that stops being active. */
  lemma AppendUsers(s: State, s': State, op: Op)
    requires UsersOk(s) && s'.ops == s.ops + [op] && s'.users == s.users && s'.leakedUsers == s.leakedUsers
    requires s'.sessions.Keys == s.sessions.Keys
    requires forall id :: id in s.sessions && s'.sessions[id].status == Active ==> s.sessions[id].status == Active
    requires forall id :: id in s.sessions && s.sessions[id].status == Active && s'.sessions[id].status != Active ==>
               AnswersForUser(op, id)
    requires op.New? ==> op.pc == Creating && op.s.status == Active
    ensures UsersOk(s')
  {
    forall id ensures Owned(s', id) ==> Owned(s, id) {
      if Owned(s', id) {
        forall k | 0 <= k < |s.ops| ensures !Undone(s.ops[k], id) {
          assert s'.ops[k] == s.ops[k];
        }
      }
    }
    assert s'.ops[|s.ops|] == op;
    forall id | Answered(s, id) ensures Answered(s', id) {
      var k :| 0 <= k < |s.ops| && AnswersForUser(s.ops[k], id);
      assert AnswersForUser(s'.ops[k], id);
    }
    forall id | Owned(s, id) ensures Owned(s', id) || Answered(s', id) {
      if s'.sessions[id].status == Active {
        assert forall k :: 0 <= k < |s'.ops| ==> !Undone(s'.ops[k], id);
      }
    }
  }

  lemma StartReapUsers(s: State, order: seq<Id>)
    requires Wellformed(s) && UsersOk(s) && Visits(s, order)
    ensures UsersOk(Next(s, StartReap(order)))
  {
    var s' := Next(s, StartReap(order));
    forall id | id in order ensures id in s.sessions && s.sessions[id].id == id {
      assert DueIn(s.sessions, s.now, id);
    }
    var op := s'.ops[|s.ops|];
    forall id | id in s.sessions && s.sessions[id].status == Active && s'.sessions[id].status != Active
      ensures AnswersForUser(op, id)
    {
      var k :| 0 <= k < |order| && order[k] == id;
      assert op.batch[k].id == id && op.batch[k] in op.batch;
    }
    AppendUsers(s, s', op);
  }

  lemma UpdateUsers(s: State, id: Id, x: Session)
    requires UsersOk(s) && id in s.sessions && x.status == s.sessions[id].status
    ensures UsersOk(s.(sessions := s.sessions[id := x]))
  {
    var s' := s.(sessions := s.sessions[id := x]);
    assert forall d :: Owned(s', d) <==> Owned(s, d);
    assert forall d :: Answered(s', d) <==> Answered(s, d);
  }

  lemma TickUsers(s: State, t: Time)
    requires UsersOk(s)
    ensures UsersOk(s.(now := t))
  {
    var s' := s.(now := t);
    assert forall d :: Owned(s', d) <==> Owned(s, d);
    assert forall d :: Answered(s', d) <==> Answered(s, d);
  }

  lemma StartUsers(s: State, a: Action)
    requires Wellformed(s) && UsersOk(s) && Enabled(s, a) && (a.StartNew? || a.StartEnd? || a.StartPlayground?)
    ensures UsersOk(Next(s, a))
  {
    hide UsersOk;
    var s' := Next(s, a);
    var op := s'.ops[|s.ops|];
    assert s'.ops == s.ops + [op];
    AppendUsers(s, s', op);
  }

  lemma StepUsers(s: State, a: Action)
    requires Wellformed(s) && UsersOk(s) && Enabled(s, a)
    ensures UsersOk(Next(s, a))
  {
    hide NewStep, EndStep, ReapStep, Wellformed, UsersOk;
    match a
    case Tick(t) => TickUsers(s, t);
    case Verify(id, client, key) =>
      if id in s.sessions {
        CheckKeepsIdentity(s.sessions[id], s.now, client, key);
        UpdateUsers(s, id, Check(s.sessions[id], s.now, client, key).1);
      }
    case StartNew(_) => StartUsers(s, a);
    case StartEnd(_) => StartUsers(s, a);
    case StartPlayground(_, _) => StartUsers(s, a);
    case StartReap(order) => StartReapUsers(s, order);
    case Advance(i, ok) =>
      match s.ops[i]
      case New(x, pc) =>
        if BeforeRegistration(pc) { NewStepUsersBefore(s, i, ok); } else { NewStepUsersAfter(s, i, ok); }
      case End(t, pc) => EndStepUsers(s, i, ok);
      case Reap(batch, pc) => ReapStepUsers(s, i, ok);
      case Touch(pc) => SameAnswers(s, Next(s, a), i);
  }

  lemma {:induction false} RunUsers(s: State, actions: seq<Action>)
    requires Wellformed(s) && UsersOk(s) && Run(s, actions)
    ensures UsersOk(Final(s, actions))
    decreases |actions|
  {
    if actions != [] {
      StepWellformed(s, actions[0]);
      StepUsers(s, actions[0]);
      RunUsers(Next(s, actions[0]), actions[1..]);
    }
  }

  function ActiveIds(s: State): set<Id> {
    set id | id in s.sessions && s.sessions[id].status == Active
  }

  /** After every run: with nothing in flight every active session has its user, and every user
      without an active session is one that the server refused to drop. */
  lemma UsersAgree(s: State, actions: seq<Action>)
    requires Init(s) && Run(s, actions) && Quiescent(Final(s, actions))
    ensures var f := Final(s, actions); ActiveIds(f) <= f.users <= ActiveIds(f) + f.leakedUsers
    ensures var f := Final(s, actions); f.leakedUsers == {} ==> f.users == ActiveIds(f)
  {
    InitWellformed(s);
    InitUsers(s);
    RunUsers(s, actions);
    var f := Final(s, actions);
    forall id | id in ActiveIds(f) ensures Owned(f, id) {}
    forall id ensures !Answered(f, id) {}
  }
}
