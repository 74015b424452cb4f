/** Firewall agreement: the open rules are those of the active sessions, provided that no session is
    ever started on a rule that another session of the map, or an operation in flight, still names. */
module RuleAgreement {
  import opened Address
  import opened Sessions
  import opened Lifecycle
  import opened Structure

  /** The operation carries this session's identity and rule. */
  predicate Names(op: Op, t: Target) {
    match op
    case New(x, _) => t == TargetOf(x)
    case End(u, _) => t == u
    case Reap(batch, _) => t in batch
    case _ => false
  }

  ghost predicate Claimed(s: State, t: Target) {
    || (t.id in s.sessions && TargetOf(s.sessions[t.id]) == t)
    || exists i :: 0 <= i < |s.ops| && Names(s.ops[i], t)
  }

  /** An active session, or one that New is working on. */
  ghost predicate Current(s: State, id: Id) {
    || (id in s.sessions && s.sessions[id].status == Active)
    || exists i :: 0 <= i < |s.ops| && s.ops[i].New? && s.ops[i].s.id == id
  }

  /** One session, one rule; and nobody else names the rule of a current session. Sessions that are long
      over may share theirs. */
  ghost predicate Distinct(s: State) {
    && (forall t, u :: Claimed(s, t) && Claimed(s, u) && t.id == u.id ==> t == u)
    && (forall t, u :: Claimed(s, t) && Claimed(s, u) && t.rule == u.rule && Current(s, t.id) ==> t == u)
  }

  /** What a caller of New can look up: the rule is not named by any session or operation. */
  ghost predicate RuleIsFree(s: State, r: Source) {
    forall t :: Claimed(s, t) ==> t.rule != r
  }

  /** New has closed the rule again and is about to withdraw the session. */
  predicate Withdrawn(op: Op, id: Id) {
    op.New? && op.s.id == id && op.pc == Unregistering
  }

  ghost predicate Owns(s: State, id: Id) {
    id in s.sessions && s.sessions[id].status == Active &&
    forall i :: 0 <= i < |s.ops| ==> !Withdrawn(s.ops[i], id)
  }

  ghost predicate OwnedRule(s: State, r: Source) {
    exists id :: Owns(s, id) && s.sessions[id].Rule() == r
  }

  predicate NeedsRule(op: Op, r: Source) {
    op.New? && op.pc == Registering && op.s.Rule() == r
  }

  predicate RuleInBatch(batch: seq<Target>, r: Source) {
    exists t :: t in batch && t.rule == r
  }

  /** The operation still has to close the rule, or to hand it to the map. */
  predicate AnswersForRule(op: Op, r: Source) {
    match op
    case New(x, pc) => x.Rule() == r && (pc == Registering || pc == Dropping || pc.Denying?)
    case End(t, pc) => t.rule == r && (pc == Dropping || pc.Denying?)
    case Reap(batch, pc) => (pc == Dropping || pc.Denying?) && RuleInBatch(batch, r)
    case _ => false
  }

  ghost predicate Answered(s: State, r: Source) {
    exists i :: 0 <= i < |s.ops| && AnswersForRule(s.ops[i], r)
  }

  ghost predicate RulesOk(s: State) {
    && (forall i :: 0 <= i < |s.ops| && s.ops[i].New? ==> s.ops[i].s.status == Active)
    && (forall r :: r in s.rules ==> r in s.leakedRules || OwnedRule(s, r) || Answered(s, r))
    && (forall id :: Owns(s, id) ==> s.sessions[id].Rule() in s.rules)
    && (forall i, r :: 0 <= i < |s.ops| && NeedsRule(s.ops[i], r) ==> r in s.rules)
  }

  ghost predicate DistinctInit(s: State) {
    Init(s) && Distinct(s)
  }

  lemma InitRules(s: State)
    requires Init(s)
    ensures RulesOk(s)
  {
    forall r | r in s.rules ensures OwnedRule(s, r) {
      var id :| id in s.sessions && s.sessions[id].status == Active && s.sessions[id].Rule() == r;
      assert Owns(s, id);
    }
  }

  /* ---- Claims only shrink, except when a New starts ---- */

  lemma ClaimsShrink(s: State, s': State)
    requires Distinct(s) && forall t :: Claimed(s', t) ==> Claimed(s, t)
    requires forall id :: Current(s', id) ==> Current(s, id)
    ensures Distinct(s')
  {
  }

  lemma MoveClaims(s: State, s': State, i: nat)
    requires Wellformed(s) && i < |s.ops| && |s'.ops| == |s.ops| && s'.ops == s.ops[i := s'.ops[i]]
    requires forall t :: Names(s'.ops[i], t) ==> Names(s.ops[i], t)
    requires forall id :: id in s'.sessions ==>
               (id in s.sessions && s'.sessions[id] == s.sessions[id])
               || (s.ops[i].New? && Names(s.ops[i], Target(id, s'.sessions[id].Rule())))
    requires forall id :: id in s'.sessions ==> s'.sessions[id].id == id
    requires s'.ops[i].New? ==> s.ops[i].New? && s'.ops[i].s == s.ops[i].s
    ensures forall t :: Claimed(s', t) ==> Claimed(s, t)
    ensures forall id :: Current(s', id) ==> Current(s, id)
  {
    forall id | Current(s', id) ensures Current(s, id) {
      if !(id in s'.sessions && s'.sessions[id].status == Active) {
        var k :| 0 <= k < |s'.ops| && s'.ops[k].New? && s'.ops[k].s.id == id;
        assert s.ops[k].New? && s.ops[k].s.id == id;
      }
    }
    forall t | Claimed(s', t) ensures Claimed(s, t) {
      if exists k :: 0 <= k < |s'.ops| && Names(s'.ops[k], t) {
        var k :| 0 <= k < |s'.ops| && Names(s'.ops[k], t);
        assert Names(s.ops[k], t);
      } else {
        assert t.id in s'.sessions && TargetOf(s'.sessions[t.id]) == t;
      }
    }
  }

  lemma NewStepClaims(s: State, i: nat, ok: bool)
    requires Wellformed(s) && Distinct(s) && i < |s.ops| && s.ops[i].New?
    ensures Distinct(NewStep(s, i, s.ops[i].s, s.ops[i].pc, ok))
  {
    NewStepMoves(s, i, s.ops[i].s, s.ops[i].pc, ok);
    hide NewStep, Distinct, Claimed;
    var s' := NewStep(s, i, s.ops[i].s, s.ops[i].pc, ok);
    MoveClaims(s, s', i);
    ClaimsShrink(s, s');
  }

  lemma OtherStepClaims(s: State, s': State, i: nat)
    requires Wellformed(s) && Distinct(s) && i < |s.ops| && |s'.ops| == |s.ops| && s'.ops == s.ops[i := s'.ops[i]]
    requires s'.sessions == s.sessions
    requires forall t :: Names(s'.ops[i], t) ==> Names(s.ops[i], t)
    requires !s'.ops[i].New?
    ensures Distinct(s')
  {
    hide Distinct, Claimed, Current;
    MoveClaims(s, s', i);
    ClaimsShrink(s, s');
  }

  lemma AdvanceClaims(s: State, i: nat, ok: bool)
    requires Wellformed(s) && Distinct(s) && i < |s.ops|
    ensures Distinct(Next(s, Advance(i, ok)))
  {
    hide Wellformed, Distinct, NewStep, EndStep, ReapStep, TouchStep;
    match s.ops[i]
    case New(_, _) => NewStepClaims(s, i, ok);
    case End(t, pc) =>
      EndStepNames(s, i, t, pc, ok);
      OtherStepClaims(s, EndStep(s, i, t, pc, ok), i);
    case Reap(batch, pc) =>
      ReapStepNames(s, i, batch, pc, ok);
      OtherStepClaims(s, ReapStep(s, i, batch, pc, ok), i);
    case Touch(pc) =>
      TouchStepNames(s, i, pc, ok);
      OtherStepClaims(s, TouchStep(s, i, pc, ok), i);
    case Done =>
  }

  /** An operation under way names what it named, or less. */
  ghost predicate NamesLess(s: State, s': State, i: nat) {
    && i < |s.ops| && |s'.ops| == |s.ops| && s'.ops == s.ops[i := s'.ops[i]] && s'.sessions == s.sessions
    && (forall t :: Names(s'.ops[i], t) ==> Names(s.ops[i], t)) && !s'.ops[i].New?
  }

  lemma EndStepNames(s: State, i: nat, t: Target, pc: Pc, ok: bool)
    requires i < |s.ops| && s.ops[i] == End(t, pc)
    ensures NamesLess(s, EndStep(s, i, t, pc, ok), i)
  {
  }

  lemma ReapStepNames(s: State, i: nat, batch: seq<Target>, pc: Pc, ok: bool)
    requires i < |s.ops| && s.ops[i] == Reap(batch, pc)
    ensures NamesLess(s, ReapStep(s, i, batch, pc, ok), i)
  {
  }

  lemma TouchStepNames(s: State, i: nat, pc: Pc, ok: bool)
    requires i < |s.ops| && s.ops[i] == Touch(pc)
    ensures NamesLess(s, TouchStep(s, i, pc, ok), i)
  {
  }

  lemma AppendClaims(s: State, s': State, op: Op)
    requires s'.ops == s.ops + [op]
    requires forall id :: id in s'.sessions ==>
               id in s.sessions
               && s'.sessions[id].id == s.sessions[id].id && s'.sessions[id].cidr == s.sessions[id].cidr
               && (s'.sessions[id].status == Active ==> s.sessions[id].status == Active)
    ensures forall t :: Claimed(s', t) ==> Claimed(s, t) || Names(op, t)
    ensures forall id :: Current(s', id) ==> Current(s, id) || (op.New? && op.s.id == id)
  {
    forall id | Current(s', id) ensures Current(s, id) || (op.New? && op.s.id == id) {
      if !(id in s'.sessions && s'.sessions[id].status == Active) {
        var k :| 0 <= k < |s'.ops| && s'.ops[k].New? && s'.ops[k].s.id == id;
        if k < |s.ops| { assert s.ops[k].New? && s.ops[k].s.id == id; }
      }
    }
    forall t | Claimed(s', t) ensures Claimed(s, t) || Names(op, t) {
      if exists k :: 0 <= k < |s'.ops| && Names(s'.ops[k], t) {
        var k :| 0 <= k < |s'.ops| && Names(s'.ops[k], t);
        if k < |s.ops| { assert Names(s.ops[k], t); }
      }
    }
  }

  lemma SameClaims(s: State, s': State)
    requires s'.ops == s.ops
    requires forall id :: id in s'.sessions ==>
               id in s.sessions
               && s'.sessions[id].id == s.sessions[id].id && s'.sessions[id].cidr == s.sessions[id].cidr
               && (s'.sessions[id].status == Active ==> s.sessions[id].status == Active)
    ensures forall t :: Claimed(s', t) ==> Claimed(s, t)
    ensures forall id :: Current(s', id) ==> Current(s, id)
  {
  }

  lemma ClaimsAreUsed(s: State, t: Target)
    requires Wellformed(s) && Claimed(s, t)
    ensures t.id in s.used
  {
    if exists i :: 0 <= i < |s.ops| && Names(s.ops[i], t) {
      var i :| 0 <= i < |s.ops| && Names(s.ops[i], t);
      if s.ops[i].New? { NewFacts(s, i); } else { assert Revokes(s.ops[i], t.id) && Retired(s, t.id); }
    }
  }

  lemma StartNewClaims(s: State, x: Session)
    requires Wellformed(s) && Distinct(s) && Enabled(s, StartNew(x))
    requires x.cidr.Malformed? || RuleIsFree(s, x.Rule())
    ensures Distinct(Next(s, StartNew(x)))
  {
    var s' := Next(s, StartNew(x));
    var op := s'.ops[|s.ops|];
    AppendClaims(s, s', op);
    forall t | Claimed(s, t) ensures t.id != x.id { ClaimsAreUsed(s, t); }
    assert forall t :: Names(op, t) ==> t == TargetOf(x);
  }

  lemma StartReapClaims(s: State, order: seq<Id>)
    requires Wellformed(s) && Distinct(s) && Visits(s, order)
    ensures Distinct(Next(s, StartReap(order)))
  {
    var s' := Next(s, StartReap(order));
    forall id | id in order ensures id in s.sessions && s.sessions[id].id == id {
      assert DueIn(s.sessions, s.now, id);
    }
    var op := s'.ops[|s.ops|];
    AppendClaims(s, s', op);
    forall t | Names(op, t) ensures Claimed(s, t) {
      var k :| 0 <= k < |op.batch| && op.batch[k] == t;
      assert t == TargetOf(s.sessions[order[k]]) && order[k] in order;
    }
    ClaimsShrink(s, s');
  }

  /** A New may start only on a free rule. */
  ghost predicate Considerate(s: State, a: Action) {
    a.StartNew? ==> a.s.cidr.Malformed? || RuleIsFree(s, a.s.Rule())
  }

  lemma StepDistinct(s: State, a: Action)
    requires Wellformed(s) && Distinct(s) && Enabled(s, a) && Considerate(s, a)
    ensures Distinct(Next(s, a))
  {
    hide Distinct, Claimed;
    var s' := Next(s, a);
    match a
    case Tick(t) =>
      SameClaims(s, s');
      ClaimsShrink(s, s');
    case Verify(id, client, key) =>
      if id in s.sessions { CheckKeepsIdentity(s.sessions[id], s.now, client, key); }
      SameClaims(s, s');
      ClaimsShrink(s, s');
    case StartNew(x) => StartNewClaims(s, x);
    case StartEnd(id) =>
      AppendClaims(s, s', s'.ops[|s.ops|]);
      StartTargets(s, a);
      ClaimsShrink(s, s');
    case StartReap(order) => StartReapClaims(s, order);
    case StartPlayground(id, db) =>
      AppendClaims(s, s', s'.ops[|s.ops|]);
      StartTargets(s, a);
      ClaimsShrink(s, s');
    case Advance(i, ok) => AdvanceClaims(s, i, ok);
  }

  lemma StartTargets(s: State, a: Action)
    requires Wellformed(s) && (a.StartEnd? || a.StartPlayground?)
    ensures var s' := Next(s, a);
            s'.ops == s.ops + [s'.ops[|s.ops|]] && !s'.ops[|s.ops|].New?
            && forall t :: Names(s'.ops[|s.ops|], t) ==> Claimed(s, t)
  {
  }

  /* ---- Rules ---- */

  /** A rule that is named at all belongs to at most one current session, and then only that one names it. */
  lemma NobodyElse(s: State, t: Target)
    requires Wellformed(s) && Distinct(s) && Claimed(s, t)
    ensures forall id :: id in s.sessions && s.sessions[id].status == Active && s.sessions[id].Rule() == t.rule ==>
              id == t.id
    ensures forall i :: 0 <= i < |s.ops| && s.ops[i].New? && s.ops[i].s.Rule() == t.rule ==> s.ops[i].s.id == t.id
  {
    forall id | id in s.sessions && s.sessions[id].status == Active && s.sessions[id].Rule() == t.rule
      ensures id == t.id
    {
      assert s.sessions[id].id == id && Claimed(s, TargetOf(s.sessions[id]));
    }
    forall i | 0 <= i < |s.ops| && s.ops[i].New? && s.ops[i].s.Rule() == t.rule ensures s.ops[i].s.id == t.id {
      assert Names(s.ops[i], TargetOf(s.ops[i].s)) && Claimed(s, TargetOf(s.ops[i].s));
      assert Current(s, s.ops[i].s.id);
    }
  }

  lemma OwnsMove(s: State, s': State, i: nat, id: Id)
    requires i < |s.ops| && |s'.ops| == |s.ops| && s'.ops == s.ops[i := s'.ops[i]]
    requires id in s.sessions <==> id in s'.sessions
    requires id in s.sessions ==> s'.sessions[id].status == s.sessions[id].status
    requires !Withdrawn(s.ops[i], id) && !Withdrawn(s'.ops[i], id)
    ensures Owns(s', id) <==> Owns(s, id)
  {
    if Owns(s, id) {
      assert forall k :: 0 <= k < |s'.ops| ==> !Withdrawn(s'.ops[k], id);
    }
    if Owns(s', id) {
      forall k | 0 <= k < |s.ops| ensures !Withdrawn(s.ops[k], id) {
        assert k != i ==> s'.ops[k] == s.ops[k];
      }
    }
  }

  /** A step of operation `i` that deals only with the rule and the session of `t`. */
  lemma MoveRules(s: State, s': State, i: nat, t: Target)
    requires Wellformed(s) && Distinct(s) && RulesOk(s)
    requires i < |s.ops| && |s'.ops| == |s.ops| && s'.ops == s.ops[i := s'.ops[i]]
    requires Claimed(s, t)
    requires s'.ops[i].New? ==> s.ops[i].New? && s'.ops[i].s == s.ops[i].s
    requires s.ops[i].New? ==> TargetOf(s.ops[i].s) == t
    requires s.leakedRules <= s'.leakedRules
    requires forall r :: r != t.rule ==> (r in s'.rules <==> r in s.rules)
    requires forall id :: id != t.id ==> (id in s'.sessions <==> id in s.sessions)
    requires forall id :: id != t.id && id in s.sessions ==> s'.sessions[id] == s.sessions[id]
    requires t.id in s.sessions ==> s.sessions[t.id].Rule() == t.rule
    requires t.id in s'.sessions ==> s'.sessions[t.id].Rule() == t.rule
    requires forall r :: r != t.rule && AnswersForRule(s.ops[i], r) ==> AnswersForRule(s'.ops[i], r)
    requires t.rule in s'.rules ==> t.rule in s'.leakedRules || Owns(s', t.id) || Answered(s', t.rule)
    requires Owns(s', t.id) ==> t.rule in s'.rules
    requires forall k :: 0 <= k < |s'.ops| && NeedsRule(s'.ops[k], t.rule) ==> t.rule in s'.rules
    ensures RulesOk(s')
  {
    NobodyElse(s, t);
    forall id | id != t.id ensures Owns(s', id) <==> Owns(s, id) { OwnsMove(s, s', i, id); }
    forall r | r in s'.rules && r != t.rule
      ensures r in s'.leakedRules || OwnedRule(s', r) || Answered(s', r)
    {
      if Answered(s, r) {
        var k :| 0 <= k < |s.ops| && AnswersForRule(s.ops[k], r);
        assert AnswersForRule(s'.ops[k], r);
      } else if OwnedRule(s, r) {
        var id :| Owns(s, id) && s.sessions[id].Rule() == r;
        assert Owns(s', id) && s'.sessions[id].Rule() == r;
      }
    }
    forall id | Owns(s', id) && id != t.id ensures s'.sessions[id].Rule() in s'.rules {
      assert Owns(s, id) && s.sessions[id].Rule() != t.rule;
    }
    forall k, r | 0 <= k < |s'.ops| && NeedsRule(s'.ops[k], r) && r != t.rule ensures r in s'.rules {
      assert k != i;
      assert NeedsRule(s.ops[k], r);
    }
  }

  lemma OthersAnswerRule(s: State, s': State, i: nat, r: Source)
    requires i < |s.ops| && |s'.ops| == |s.ops| && s'.ops == s.ops[i := s'.ops[i]]
    requires Answered(s, r)
    ensures Answered(s', r) || AnswersForRule(s.ops[i], r)
  {
    var k :| 0 <= k < |s.ops| && AnswersForRule(s.ops[k], r);
    assert k != i ==> AnswersForRule(s'.ops[k], r);
  }

  /** While New works on a session, the map holds that session with the same rule, if at all. */
  lemma NewRule(s: State, i: nat)
    requires Wellformed(s) && Distinct(s) && i < |s.ops| && s.ops[i].New?
    ensures var x := s.ops[i].s;
            && Claimed(s, TargetOf(x))
            && (x.id in s.sessions ==> s.sessions[x.id].Rule() == x.Rule())
            && (forall k :: 0 <= k < |s.ops| && k != i ==> !Withdrawn(s.ops[k], x.id) && !NeedsRule(s.ops[k], x.Rule()))
  {
    var x := s.ops[i].s;
    assert Names(s.ops[i], TargetOf(x));
    if x.id in s.sessions {
      assert s.sessions[x.id].id == x.id && Claimed(s, TargetOf(s.sessions[x.id]));
    }
    NobodyElse(s, TargetOf(x));
    NewIdsDiffer(s, i);
  }

  /** Before New opens its rule, nothing else has: nobody answers for it. */
  lemma FreshRuleUnanswered(s: State, i: nat)
    requires Wellformed(s) && Distinct(s) && i < |s.ops| && s.ops[i].New? && BeforeRegistration(s.ops[i].pc)
    ensures forall k :: 0 <= k < |s.ops| && k != i ==> !AnswersForRule(s.ops[k], s.ops[i].s.Rule())
    ensures s.ops[i].s.id !in s.sessions
  {
    var x := s.ops[i].s;
    NewRule(s, i);
    NewFacts(s, i);
    NewIdsDiffer(s, i);
    FreshUnrevoked(s, i);
    assert Current(s, x.id);
    forall k | 0 <= k < |s.ops| && k != i ensures !AnswersForRule(s.ops[k], x.Rule()) {
      if AnswersForRule(s.ops[k], x.Rule()) {
        AnswererRevokes(s, k, x);
      }
    }
  }

  lemma AnswererRevokes(s: State, k: nat, x: Session)
    requires Distinct(s) && Claimed(s, TargetOf(x)) && Current(s, x.id)
    requires k < |s.ops| && AnswersForRule(s.ops[k], x.Rule())
    ensures if s.ops[k].New? then s.ops[k].s.id == x.id else Revokes(s.ops[k], x.id)
  {
    match s.ops[k]
    case New(y, pc) => assert Names(s.ops[k], TargetOf(y)) && Claimed(s, TargetOf(y));
    case End(t, pc) => assert Names(s.ops[k], t) && Claimed(s, t);
    case Reap(batch, pc) =>
      var t :| t in batch && t.rule == x.Rule();
      assert Names(s.ops[k], t) && Claimed(s, t);
  }

  lemma NewStepRules(s: State, i: nat, ok: bool)
    requires Wellformed(s) && Distinct(s) && RulesOk(s) && i < |s.ops| && s.ops[i].New?
    ensures RulesOk(NewStep(s, i, s.ops[i].s, s.ops[i].pc, ok))
  {
    var x, pc := s.ops[i].s, s.ops[i].pc;
    var s' := NewStep(s, i, x, pc, ok);
    NewRule(s, i);
    NewStepMoves(s, i, x, pc, ok);
    NewFacts(s, i);
    if BeforeRegistration(pc) { FreshRuleUnanswered(s, i); }
    hide Wellformed, Distinct, Claimed;
    if AnswersForRule(s'.ops[i], x.Rule()) {
      assert Answered(s', x.Rule());
    } else if Answered(s, x.Rule()) {
      OthersAnswerRule(s, s', i, x.Rule());
    }
    RuleOwner(s, i, x.Rule());
    MoveRules(s, s', i, TargetOf(x));
  }

  /** If somebody owns the rule of a New, it is the session of that New. */
  lemma RuleOwner(s: State, i: nat, r: Source)
    requires Wellformed(s) && Distinct(s) && i < |s.ops| && s.ops[i].New? && s.ops[i].s.Rule() == r
    ensures OwnedRule(s, r) ==> Owns(s, s.ops[i].s.id)
  {
    NewRule(s, i);
    NobodyElse(s, TargetOf(s.ops[i].s));
  }

  /** An End or a reap batch closes only rules that no active session and no New relies on. */
  lemma RevokedRule(s: State, i: nat, t: Target)
    requires Wellformed(s) && Distinct(s) && i < |s.ops| && !s.ops[i].New? && Names(s.ops[i], t)
    ensures Claimed(s, t)
    ensures t.id in s.sessions ==> s.sessions[t.id].status != Active && s.sessions[t.id].Rule() == t.rule
    ensures forall k :: 0 <= k < |s.ops| ==> !NeedsRule(s.ops[k], t.rule)
    ensures !OwnedRule(s, t.rule)
  {
    assert Revokes(s.ops[i], t.id) && Retired(s, t.id);
    NobodyElse(s, t);
    if t.id in s.sessions {
      assert s.sessions[t.id].id == t.id && Claimed(s, TargetOf(s.sessions[t.id]));
    }
    forall k | 0 <= k < |s.ops| ensures !NeedsRule(s.ops[k], t.rule) {
      assert !PreNew(s.ops[k], t.id);
    }
  }

  lemma RuleAfterDeny(s: State, s': State, i: nat, r: Source)
    requires RulesOk(s) && i < |s.ops| && |s'.ops| == |s.ops| && s'.ops == s.ops[i := s'.ops[i]]
    requires s.leakedRules <= s'.leakedRules && (r in s'.rules ==> r in s.rules) && !OwnedRule(s, r)
    requires AnswersForRule(s.ops[i], r) ==> AnswersForRule(s'.ops[i], r) || r !in s'.rules || r in s'.leakedRules
    ensures r in s'.rules ==> r in s'.leakedRules || Answered(s', r)
  {
    if r in s'.rules && r !in s.leakedRules {
      OthersAnswerRule(s, s', i, r);
      assert AnswersForRule(s'.ops[i], r) ==> Answered(s', r);
    }
  }

  lemma EndStepRules(s: State, i: nat, ok: bool)
    requires Wellformed(s) && Distinct(s) && RulesOk(s) && i < |s.ops| && s.ops[i].End?
    ensures RulesOk(EndStep(s, i, s.ops[i].t, s.ops[i].pc, ok))
  {
    hide Wellformed, Distinct, RulesOk, Claimed, Answered;
    var t := s.ops[i].t;
    var s' := EndStep(s, i, t, s.ops[i].pc, ok);
    assert s'.ops == s.ops[i := s'.ops[i]];
    RevokedRule(s, i, t);
    RuleAfterDeny(s, s', i, t.rule);
    MoveRules(s, s', i, t);
  }

  lemma ReapStepRules(s: State, i: nat, ok: bool)
    requires Wellformed(s) && Distinct(s) && RulesOk(s) && i < |s.ops| && s.ops[i].Reap?
    ensures RulesOk(ReapStep(s, i, s.ops[i].batch, s.ops[i].pc, ok))
  {
    hide Wellformed, Distinct, RulesOk, Claimed, Answered;
    var batch, pc := s.ops[i].batch, s.ops[i].pc;
    var s' := ReapStep(s, i, batch, pc, ok);
    assert s'.ops == s.ops[i := s'.ops[i]];
    if pc.Denying? && batch != [] {
      ReapDenyRules(s, i, ok);
    } else {
      SameRules(s, s', i);
    }
  }

  lemma ReapDenyRules(s: State, i: nat, ok: bool)
    requires Wellformed(s) && Distinct(s) && RulesOk(s) && i < |s.ops| && s.ops[i].Reap?
    requires s.ops[i].pc.Denying? && s.ops[i].batch != []
    ensures RulesOk(ReapStep(s, i, s.ops[i].batch, s.ops[i].pc, ok))
  {
    hide Wellformed, Distinct, RulesOk, Claimed, Answered;
    var batch, pc := s.ops[i].batch, s.ops[i].pc;
    var s' := ReapStep(s, i, batch, pc, ok);
    assert s'.ops == s.ops[i := s'.ops[i]];
    RevokedRule(s, i, batch[0]);
    RuleBatchTail(batch);
    RuleAfterDeny(s, s', i, batch[0].rule);
    MoveRules(s, s', i, batch[0]);
  }

  lemma RuleBatchTail(batch: seq<Target>)
    requires batch != []
    ensures forall r :: RuleInBatch(batch, r) && r != batch[0].rule ==> RuleInBatch(batch[1..], r)
    ensures |batch| == 1 ==> batch[1..] == []
  {
    forall r | RuleInBatch(batch, r) && r != batch[0].rule ensures RuleInBatch(batch[1..], r) {
      var t :| t in batch && t.rule == r;
      assert t in batch[1..];
    }
  }

  lemma SameRules(s: State, s': State, i: nat)
    requires RulesOk(s) && i < |s.ops| && |s'.ops| == |s.ops| && s'.ops == s.ops[i := s'.ops[i]]
    requires !s.ops[i].New? && !s'.ops[i].New?
    requires s'.rules == s.rules && s'.sessions == s.sessions && s.leakedRules == s'.leakedRules
    requires forall r :: AnswersForRule(s.ops[i], r) ==> AnswersForRule(s'.ops[i], r)
    ensures RulesOk(s')
  {
    forall id ensures Owns(s', id) <==> Owns(s, id) { OwnsMove(s, s', i, id); }
    forall r | Answered(s, r) ensures Answered(s', r) {
      OthersAnswerRule(s, s', i, r);
      assert AnswersForRule(s.ops[i], r) ==> AnswersForRule(s'.ops[i], r);
    }
    forall r | OwnedRule(s, r) ensures OwnedRule(s', r) {
      var id :| Owns(s, id) && s.sessions[id].Rule() == r;
      assert Owns(s', id) && s'.sessions[id].Rule() == r;
    }
  }

  /** A step that appends an operation which answers for the rule of whatever stops being active. */
  lemma AppendRules(s: State, s': State, op: Op)
    requires RulesOk(s) && s'.ops == s.ops + [op] && s'.rules == s.rules && s'.leakedRules == s.leakedRules
    requires s'.sessions.Keys == s.sessions.Keys
    requires forall id :: id in s.sessions ==> s'.sessions[id].cidr == s.sessions[id].cidr
    requires forall id :: id in s.sessions && s'.sessions[id].status == Active ==> s.sessions[id].status == Active
    requires forall id :: id in s.sessions && s.sessions[id].status == Active && s'.sessions[id].status != Active ==>
               AnswersForRule(op, s.sessions[id].Rule())
    requires op.New? ==> op.pc == Creating && op.s.status == Active
    ensures RulesOk(s')
  {
    assert s'.ops[|s.ops|] == op;
    forall id | Owns(s', id) ensures Owns(s, id) {
      forall k | 0 <= k < |s.ops| ensures !Withdrawn(s.ops[k], id) {
        assert s'.ops[k] == s.ops[k];
      }
    }
    forall r | Answered(s, r) ensures Answered(s', r) {
      var k :| 0 <= k < |s.ops| && AnswersForRule(s.ops[k], r);
      assert AnswersForRule(s'.ops[k], r);
    }
    forall r | OwnedRule(s, r) ensures OwnedRule(s', r) || Answered(s', r) {
      var id :| Owns(s, id) && s.sessions[id].Rule() == r;
      if s'.sessions[id].status == Active {
        assert forall k :: 0 <= k < |s'.ops| ==> !Withdrawn(s'.ops[k], id);
        assert Owns(s', id) && s'.sessions[id].Rule() == r;
      } else {
        assert AnswersForRule(s'.ops[|s.ops|], r);
      }
    }
  }

  lemma StartRules(s: State, a: Action)
    requires Wellformed(s) && RulesOk(s) && Enabled(s, a) && (a.StartNew? || a.StartEnd? || a.StartPlayground?)
    ensures RulesOk(Next(s, a))
  {
    hide RulesOk;
    var s' := Next(s, a);
    var op := s'.ops[|s.ops|];
    assert s'.ops == s.ops + [op];
    AppendRules(s, s', op);
  }

  lemma StartReapRules(s: State, order: seq<Id>)
    requires Wellformed(s) && RulesOk(s) && Visits(s, order)
    ensures RulesOk(Next(s, StartReap(order)))
  {
    var s' := Next(s, StartReap(order));
    forall id | id in order ensures id in s.sessions && s.sessions[id].id == id {
      assert DueIn(s.sessions, s.now, id);
    }
    var op := s'.ops[|s.ops|];
    forall id | id in s.sessions && s.sessions[id].status == Active && s'.sessions[id].status != Active
      ensures AnswersForRule(op, s.sessions[id].Rule())
    {
      var k :| 0 <= k < |order| && order[k] == id;
      assert op.batch[k] == TargetOf(s.sessions[id]) && op.batch[k] in op.batch;
    }
    AppendRules(s, s', op);
  }

  /** A change of a session that leaves its status and its range alone. */
  lemma UpdateRules(s: State, s': State)
    requires RulesOk(s) && s'.ops == s.ops && s'.rules == s.rules && s'.leakedRules == s.leakedRules
    requires s'.sessions.Keys == s.sessions.Keys
    requires forall id :: id in s.sessions ==>
               s'.sessions[id].status == s.sessions[id].status && s'.sessions[id].cidr == s.sessions[id].cidr
    ensures RulesOk(s')
  {
    assert forall d :: Owns(s', d) <==> Owns(s, d);
    assert forall r :: Answered(s', r) <==> Answered(s, r);
    forall r | OwnedRule(s, r) ensures OwnedRule(s', r) {
      var id :| Owns(s, id) && s.sessions[id].Rule() == r;
      assert Owns(s', id) && s'.sessions[id].Rule() == r;
    }
  }

  lemma StepRules(s: State, a: Action)
    requires Wellformed(s) && Distinct(s) && RulesOk(s) && Enabled(s, a)
    ensures RulesOk(Next(s, a))
  {
    hide NewStep, EndStep, ReapStep, Wellformed, Distinct, RulesOk;
    match a
    case Tick(t) => UpdateRules(s, Next(s, a));
    case Verify(id, client, key) =>
      if id in s.sessions {
        CheckKeepsIdentity(s.sessions[id], s.now, client, key);
        UpdateRules(s, Next(s, a));
      }
    case StartNew(_) => StartRules(s, a);
    case StartEnd(_) => StartRules(s, a);
    case StartPlayground(_, _) => StartRules(s, a);
    case StartReap(order) => StartReapRules(s, order);
    case Advance(i, ok) =>
      match s.ops[i]
      case New(x, pc) => NewStepRules(s, i, ok);
      case End(t, pc) => EndStepRules(s, i, ok);
      case Reap(batch, pc) => ReapStepRules(s, i, ok);
      case Touch(pc) => SameRules(s, Next(s, a), i);
  }

  /** A run in which every New starts on a free rule. */
  ghost predicate ConsiderateRun(s: State, actions: seq<Action>)
    decreases |actions|
  {
    actions == [] ||
    (Enabled(s, actions[0]) && Considerate(s, actions[0]) && ConsiderateRun(Next(s, actions[0]), actions[1..]))
  }

  lemma {:induction false} RunRules(s: State, actions: seq<Action>)
    requires Wellformed(s) && Distinct(s) && RulesOk(s) && ConsiderateRun(s, actions)
    ensures RulesOk(Final(s, actions))
    decreases |actions|
  {
    if actions != [] {
      StepWellformed(s, actions[0]);
      StepDistinct(s, actions[0]);
      StepRules(s, actions[0]);
      RunRules(Next(s, actions[0]), actions[1..]);
    }
  }

  function ActiveRules(s: State): set<Source> {
    set id | id in s.sessions && s.sessions[id].status == Active :: s.sessions[id].Rule()
  }

  /** After every such run, with nothing in flight: every active session's rule is open, and every
      other open rule is one whose removal failed. */
  lemma RulesAgree(s: State, actions: seq<Action>)
    requires DistinctInit(s) && ConsiderateRun(s, actions) && Quiescent(Final(s, actions))
    ensures var f := Final(s, actions); ActiveRules(f) <= f.rules <= ActiveRules(f) + f.leakedRules
    ensures var f := Final(s, actions); f.leakedRules == {} ==> f.rules == ActiveRules(f)
  {
    InitWellformed(s);
    InitRules(s);
    RunRules(s, actions);
    var f := Final(s, actions);
    forall id | id in f.sessions && f.sessions[id].status == Active ensures Owns(f, id) {}
    forall r ensures !Answered(f, r) {}
  }

  /** The address is in the range of an active session. */
  ghost predicate Served(s: State, x: Addr) {
    exists id :: id in s.sessions && s.sessions[id].status == Active
                 && Valid(s.sessions[id].cidr) && InPrefix(s.sessions[id].cidr, x)
  }

  /** After every such run, with nothing in flight: the firewall lets in every address in the range of an
      active session, and unless the removal of a rule failed no other address at all. */
  lemma FirewallAgrees(s: State, actions: seq<Action>, x: Addr)
    requires DistinctInit(s) && ConsiderateRun(s, actions) && Quiescent(Final(s, actions)) && ValidAddr(x)
    ensures Served(Final(s, actions), x) ==> OpenTo(Final(s, actions).rules, x)
    ensures Final(s, actions).leakedRules == {} ==>
              (OpenTo(Final(s, actions).rules, x) <==> Served(Final(s, actions), x))
  {
    RulesAgree(s, actions);
    ActiveRulesServe(Final(s, actions), x);
    OpenToMore(ActiveRules(Final(s, actions)), Final(s, actions).rules, x);
  }

  lemma OpenToMore(rules: set<Source>, more: set<Source>, x: Addr)
    requires rules <= more
    ensures OpenTo(rules, x) ==> OpenTo(more, x)
  {
  }

  lemma ActiveRulesServe(s: State, x: Addr)
    requires ValidAddr(x)
    ensures OpenTo(ActiveRules(s), x) <==> Served(s, x)
  {
    hide LetsIn, RuleOf, InPrefix, Valid, ValidAddr;
    forall id | id in s.sessions && s.sessions[id].status == Active
      ensures s.sessions[id].Rule() in ActiveRules(s)
      ensures LetsIn(s.sessions[id].Rule(), x) <==> Valid(s.sessions[id].cidr) && InPrefix(s.sessions[id].cidr, x)
    {
      RuleIsTheRange(s.sessions[id].cidr, x);
    }
  }
}
