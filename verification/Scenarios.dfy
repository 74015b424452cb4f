/** Whole operations run without interruption, and what the side conditions of the lifecycle
    theorems are needed for: from every quiescent state, a run that breaks the property. */
module Scenarios {
  import opened Address
  import opened Sessions
  import opened Lifecycle
  import opened Structure
  import RuleAgreement

  lemma {:induction false} RunConcat(s: State, a: seq<Action>, b: seq<Action>)
    requires Run(s, a)
    ensures Run(s, a + b) <==> Run(Final(s, a), b)
    ensures Final(s, a + b) == Final(Final(s, a), b)
    decreases |a|
  {
    if a == [] {
      assert a + b == b;
    } else {
      assert (a + b)[0] == a[0] && (a + b)[1..] == a[1..] + b;
      RunConcat(Next(s, a[0]), a[1..], b);
    }
  }

  /** `k` steps of operation `n`, all successful. */
  function Steps(n: nat, k: nat): seq<Action> {
    if k == 0 then [] else [Advance(n, true)] + Steps(n, k - 1)
  }

  lemma StepsTake(s: State, n: nat, k: nat, s': State)
    requires k > 0 && n < |s.ops| && s.ops[n] != Done && s' == Next(s, Advance(n, true))
    ensures Run(s, Steps(n, k)) <==> Run(s', Steps(n, k - 1))
    ensures Final(s, Steps(n, k)) == Final(s', Steps(n, k - 1))
  {
    assert Steps(n, k)[1..] == Steps(n, k - 1);
  }

  /** The state with the operations of `s` and one more. */
  function With(s: State, op: Op): State {
    s.(ops := s.ops + [op])
  }

  lemma WithMoves(s: State, op: Op, op': Op)
    ensures At(With(s, op), |s.ops|, op') == With(s, op')
  {
    assert (s.ops + [op])[|s.ops| := op'] == s.ops + [op'];
  }

  /** What New leaves behind when nothing fails and nothing interferes. */
  function NewDone(s: State, x: Session): State {
    s.(sessions := s.sessions[x.id := x], ops := s.ops + [Done], users := s.users + {x.id},
       rules := s.rules + {x.Rule()}, disk := s.sessions[x.id := x], used := s.used + {x.id},
       hist := s.hist + multiset{Returned(x.id)})
  }

  function NewActions(s: State, x: Session): seq<Action> {
    [StartNew(x)] + Steps(|s.ops|, 7)
  }

  lemma NewProvisions(s: State, x: Session)
    requires !x.cidr.Malformed?
    ensures var n, r := |s.ops|, s.(users := s.users + {x.id}, rules := s.rules + {x.Rule()});
            var s0 := With(s, New(x, Creating));
            && (Run(s0, Steps(n, 7)) <==> Run(With(r, New(x, Registering)), Steps(n, 3)))
            && Final(s0, Steps(n, 7)) == Final(With(r, New(x, Registering)), Steps(n, 3))
  {
    var n, u := |s.ops|, s.(users := s.users + {x.id});
    var r := u.(rules := s.rules + {x.Rule()});
    WithMoves(u, New(x, Creating), New(x, Granting));
    WithMoves(u, New(x, Granting), New(x, Flushing));
    WithMoves(u, New(x, Flushing), New(x, Allowing));
    WithMoves(r, New(x, Allowing), New(x, Registering));
    hide Run, Final, Steps;
    StepsTake(With(s, New(x, Creating)), n, 7, With(u, New(x, Granting)));
    StepsTake(With(u, New(x, Granting)), n, 6, With(u, New(x, Flushing)));
    StepsTake(With(u, New(x, Flushing)), n, 5, With(u, New(x, Allowing)));
    StepsTake(With(u, New(x, Allowing)), n, 4, With(r, New(x, Registering)));
  }

  lemma NewPersists(s: State, x: Session)
    ensures var n, m := |s.ops|, s.(sessions := s.sessions[x.id := x]);
            var f := Log(m.(disk := m.sessions, ops := s.ops + [Done]), Returned(x.id));
            Run(With(s, New(x, Registering)), Steps(n, 3)) && Final(With(s, New(x, Registering)), Steps(n, 3)) == f
  {
    var n, m := |s.ops|, s.(sessions := s.sessions[x.id := x]);
    var d := Log(m.(disk := m.sessions), Returned(x.id));
    WithMoves(m, New(x, Registering), New(x, Listing));
    WithMoves(m, New(x, Listing), New(x, Saving(m.sessions)));
    WithMoves(d, New(x, Saving(m.sessions)), Done);
    StepsTake(With(s, New(x, Registering)), n, 3, With(m, New(x, Listing)));
    StepsTake(With(m, New(x, Listing)), n, 2, With(m, New(x, Saving(m.sessions))));
    StepsTake(With(m, New(x, Saving(m.sessions))), n, 1, With(d, Done));
  }

  /** New, uninterrupted and with every call succeeding. */
  lemma NewAlone(s: State, x: Session)
    requires Enabled(s, StartNew(x)) && !x.cidr.Malformed?
    ensures Run(s, NewActions(s, x)) && Final(s, NewActions(s, x)) == NewDone(s, x)
  {
    var n, u := |s.ops|, s.(used := s.used + {x.id});
    var s1 := Next(s, StartNew(x));
    assert s1 == With(u, New(x, Creating));
    NewProvisions(u, x);
    NewPersists(u.(users := s.users + {x.id}, rules := s.rules + {x.Rule()}), x);
    assert NewActions(s, x)[1..] == Steps(n, 7);
  }

  /** What End leaves behind when nothing fails and nothing interferes. */
  function EndDone(s: State, a: Id): State
    requires a in s.sessions
  {
    var m := s.sessions[a := s.sessions[a].(status := Revoked)];
    s.(sessions := m, ops := s.ops + [Done], users := s.users - {s.sessions[a].id},
       rules := s.rules - {s.sessions[a].Rule()}, disk := m,
       hist := s.hist + multiset{EndMarked(a)} + multiset{Called(s.sessions[a].id)})
  }

  function EndActions(s: State, a: Id): seq<Action> {
    [StartEnd(a)] + Steps(|s.ops|, 4)
  }

  lemma EndRevokes(m: State, t: Target)
    ensures var n, r := |m.ops|, Log(m, Called(t.id)).(users := m.users - {t.id}, rules := m.rules - {t.rule});
            && (Run(With(m, End(t, Dropping)), Steps(n, 4)) <==> Run(With(r, End(t, Listing)), Steps(n, 2)))
            && Final(With(m, End(t, Dropping)), Steps(n, 4)) == Final(With(r, End(t, Listing)), Steps(n, 2))
  {
    var n, u := |m.ops|, Log(m, Called(t.id)).(users := m.users - {t.id});
    var r := u.(rules := m.rules - {t.rule});
    WithMoves(u, End(t, Dropping), End(t, Denying(true)));
    WithMoves(r, End(t, Denying(true)), End(t, Listing));
    hide Run, Final, Steps;
    StepsTake(With(m, End(t, Dropping)), n, 4, With(u, End(t, Denying(true))));
    StepsTake(With(u, End(t, Denying(true))), n, 3, With(r, End(t, Listing)));
  }

  lemma EndPersists(r: State, t: Target)
    ensures var n, d := |r.ops|, r.(disk := r.sessions);
            Run(With(r, End(t, Listing)), Steps(n, 2)) && Final(With(r, End(t, Listing)), Steps(n, 2)) == With(d, Done)
  {
    var n, d := |r.ops|, r.(disk := r.sessions);
    WithMoves(r, End(t, Listing), End(t, Saving(r.sessions)));
    WithMoves(d, End(t, Saving(r.sessions)), Done);
    StepsTake(With(r, End(t, Listing)), n, 2, With(r, End(t, Saving(r.sessions))));
    StepsTake(With(r, End(t, Saving(r.sessions))), n, 1, With(d, Done));
  }

  /** End, uninterrupted and with every call succeeding. */
  lemma EndAlone(s: State, a: Id)
    requires a in s.sessions
    ensures Run(s, EndActions(s, a)) && Final(s, EndActions(s, a)) == EndDone(s, a)
  {
    var t := TargetOf(s.sessions[a]);
    var m := Log(s.(sessions := s.sessions[a := s.sessions[a].(status := Revoked)]), EndMarked(a));
    assert Next(s, StartEnd(a)) == With(m, End(t, Dropping));
    assert EndActions(s, a)[0] == StartEnd(a) && EndActions(s, a)[1..] == Steps(|s.ops|, 4);
    EndRevokes(m, t);
    EndPersists(Log(m, Called(t.id)).(users := m.users - {t.id}, rules := m.rules - {t.rule}), t);
  }

  /** The rule condition is needed, in every quiescent state: start a session on a rule that some
      session of the map still names - even one long revoked - and ending that other session closes
      the rule under the new one, with no call having failed. */
  lemma SharedRuleBreaks(s: State, x: Session)
    requires Wellformed(s) && Quiescent(s) && Enabled(s, StartNew(x)) && !x.cidr.Malformed?
    requires !RuleAgreement.RuleIsFree(s, x.Rule())
    ensures exists run ::
              var f := Final(s, run);
              && Run(s, run) && Quiescent(f) && f.leakedRules == s.leakedRules
              && x.id in f.sessions && f.sessions[x.id].status == Active && x.Rule() !in f.rules
  {
    var t :| RuleAgreement.Claimed(s, t) && t.rule == x.Rule();
    var a := t.id;
    assert a in s.sessions && TargetOf(s.sessions[a]) == t;
    var s1 := NewDone(s, x);
    NewAlone(s, x);
    EndAlone(s1, a);
    var run := NewActions(s, x) + EndActions(s1, a);
    RunConcat(s, NewActions(s, x), EndActions(s1, a));
    assert a != x.id;
    var f := EndDone(s1, a);
    assert Final(s, run) == f && Quiescent(f);
  }
}
