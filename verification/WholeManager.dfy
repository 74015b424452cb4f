/** What the theorems about runs say of the objects: a manager, its activator and its server, after any
    number of operations called one after the other. */
module WholeManager {
  import opened Text
  import opened Address
  import opened Sessions
  import opened Access
  import opened Lifecycle
  import opened Provisioning
  import opened Managers
  import Agreement
  import F = RuleAgreement
  import Scenarios

  /** `s` has been reached from a matching start, and nothing is in flight. */
  ghost predicate Reached(start: State, s: State) {
    Init(start) && Quiescent(s) && exists run :: Run(start, run) && Final(start, run) == s
  }

  /** Another operation, called when the one before has returned. */
  lemma OperationsCompose(start: State, s: State, first: Action, acts: seq<Action>, t: State)
    requires Reached(start, s) && Alone(s, first, acts, t)
    ensures Reached(start, t)
  {
    var run :| Run(start, run) && Final(start, run) == s;
    AloneIsARun(s, first, acts, t);
    Scenarios.RunConcat(start, run, [first] + acts);
    assert Run(start, run + ([first] + acts)) && Final(start, run + ([first] + acts)) == t;
  }

  /** A call of VerifyAccess, or time that passes. */
  lemma StepsCompose(start: State, s: State, a: Action)
    requires Reached(start, s) && Enabled(s, a) && (a.Verify? || a.Tick?)
    ensures Reached(start, Next(s, a))
  {
    var run :| Run(start, run) && Final(start, run) == s;
    Extend(start, run, a);
    assert Run(start, run + [a]) && Final(start, run + [a]) == Next(s, a);
  }

  /** One call: a whole operation with its steps, or a single step. */
  datatype Call = Whole(first: Action, acts: seq<Action>) | Single(a: Action)

  /** The calls, one after the other, lead from `s` to `t`. */
  ghost predicate Calls(s: State, calls: seq<Call>, t: State)
    decreases |calls|
  {
    if calls == [] then s == t
    else match calls[0]
      case Whole(first, acts) => exists u :: Alone(s, first, acts, u) && Calls(u, calls[1..], t)
      case Single(a) => Enabled(s, a) && (a.Verify? || a.Tick?) && Calls(Next(s, a), calls[1..], t)
  }

  /** Any number of calls form one run of the protocol, so all that holds of runs holds of them. */
  lemma {:induction false} CallsAreOneRun(start: State, s: State, calls: seq<Call>, t: State)
    requires Reached(start, s) && Calls(s, calls, t)
    ensures Reached(start, t)
    decreases |calls|
  {
    hide Reached, Alone, Next, Enabled;
    if calls != [] {
      match calls[0]
      case Whole(first, acts) =>
        var u :| Alone(s, first, acts, u) && Calls(u, calls[1..], t);
        OperationsCompose(start, s, first, acts, u);
        CallsAreOneRun(start, u, calls[1..], t);
      case Single(a) =>
        StepsCompose(start, s, a);
        CallsAreOneRun(start, Next(s, a), calls[1..], t);
    }
  }

  /** A manager just constructed on what is stored, on a server and a firewall that have what the active
      sessions need and no more, is such a start. */
  lemma ConstructedIsStart(m: Manager, now: Time) returns (s: State)
    requires m.Valid() && m.Copies() == m.stored && m.Stampeds()
    requires m.hooks.db.accounts.Keys == set id | id in m.sessions && m.sessions[id].status == Active
    requires m.hooks.rules ==
               set id | id in m.sessions && m.sessions[id].status == Active :: m.sessions[id].View().Rule()
    ensures s.now == now && m.Represents(s) && Reached(s, s)
  {
    var map' := SessionsIn(m.Copies());
    s := State(map', [], m.hooks.db.accounts.Keys, m.hooks.rules, map', now, map'.Keys, {}, {}, multiset{});
    m.CopiesKeys();
    hide Session.Rule;
    assert map'.Keys == m.sessions.Keys;
    forall id | id in m.sessions ensures map'[id] == m.sessions[id].View() && map'[id].id == id {
      assert map'[id] == m.Copies()[id].s;
    }
    assert Run(s, []) && Final(s, []) == s;
  }

  /** Between two calls every active session object in the map has its MySQL user; and unless the server
      has refused to drop a user, no session but the active ones has one. */
  lemma ObjectsAgree(m: Manager, start: State, s: State)
    requires Reached(start, s) && m.Represents(s)
    ensures forall id :: id in m.sessions && m.sessions[id].status == Active ==> id in m.hooks.db.accounts
    ensures s.leakedUsers == {} ==>
              forall id :: id in m.hooks.db.accounts ==> id in m.sessions && m.sessions[id].status == Active
  {
    var run :| Run(start, run) && Final(start, run) == s;
    Agreement.UsersAgree(start, run);
    m.KnownIds(s);
    forall id | id in m.sessions ensures m.sessions[id].status == s.sessions[id].status {
      assert m.sessions[id].View() == s.sessions[id];
    }
  }

  /** Between two calls, when every New was called on a rule not in use and no rule was refused to be removed: the
      firewall lets an address in if and only if it is in the range of some active session object of the map. */
  lemma ObjectsLetIn(m: Manager, start: State, run: seq<Action>, s: State, x: Addr)
    requires F.DistinctInit(start) && F.ConsiderateRun(start, run) && Final(start, run) == s && Quiescent(s)
    requires m.Represents(s) && s.leakedRules == {} && ValidAddr(x)
    ensures OpenTo(m.hooks.rules, x) <==>
              exists id :: id in m.sessions && m.sessions[id].status == Active && InRange(m.sessions[id].cidr, Some(x))
  {
    hide OpenTo, F.ConsiderateRun, F.DistinctInit, InPrefix, Valid;
    F.FirewallAgrees(start, run, x);
    m.KnownIds(s);
    forall id | id in m.sessions
      ensures m.sessions[id].status == s.sessions[id].status && m.sessions[id].cidr == s.sessions[id].cidr
    {
      assert m.sessions[id].View() == s.sessions[id];
    }
    forall id ensures id in m.sessions <==> id in s.sessions {}
  }
}
