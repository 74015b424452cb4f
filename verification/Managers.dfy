/** session.Manager: the map of session objects, updated in place, and its operations run one at a time.
    Each operation is proved to be an uninterrupted run of the step protocol. */
module Managers {
  import opened Text
  import opened Address
  import opened Sessions
  import opened Access
  import opened Lifecycle
  import opened Provisioning
  import A = Accounts

  /** NewManager's loop over a saved list: a later entry replaces an earlier one with the same id. */
  function FromList(list: seq<Saved>): map<Id, Saved> {
    if list == [] then map[]
    else var last := list[|list| - 1];
         FromList(list[..|list| - 1])[last.s.id := last]
  }

  lemma FromListNone()
    ensures FromList([]) == map[]
  {
  }

  lemma FromListAppend(list: seq<Saved>, x: Saved)
    ensures FromList(list + [x]) == FromList(list)[x.s.id := x]
  {
    assert (list + [x])[..|list|] == list;
  }

  ghost predicate DistinctIds(list: seq<Saved>) {
    forall i, j :: 0 <= i < j < |list| ==> list[i].s.id != list[j].s.id
  }

  /** A list with exactly one entry for each key of `m` outside `rest`. */
  ghost predicate Collected(list: seq<Saved>, m: map<Id, Saved>, rest: set<Id>) {
    && DistinctIds(list)
    && (forall i :: 0 <= i < |list| ==> list[i].s.id in m && list[i].s.id !in rest)
    && (forall id :: id in FromList(list) <==> id in m && id !in rest)
    && (forall id :: id in FromList(list) ==> FromList(list)[id] == m[id])
  }

  lemma CollectNone(m: map<Id, Saved>, rest: set<Id>)
    requires m.Keys <= rest
    ensures Collected([], m, rest)
  {
  }

  lemma Collect(list: seq<Saved>, m: map<Id, Saved>, rest: set<Id>, id: Id)
    requires Collected(list, m, rest) && id in rest
    requires id in m ==> m[id].s.id == id
    ensures Collected(if id in m then list + [m[id]] else list, m, rest - {id})
  {
    if id in m {
      FromListAppend(list, m[id]);
    }
  }

  lemma CollectAll(list: seq<Saved>, m: map<Id, Saved>)
    requires Collected(list, m, {})
    ensures FromList(list) == m && DistinctIds(list)
  {
  }

  function SessionsIn(saved: map<Id, Saved>): map<Id, Session> {
    map id | id in saved :: saved[id].s
  }

  /** Every session of `order` has expired. */
  function Marked(m: map<Id, Saved>, order: seq<Id>): map<Id, Saved> {
    map id | id in m :: if id in order then m[id].(s := m[id].s.(status := Expired)) else m[id]
  }

  lemma MarkedNone(m: map<Id, Saved>)
    ensures Marked(m, []) == m
  {
  }

  lemma MarkedKeys(m: map<Id, Saved>, order: seq<Id>)
    ensures Marked(m, order).Keys == m.Keys
  {
  }

  lemma MarkedSnoc(m: map<Id, Saved>, order: seq<Id>, id: Id)
    requires id in m && id !in order
    ensures id in Marked(m, order) && Marked(m, order)[id] == m[id]
    ensures Marked(m, order + [id]) == Marked(m, order)[id := m[id].(s := m[id].s.(status := Expired))]
  {
  }

  /** A session whose time is over by `now`, and which is still active, expires; no other does. */
  function StatusAfterReap(s: Session, now: Time): Status {
    if s.status == Active && s.expiresAt <= now then Expired else s.status
  }

  lemma MarkedExactly(m: map<Id, Saved>, order: seq<Id>, now: Time)
    requires forall id :: id in order <==> id in m && m[id].s.Due(now)
    ensures forall id :: id in m ==> Marked(m, order)[id].s.status == StatusAfterReap(m[id].s, now)
  {
  }

  lemma SessionsInUpdate(m: map<Id, Saved>, id: Id, x: Saved)
    ensures SessionsIn(m[id := x]) == SessionsIn(m)[id := x.s]
  {
  }

  lemma SessionsInRemove(m: map<Id, Saved>, id: Id)
    ensures SessionsIn(m - {id}) == SessionsIn(m) - {id}
  {
  }

  /** An operation of the protocol, run without interruption from `s` to its end at `t`. */
  ghost predicate Alone(s: State, first: Action, acts: seq<Action>, t: State) {
    Enabled(s, first) && Leads(Next(s, first), |s.ops|, acts, t) && t.ops == s.ops + [Done]
  }

  /** What one call of the revoke hook does to users and rules. */
  function Released(s: State, t: Target, dropOk: bool, denyOk: bool): State {
    s.(users := if dropOk then s.users - {t.id} else s.users, rules := if denyOk then s.rules - {t.rule} else s.rules)
  }

  /** The two steps of persist, whichever operation takes them. */
  lemma SaveFollowsProtocol(s: State, n: nat, acts: seq<Action>, t: State, ok: bool)
      returns (acts': seq<Action>, t': State)
    requires Leads(s, n, acts, t) && n < |t.ops|
    requires t.ops[n].Touch? || t.ops[n].End? || t.ops[n].Reap?
    requires t.ops[n].pc == Listing
    ensures Leads(s, n, acts', t')
    ensures t' == t.(disk := if ok then t.sessions else t.disk, ops := t.ops[n := Done])
  {
    hide Run, Final, StepsOf;
    acts', t' := Advances(s, n, acts, t, true);
    acts', t' := Advances(s, n, acts', t', ok);
  }

  lemma ReleasedSessions(s: State, m: map<Id, Session>, t: Target, dropOk: bool, denyOk: bool)
    ensures Released(s.(sessions := m), t, dropOk, denyOk) == Released(s, t, dropOk, denyOk).(sessions := m)
  {
  }

  lemma EndFollowsProtocol(s: State, id: Id, dropOk: bool, denyOk: bool, saveOk: bool)
      returns (acts: seq<Action>, t: State)
    ensures Alone(s, StartEnd(id), acts, t)
    ensures id !in s.sessions ==> t == s.(ops := s.ops + [Done])
    ensures id in s.sessions ==>
      var m := s.sessions[id := s.sessions[id].(status := Revoked)];
      var r := Released(s, TargetOf(s.sessions[id]), dropOk, denyOk);
      && t.sessions == m && t.users == r.users && t.rules == r.rules
      && t.disk == if dropOk && denyOk && saveOk then m else s.disk
  {
    hide Run, Final, StepsOf, NewStep, ReapStep, TouchStep, EndStep, Check, RuleOf, Targets, SetStatus;
    var s1, n := Next(s, StartEnd(id)), |s.ops|;
    acts, t := Start(s1, n);
    if id in s.sessions {
      acts, t := HookFollowsProtocol(s1, n, acts, t, TargetOf(s.sessions[id]), dropOk, denyOk);
      if dropOk && denyOk {
        acts, t := SaveFollowsProtocol(s1, n, acts, t, saveOk);
      }
    }
  }

  /** The two steps of End's call of the revoke hook. */
  lemma HookFollowsProtocol(s: State, n: nat, acts: seq<Action>, t: State, target: Target, dropOk: bool, denyOk: bool)
      returns (acts': seq<Action>, t': State)
    requires Leads(s, n, acts, t) && n < |t.ops| && t.ops[n] == End(target, Dropping)
    ensures Leads(s, n, acts', t')
    ensures var r := Released(t, target, dropOk, denyOk);
      && t'.sessions == t.sessions && t'.disk == t.disk && t'.users == r.users && t'.rules == r.rules
      && t'.ops == t.ops[n := if dropOk && denyOk then End(target, Listing) else Done]
  {
    hide Run, Final, StepsOf, NewStep, ReapStep, TouchStep, Check, RuleOf, Targets, SetStatus;
    acts', t' := Advances(s, n, acts, t, dropOk);
    acts', t' := Advances(s, n, acts', t', denyOk);
  }

  lemma PlaygroundFollowsProtocol(s: State, id: Id, db: string, saveOk: bool) returns (acts: seq<Action>, t: State)
    ensures Alone(s, StartPlayground(id, db), acts, t)
    ensures id !in s.sessions ==> t == s.(ops := s.ops + [Done])
    ensures id in s.sessions ==>
      var m := s.sessions[id := s.sessions[id].(playgroundDB := db)];
      t == s.(sessions := m, ops := s.ops + [Done], disk := if saveOk then m else s.disk)
  {
    hide Run, Final, StepsOf;
    var s1, n := Next(s, StartPlayground(id, db)), |s.ops|;
    acts, t := Start(s1, n);
    if id in s.sessions {
      acts, t := SaveFollowsProtocol(s1, n, acts, t, saveOk);
    }
  }

  /** Where the reaper stands after `i` of its batch. */
  function ReapAt(batch: seq<Target>, i: nat): Op
    requires i <= |batch|
  {
    if batch == [] then Done else Reap(batch[i..], if i == |batch| then Listing else Dropping)
  }

  lemma ReapOneFollowsProtocol(s: State, n: nat, acts: seq<Action>, t: State, batch: seq<Target>, i: nat,
                               dropOk: bool, denyOk: bool) returns (acts': seq<Action>, t': State)
    requires Leads(s, n, acts, t) && i < |batch| && n < |t.ops| && t.ops[n] == ReapAt(batch, i)
    ensures Leads(s, n, acts', t')
    ensures var r := Released(t, batch[i], dropOk, denyOk);
      && t'.sessions == t.sessions && t'.disk == t.disk && t'.users == r.users && t'.rules == r.rules
      && t'.ops == t.ops[n := ReapAt(batch, i + 1)]
  {
    hide Run, Final, StepsOf;
    assert batch[i..][0] == batch[i] && batch[i..][1..] == batch[i + 1..];
    acts', t' := Advances(s, n, acts, t, dropOk);
    acts', t' := Advances(s, n, acts', t', denyOk);
  }

  lemma MarkingIsSetStatus(m: map<Id, Saved>, order: seq<Id>)
    ensures SessionsIn(Marked(m, order)) == Lifecycle.SetStatus(SessionsIn(m), (set id | id in order), Expired)
  {
  }

  lemma StartReapBooks(s: State, order: seq<Id>)
    requires forall id :: id in order ==> id in s.sessions
    ensures var t := Next(s, StartReap(order));
      && t == s.(sessions := Lifecycle.SetStatus(s.sessions, (set id | id in order), Expired),
                 ops := t.ops, hist := t.hist)
      && t.ops == s.ops + [ReapAt(Targets(s.sessions, order), 0)]
  {
  }

  lemma TargetsAre(m: map<Id, Session>, order: seq<Id>)
    requires forall id :: id in order ==> id in m
    ensures |Targets(m, order)| == |order|
    ensures forall k :: 0 <= k < |order| ==> order[k] in m && Targets(m, order)[k] == TargetOf(m[order[k]])
  {
  }

  lemma CheckKeepsId(s: Session, now: Time, client: Option<Addr>, key: KeyCheck)
    ensures Check(s, now, client, key).1.id == s.id
    ensures Check(s, now, client, key).0 != NotFound
  {
  }

  /** Whether Provision succeeds, as the protocol sees it. */
  predicate Provisions(s: State, x: Session, luck: A.Luck, allowed: bool) {
    CanProvision(x) && x.id !in s.users && luck.create && luck.grant && luck.flush && allowed
  }

  function Provisioned(s: State, x: Session, luck: A.Luck, allowed: bool): State {
    s.(users := if CanProvision(x) then ProvisionedUsers(s.users, x.id, luck, allowed) else s.users,
       rules := if Provisions(s, x, luck, allowed) then s.rules + {x.Rule()} else s.rules)
  }

  /** What a New whose calls come out like this leaves in the four parts that are visible. */
  function AfterNew(s: State, x: Session, luck: A.Luck, allowed: bool, saveOk: bool, dropOk: bool, denyOk: bool)
    : State
  {
    var p := Provisioned(s, x, luck, allowed);
    if Provisions(s, x, luck, allowed) then AfterRegister(p, x, saveOk, dropOk, denyOk) else p
  }

  function AfterRegister(s: State, x: Session, saveOk: bool, dropOk: bool, denyOk: bool): State {
    var m := s.sessions[x.id := x];
    if saveOk then s.(sessions := m, disk := m)
    else Released(s, TargetOf(x), dropOk, denyOk).(sessions := m - {x.id})
  }

  /** New's steps once the session is provisioned. */
  lemma RegisterFollowsProtocol(s: State, n: nat, acts: seq<Action>, t: State, x: Session, saveOk: bool, dropOk: bool,
                                denyOk: bool) returns (acts': seq<Action>, t': State)
    requires Leads(s, n, acts, t) && n < |t.ops| && t.ops[n] == New(x, Registering)
    ensures Leads(s, n, acts', t') && t'.ops == t.ops[n := Done]
    ensures var b := AfterRegister(t, x, saveOk, dropOk, denyOk);
            t'.sessions == b.sessions && t'.disk == b.disk && t'.users == b.users && t'.rules == b.rules
  {
    hide Run, Final, StepsOf, RuleOf, EndStep, ReapStep, TouchStep, Check, SetStatus, Targets;
    acts', t' := Advances(s, n, acts, t, true);
    acts', t' := Advances(s, n, acts', t', true);
    acts', t' := Advances(s, n, acts', t', saveOk);
    if !saveOk {
      acts', t' := UndoFollowsProtocol(s, n, acts', t', x, dropOk, denyOk);
    }
  }

  /** New's steps once saving has failed. */
  lemma UndoFollowsProtocol(s: State, n: nat, acts: seq<Action>, t: State, x: Session, dropOk: bool, denyOk: bool)
      returns (acts': seq<Action>, t': State)
    requires Leads(s, n, acts, t) && n < |t.ops| && t.ops[n] == New(x, Dropping)
    ensures Leads(s, n, acts', t') && t'.ops == t.ops[n := Done]
    ensures var b := Released(t, TargetOf(x), dropOk, denyOk).(sessions := t.sessions - {x.id});
            t'.sessions == b.sessions && t'.disk == b.disk && t'.users == b.users && t'.rules == b.rules
  {
    hide Run, Final, StepsOf, RuleOf, EndStep, ReapStep, TouchStep, Check, SetStatus, Targets;
    acts', t' := Advances(s, n, acts, t, dropOk);
    acts', t' := Advances(s, n, acts', t', denyOk);
    acts', t' := Advances(s, n, acts', t', true);
  }

  lemma NewFollowsProtocol(s: State, x: Session, luck: A.Luck, allowed: bool, saveOk: bool, dropOk: bool, denyOk: bool)
      returns (acts: seq<Action>, t: State)
    requires Enabled(s, StartNew(x)) && (CanProvision(x) || x.cidr.Malformed?)
    ensures Alone(s, StartNew(x), acts, t)
    ensures var b := AfterNew(s, x, luck, allowed, saveOk, dropOk, denyOk);
            t.sessions == b.sessions && t.disk == b.disk && t.users == b.users && t.rules == b.rules
  {
    var s1, n := Next(s, StartNew(x)), |s.ops|;
    acts, t := Start(s1, n);
    hide Run, Final, Leads, RuleOf, EndStep, ReapStep, TouchStep, NewStep, Check, SetStatus, Targets;
    if !x.cidr.Malformed? {
      acts, t := ProvisionFollowsProtocol(s1, n, x, luck, allowed);
      if Provisions(s, x, luck, allowed) {
        acts, t := RegisterFollowsProtocol(s1, n, acts, t, x, saveOk, dropOk, denyOk);
      }
    }
  }

  lemma AloneIsARun(s: State, first: Action, acts: seq<Action>, t: State)
    requires Alone(s, first, acts, t)
    ensures Run(s, [first] + acts) && Final(s, [first] + acts) == t
  {
    assert ([first] + acts)[1..] == acts;
  }

  datatype EndResult = Unknown | RevokeFailed | Ended(saved: bool)

  /** `order` are the sessions of `m` outside `rest` that are due, each once. */
  ghost predicate Picked(m: map<Id, Saved>, rest: set<Id>, order: seq<Id>, now: Time) {
    && (forall id :: id in order <==> id in m && id !in rest && m[id].s.Due(now))
    && (forall i, j :: 0 <= i < j < |order| ==> order[i] != order[j])
  }

  lemma PickNone(m: map<Id, Saved>, now: Time)
    ensures Picked(m, m.Keys, [], now)
  {
  }

  lemma Pick(m: map<Id, Saved>, rest: set<Id>, order: seq<Id>, now: Time, id: Id)
    requires Picked(m, rest, order, now) && id in rest && id in m
    ensures id !in order && Picked(m, rest - {id}, if m[id].s.Due(now) then order + [id] else order, now)
  {
  }

  lemma PickAll(m: map<Id, Saved>, order: seq<Id>, now: Time)
    requires Picked(m, {}, order, now)
    ensures forall id :: id in order <==> id in m && m[id].s.Due(now)
    ensures forall i, j :: 0 <= i < j < |order| ==> order[i] != order[j]
  {
  }

  class Manager {
    var sessions: map<Id, Record>
    const hooks: Activator
    var stored: map<Id, Saved>  // the store: what LoadAll would return

    ghost predicate Valid()
      reads this, sessions.Values
    {
      forall id :: id in sessions ==> sessions[id].id == id
    }

    /** This manager, its activator and its store are in the protocol state `s`. */
    ghost predicate Represents(s: State)
      reads this, sessions.Values, hooks, hooks.db
    {
      && Valid() && SessionsIn(Copies()) == s.sessions && SessionsIn(stored) == s.disk && hooks.Matches(s)
      && Stampeds()
    }

    ghost predicate Stampeds()
      reads this, sessions.Values
    {
      forall id :: id in sessions ==> sessions[id].Stamped()
    }

    /** NewManager: what has been saved is loaded, each session into an object of its own. */
    constructor (hooks: Activator, list: seq<Saved>)
      ensures Valid() && fresh(sessions.Values) && this.hooks == hooks
      ensures stored == FromList(list) && Copies() == FromList(list)
    {
      this.hooks := hooks;
      sessions := map[];
      stored := FromList(list);
      new;
      hide FromList;
      FromListNone();
      for i := 0 to |list|
        invariant Valid() && fresh(sessions.Values) && stored == FromList(list)
        invariant Copies() == FromList(list[..i])
      {
        assert list[..i + 1] == list[..i] + [list[i]];
        FromListAppend(list[..i], list[i]);
        Load(list[i]);
      }
      assert list[..|list|] == list;
    }

    method Load(x: Saved)
      requires Valid()
      modifies this`sessions
      ensures Valid() && fresh(sessions.Values - old(sessions.Values))
      ensures Copies() == old(Copies())[x.s.id := x]
    {
      var s := new Record(x.s, x.credentials);
      sessions := sessions[s.id := s];
    }

    ghost function Copies(): map<Id, Saved>
      reads this, sessions.Values
    {
      map id | id in sessions :: sessions[id].Copy()
    }

    /** persist's loop: one copy of each session, in the order the map is visited. */
    method Snapshot() returns (list: seq<Saved>)
      requires Valid()
      ensures FromList(list) == Copies() && DistinctIds(list)
    {
      hide Collected, FromList, DistinctIds;
      list := [];
      var rest := sessions.Keys;
      ghost var m := Copies();
      CollectNone(m, rest);
      while rest != {}
        invariant rest <= sessions.Keys && Collected(list, m, rest)
        decreases |rest|
      {
        var id :| id in rest;
        Collect(list, m, rest, id);
        rest := rest - {id};
        list := list + [sessions[id].Copy()];
      }
      CollectAll(list, m);
    }

    method Persist(ok: bool)
      requires Valid()
      modifies this`stored
      ensures stored == if ok then Copies() else old(stored)
    {
      var list := Snapshot();
      if ok {
        stored := FromList(list);
      }
    }

    /** The checks of VerifyAccess, in the order of the source, on the session that was found. */
    method CheckAccess(s: Record, client: Option<Addr>, key: KeyCheck, now: Time) returns (r: Outcome)
      modifies s
      ensures (r, s.View()) == Check(old(s.View()), now, client, key)
      ensures ClientOk(client) ==> (r == Granted <==> Grants(old(s.View()), now, client, key))
      ensures s.credentials == old(s.credentials)
    {
      if ClientOk(client) {
        OutcomeExactly(s.View(), now, client, key);
      }
      hide Grants, ClientOk;
      if !s.View().IsLive(now) {
        return NotLive;
      }
      if s.failedAttempts >= MAX_FAILED_ATTEMPTS && now - s.lastAttempt < LOCKOUT_WINDOW {
        return LockedOut;
      }
      if !s.View().Admits(client) {
        s.failedAttempts := s.failedAttempts + 1;
        s.lastAttempt := now;
        return IPRejected;
      }
      if key == UnreadableHash {
        return HashError;
      }
      if key == WrongKey {
        s.failedAttempts := s.failedAttempts + 1;
        s.lastAttempt := now;
        return BadKey;
      }
      s.failedAttempts := 0;
      return Granted;
    }

    /** VerifyAccess, given whether the address can be read and what comparing the key gives: it is the
        protocol's Verify step, and hands out the session in the map exactly when access is granted. */
    method VerifyAccess(id: Id, client: Option<Addr>, key: KeyCheck, now: Time, ghost s: State)
      returns (r: Outcome, granted: Option<Record>)
      requires Represents(s) && s.now == now
      modifies sessions.Values
      ensures Represents(Next(s, Verify(id, client, key)))
      ensures r == if id in s.sessions then Check(s.sessions[id], now, client, key).0 else NotFound
      ensures ClientOk(client) ==>
                (r == Granted <==> id in sessions && Grants(old(sessions[id].View()), now, client, key))
      ensures granted == if r == Granted then Some(sessions[id]) else None
    {
      hide Check, A.TempUserOk, SessionsIn, Grants, ClientOk;
      KnownIds(s);
      if id !in sessions {
        return NotFound, None;
      }
      var rec := sessions[id];
      ghost var checked := Check(rec.View(), now, client, key).1;
      SessionsInUpdate(Copies(), id, Saved(checked, rec.credentials));
      ghost var before := Copies();
      r := CheckAccess(rec, client, key, now);
      CheckKeepsId(s.sessions[id], now, client, key);
      assert Copies() == before[id := Saved(checked, rec.credentials)];
      granted := if r == Granted then Some(rec) else None;
    }

    /** The locked section of reap: mark what is due, and collect it. `order` are its ids. */
    method MarkExpired(now: Time) returns (expired: seq<Record>, ghost order: seq<Id>)
      requires Valid()
      modifies sessions.Values
      ensures forall id :: id in order <==> id in old(Copies()) && old(Copies())[id].s.Due(now)
      ensures forall i, j :: 0 <= i < j < |order| ==> order[i] != order[j]
      ensures |expired| == |order|
      ensures forall i :: 0 <= i < |order| ==> order[i] in sessions && expired[i] == sessions[order[i]]
      ensures Copies() == Marked(old(Copies()), order)
      ensures forall id :: id in sessions ==> sessions[id].status == StatusAfterReap(old(sessions[id].View()), now)
      ensures old(Stampeds()) ==> Stampeds()
    {
      hide Marked, Picked, Copies, Stampeds, Session.Due, RuleOf, A.TempUserOk, StatusAfterReap;
      expired, order := [], [];
      var rest := sessions.Keys;
      ghost var m := Copies();
      CopiesKeys();
      PickNone(m, now);
      MarkedNone(m);
      while rest != {}
        invariant rest <= sessions.Keys && Picked(m, rest, order, now)
        invariant |expired| == |order|
        invariant forall i :: 0 <= i < |order| ==> order[i] in sessions && expired[i] == sessions[order[i]]
        invariant Copies() == Marked(m, order)
        invariant old(Stampeds()) ==> Stampeds()
        decreases |rest|
      {
        var id :| id in rest;
        CopiesKeys();
        MarkedKeys(m, order);
        Pick(m, rest, order, now, id);
        MarkedSnoc(m, order, id);
        if sessions[id].View().Due(now) {
          SetStatus(id, Expired);
          expired, order := expired + [sessions[id]], order + [id];
        }
        rest := rest - {id};
      }
      PickAll(m, order, now);
      MarkedExactly(m, order, now);
      CopiesKeys();
    }

    lemma CopiesKeys()
      ensures Copies().Keys == sessions.Keys
      ensures forall id :: id in sessions ==> Copies()[id] == sessions[id].Copy()
    {
    }

    /** ActiveSession: some live session, or none when there is none. */
    method ActiveSession(now: Time) returns (r: Option<Record>)
      ensures r.Some? ==> r.value in sessions.Values && r.value.status == Active && now < r.value.expiresAt
      ensures r.None? ==> forall id :: id in sessions ==> sessions[id].status != Active || now >= sessions[id].expiresAt
    {
      var rest := sessions.Keys;
      while rest != {}
        invariant rest <= sessions.Keys
        invariant forall id :: id in sessions && id !in rest ==> !sessions[id].View().IsLive(now)
        decreases |rest|
      {
        var id :| id in rest;
        if sessions[id].View().IsLive(now) {
          return Some(sessions[id]);
        }
        rest := rest - {id};
      }
      return None;
    }

    ghost function LiveCopies(now: Time): map<Id, Saved>
      reads this, sessions.Values
    {
      map id | id in sessions && sessions[id].status == Active && now < sessions[id].expiresAt :: sessions[id].Copy()
    }

    /** ActiveSessions: one copy of every live session, and of nothing else. */
    method ActiveSessions(now: Time) returns (list: seq<Saved>)
      requires Valid()
      ensures FromList(list) == LiveCopies(now) && DistinctIds(list)
    {
      hide Collected, FromList, DistinctIds;
      list := [];
      var rest := sessions.Keys;
      ghost var m := LiveCopies(now);
      CollectNone(m, rest);
      while rest != {}
        invariant rest <= sessions.Keys && Collected(list, m, rest)
        decreases |rest|
      {
        var id :| id in rest;
        Collect(list, m, rest, id);
        rest := rest - {id};
        if sessions[id].View().IsLive(now) {
          list := list + [sessions[id].Copy()];
        }
      }
      CollectAll(list, m);
    }

    /** Only these four parts of a protocol state are visible here. */
    lemma SameBooks(s: State, t: State)
      requires Represents(s)
      requires s.sessions == t.sessions && s.disk == t.disk && s.users == t.users && s.rules == t.rules
      ensures Represents(t)
    {
    }

    lemma KnownIds(s: State)
      requires Represents(s)
      ensures sessions.Keys == s.sessions.Keys
      ensures forall id :: id in sessions ==> sessions[id].View() == s.sessions[id] && s.sessions[id].id == id
    {
      assert Copies().Keys == sessions.Keys && SessionsIn(Copies()).Keys == Copies().Keys;
    }

    /** One field of one object is assigned: the map sees it, and nothing else changes. */
    method SetStatus(id: Id, status: Status)
      requires Valid() && id in sessions
      modifies sessions[id]
      ensures Copies() == old(Copies())[id := old(Copies())[id].(s := old(Copies())[id].s.(status := status))]
      ensures old(Stampeds()) ==> Stampeds()
    {
      sessions[id].status := status;
    }

    method SetPlayground(id: Id, db: string)
      requires Valid() && id in sessions
      modifies sessions[id]
      ensures Copies() == old(Copies())[id := old(Copies())[id].(s := old(Copies())[id].s.(playgroundDB := db))]
      ensures old(Stampeds()) ==> Stampeds()
    {
      sessions[id].playgroundDB := db;
    }

    /** The locked section of End. */
    method MarkRevoked(id: Id, ghost s: State)
      requires Represents(s) && id in sessions
      modifies sessions[id]
      ensures Represents(s.(sessions := s.sessions[id := s.sessions[id].(status := Revoked)]))
    {
      hide Stampeds;
      SessionsInUpdate(Copies(), id, Copies()[id].(s := Copies()[id].s.(status := Revoked)));
      SetStatus(id, Revoked);
    }

    /** The hook, for a session whose user is there to drop. */
    method CallRevoke(rec: Record, dropOk: bool, denyOk: bool, ghost s: State) returns (failed: bool)
      requires Represents(s) && rec.Stamped()
      modifies hooks, hooks.db
      ensures failed <==> !dropOk || !denyOk
      ensures Represents(Released(s, TargetOf(rec.View()), dropOk, denyOk))
    {
      var errors := hooks.Revoke(rec, dropOk, denyOk);
      failed := errors != [];
    }

    method Save(ok: bool, ghost s: State)
      requires Represents(s)
      modifies this`stored
      ensures Represents(s.(disk := if ok then s.sessions else s.disk))
    {
      Persist(ok);
    }

    /** End, run alone, is the protocol's End run alone. */
    method End(id: Id, dropOk: bool, denyOk: bool, saveOk: bool, ghost s: State)
      returns (r: EndResult, ghost acts: seq<Action>, ghost t: State)
      requires Represents(s)
      modifies this`stored, sessions.Values, hooks, hooks.db
      ensures Alone(s, StartEnd(id), acts, t) && Represents(t)
      ensures r == if id !in s.sessions then Unknown else if dropOk && denyOk then Ended(saveOk) else RevokeFailed
    {
      KnownIds(s);
      assert id in sessions ==> sessions[id].Stamped();
      acts, t := EndFollowsProtocol(s, id, dropOk, denyOk, saveOk);
      if id !in sessions {
        SameBooks(s, t);
        return Unknown, acts, t;
      }
      hide *;
      var rec := sessions[id];
      MarkRevoked(id, s);
      ghost var marked := s.(sessions := s.sessions[id := s.sessions[id].(status := Revoked)]);
      var failed := CallRevoke(rec, dropOk, denyOk, marked);
      ghost var dropped := Released(marked, TargetOf(s.sessions[id]), dropOk, denyOk);
      if failed {
        SameBooks(dropped, t);
        return RevokeFailed, acts, t;
      }
      Save(saveOk, dropped);
      SameBooks(dropped.(disk := if saveOk then dropped.sessions else dropped.disk), t);
      return Ended(saveOk), acts, t;
    }

    /** SetPlaygroundDB with the lock it is meant to have: released before the save. */
    method SetPlaygroundDB(id: Id, db: string, saveOk: bool, ghost s: State)
      returns (found: bool, ghost acts: seq<Action>, ghost t: State)
      requires Represents(s)
      modifies this`stored, sessions.Values
      ensures Alone(s, StartPlayground(id, db), acts, t) && Represents(t)
      ensures found <==> id in s.sessions
    {
      KnownIds(s);
      acts, t := PlaygroundFollowsProtocol(s, id, db, saveOk);
      if id !in sessions {
        SameBooks(s, t);
        return false, acts, t;
      }
      hide *;
      SessionsInUpdate(Copies(), id, Copies()[id].(s := Copies()[id].s.(playgroundDB := db)));
      SetPlayground(id, db);
      ghost var named := s.(sessions := s.sessions[id := s.sessions[id].(playgroundDB := db)]);
      assert Represents(named);
      Save(saveOk, named);
      SameBooks(named.(disk := if saveOk then named.sessions else named.disk), t);
      return true, acts, t;
    }

    /** The locked section of reap. */
    method MarkDue(now: Time, ghost s: State) returns (expired: seq<Record>, ghost order: seq<Id>)
      requires Represents(s) && now <= s.now
      modifies sessions.Values
      ensures VisitsAt(s, order, now) && Visits(s, order)
      ensures Represents(s.(sessions := Lifecycle.SetStatus(s.sessions, (set id | id in order), Expired)))
      ensures |expired| == |order| && forall k :: 0 <= k < |order| ==> order[k] in s.sessions
      ensures forall k :: 0 <= k < |order| ==>
        expired[k].Stamped() && TargetOf(expired[k].View()) == TargetOf(s.sessions[order[k]])
      ensures forall id :: id in sessions ==> sessions[id].status == StatusAfterReap(old(sessions[id].View()), now)
    {
      hide Next, Lifecycle.SetStatus, SessionsIn, Targets, ReapMarks, A.TempUserOk, RuleOf, StatusAfterReap;
      KnownIds(s);
      ghost var before := Copies();
      expired, order := MarkExpired(now);
      MarkingIsSetStatus(before, order);
    }

    /** reap's loop over what it collected; the revoke errors are ignored. */
    method RevokeAll(expired: seq<Record>, dropOk: Id -> bool, denyOk: Id -> bool,
                     ghost s: State, ghost n: nat, ghost batch: seq<Target>)
      returns (ghost acts: seq<Action>, ghost t: State)
      requires Represents(s) && |expired| == |batch| && n < |s.ops| && s.ops[n] == ReapAt(batch, 0)
      requires forall k :: 0 <= k < |batch| ==> expired[k].Stamped() && TargetOf(expired[k].View()) == batch[k]
      modifies hooks, hooks.db
      ensures Represents(t) && Leads(s, n, acts, t) && t.ops == s.ops[n := ReapAt(batch, |batch|)]
    {
      hide Next, Leads, Represents, TargetOf, Record.Stamped;
      acts, t := Start(s, n);
      for i := 0 to |expired|
        invariant Leads(s, n, acts, t) && Represents(t) && t.ops == s.ops[n := ReapAt(batch, i)]
      {
        var failed := CallRevoke(expired[i], dropOk(expired[i].id), denyOk(expired[i].id), t);
        ghost var r := Released(t, batch[i], dropOk(expired[i].id), denyOk(expired[i].id));
        acts, t := ReapOneFollowsProtocol(s, n, acts, t, batch, i, dropOk(expired[i].id), denyOk(expired[i].id));
        SameBooks(r, t);
      }
    }

    /** reap from the moment the sessions are marked. */
    method RevokeAndSave(expired: seq<Record>, dropOk: Id -> bool, denyOk: Id -> bool, saveOk: bool,
                         ghost s: State, ghost n: nat, ghost batch: seq<Target>)
      returns (ghost acts: seq<Action>, ghost t: State)
      requires Represents(s) && |expired| == |batch| && n < |s.ops| && s.ops[n] == ReapAt(batch, 0)
      requires forall k :: 0 <= k < |batch| ==> expired[k].Stamped() && TargetOf(expired[k].View()) == batch[k]
      modifies this`stored, hooks, hooks.db
      ensures Represents(t) && Leads(s, n, acts, t) && t.ops == s.ops[n := Done]
    {
      hide Next, Represents, Leads, TargetOf, Record.Stamped;
      acts, t := RevokeAll(expired, dropOk, denyOk, s, n, batch);
      if |expired| > 0 {
        Save(saveOk, t);
        ghost var kept := t.(disk := if saveOk then t.sessions else t.disk);
        acts, t := SaveFollowsProtocol(s, n, acts, t, saveOk);
        SameBooks(kept, t);
      }
    }

    /** reap, run alone, is the protocol's reap run alone, over the sessions that were due when it read
        the clock, in the order in which the map happened to be visited. */
    method Reap(now: Time, dropOk: Id -> bool, denyOk: Id -> bool, saveOk: bool, ghost s: State)
      returns (ghost order: seq<Id>, ghost acts: seq<Action>, ghost t: State)
      requires Represents(s) && now <= s.now
      modifies this`stored, sessions.Values, hooks, hooks.db
      ensures Alone(s, StartReap(order), acts, t) && Represents(t) && VisitsAt(s, order, now)
      ensures forall id :: id in sessions ==> sessions[id].status == StatusAfterReap(old(sessions[id].View()), now)
    {
      hide Next, Visits, VisitsAt, Leads, Targets, Represents, Record.Stamped, StatusAfterReap, TargetOf;
      var expired;
      expired, order := MarkDue(now, s);
      ghost var s1, n, batch := Next(s, StartReap(order)), |s.ops|, Targets(s.sessions, order);
      StartReapBooks(s, order);
      TargetsAre(s.sessions, order);
      SameBooks(s.(sessions := s1.sessions), s1);
      acts, t := RevokeAndSave(expired, dropOk, denyOk, saveOk, s1, n, batch);
    }

    method CallProvision(rec: Record, random: seq<nat>, luck: A.Luck, allowed: bool, ghost s: State) returns (ok: bool)
      requires Represents(s) && rec !in sessions.Values && |random| == 24 && Address.Valid(rec.cidr)
      modifies hooks, hooks.db, rec`credentials
      ensures ok <==> Provisions(s, rec.View(), luck, allowed)
      ensures ok ==> rec.Stamped()
      ensures Represents(Provisioned(s, rec.View(), luck, allowed))
    {
      hide SessionsIn, A.TempUserOk, RuleOf, Stampeds, FromList;
      ok := hooks.Provision(rec, random, luck, allowed);
    }

    method Register(rec: Record, ghost s: State)
      requires Represents(s) && rec.Stamped()
      modifies this`sessions
      ensures sessions == old(sessions)[rec.id := rec]
      ensures Represents(s.(sessions := s.sessions[rec.id := rec.View()]))
    {
      hide A.TempUserOk, SessionsIn;
      ghost var before := Copies();
      SessionsInUpdate(before, rec.id, rec.Copy());
      sessions := sessions[rec.id := rec];
      assert Copies() == before[rec.id := rec.Copy()];
    }

    method Unregister(id: Id, ghost s: State)
      requires Represents(s)
      modifies this`sessions
      ensures Represents(s.(sessions := s.sessions - {id}))
    {
      hide A.TempUserOk, SessionsIn;
      ghost var before := Copies();
      SessionsInRemove(before, id);
      sessions := sessions - {id};
      assert Copies() == before - {id};
    }

    /** New from the moment the session is provisioned. */
    method RegisterAndSave(rec: Record, saveOk: bool, dropOk: bool, denyOk: bool, ghost s: State)
      requires Represents(s) && rec.Stamped()
      modifies this, hooks, hooks.db
      ensures Represents(AfterRegister(s, rec.View(), saveOk, dropOk, denyOk))
      ensures saveOk ==> sessions == old(sessions)[rec.id := rec]
    {
      hide Represents, Record.Stamped, Released;
      ghost var x := rec.View();
      Register(rec, s);
      ghost var m := s.(sessions := s.sessions[rec.id := x]);
      Save(saveOk, m);
      ghost var b := AfterRegister(s, x, saveOk, dropOk, denyOk);
      if saveOk {
        SameBooks(m.(disk := m.sessions), b);
      } else {
        SameBooks(m.(disk := m.disk), m);
        var failed := CallRevoke(rec, dropOk, denyOk, m);
        ghost var d := Released(m, TargetOf(x), dropOk, denyOk);
        Unregister(rec.id, d);
        ReleasedSessions(s, m.sessions, TargetOf(x), dropOk, denyOk);
        SameBooks(d.(sessions := d.sessions - {rec.id}), b);
      }
    }

    /** New, run alone, is the protocol's New run alone, on a session with a new id. It hands the session
        out exactly when everything went well, and then the session is in the map. */
    method New(idBytes: seq<nat>, cidr: Cidr, duration: Time, now: Time, random: seq<nat>, luck: A.Luck, allowed: bool,
               saveOk: bool, dropOk: bool, denyOk: bool, ghost s: State)
      returns (r: Option<Record>, ghost x: Session, ghost acts: seq<Action>, ghost t: State)
      requires Represents(s) && s.now == now && Address.Valid(cidr) && |random| == 24
      requires |idBytes| == 6 && (forall i :: 0 <= i < |idBytes| ==> idBytes[i] < 256) && A.HexText(idBytes) !in s.used
      modifies this, hooks, hooks.db
      ensures x == Session(A.HexText(idBytes), Upgrade(cidr), now + duration, Active, "", 0, 0)
      ensures Alone(s, StartNew(x), acts, t) && Represents(t)
      ensures r.Some? <==> Provisions(s, x, luck, allowed) && saveOk
      ensures r.Some? ==> fresh(r.value) && r.value.View() == x && x.id in sessions && sessions[x.id] == r.value
    {
      var id := A.HexText(idBytes);
      A.NewSessionsAreAcceptable(idBytes);
      x := Session(id, Upgrade(cidr), now + duration, Active, "", 0, 0);
      acts, t := NewFollowsProtocol(s, x, luck, allowed, saveOk, dropOk, denyOk);
      var rec := new Record(Session(id, Upgrade(cidr), now + duration, Active, "", 0, 0), None);
      hide Alone, Represents, Record.Stamped, Provisions, CanProvision, Provisioned, AfterRegister;
      var ok := CallProvision(rec, random, luck, allowed, s);
      ghost var p := Provisioned(s, x, luck, allowed);
      if !ok {
        SameBooks(p, t);
        return None, x, acts, t;
      }
      RegisterAndSave(rec, saveOk, dropOk, denyOk, p);
      SameBooks(AfterRegister(p, x, saveOk, dropOk, denyOk), t);
      r := if saveOk then Some(rec) else None;
    }
  }
}
