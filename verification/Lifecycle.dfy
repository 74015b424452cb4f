/** The session lifecycle as a step protocol. Every lock-protected section, every call to MySQL, the
    firewall or the disk, is one atomic step of an operation in flight; operations interleave freely. */
module Lifecycle {
  import opened Text
  import opened Address
  import opened Sessions

  /** What OnRevoke needs from a session: both fields never change once it is provisioned. */
  datatype Target = Target(id: Id, rule: Source)

  /** The next thing an operation does. */
  datatype Pc =
    | Creating | Granting | Flushing | CleaningUp  // mysql.CreateUser, statement by statement
    | Allowing | RollingBack                       // the rest of Provision
    | Registering                                  // New: m.sessions[id] = s
    | Dropping | Denying(dropped: bool)            // Revoke: DropUser, then Deny
    | Listing | Saving(list: map<Id, Session>)     // persist: copy under the lock, then SaveAll
    | Unregistering                                // New: delete(m.sessions, id)

  datatype Op =
    | New(s: Session, pc: Pc)
    | End(t: Target, pc: Pc)
    | Reap(batch: seq<Target>, pc: Pc)
    | Touch(pc: Pc)  // SetPlaygroundDB after its update
    | Done

  datatype Event =
    | ReapMarked(id: Id) | EndMarked(id: Id) | SaveFailed(id: Id)  // reasons to revoke
    | Called(id: Id)                                               // OnRevoke entered
    | Returned(id: Id)                                             // New succeeded

  datatype State = State(
    sessions: map<Id, Session>,   // Manager.sessions
    ops: seq<Op>,                 // operations in flight (and finished ones, as Done)
    users: set<Id>,               // temporary MySQL users, by session
    rules: set<Source>,           // open firewall rules
    disk: map<Id, Session>,       // what LoadAll would return
    now: Time,
    used: set<Id>,                // history: ids drawn by New
    leakedUsers: set<Id>,         // history: users whose DROP USER failed
    leakedRules: set<Source>,     // history: rules whose removal failed
    hist: multiset<Event>)        // history: how often each event happened

  datatype Action =
    | Tick(t: Time)
    | Verify(id: Id, client: Option<Addr>, key: KeyCheck)
    | StartNew(s: Session)
    | StartEnd(id: Id)
    | StartReap(order: seq<Id>)
    | StartPlayground(id: Id, db: string)
    | Advance(i: nat, ok: bool)   // the i-th operation takes its next step, which succeeds or fails

  function TargetOf(s: Session): Target {
    Target(s.id, s.Rule())
  }

  predicate DueIn(sessions: map<Id, Session>, now: Time, id: Id) {
    id in sessions && sessions[id].Due(now)
  }

  /** `order` are the sessions that were due at `t`, in a way the reaper's map iteration can visit them. */
  ghost predicate VisitsAt(s: State, order: seq<Id>, t: Time) {
    && (forall id :: id in order <==> DueIn(s.sessions, t, id))
    && (forall i, j :: 0 <= i < j < |order| ==> order[i] != order[j])
  }

  /** The reaper reads the clock before it takes the lock: it may be some time ago. What was due then is
      due now, but not the other way round. */
  ghost predicate Visits(s: State, order: seq<Id>) {
    && (exists t :: t <= s.now && VisitsAt(s, order, t))
    && (forall id :: id in order ==> DueIn(s.sessions, s.now, id))
    && (forall i, j :: 0 <= i < j < |order| ==> order[i] != order[j])
  }

  ghost predicate Enabled(s: State, a: Action) {
    match a
    case Tick(t) => t >= s.now
    case StartNew(x) => x.id !in s.used && x.status == Active && x.failedAttempts == 0
    case StartReap(order) => Visits(s, order)
    case Advance(i, _) => i < |s.ops| && s.ops[i] != Done
    case _ => true
  }

  function SetStatus(sessions: map<Id, Session>, ids: set<Id>, st: Status): map<Id, Session> {
    map id | id in sessions :: if id in ids then sessions[id].(status := st) else sessions[id]
  }

  function Targets(sessions: map<Id, Session>, order: seq<Id>): seq<Target>
    requires forall id :: id in order ==> id in sessions
  {
    seq(|order|, i requires 0 <= i < |order| => TargetOf(sessions[order[i]]))
  }

  function ReapMarks(order: seq<Id>): multiset<Event> {
    if order == [] then multiset{} else multiset{ReapMarked(order[0])} + ReapMarks(order[1..])
  }

  /** Operation `i` is now at `op`. */
  function At(s: State, i: nat, op: Op): State
    requires i < |s.ops|
  {
    s.(ops := s.ops[i := op])
  }

  function DropUser(s: State, id: Id, ok: bool): State {
    if ok then s.(users := s.users - {id}) else s.(leakedUsers := s.leakedUsers + {id})
  }

  function DenyRule(s: State, r: Source, ok: bool): State {
    if ok then s.(rules := s.rules - {r}) else s.(leakedRules := s.leakedRules + {r})
  }

  function Log(s: State, e: Event): State {
    s.(hist := s.hist + multiset{e})
  }

  function NewStep(s: State, i: nat, x: Session, pc: Pc, ok: bool): State
    requires i < |s.ops|
  {
    match pc
    case Creating =>
      if ok then At(s.(users := s.users + {x.id}), i, New(x, Granting)) else At(s, i, New(x, CleaningUp))
    case Granting => At(s, i, New(x, if ok then Flushing else CleaningUp))
    case Flushing => At(s, i, New(x, if ok then Allowing else CleaningUp))
    case CleaningUp => At(DropUser(s, x.id, ok), i, Done)
    case Allowing =>
      if ok then At(s.(rules := s.rules + {x.Rule()}), i, New(x, Registering)) else At(s, i, New(x, RollingBack))
    case RollingBack => At(DropUser(s, x.id, ok), i, Done)
    case Registering => At(s.(sessions := s.sessions[x.id := x]), i, New(x, Listing))
    case Listing => At(s, i, New(x, Saving(s.sessions)))
    case Saving(list) =>
      if ok then At(Log(s.(disk := list), Returned(x.id)), i, Done)
      else At(Log(s, SaveFailed(x.id)), i, New(x, Dropping))
    case Dropping => At(DropUser(Log(s, Called(x.id)), x.id, ok), i, New(x, Denying(ok)))
    case Denying(_) => At(DenyRule(s, x.Rule(), ok), i, New(x, Unregistering))
    case Unregistering => At(s.(sessions := s.sessions - {x.id}), i, Done)
  }

  function EndStep(s: State, i: nat, t: Target, pc: Pc, ok: bool): State
    requires i < |s.ops|
  {
    match pc
    case Dropping => At(DropUser(Log(s, Called(t.id)), t.id, ok), i, End(t, Denying(ok)))
    case Denying(dropped) => At(DenyRule(s, t.rule, ok), i, if dropped && ok then End(t, Listing) else Done)
    case Listing => At(s, i, End(t, Saving(s.sessions)))
    case Saving(list) => At(if ok then s.(disk := list) else s, i, Done)
    case _ => s
  }

  function ReapStep(s: State, i: nat, batch: seq<Target>, pc: Pc, ok: bool): State
    requires i < |s.ops|
  {
    match pc
    case Dropping =>
      if batch == [] then s
      else At(DropUser(Log(s, Called(batch[0].id)), batch[0].id, ok), i, Reap(batch, Denying(ok)))
    case Denying(_) =>
      if batch == [] then s
      else At(DenyRule(s, batch[0].rule, ok), i, Reap(batch[1..], if |batch| == 1 then Listing else Dropping))
    case Listing => At(s, i, Reap(batch, Saving(s.sessions)))
    case Saving(list) => At(if ok then s.(disk := list) else s, i, Done)
    case _ => s
  }

  function TouchStep(s: State, i: nat, pc: Pc, ok: bool): State
    requires i < |s.ops|
  {
    match pc
    case Listing => At(s, i, Touch(Saving(s.sessions)))
    case Saving(list) => At(if ok then s.(disk := list) else s, i, Done)
    case _ => s
  }

  function Next(s: State, a: Action): State {
    match a
    case Tick(t) => s.(now := t)
    case Verify(id, client, key) =>
      if id in s.sessions then s.(sessions := s.sessions[id := Check(s.sessions[id], s.now, client, key).1]) else s
    case StartNew(x) =>
      // CIDRToHost fails before anything is created
      s.(used := s.used + {x.id}, ops := s.ops + [if x.cidr.Malformed? then Done else New(x, Creating)])
    case StartEnd(id) =>
      if id in s.sessions then
        Log(s.(sessions := s.sessions[id := s.sessions[id].(status := Revoked)],
               ops := s.ops + [End(TargetOf(s.sessions[id]), Dropping)]), EndMarked(id))
      else s.(ops := s.ops + [Done])
    case StartReap(order) =>
      if forall id :: id in order ==> id in s.sessions then
        s.(sessions := SetStatus(s.sessions, (set id | id in order), Expired),
           ops := s.ops + [if order == [] then Done else Reap(Targets(s.sessions, order), Dropping)],
           hist := s.hist + ReapMarks(order))
      else s
    case StartPlayground(id, db) =>
      if id in s.sessions then
        s.(sessions := s.sessions[id := s.sessions[id].(playgroundDB := db)], ops := s.ops + [Touch(Listing)])
      else s.(ops := s.ops + [Done])
    case Advance(i, ok) =>
      if i >= |s.ops| then s
      else match s.ops[i]
        case New(x, pc) => NewStep(s, i, x, pc, ok)
        case End(t, pc) => EndStep(s, i, t, pc, ok)
        case Reap(batch, pc) => ReapStep(s, i, batch, pc, ok)
        case Touch(pc) => TouchStep(s, i, pc, ok)
        case Done => s
  }

  ghost predicate Quiescent(s: State) {
    forall i :: 0 <= i < |s.ops| ==> s.ops[i] == Done
  }

  /** A run: actions taken one after the other, each enabled when it is taken. */
  ghost predicate Run(s: State, actions: seq<Action>)
    decreases |actions|
  {
    actions == [] || (Enabled(s, actions[0]) && Run(Next(s, actions[0]), actions[1..]))
  }

  function Final(s: State, actions: seq<Action>): State
    decreases |actions|
  {
    if actions == [] then s else Final(Next(s, actions[0]), actions[1..])
  }

  /** A manager that has just been started on what is on disk, when every active session there has
      its user and its rule and there are no others. */
  ghost predicate Init(s: State) {
    && s.ops == [] && s.sessions == s.disk
    && (forall id :: id in s.sessions ==> s.sessions[id].id == id && id in s.used)
    && s.users == (set id | id in s.sessions && s.sessions[id].status == Active)
    && s.rules == (set id | id in s.sessions && s.sessions[id].status == Active :: s.sessions[id].Rule())
    && s.leakedUsers == {} && s.leakedRules == {} && s.hist == multiset{}
  }
}
