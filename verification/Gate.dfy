/** The web gate over whole runs: requests, the token store and the session manager interleaved. */
module Gate {
  import opened Text
  import opened Address
  import opened Sessions
  import opened Access
  import opened Tokens
  import opened Structure
  import L = Lifecycle
  import R = Revocations

  /** A request and the next thing its handler does. */
  datatype Request =
    | AuthAtSession(client: Option<Addr>, cookie: Option<Token>)             // requireAuth: ActiveSession, IPAllowed
    | AuthAtToken(client: Option<Addr>, cookie: Option<Token>, id: Id)       // then Validate and forward
    | GateAtSession(client: Option<Addr>, key: KeyCheck)                     // handleGatePost: ActiveSession
    | GateAtVerify(client: Option<Addr>, key: KeyCheck, id: Id)              // then VerifyAccess
    | GateAtIssue(id: Id)                                                    // then IssueToken
    | EndAtSession                                                           // handleSessionEnd: ActiveSession
    | EndAtRevoke(id: Id)                                                    // then RevokeSession
    | EndAtEnd(id: Id)                                                       // then Manager.End
    | Answered

  /** What is written down, in order. `r` is the request's number. */
  datatype Event =
    | Checked(r: nat, s: Session, client: Option<Addr>, at: Time)
    | Verified(r: nat, s: Session, client: Option<Addr>, key: KeyCheck, at: Time)
    | Issued(r: nat, tok: Token, id: Id, at: Time)
    | Forwarded(r: nat, tok: Token, id: Id, client: Option<Addr>, at: Time)
    | EndMark(id: Id)

  datatype State = State(
    m: L.State,
    tokens: TokenMap,
    reqs: seq<Request>,
    drawn: set<Token>,   // history: tokens ever issued
    log: seq<Event>)     // history

  datatype Action =
    | Manage(a: L.Action)                      // anything the session manager does, CLI calls included
    | Arrive(req: Request)
    | Step(r: nat, live: Option<Id>, tok: Token)  // request r moves on; `live` and `tok` are what it is given

  predicate IsLiveIn(m: L.State, id: Id) {
    id in m.sessions && m.sessions[id].IsLive(m.now)
  }

  /** ActiveSession returns some live session, and nil only if there is none. */
  ghost predicate ActiveSession(m: L.State, live: Option<Id>) {
    match live
    case Some(id) => IsLiveIn(m, id)
    case None => forall id :: !IsLiveIn(m, id)
  }

  /** The address that a request carries, if it can be read, is an address. */
  predicate ReadableClient(req: Request) {
    match req
    case AuthAtSession(client, _) => ClientOk(client)
    case AuthAtToken(client, _, _) => ClientOk(client)
    case GateAtSession(client, _) => ClientOk(client)
    case GateAtVerify(client, _, _) => ClientOk(client)
    case _ => true
  }

  predicate AsksManager(req: Request) {
    req.AuthAtSession? || req.GateAtSession? || req.EndAtSession?
  }

  ghost predicate Enabled(s: State, a: Action) {
    match a
    case Manage(x) => L.Enabled(s.m, x)
    case Arrive(req) => AsksManager(req) && ReadableClient(req)
    case Step(r, live, tok) =>
      && r < |s.reqs|
      && (AsksManager(s.reqs[r]) ==> ActiveSession(s.m, live))
      && (s.reqs[r].GateAtIssue? ==> tok !in s.drawn)
  }

  function At(s: State, r: nat, req: Request): State
    requires r < |s.reqs|
  {
    s.(reqs := s.reqs[r := req])
  }

  function Note(s: State, e: Event): State {
    s.(log := s.log + [e])
  }

  /** An End that finds its session leaves a mark. */
  function ManageStep(s: State, a: L.Action): State {
    var s' := s.(m := L.Next(s.m, a));
    if a.StartEnd? && a.id in s.m.sessions then Note(s', EndMark(a.id)) else s'
  }

  function RequestStep(s: State, r: nat, live: Option<Id>, tok: Token): State
    requires r < |s.reqs|
  {
    match s.reqs[r]
    case AuthAtSession(client, cookie) =>
      if live.Some? && live.value in s.m.sessions && s.m.sessions[live.value].Admits(client) then
        Note(At(s, r, AuthAtToken(client, cookie, live.value)),
             Checked(r, s.m.sessions[live.value], client, s.m.now))
      else At(s, r, Answered)  // redirect to /setup, or 403
    case AuthAtToken(client, cookie, id) =>
      var (sessionID, tokens) := ValidateIn(s.tokens, cookie, s.m.now);
      var s' := At(s.(tokens := tokens), r, Answered);
      if sessionID == Some(id) then Note(s', Forwarded(r, cookie.value, id, client, s.m.now))
      else s'  // redirect to /gate
    case GateAtSession(client, key) =>
      if live.Some? then At(s, r, GateAtVerify(client, key, live.value)) else At(s, r, Answered)
    case GateAtVerify(client, key, id) =>
      if id !in s.m.sessions then At(s, r, Answered)
      else
        var x := s.m.sessions[id];
        var s' := s.(m := L.Next(s.m, L.Verify(id, client, key)));
        if Check(x, s.m.now, client, key).0 == Granted
        then Note(At(s', r, GateAtIssue(id)), Verified(r, x, client, key, s.m.now))
        else At(s', r, Answered)
    case GateAtIssue(id) =>
      Note(At(s.(tokens := s.tokens[tok := Entry(id, s.m.now)], drawn := s.drawn + {tok}), r, Answered),
           Issued(r, tok, id, s.m.now))
    case EndAtSession =>
      if live.Some? then At(s, r, EndAtRevoke(live.value)) else At(s, r, Answered)
    case EndAtRevoke(id) => At(s.(tokens := WithoutSession(s.tokens, id)), r, EndAtEnd(id))
    case EndAtEnd(id) => At(ManageStep(s, L.StartEnd(id)), r, Answered)
    case Answered => s
  }

  function Next(s: State, a: Action): State {
    match a
    case Manage(x) => ManageStep(s, x)
    case Arrive(req) => s.(reqs := s.reqs + [req])
    case Step(r, live, tok) => if r < |s.reqs| then RequestStep(s, r, live, tok) else s
  }

  ghost predicate Run(s: State, actions: seq<Action>)
    decreases |actions|
  {
    actions == [] || (Enabled(s, actions[0]) && Run(Next(s, actions[0]), actions[1..]))
  }

  function Final(s: State, actions: seq<Action>): State
    decreases |actions|
  {
    if actions == [] then s else Final(Next(s, actions[0]), actions[1..])
  }

  /** A server that has just started: no tokens, no requests. */
  ghost predicate Init(s: State) {
    L.Init(s.m) && s.tokens == map[] && s.reqs == [] && s.drawn == {} && s.log == []
  }

  /* ---- What the log guarantees ---- */

  ghost predicate Unmarked(log: seq<Event>, k: int, id: Id) {
    forall l :: 0 <= l < k < |log| ==> log[l] != EndMark(id)
  }

  ghost predicate VerifiedAt(log: seq<Event>, h: int, r: nat, id: Id) {
    0 <= h < |log| && log[h].Verified? && log[h].r == r && log[h].s.id == id
  }

  ghost predicate IssuedAt(log: seq<Event>, i: int, tok: Token, id: Id, at: Time) {
    0 <= i < |log| && log[i].Issued? && log[i].tok == tok && log[i].id == id && log[i].at == at
  }

  ghost predicate CheckedAt(log: seq<Event>, c: int, r: nat, id: Id, client: Option<Addr>) {
    0 <= c < |log| && log[c].Checked? && log[c].r == r && log[c].s.id == id && log[c].client == client
  }

  /** Each event rests on the ones before it. */
  ghost predicate EventOk(log: seq<Event>, k: nat)
    requires k < |log|
  {
    match log[k]
    case Checked(_, s, client, at) =>
      s.status == Active && at < s.expiresAt && InRange(s.cidr, client) && Unmarked(log, k, s.id)
    case Verified(_, s, client, key, at) => Grants(s, at, client, key) && Unmarked(log, k, s.id)
    case Issued(r, tok, id, _) => exists h :: h < k && VerifiedAt(log, h, r, id)
    case Forwarded(r, tok, id, client, at) =>
      && (exists c :: c < k && CheckedAt(log, c, r, id, client))
      && (exists i, t :: i < k && IssuedAt(log, i, tok, id, t) && at - t <= 12 * HOUR)
    case EndMark(_) => true
  }

  ghost predicate LogOk(log: seq<Event>) {
    forall k :: 0 <= k < |log| ==> EventOk(log, k)
  }

  ghost predicate RequestOk(s: State, r: nat)
    requires r < |s.reqs|
  {
    && ReadableClient(s.reqs[r])
    && match s.reqs[r]
       case AuthAtToken(client, _, id) => exists c :: CheckedAt(s.log, c, r, id, client)
       case GateAtIssue(id) => exists h :: VerifiedAt(s.log, h, r, id)
       case _ => true
  }

  ghost predicate TokensOk(s: State) {
    forall t :: t in s.tokens ==>
      t in s.drawn && exists i :: IssuedAt(s.log, i, t, s.tokens[t].sessionID, s.tokens[t].issuedAt)
  }

  ghost predicate MarksOk(s: State) {
    forall k :: 0 <= k < |s.log| && s.log[k].EndMark? ==> Retired(s.m, s.log[k].id)
  }

  ghost predicate Sound(s: State) {
    && Wellformed(s.m) && LogOk(s.log) && TokensOk(s) && MarksOk(s)
    && (forall r :: 0 <= r < |s.reqs| ==> RequestOk(s, r))
  }

  /** The witnesses stay where they are when the log grows. */
  lemma LogGrows(log: seq<Event>, e: Event)
    ensures var longer := log + [e];
            && (forall h, r, id :: VerifiedAt(log, h, r, id) ==> VerifiedAt(longer, h, r, id))
            && (forall i, tok, id, at :: IssuedAt(log, i, tok, id, at) ==> IssuedAt(longer, i, tok, id, at))
            && (forall c, r, id, client :: CheckedAt(log, c, r, id, client) ==> CheckedAt(longer, c, r, id, client))
            && (forall k: nat :: k < |log| && EventOk(log, k) ==> EventOk(longer, k))
  {
    var longer := log + [e];
    forall k: nat | k < |log| && EventOk(log, k)
      ensures EventOk(longer, k)
    {
      assert longer[k] == log[k];
      match log[k]
      case Issued(r, tok, id, _) =>
        var h :| h < k && VerifiedAt(log, h, r, id);
        assert VerifiedAt(longer, h, r, id);
      case Forwarded(r, tok, id, client, at) =>
        var c :| c < k && CheckedAt(log, c, r, id, client);
        assert CheckedAt(longer, c, r, id, client);
        var i, t :| i < k && IssuedAt(log, i, tok, id, t) && at - t <= 12 * HOUR;
        assert IssuedAt(longer, i, tok, id, t);
      case _ =>
    }
  }

  /** Adding an event that rests on the log so far. */
  lemma NoteSound(s: State, e: Event)
    requires Sound(s) && EventOk(s.log + [e], |s.log|)
    requires e.EndMark? ==> Retired(s.m, e.id)
    ensures Sound(Note(s, e))
  {
    var s' := Note(s, e);
    LogGrows(s.log, e);
    forall k | 0 <= k < |s'.log| ensures EventOk(s'.log, k) {
      if k < |s.log| { assert EventOk(s.log, k); }
    }
    forall r | 0 <= r < |s'.reqs| ensures RequestOk(s', r) {
      assert RequestOk(s, r);
    }
  }

  /** A step of the manager with nothing noted. */
  lemma ManageKeepsSound(s: State, a: L.Action)
    requires Sound(s) && L.Enabled(s.m, a)
    ensures Sound(s.(m := L.Next(s.m, a)))
  {
    var s' := s.(m := L.Next(s.m, a));
    StepWellformed(s.m, a);
    hide L.Next, L.Enabled, Wellformed;
    forall k | 0 <= k < |s'.log| && s'.log[k].EndMark? ensures Retired(s'.m, s'.log[k].id) {
      R.StepRetired(s.m, a, s.log[k].id);
    }
    forall r | 0 <= r < |s'.reqs| ensures RequestOk(s', r) {
      assert RequestOk(s, r);
    }
  }

  /** Ending a session retires it. */
  lemma EndRetires(m: L.State, id: Id)
    requires Wellformed(m) && id in m.sessions
    ensures Retired(L.Next(m, L.StartEnd(id)), id)
  {
    var m' := L.Next(m, L.StartEnd(id));
    forall j | 0 <= j < |m'.ops| ensures !PreNew(m'.ops[j], id) {
      if j < |m.ops| { assert m'.ops[j] == m.ops[j]; }
    }
  }

  lemma ManageSound(s: State, a: L.Action)
    requires Sound(s) && L.Enabled(s.m, a)
    ensures Sound(ManageStep(s, a))
  {
    ManageKeepsSound(s, a);
    if a.StartEnd? && a.id in s.m.sessions {
      EndRetires(s.m, a.id);
      hide L.Next;
      NoteSound(s.(m := L.Next(s.m, a)), EndMark(a.id));
    }
  }

  /** A request moves on; tokens may be removed. */
  lemma MoveSound(s: State, r: nat, req: Request, tokens: TokenMap)
    requires Sound(s) && r < |s.reqs|
    requires forall t :: t in tokens ==> t in s.tokens && tokens[t] == s.tokens[t]
    requires !req.AuthAtToken? && !req.GateAtIssue? && ReadableClient(req)
    ensures Sound(At(s.(tokens := tokens), r, req))
  {
    var s' := At(s.(tokens := tokens), r, req);
    forall q | 0 <= q < |s'.reqs| ensures RequestOk(s', q) {
      if q != r { assert RequestOk(s, q); }
    }
  }

  /** A live session has never been ended. */
  lemma LiveIsUnmarked(s: State, id: Id)
    requires Sound(s) && id in s.m.sessions && s.m.sessions[id].status == Active
    ensures forall l :: 0 <= l < |s.log| ==> s.log[l] != EndMark(id)
    ensures s.m.sessions[id].id == id
  {
    forall l | 0 <= l < |s.log| ensures s.log[l] != EndMark(id) {
      if s.log[l].EndMark? { assert Retired(s.m, s.log[l].id); }
    }
  }

  /** Requests may wait with a witness in the log. */
  lemma NotedRequest(s: State, r: nat, req: Request)
    requires Sound(s) && r < |s.reqs|
    requires RequestOk(s.(reqs := s.reqs[r := req]), r)
    ensures Sound(At(s, r, req))
  {
    var s' := At(s, r, req);
    forall q | 0 <= q < |s'.reqs| ensures RequestOk(s', q) {
      if q != r { assert RequestOk(s, q); }
    }
  }

  lemma CheckSound(s: State, r: nat, live: Option<Id>, tok: Token)
    requires Sound(s) && r < |s.reqs| && s.reqs[r].AuthAtSession? && ActiveSession(s.m, live)
    ensures Sound(RequestStep(s, r, live, tok))
  {
    var client := s.reqs[r].client;
    assert RequestOk(s, r);
    if live.Some? && s.m.sessions[live.value].Admits(client) {
      var x := s.m.sessions[live.value];
      AdmitsIsInRange(x, client);
      var e := Checked(r, x, client, s.m.now);
      LiveIsUnmarked(s, live.value);
      NoteSound(s, e);
      var s1 := Note(s, e);
      assert CheckedAt(s1.log, |s.log|, r, live.value, client);
      NotedRequest(s1, r, AuthAtToken(client, s.reqs[r].cookie, live.value));
    } else {
      MoveSound(s, r, Answered, s.tokens);
    }
  }

  lemma ForwardSound(s: State, r: nat, live: Option<Id>, tok: Token)
    requires Sound(s) && r < |s.reqs| && s.reqs[r].AuthAtToken?
    ensures Sound(RequestStep(s, r, live, tok))
  {
    var req := s.reqs[r];
    var (sessionID, tokens) := ValidateIn(s.tokens, req.cookie, s.m.now);
    MoveSound(s, r, Answered, tokens);
    if sessionID == Some(req.id) {
      var entry, cookie := s.tokens[req.cookie.value], req.cookie.value;
      var s1 := At(s.(tokens := tokens), r, Answered);
      var e := Forwarded(r, cookie, req.id, req.client, s.m.now);
      assert RequestOk(s, r);
      var c :| CheckedAt(s.log, c, r, req.id, req.client);
      var i :| IssuedAt(s.log, i, cookie, entry.sessionID, entry.issuedAt);
      LogGrows(s.log, e);
      assert CheckedAt(s.log + [e], c, r, req.id, req.client);
      assert IssuedAt(s.log + [e], i, cookie, req.id, entry.issuedAt);
      NoteSound(s1, e);
    }
  }

  lemma VerifySound(s: State, r: nat, live: Option<Id>, tok: Token)
    requires Sound(s) && r < |s.reqs| && s.reqs[r].GateAtVerify?
    ensures Sound(RequestStep(s, r, live, tok))
  {
    var req := s.reqs[r];
    if req.id !in s.m.sessions {
      MoveSound(s, r, Answered, s.tokens);
    } else {
      var x, a := s.m.sessions[req.id], L.Verify(req.id, req.client, req.key);
      var s1 := s.(m := L.Next(s.m, a));
      ManageKeepsSound(s, a);
      hide L.Next;
      if Check(x, s.m.now, req.client, req.key).0 == Granted {
        var e := Verified(r, x, req.client, req.key, s.m.now);
        assert RequestOk(s, r);
        OutcomeExactly(x, s.m.now, req.client, req.key);
        LiveIsUnmarked(s, req.id);
        NoteSound(s1, e);
        var s2 := Note(s1, e);
        assert VerifiedAt(s2.log, |s.log|, r, req.id);
        NotedRequest(s2, r, GateAtIssue(req.id));
      } else {
        MoveSound(s1, r, Answered, s1.tokens);
      }
    }
  }

  lemma IssueSound(s: State, r: nat, live: Option<Id>, tok: Token)
    requires Sound(s) && r < |s.reqs| && s.reqs[r].GateAtIssue? && tok !in s.drawn
    ensures Sound(RequestStep(s, r, live, tok))
  {
    var id := s.reqs[r].id;
    var e := Issued(r, tok, id, s.m.now);
    assert RequestOk(s, r);
    var h :| VerifiedAt(s.log, h, r, id);
    LogGrows(s.log, e);
    assert VerifiedAt(s.log + [e], h, r, id);
    NoteSound(s, e);
    var s1 := Note(s, e);
    MoveSound(s1, r, Answered, s1.tokens);
    var s' := RequestStep(s, r, live, tok);
    assert IssuedAt(s'.log, |s.log|, tok, id, s.m.now);
    forall q | 0 <= q < |s'.reqs| ensures RequestOk(s', q) {
      assert RequestOk(At(s1, r, Answered), q);
    }
  }

  lemma CarriesReadable(s: State, r: nat)
    requires Sound(s) && r < |s.reqs|
    ensures ReadableClient(s.reqs[r])
  {
    assert RequestOk(s, r);
  }

  lemma StepSound(s: State, a: Action)
    requires Sound(s) && Enabled(s, a)
    ensures Sound(Next(s, a))
  {
    match a
    case Manage(x) => ManageSound(s, x);
    case Arrive(req) =>
      hide Wellformed;
      var s' := Next(s, a);
      forall q | 0 <= q < |s'.reqs| ensures RequestOk(s', q) {
        if q < |s.reqs| { assert RequestOk(s, q); }
      }
    case Step(r, live, tok) =>
      hide Wellformed, Sound, L.Next;
      match s.reqs[r]
      case AuthAtSession(_, _) => CheckSound(s, r, live, tok);
      case AuthAtToken(_, _, _) => ForwardSound(s, r, live, tok);
      case GateAtVerify(_, _, _) => VerifySound(s, r, live, tok);
      case GateAtIssue(_) => IssueSound(s, r, live, tok);
      case EndAtEnd(id) =>
        ManageSound(s, L.StartEnd(id));
        var s1 := ManageStep(s, L.StartEnd(id));
        MoveSound(s1, r, Answered, s1.tokens);
      case EndAtRevoke(id) => MoveSound(s, r, EndAtEnd(id), WithoutSession(s.tokens, id));
      case GateAtSession(client, key) =>
        CarriesReadable(s, r);
        MoveSound(s, r, if live.Some? then GateAtVerify(client, key, live.value) else Answered, s.tokens);
      case EndAtSession => MoveSound(s, r, if live.Some? then EndAtRevoke(live.value) else Answered, s.tokens);
      case Answered =>
  }

  lemma {:induction false} RunSound(s: State, actions: seq<Action>)
    requires Sound(s) && Run(s, actions)
    ensures Sound(Final(s, actions))
    decreases |actions|
  {
    if actions != [] {
      StepSound(s, actions[0]);
      RunSound(Next(s, actions[0]), actions[1..]);
    }
  }

  /** Over every run, for every request that was forwarded: its session check (at c) found the
      session active, before its expiry, and the address inside its range, and no End had marked that
      session before; its token was issued (at i) at most 12 hours ago by a gate request that had shown
      (at h) the right key for that very session, from an address in its range, while it was active,
      before its expiry, not locked and not ended. */
  lemma ForwardedRequestsAreSound(s: State, actions: seq<Action>, k: nat)
    requires Init(s) && Run(s, actions)
    requires k < |Final(s, actions).log| && Final(s, actions).log[k].Forwarded?
    ensures var log := Final(s, actions).log;
            var f := log[k];
            exists c, i, h ::
              && 0 <= c < k && CheckedAt(log, c, f.r, f.id, f.client)
              && log[c].s.status == Active && log[c].at < log[c].s.expiresAt && InRange(log[c].s.cidr, f.client)
              && (forall l :: 0 <= l < c ==> log[l] != EndMark(f.id))
              && 0 <= h < i < k && log[i].Issued? && log[i].tok == f.tok && log[i].id == f.id
              && f.at - log[i].at <= 12 * HOUR
              && VerifiedAt(log, h, log[i].r, f.id)
              && Grants(log[h].s, log[h].at, log[h].client, log[h].key)
              && (forall l :: 0 <= l < h ==> log[l] != EndMark(f.id))
  {
    InitWellformed(s.m);
    RunSound(s, actions);
    var log := Final(s, actions).log;
    var f := log[k];
    assert EventOk(log, k);
    var c :| c < k && CheckedAt(log, c, f.r, f.id, f.client);
    assert EventOk(log, c);
    var i, t :| i < k && IssuedAt(log, i, f.tok, f.id, t) && f.at - t <= 12 * HOUR;
    assert EventOk(log, i);
    var h :| h < i && VerifiedAt(log, h, log[i].r, f.id);
    assert EventOk(log, h);
  }

  // ---- Who gets through -----------------------------------------------------------------------------

  /** requireAuth, run without interruption, given the session that ActiveSession happened to return. */
  function Handled(s: State, r: nat, live: Option<Id>): State
    requires r < |s.reqs|
  {
    Next(Next(s, Step(r, live, "")), Step(r, None, ""))
  }

  predicate Forwards(s: State, r: nat, live: Option<Id>, tok: Token, id: Id, client: Option<Addr>)
    requires r < |s.reqs|
  {
    var log := Handled(s, r, live).log;
    log != [] && |log| == |s.log| + 2 && log[|log| - 1] == Forwarded(r, tok, id, client, s.m.now)
  }

  /** The session is live, in terms of its record. */
  predicate Lives(m: L.State, id: Id) {
    id in m.sessions && m.sessions[id].status == Active && m.now < m.sessions[id].expiresAt
  }

  /** A request from an allowed address with a fresh token of a live session is sure to be forwarded if and only
      if that session is the only live one: with two, ActiveSession may return the other. */
  lemma FreshTokenIsForwarded(s: State, r: nat, tok: Token, id: Id, client: Option<Addr>)
    requires r < |s.reqs| && s.reqs[r] == AuthAtSession(client, Some(tok)) && ClientOk(client)
    requires tok in s.tokens && s.tokens[tok].sessionID == id && s.m.now - s.tokens[tok].issuedAt <= 12 * HOUR
    requires Lives(s.m, id) && InRange(s.m.sessions[id].cidr, client)
    ensures (forall live :: ActiveSession(s.m, live) ==> Forwards(s, r, live, tok, id, client))
       <==> (forall other :: Lives(s.m, other) ==> other == id)
  {
    AdmitsIsInRange(s.m.sessions[id], client);
    forall live | ActiveSession(s.m, live)
      ensures Forwards(s, r, live, tok, id, client) <==> live == Some(id)
    {
      HandledWith(s, r, tok, id, client, live);
    }
    forall other ensures Lives(s.m, other) <==> ActiveSession(s.m, Some(other)) {}
    assert Forwards(s, r, Some(id), tok, id, client);
  }

  lemma HandledWith(s: State, r: nat, tok: Token, id: Id, client: Option<Addr>, live: Option<Id>)
    requires r < |s.reqs| && s.reqs[r] == AuthAtSession(client, Some(tok))
    requires tok in s.tokens && s.tokens[tok].sessionID == id && s.m.now - s.tokens[tok].issuedAt <= TOKEN_MAX_AGE
    requires IsLiveIn(s.m, id) && s.m.sessions[id].Admits(client) && ActiveSession(s.m, live)
    ensures Forwards(s, r, live, tok, id, client) <==> live == Some(id)
  {
    hide L.Next, Session.Admits, Session.IsLive;
    assert live.Some?;
    var s1 := Next(s, Step(r, live, ""));
    assert s1.tokens == s.tokens && s1.m == s.m && |s1.reqs| == |s.reqs|;
  }

  /** handleGatePost, run without interruption. */
  function Posted(s: State, r: nat, live: Option<Id>, tok: Token): State
    requires r < |s.reqs|
  {
    Next(Next(Next(s, Step(r, live, tok)), Step(r, live, tok)), Step(r, live, tok))
  }

  /** Which posts give a token: exactly those with the right key, from an address in the range of the live session,
      when that session is not locked. No post changes any other token. */
  lemma PostExactly(s: State, r: nat, live: Option<Id>, tok: Token, client: Option<Addr>, key: KeyCheck)
    requires r < |s.reqs| && s.reqs[r] == GateAtSession(client, key) && ClientOk(client)
    requires ActiveSession(s.m, live) && tok !in s.drawn
    ensures var t := Posted(s, r, live, tok);
      && t.reqs[r] == Answered
      && t.tokens == if live.Some? && Grants(s.m.sessions[live.value], s.m.now, client, key)
                     then s.tokens[tok := Entry(live.value, s.m.now)] else s.tokens
  {
    hide L.Next, Check, Grants, Session.IsLive;
    var s1 := Next(s, Step(r, live, tok));
    if live.Some? {
      OutcomeExactly(s.m.sessions[live.value], s.m.now, client, key);
      VerifyKeepsTime(s.m, live.value, client, key);
      assert s1 == At(s, r, GateAtVerify(client, key, live.value));
    }
  }

  lemma VerifyKeepsTime(m: L.State, id: Id, client: Option<Addr>, key: KeyCheck)
    ensures L.Next(m, L.Verify(id, client, key)).now == m.now
  {
  }

  // ---- Ending a session -----------------------------------------------------------------------------

  /** The session was ended by somebody and is marked so, or its own New has taken it back. */
  ghost predicate Ended(s: State, id: Id) {
    || (id in s.m.sessions && s.m.sessions[id].status == Revoked && EndMark(id) in s.log)
    || R.Gone(s.m, id)
  }

  /** Request `r` is ending `id`, or has done so. */
  ghost predicate Ending(s: State, r: nat, id: Id) {
    && r < |s.reqs|
    && (id in s.m.sessions || R.Gone(s.m, id))
    && (s.reqs[r] == EndAtRevoke(id) || s.reqs[r] == EndAtEnd(id) || (s.reqs[r] == Answered && Ended(s, id)))
  }

  /** End marks and revokes what it finds. */
  lemma EndEnds(s: State, id: Id)
    requires Wellformed(s.m) && (id in s.m.sessions || R.Gone(s.m, id))
    ensures Ended(ManageStep(s, L.StartEnd(id)), id)
  {
    if id in s.m.sessions {
      assert ManageStep(s, L.StartEnd(id)).log == s.log + [EndMark(id)];
    } else {
      R.StepLater(s.m, L.StartEnd(id), id);
    }
  }

  /** What a step of a request does to the manager is nothing, or a step of the manager. */
  lemma StepsTheManager(s: State, r: nat, live: Option<Id>, tok: Token) returns (a: Option<L.Action>)
    requires r < |s.reqs|
    ensures var s' := RequestStep(s, r, live, tok);
      && s'.m == (if a.Some? then L.Next(s.m, a.value) else s.m) && (a.Some? ==> L.Enabled(s.m, a.value))
      && s.log <= s'.log && |s'.reqs| == |s.reqs| && forall q :: 0 <= q < |s.reqs| && q != r ==> s'.reqs[q] == s.reqs[q]
  {
    hide L.Next;
    a := match s.reqs[r]
      case GateAtVerify(client, key, id) => if id in s.m.sessions then Some(L.Verify(id, client, key)) else None
      case EndAtEnd(id) => Some(L.StartEnd(id))
      case _ => None;
  }

  lemma KeepsEnded(s: State, s': State, a: L.Action, id: Id)
    requires Wellformed(s.m) && L.Enabled(s.m, a) && s'.m == L.Next(s.m, a) && s.log <= s'.log
    ensures id in s.m.sessions || R.Gone(s.m, id) ==> id in s'.m.sessions || R.Gone(s'.m, id)
    ensures Ended(s, id) ==> Ended(s', id)
  {
    R.StepLater(s.m, a, id);
    hide L.Next, Wellformed, R.Gone;
    if EndMark(id) in s.log {
      var k :| 0 <= k < |s.log| && s.log[k] == EndMark(id);
      assert s'.log[k] == s.log[k];
    }
  }

  lemma StepEnding(s: State, a: Action, r: nat, id: Id)
    requires Sound(s) && Enabled(s, a) && Ending(s, r, id)
    ensures Ending(Next(s, a), r, id)
  {
    hide Wellformed, L.Next, LogOk, R.Gone;
    match a
    case Manage(x) => KeepsEnded(s, Next(s, a), x, id);
    case Arrive(req) =>
    case Step(q, live, tok) =>
      if q == r && s.reqs[r] == EndAtEnd(id) {
        EndEnds(s, id);
      } else {
        var x := StepsTheManager(s, q, live, tok);
        if x.Some? { KeepsEnded(s, Next(s, a), x.value, id); }
      }
  }

  lemma {:induction false} RunEnding(s: State, actions: seq<Action>, r: nat, id: Id)
    requires Sound(s) && Run(s, actions) && Ending(s, r, id)
    ensures Ending(Final(s, actions), r, id)
    decreases |actions|
  {
    hide Sound, Next, Enabled, Ending;
    if actions != [] {
      StepSound(s, actions[0]);
      StepEnding(s, actions[0], r, id);
      RunEnding(Next(s, actions[0]), actions[1..], r, id);
    }
  }

  /** Over every run, whatever happens in between: when a request to end the session has been given that session
      and is answered, the session is revoked and marked, or it has left the map for good. */
  lemma EndRequestEnds(s: State, before: seq<Action>, r: nat, id: Id, tok: Token, after: seq<Action>)
    requires Init(s) && Run(s, before)
    requires var u := Final(s, before);
      && r < |u.reqs| && u.reqs[r] == EndAtSession && Enabled(u, Step(r, Some(id), tok))
      && Run(Next(u, Step(r, Some(id), tok)), after)
    requires var f := Final(Next(Final(s, before), Step(r, Some(id), tok)), after);
             r < |f.reqs| && f.reqs[r] == Answered
    ensures Ended(Final(Next(Final(s, before), Step(r, Some(id), tok)), after), id)
  {
    InitWellformed(s.m);
    RunSound(s, before);
    var u := Final(s, before);
    var v := Next(u, Step(r, Some(id), tok));
    StepSound(u, Step(r, Some(id), tok));
    assert Ending(v, r, id);
    RunEnding(v, after, r, id);
  }

  /** Its tokens are gone when it goes on to end the session, and no other token is touched. */
  lemma EndDropsTokens(s: State, r: nat, id: Id, live: Option<Id>, tok: Token)
    requires r < |s.reqs| && s.reqs[r] == EndAtRevoke(id)
    ensures var s' := Next(s, Step(r, live, tok));
      && s'.reqs[r] == EndAtEnd(id) && s'.m == s.m
      && (forall t :: t in s'.tokens <==> t in s.tokens && s.tokens[t].sessionID != id)
      && (forall t :: t in s'.tokens ==> s'.tokens[t] == s.tokens[t])
  {
  }

  // ---- Nobody gets in after that --------------------------------------------------------------------

  /** No session check after the first `n` events was of `id`. */
  ghost predicate Unchecked(log: seq<Event>, n: nat, id: Id) {
    forall k :: n <= k < |log| && log[k].Checked? ==> log[k].s.id != id
  }

  /** Every check was made for a request that had arrived. */
  ghost predicate Numbered(s: State) {
    forall k :: 0 <= k < |s.log| && s.log[k].Checked? ==> s.log[k].r < |s.reqs|
  }

  /** A step writes at most one event; a check is of an active session, for a request that has arrived. */
  lemma StepWrites(s: State, a: Action)
    requires Enabled(s, a)
    ensures var s' := Next(s, a);
      && |s.reqs| <= |s'.reqs|
      && (s'.log == s.log || exists e :: s'.log == s.log + [e] && (e.Checked? ==> CheckIsOf(s, e)))
  {
    hide L.Next, L.Enabled, Check, ValidateIn, Session.Admits;
    var s' := Next(s, a);
    assert s'.log == s.log || s'.log == s.log + [s'.log[|s.log|]];
  }

  predicate CheckIsOf(s: State, e: Event)
    requires e.Checked?
  {
    e.r < |s.reqs| && exists id :: id in s.m.sessions && s.m.sessions[id] == e.s && e.s.status == Active
  }

  lemma StepChecks(s: State, a: Action, n: nat, id: Id)
    requires Sound(s) && Enabled(s, a)
    ensures s.log <= Next(s, a).log && |s.reqs| <= |Next(s, a).reqs|
    ensures Numbered(s) ==> Numbered(Next(s, a))
    ensures n <= |s.log| && Unchecked(s.log, n, id) && Retired(s.m, id) ==> Unchecked(Next(s, a).log, n, id)
  {
    StepWrites(s, a);
    hide Next, Enabled, LogOk, RevokersOk, NewOpsOk, TokensOk, MarksOk, RequestOk;
  }

  lemma StepKeepsRetired(s: State, a: Action, id: Id)
    requires Sound(s) && Enabled(s, a) && Retired(s.m, id)
    ensures Retired(Next(s, a).m, id)
  {
    hide L.Next, LogOk, Wellformed, Retired;
    match a
    case Manage(x) => R.StepRetired(s.m, x, id);
    case Arrive(_) =>
    case Step(q, live, tok) =>
      var x := StepsTheManager(s, q, live, tok);
      if x.Some? { R.StepRetired(s.m, x.value, id); }
  }

  lemma {:induction false} RunUnchecked(s: State, actions: seq<Action>, n: nat, id: Id)
    requires Sound(s) && Run(s, actions) && Retired(s.m, id) && n <= |s.log| && Unchecked(s.log, n, id)
    ensures s.log <= Final(s, actions).log && Unchecked(Final(s, actions).log, n, id)
    decreases |actions|
  {
    hide Sound, Next, Enabled, Retired, Unchecked;
    if actions != [] {
      StepSound(s, actions[0]);
      StepChecks(s, actions[0], n, id);
      StepKeepsRetired(s, actions[0], id);
      RunUnchecked(Next(s, actions[0]), actions[1..], n, id);
    }
  }

  lemma {:induction false} RunNumbered(s: State, actions: seq<Action>)
    requires Sound(s) && Run(s, actions) && Numbered(s)
    ensures Numbered(Final(s, actions))
    decreases |actions|
  {
    hide Sound, Next, Enabled, Numbered;
    if actions != [] {
      StepSound(s, actions[0]);
      StepChecks(s, actions[0], |s.log|, "");
      RunNumbered(Next(s, actions[0]), actions[1..]);
    }
  }

  /** Over every run: once a session is ended, no request that arrives later is ever forwarded on it, whatever
      token it carries. */
  lemma EndedMeansOut(s: State, before: seq<Action>, id: Id, after: seq<Action>, k: nat)
    requires Init(s) && Run(s, before) && Run(Final(s, before), after) && Ended(Final(s, before), id)
    requires var w, f := Final(s, before), Final(Final(s, before), after);
      && k < |f.log| && f.log[k].Forwarded? && f.log[k].r >= |w.reqs|
    ensures Final(Final(s, before), after).log[k].id != id
  {
    InitWellformed(s.m);
    RunSound(s, before);
    RunNumbered(s, before);
    var w := Final(s, before);
    RunSound(w, after);
    EndedIsRetired(w, id);
    RunUnchecked(w, after, |w.log|, id);
    var f := Final(w, after);
    assert forall j :: 0 <= j < |w.log| ==> f.log[j] == w.log[j];
    assert EventOk(f.log, k);
    var c :| c < k && CheckedAt(f.log, c, f.log[k].r, f.log[k].id, f.log[k].client);
  }

  lemma EndedIsRetired(s: State, id: Id)
    requires Sound(s) && Ended(s, id)
    ensures Retired(s.m, id)
  {
    if EndMark(id) in s.log {
      var k :| 0 <= k < |s.log| && s.log[k] == EndMark(id);
    }
  }
}
