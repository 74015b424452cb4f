/** The session object and the Activator that acquires and releases its MySQL user and firewall rule. */
module Provisioning {
  import opened Text
  import opened Address
  import opened Sessions
  import opened Lifecycle
  import A = Accounts

  /** What Provision stamps on a session. */
  datatype Credentials = Credentials(user: string, password: string, host: Host)

  /** A session as it is saved. */
  datatype Saved = Saved(s: Session, credentials: Option<Credentials>)

  /** session.Session: one object, shared by the manager's map and by everyone it was handed to. */
  class Record {
    const id: Id
    const cidr: Cidr
    const expiresAt: Time
    var status: Status
    var playgroundDB: string
    var failedAttempts: nat
    var lastAttempt: Time
    var credentials: Option<Credentials>

    constructor (s: Session, credentials: Option<Credentials>)
      ensures View() == s && this.credentials == credentials
    {
      id, cidr, expiresAt := s.id, s.cidr, s.expiresAt;
      status, playgroundDB, failedAttempts, lastAttempt := s.status, s.playgroundDB, s.failedAttempts, s.lastAttempt;
      this.credentials := credentials;
    }

    function View(): Session
      reads this
    {
      Session(id, cidr, expiresAt, status, playgroundDB, failedAttempts, lastAttempt)
    }

    function Copy(): Saved
      reads this
    {
      Saved(View(), credentials)
    }

    /** Provision has put its credentials here. */
    ghost predicate Stamped()
      reads this
    {
      credentials.Some? && credentials.value.user == "tmp_" + id && A.TempUserOk(credentials.value.user)
    }
  }

  datatype RevokeError = DropUserFailed | CloseFirewallFailed

  /** access.Activator over the temporary users of one server, by session, and the open rules. */
  class Activator {
    const db: A.Server<Id>
    var rules: set<Source>

    constructor (db: A.Server<Id>)
      ensures this.db == db && rules == {}
    {
      this.db := db;
      rules := {};
    }

    /** The users and rules that exist are the ones the protocol state has. */
    ghost predicate Matches(t: State)
      reads this, db
    {
      db.accounts.Keys == t.users && rules == t.rules
    }

    /** `random` are the bytes drawn for the password. On success the session is stamped; otherwise it
        is left alone, and what was acquired is rolled back as far as the clean-up succeeds. */
    method Provision(s: Record, random: seq<nat>, luck: A.Luck, allowed: bool) returns (ok: bool)
      requires |random| == 24 && Valid(s.cidr)
      modifies this, db, s`credentials
      ensures ok ==> s.Stamped() && A.Safe(s.credentials.value.password)
      ensures ok ==> Some(s.credentials.value.host) == CIDRToHost(s.cidr)
      ensures ok ==> s.id in db.accounts
                     && db.accounts[s.id] == A.Account(s.credentials.value.password, Some(A.Everything))
      ensures !ok ==> s.credentials == old(s.credentials)
      ensures ok <==> CanProvision(s.View()) && A.Succeeds(old(db.accounts), s.id, luck) && allowed
      ensures CanProvision(s.View()) ==>
        var after := AfterProvision(old(db.accounts).Keys, old(rules), s.id, s.View().Rule(), luck, allowed);
        db.accounts.Keys == after.0 && rules == after.1
      ensures !CanProvision(s.View()) ==> db.accounts.Keys == old(db.accounts).Keys && rules == old(rules)
      ensures !ok ==> rules == old(rules)
      ensures ok ==> forall x :: ValidAddr(x) ==> (OpenTo(rules, x) <==> OpenTo(old(rules), x) || InPrefix(s.cidr, x))
    {
      var host := CIDRToHost(s.cidr);
      if host.None? {
        return false;
      }
      var b := new nat[24](i requires 0 <= i < 24 => random[i]);
      var password := A.GenPassword(b);
      var user := "tmp_" + s.id;
      var safe := A.SafePassword(password);
      if !A.TempUserOk(user) || !safe {
        return false;
      }
      var failed := db.CreateAccount(s.id, password, A.Everything, luck);
      if failed {
        return false;
      }
      if !allowed {
        var _ := db.DropAccount(s.id, luck.drop);
        return false;
      }
      forall x | ValidAddr(x) ensures OpenTo(rules + {RuleOf(s.cidr)}, x) <==> OpenTo(rules, x) || InPrefix(s.cidr, x) {
        OpeningAddsTheRange(rules, s.cidr, x);
      }
      rules := rules + {RuleOf(s.cidr)};
      s.credentials := Some(Credentials(user, password, host.value));
      return true;
    }

    method DropUser(user: string, id: Id, ok: bool) returns (failed: bool)
      modifies db
      ensures failed <==> !A.TempUserOk(user) || !ok
      ensures db.accounts == if failed then old(db.accounts) else old(db.accounts) - {id}
    {
      if !A.TempUserOk(user) {
        return true;
      }
      failed := db.DropAccount(id, ok);
    }

    /** Both steps are attempted, whatever the other one does, and each failure is reported. */
    method Revoke(s: Record, dropOk: bool, denyOk: bool) returns (errors: seq<RevokeError>)
      modifies this, db
      ensures rules == if denyOk then old(rules) - {s.View().Rule()} else old(rules)
      ensures forall x :: ValidAddr(x) && !(Valid(s.cidr) && InPrefix(s.cidr, x)) ==>
                (OpenTo(rules, x) <==> OpenTo(old(rules), x))
      ensures s.Stamped() ==>
        && db.accounts == (if dropOk then old(db.accounts) - {s.id} else old(db.accounts))
        && errors == (if dropOk then [] else [DropUserFailed]) + (if denyOk then [] else [CloseFirewallFailed])
      ensures s.credentials.None? ==>
        db.accounts == old(db.accounts) && errors == if denyOk then [] else [CloseFirewallFailed]
    {
      errors := [];
      if s.credentials.Some? {
        var failed := DropUser(s.credentials.value.user, s.id, dropOk);
        if failed {
          errors := errors + [DropUserFailed];
        }
      }
      if denyOk {
        forall x | ValidAddr(x) && !(Valid(s.cidr) && InPrefix(s.cidr, x))
          ensures OpenTo(rules - {RuleOf(s.cidr)}, x) <==> OpenTo(rules, x)
        {
          ClosingTakesOnlyTheRange(rules, s.cidr, x);
        }
        rules := rules - {RuleOf(s.cidr)};
      } else {
        errors := errors + [CloseFirewallFailed];
      }
    }
  }

  /** Neither CIDRToHost nor CreateUser's checks refuse the session. */
  predicate CanProvision(s: Session) {
    !s.cidr.Malformed? && A.TempUserOk("tmp_" + s.id)
  }

  /** The temporary users after Provision. */
  function ProvisionedUsers(users: set<Id>, id: Id, luck: A.Luck, allowed: bool): set<Id> {
    var created := id !in users && luck.create;
    if created && luck.grant && luck.flush && allowed then users + {id}
    else if luck.drop then users - {id}
    else if created then users + {id}
    else users
  }

  /** Users and rules after Provision. */
  function AfterProvision(users: set<Id>, rules: set<Source>, id: Id, rule: Source, luck: A.Luck, allowed: bool)
    : (set<Id>, set<Source>)
  {
    var ok := id !in users && luck.create && luck.grant && luck.flush && allowed;
    (ProvisionedUsers(users, id, luck, allowed), if ok then rules + {rule} else rules)
  }

  /** Provision either acquires both resources or, when its clean-up succeeds and the user did not exist
      before, changes nothing; that condition is exact for every attempt that reached CREATE USER. */
  lemma ProvisionAllOrNothing(users: set<Id>, rules: set<Source>, id: Id, rule: Source, luck: A.Luck, allowed: bool)
    ensures var ok := id !in users && luck.create && luck.grant && luck.flush && allowed;
            var after := AfterProvision(users, rules, id, rule, luck, allowed);
            && (ok ==> after == (users + {id}, rules + {rule}))
            && (!ok ==> (after == (users, rules) <==> if id in users then !luck.drop else luck.drop || !luck.create))
  {
    var after := ProvisionedUsers(users, id, luck, allowed);
    assert id in users && luck.drop ==> id !in after;
    assert id !in users && luck.create && !luck.drop ==> id in after;
    assert id !in users ==> users - {id} == users;
  }

  // ---- The protocol's steps -------------------------------------------------------------------------

  lemma {:induction false} Extend(s: State, acts: seq<Action>, a: Action)
    requires Run(s, acts) && Enabled(Final(s, acts), a)
    ensures Run(s, acts + [a]) && Final(s, acts + [a]) == Next(Final(s, acts), a)
    decreases |acts|
  {
    if acts == [] {
      assert acts + [a] == [a] && [a][1..] == [];
    } else {
      Extend(Next(s, acts[0]), acts[1..], a);
      assert (acts + [a])[1..] == acts[1..] + [a];
    }
  }

  /** `acts` are steps of operation `n` and of nothing else. */
  ghost predicate StepsOf(n: nat, acts: seq<Action>) {
    forall k :: 0 <= k < |acts| ==> acts[k].Advance? && acts[k].i == n
  }

  /** A run that is under way: it goes from `s` to `t` by steps of operation `n` alone. */
  ghost predicate Leads(s: State, n: nat, acts: seq<Action>, t: State) {
    StepsOf(n, acts) && Run(s, acts) && Final(s, acts) == t
  }

  lemma Advances(s: State, n: nat, acts: seq<Action>, t: State, ok: bool) returns (acts': seq<Action>, t': State)
    requires Leads(s, n, acts, t) && n < |t.ops| && t.ops[n] != Done
    ensures acts' == acts + [Advance(n, ok)] && t' == Next(t, Advance(n, ok)) && Leads(s, n, acts', t')
  {
    Extend(s, acts, Advance(n, ok));
    acts', t' := acts + [Advance(n, ok)], Next(t, Advance(n, ok));
  }

  /** Provision is the protocol's steps from Creating on, uninterrupted: it ends with the session about
      to be registered or with the operation over, and with the same users and rules. */
  lemma ProvisionFollowsProtocol(s: State, n: nat, x: Session, luck: A.Luck, allowed: bool)
      returns (acts: seq<Action>, t: State)
    requires n < |s.ops| && s.ops[n] == New(x, Creating)
    ensures Leads(s, n, acts, t)
    ensures var ok := x.id !in s.users && luck.create && luck.grant && luck.flush && allowed;
      && t.users == ProvisionedUsers(s.users, x.id, luck, allowed)
      && t.rules == (if ok then s.rules + {x.Rule()} else s.rules)
      && t.ops == s.ops[n := if ok then New(x, Registering) else Done]
      && t == s.(ops := t.ops, users := t.users, rules := t.rules, leakedUsers := t.leakedUsers)
  {
    hide Run, Final, StepsOf, EndStep, ReapStep, TouchStep, Check, Targets, SetStatus, RuleOf;
    acts, t := Start(s, n);
    var created := x.id !in s.users && luck.create;
    acts, t := Advances(s, n, acts, t, created);
    if !created {
      acts, t := Advances(s, n, acts, t, luck.drop);
      return;
    }
    acts, t := GrantFollowsProtocol(s, n, acts, t, x, luck, allowed);
  }

  /** Provision's steps once the user exists. */
  lemma GrantFollowsProtocol(s: State, n: nat, acts: seq<Action>, t: State, x: Session, luck: A.Luck, allowed: bool)
      returns (acts': seq<Action>, t': State)
    requires Leads(s, n, acts, t) && n < |t.ops| && t.ops[n] == New(x, Granting)
    ensures Leads(s, n, acts', t')
    ensures var ok := luck.grant && luck.flush && allowed;
      && t'.users == (if !ok && luck.drop then t.users - {x.id} else t.users)
      && t'.rules == (if ok then t.rules + {x.Rule()} else t.rules)
      && t'.ops == t.ops[n := if ok then New(x, Registering) else Done]
      && t' == t.(ops := t'.ops, users := t'.users, rules := t'.rules, leakedUsers := t'.leakedUsers)
  {
    hide Run, Final, StepsOf, EndStep, ReapStep, TouchStep, Check, Targets, SetStatus, RuleOf;
    acts', t' := Advances(s, n, acts, t, luck.grant);
    if luck.grant {
      acts', t' := Advances(s, n, acts', t', luck.flush);
      if luck.flush {
        acts', t' := Advances(s, n, acts', t', allowed);
        if allowed {
          return;
        }
      }
    }
    acts', t' := Advances(s, n, acts', t', luck.drop);
  }

  lemma Start(s: State, n: nat) returns (acts: seq<Action>, t: State)
    ensures acts == [] && t == s && Leads(s, n, acts, t)
  {
    acts, t := [], s;
  }
}
