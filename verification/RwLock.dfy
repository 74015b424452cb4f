/** The manager's sync.RWMutex and the order in which its operations take and release it, both as the
    text has it and as it is meant: one RLock in persist, and SetPlaygroundDB saving after its unlock. */
module RwLock {
  datatype Instr = RLock | RUnlock | Lock | Unlock | Save

  /** A writer first announces itself, which stops new readers, and then waits for the readers to leave. */
  datatype Writer = Idle | Waiting(i: nat) | Holding(i: nat)

  datatype Variant = AsWritten | Intended

  /** The manager's operations, with the outcome that decides which lock instructions they run. */
  datatype Op =
    | Read                       // Get, List, ActiveSession, ActiveSessions, RemainingFor
    | Verify
    | New(saved: bool)
    | NewRefused                 // provisioning failed
    | End(persists: bool)
    | Reap(persists: bool)
    | SetPlayground(found: bool)

  function Persist(v: Variant): seq<Instr> {
    if v == AsWritten then [RLock, RLock, RUnlock, Save] else [RLock, RUnlock, Save]
  }

  function Code(v: Variant, op: Op): seq<Instr> {
    match op
    case Read => [RLock, RUnlock]
    case Verify => [Lock, Unlock]
    case New(saved) => [Lock, Unlock] + Persist(v) + if saved then [] else [Lock, Unlock]
    case NewRefused => []
    case End(persists) => [Lock, Unlock] + if persists then Persist(v) else []
    case Reap(persists) => [Lock, Unlock] + if persists then Persist(v) else []
    case SetPlayground(found) =>
      if !found then [Lock, Unlock]
      else if v == AsWritten then [Lock] + Persist(v) + [Unlock]
      else [Lock, Unlock] + Persist(v)
  }

  datatype State = State(
    threads: seq<seq<Instr>>,  // what each operation still has to do
    readers: nat,              // read locks taken and not released
    writer: Writer,
    saves: nat)                // history: completed calls of persist

  datatype Action = Start(op: Op) | Step(i: nat)

  const Fresh: State := State([], 0, Idle, 0)

  predicate Unfinished(s: State, i: nat) {
    i < |s.threads| && s.threads[i] != []
  }

  predicate Enabled(s: State, a: Action) {
    match a
    case Start(_) => true
    case Step(i) =>
      && Unfinished(s, i)
      && match s.threads[i][0]
         case RLock => s.writer == Idle
         case RUnlock => s.readers > 0
         case Lock => s.writer == Idle || (s.writer == Waiting(i) && s.readers == 0)
         case Unlock => s.writer == Holding(i)
         case Save => true
  }

  function Pop(s: State, i: nat): State
    requires Unfinished(s, i)
  {
    s.(threads := s.threads[i := s.threads[i][1..]])
  }

  function Next(v: Variant, s: State, a: Action): State
    requires Enabled(s, a)
  {
    match a
    case Start(op) => s.(threads := s.threads + [Code(v, op)])
    case Step(i) =>
      match s.threads[i][0]
      case RLock => Pop(s, i).(readers := s.readers + 1)
      case RUnlock => Pop(s, i).(readers := s.readers - 1)
      case Lock => if s.writer == Idle then s.(writer := Waiting(i)) else Pop(s, i).(writer := Holding(i))
      case Unlock => Pop(s, i).(writer := Idle)
      case Save => Pop(s, i).(saves := s.saves + 1)
  }

  ghost predicate Run(v: Variant, s: State, actions: seq<Action>)
    decreases |actions|
  {
    actions == [] || (Enabled(s, actions[0]) && Run(v, Next(v, s, actions[0]), actions[1..]))
  }

  ghost function Final(v: Variant, s: State, actions: seq<Action>): State
    requires Run(v, s, actions)
    decreases |actions|
  {
    if actions == [] then s else Final(v, Next(v, s, actions[0]), actions[1..])
  }

  ghost predicate Finished(s: State) {
    forall i :: 0 <= i < |s.threads| ==> s.threads[i] == []
  }

  // ---- Counting read locks --------------------------------------------------------------------------

  /** How many read locks one call of persist leaves behind. */
  function Leak(v: Variant): nat {
    if v == AsWritten then 1 else 0
  }

  /** The read locks that an operation with this much left to do accounts for: those it is yet to give
      back, or to leave behind at its saves, less those it is yet to take. */
  function Owed(leak: nat, rest: seq<Instr>): int {
    if rest == [] then 0
    else Owed(leak, rest[1..]) + match rest[0]
                                 case RLock => -1
                                 case RUnlock => 1
                                 case Save => leak
                                 case _ => 0
  }

  ghost predicate NeverNegative(leak: nat, rest: seq<Instr>) {
    Owed(leak, rest) >= 0 && (rest != [] ==> NeverNegative(leak, rest[1..]))
  }

  function TotalOwed(leak: nat, threads: seq<seq<Instr>>): int {
    if threads == [] then 0 else Owed(leak, threads[0]) + TotalOwed(leak, threads[1..])
  }

  lemma {:induction false} TotalUpdate(leak: nat, threads: seq<seq<Instr>>, i: nat, rest: seq<Instr>)
    requires i < |threads|
    ensures TotalOwed(leak, threads[i := rest])
         == TotalOwed(leak, threads) - Owed(leak, threads[i]) + Owed(leak, rest)
  {
    if i == 0 {
      assert threads[i := rest][1..] == threads[1..];
    } else {
      TotalUpdate(leak, threads[1..], i - 1, rest);
      assert threads[i := rest][1..] == threads[1..][i - 1 := rest];
    }
  }

  lemma {:induction false} TotalAppend(leak: nat, threads: seq<seq<Instr>>, rest: seq<Instr>)
    ensures TotalOwed(leak, threads + [rest]) == TotalOwed(leak, threads) + Owed(leak, rest)
  {
    if threads == [] {
      assert threads + [rest] == [rest];
    } else {
      TotalAppend(leak, threads[1..], rest);
      assert (threads + [rest])[1..] == threads[1..] + [rest];
    }
  }

  lemma {:induction false} TotalNotNegative(leak: nat, threads: seq<seq<Instr>>)
    requires forall i :: 0 <= i < |threads| ==> NeverNegative(leak, threads[i])
    ensures TotalOwed(leak, threads) >= 0
    ensures TotalOwed(leak, threads) > 0 ==> exists i :: 0 <= i < |threads| && Owed(leak, threads[i]) > 0
  {
    if threads != [] {
      TotalNotNegative(leak, threads[1..]);
      if TotalOwed(leak, threads) > 0 && Owed(leak, threads[0]) == 0 {
        var i :| 0 <= i < |threads[1..]| && Owed(leak, threads[1..][i]) > 0;
        assert Owed(leak, threads[i + 1]) > 0;
      }
    }
  }

  lemma {:induction false} OwedConcat(leak: nat, a: seq<Instr>, b: seq<Instr>)
    requires NeverNegative(leak, a) && NeverNegative(leak, b)
    ensures Owed(leak, a + b) == Owed(leak, a) + Owed(leak, b)
    ensures NeverNegative(leak, a + b)
  {
    if a == [] {
      assert a + b == b;
    } else {
      OwedConcat(leak, a[1..], b);
      assert (a + b)[1..] == a[1..] + b;
    }
  }

  lemma PersistOwesNothing(v: Variant)
    ensures Owed(Leak(v), Persist(v)) == 0 && NeverNegative(Leak(v), Persist(v))
  {
    var p := Persist(v);
    var leak := Leak(v);
    assert Owed(leak, p[|p| - 1..]) == leak && NeverNegative(leak, p[|p| - 1..]);
    assert p[|p| - 2..][1..] == p[|p| - 1..];
    assert p[|p| - 3..][1..] == p[|p| - 2..];
    assert Owed(leak, p[|p| - 2..]) == leak + 1 && NeverNegative(leak, p[|p| - 2..]);
    assert Owed(leak, p[|p| - 3..]) == leak && NeverNegative(leak, p[|p| - 3..]);
    assert p[1..] == if v == AsWritten then p[|p| - 3..] else p[|p| - 2..];
  }

  /** Every operation, run from start to end, accounts for no read lock beyond those its saves leave. */
  lemma CodeOwesNothing(v: Variant, op: Op)
    ensures Owed(Leak(v), Code(v, op)) == 0 && NeverNegative(Leak(v), Code(v, op))
  {
    var leak := Leak(v);
    var section := [Lock, Unlock];
    assert section[1..] == [Unlock];
    PersistOwesNothing(v);
    OwedConcat(leak, section, Persist(v));
    OwedConcat(leak, section + Persist(v), section);
    OwedConcat(leak, [Lock], Persist(v));
    OwedConcat(leak, [Lock] + Persist(v), [Unlock]);
    match op
    case Read =>
      assert Code(v, op)[1..] == [RUnlock] && Owed(leak, [RUnlock]) == 1;
    case New(saved) =>
      assert Code(v, op) == if saved then section + Persist(v) else (section + Persist(v)) + section;
    case End(persists) => assert Code(v, op) == section + if persists then Persist(v) else [];
    case Reap(persists) => assert Code(v, op) == section + if persists then Persist(v) else [];
    case _ =>
  }

  /** The read locks that completed saves have left behind. */
  function LeftBehind(v: Variant, saves: nat): nat {
    if v == AsWritten then saves else 0
  }

  /** The invariant: every read lock held is owed by an operation in flight or was left behind by a
      save, and no read lock is held while a writer is inside. */
  ghost predicate Accounted(v: Variant, s: State) {
    && s.readers == LeftBehind(v, s.saves) + TotalOwed(Leak(v), s.threads)
    && (forall i :: 0 <= i < |s.threads| ==> NeverNegative(Leak(v), s.threads[i]))
    && (s.writer.Holding? ==> s.readers == 0)
  }

  lemma StepAccounted(v: Variant, s: State, a: Action)
    requires Accounted(v, s) && Enabled(s, a)
    ensures Accounted(v, Next(v, s, a))
  {
    match a
    case Start(op) =>
      CodeOwesNothing(v, op);
      TotalAppend(Leak(v), s.threads, Code(v, op));
    case Step(i) =>
      TotalUpdate(Leak(v), s.threads, i, s.threads[i][1..]);
      assert NeverNegative(Leak(v), s.threads[i]);
  }

  lemma {:induction false} RunAccounted(v: Variant, s: State, actions: seq<Action>)
    requires Accounted(v, s) && Run(v, s, actions)
    ensures Accounted(v, Final(v, s, actions))
    decreases |actions|
  {
    if actions != [] {
      StepAccounted(v, s, actions[0]);
      RunAccounted(v, Next(v, s, actions[0]), actions[1..]);
    }
  }

  lemma {:induction false} FinishedOwesNothing(leak: nat, threads: seq<seq<Instr>>)
    requires forall i :: 0 <= i < |threads| ==> threads[i] == []
    ensures TotalOwed(leak, threads) == 0
  {
    if threads != [] {
      assert threads[0] == [];
      FinishedOwesNothing(leak, threads[1..]);
    }
  }

  lemma FreshIsInOrder(v: Variant)
    ensures Accounted(v, Fresh)
  {
  }

  lemma QuietState(v: Variant, s: State)
    requires Accounted(v, s) && Finished(s)
    ensures s.readers == LeftBehind(v, s.saves)
  {
    FinishedOwesNothing(Leak(v), s.threads);
  }

  /** Whenever no operation is in flight, the text as written holds exactly one read lock for each
      completed save, and the intended text holds none. */
  lemma QuietReadersAreTheSaves(v: Variant, actions: seq<Action>)
    requires Run(v, Fresh, actions) && Finished(Final(v, Fresh, actions))
    ensures var s := Final(v, Fresh, actions);
            s.readers == LeftBehind(v, s.saves)
  {
    hide *;
    FreshIsInOrder(v);
    RunAccounted(v, Fresh, actions);
    QuietState(v, Final(v, Fresh, actions));
  }

  // ---- As written: what the extra read lock does ----------------------------------------------------

  lemma SavedMeansRead(s: State)
    requires Accounted(AsWritten, s)
    ensures s.saves <= s.readers && (s.saves > 0 ==> !s.writer.Holding?)
  {
    TotalNotNegative(1, s.threads);
  }

  /** In the text as written, once one save has completed no writer is ever inside again: an operation
      about to take the write lock stays there for ever, whatever the others do. */
  lemma {:induction false} AfterASaveNobodyWrites(s: State, actions: seq<Action>, i: nat)
    requires Accounted(AsWritten, s) && s.saves > 0 && Run(AsWritten, s, actions)
    requires Unfinished(s, i) && s.threads[i][0] == Lock
    ensures var t := Final(AsWritten, s, actions);
            !t.writer.Holding? && Unfinished(t, i) && t.threads[i] == s.threads[i]
    decreases |actions|
  {
    SavedMeansRead(s);
    if actions != [] {
      StepAccounted(AsWritten, s, actions[0]);
      AfterASaveNobodyWrites(Next(AsWritten, s, actions[0]), actions[1..], i);
    }
  }

  /** In the text as written, SetPlaygroundDB that has found its session and is inside its write lock
      waits for ever for the read lock of its own persist, and with it everyone who needs the lock. */
  lemma {:induction false} SetPlaygroundBlocksItself(s: State, actions: seq<Action>, i: nat)
    requires i < |s.threads| && s.writer == Holding(i) && s.threads[i] == Code(AsWritten, SetPlayground(true))[1..]
    requires Run(AsWritten, s, actions)
    ensures var t := Final(AsWritten, s, actions);
            && i < |t.threads| && t.writer == Holding(i) && t.threads[i] == s.threads[i]
            && forall j: nat :: Unfinished(t, j) && t.threads[j][0] in {RLock, Lock} ==> !Enabled(t, Step(j))
    decreases |actions|
  {
    assert s.threads[i][0] == RLock;
    if actions != [] {
      assert actions[0] != Step(i);
      SetPlaygroundBlocksItself(Next(AsWritten, s, actions[0]), actions[1..], i);
    }
  }

  lemma Prepend(v: Variant, s: State, a: Action, rest: seq<Action>)
    requires Enabled(s, a) && Run(v, Next(v, s, a), rest)
    ensures Run(v, s, [a] + rest) && Final(v, s, [a] + rest) == Final(v, Next(v, s, a), rest)
  {
    assert ([a] + rest)[1..] == rest;
  }

  /** The first situation is reached: by a SetPlaygroundDB that is the first to take the lock. */
  lemma SelfBlockIsReached() returns (actions: seq<Action>)
    ensures Run(AsWritten, Fresh, actions)
    ensures Final(AsWritten, Fresh, actions)
         == State([Code(AsWritten, SetPlayground(true))[1..]], 0, Holding(0), 0)
  {
    var v := AsWritten;
    var code := Code(v, SetPlayground(true));
    Prepend(v, State([code], 0, Waiting(0), 0), Step(0), []);
    Prepend(v, State([code], 0, Idle, 0), Step(0), [Step(0)]);
    assert [] + [code] == [code];
    Prepend(v, Fresh, Start(SetPlayground(true)), [Step(0)] + [Step(0)]);
    actions := [Start(SetPlayground(true))] + ([Step(0)] + [Step(0)]);
  }

  /** So is the second: by a session that is created and saved before somebody calls VerifyAccess. */
  lemma SaveThenVerifyIsReached() returns (actions: seq<Action>)
    ensures Run(AsWritten, Fresh, actions)
    ensures Final(AsWritten, Fresh, actions) == State([[], [Lock, Unlock]], 1, Idle, 1)
  {
    var v := AsWritten;
    var c := [Lock, Unlock, RLock, RLock, RUnlock, Save];
    assert Code(v, New(true)) == c;
    actions := [Start(Verify)];
    var s8 := State([[]], 1, Idle, 1);
    Prepend(v, s8, Start(Verify), []);
    assert Final(v, s8, actions) == State([[], [Lock, Unlock]], 1, Idle, 1);
    var s7 := State([[Save]], 1, Idle, 0);
    var s6 := State([[RUnlock, Save]], 2, Idle, 0);
    var s5 := State([[RLock, RUnlock, Save]], 1, Idle, 0);
    var s4 := State([[RLock, RLock, RUnlock, Save]], 0, Idle, 0);
    var s3 := State([c[1..]], 0, Holding(0), 0);
    var s2 := State([c], 0, Waiting(0), 0);
    var s1 := State([c], 0, Idle, 0);
    actions := StepFirst(s7, s8, actions);
    actions := StepFirst(s6, s7, actions);
    actions := StepFirst(s5, s6, actions);
    actions := StepFirst(s4, s5, actions);
    actions := StepFirst(s3, s4, actions);
    actions := StepFirst(s2, s3, actions);
    actions := StepFirst(s1, s2, actions);
    assert [] + [c] == [c];
    Prepend(v, Fresh, Start(New(true)), actions);
    actions := [Start(New(true))] + actions;
  }

  lemma StepFirst(s: State, t: State, rest: seq<Action>) returns (all: seq<Action>)
    requires Enabled(s, Step(0)) && Run(AsWritten, t, rest)
    requires var n := Next(AsWritten, s, Step(0));
             && |n.threads| == |t.threads| == 1 && n.threads[0] == t.threads[0]
             && n.(threads := []) == t.(threads := [])
    ensures Run(AsWritten, s, all) && Final(AsWritten, s, all) == Final(AsWritten, t, rest)
  {
    assert Next(AsWritten, s, Step(0)).threads == t.threads;
    Prepend(AsWritten, s, Step(0), rest);
    all := [Step(0)] + rest;
  }

  // ---- As intended: no deadlock ---------------------------------------------------------------------

  /** Lock sections one after the other, never one inside another. */
  predicate Outside(rest: seq<Instr>) {
    rest == []
    || (rest[0] == Save && Outside(rest[1..]))
    || (|rest| >= 2 && (rest[..2] == [Lock, Unlock] || rest[..2] == [RLock, RUnlock]) && Outside(rest[2..]))
  }

  predicate Inside(rest: seq<Instr>, exit: Instr) {
    rest != [] && rest[0] == exit && Outside(rest[1..])
  }

  /** Each operation is between two sections, or inside a read section; inside a write section exactly
      the one that holds the lock; and the one that waits for it is about to take it. */
  ghost predicate Orderly(s: State) {
    && (forall i :: 0 <= i < |s.threads| ==>
          if s.writer == Holding(i) then Inside(s.threads[i], Unlock)
          else Outside(s.threads[i]) || Inside(s.threads[i], RUnlock))
    && (s.writer.Holding? ==> s.writer.i < |s.threads|)
    && (s.writer.Waiting? ==> Unfinished(s, s.writer.i) && s.threads[s.writer.i][0] == Lock)
  }

  lemma {:induction false} OutsideConcat(a: seq<Instr>, b: seq<Instr>)
    requires Outside(a) && Outside(b)
    ensures Outside(a + b)
    decreases |a|
  {
    if a == [] {
      assert a + b == b;
    } else if a[0] == Save {
      OutsideConcat(a[1..], b);
      assert (a + b)[1..] == a[1..] + b;
    } else {
      OutsideConcat(a[2..], b);
      assert (a + b)[2..] == a[2..] + b && (a + b)[..2] == a[..2];
    }
  }

  /** As intended, every operation takes its locks one at a time and gives each back before the next. */
  lemma IntendedIsOutside(op: Op)
    ensures Outside(Code(Intended, op))
  {
    var section := [Lock, Unlock];
    var save := Persist(Intended);
    assert save[2..][1..] == [] && Outside(save[2..]);
    OutsideConcat(section, save);
    OutsideConcat(section + save, section);
    match op
    case New(saved) => assert Code(Intended, op) == if saved then section + save else (section + save) + section;
    case End(persists) => assert Code(Intended, op) == if persists then section + save else section;
    case Reap(persists) => assert Code(Intended, op) == if persists then section + save else section;
    case _ =>
  }

  lemma StepOrderly(s: State, a: Action)
    requires Orderly(s) && Enabled(s, a)
    ensures Orderly(Next(Intended, s, a))
  {
    match a
    case Start(op) => IntendedIsOutside(op);
    case Step(i) =>
      var rest := s.threads[i];
      assert |rest| >= 2 && rest[0] in {Lock, RLock} && Outside(rest) ==>
          rest[1] == rest[..2][1] && rest[1..][1..] == rest[2..];
  }

  /** What keeps an operation waiting can always move: from no reachable state of the intended text is
      every step blocked while something is in flight. */
  lemma SomethingCanStep(s: State) returns (i: nat)
    requires Accounted(Intended, s) && Orderly(s) && !Finished(s)
    ensures Unfinished(s, i) && Enabled(s, Step(i))
  {
    TotalNotNegative(0, s.threads);
    if s.writer != Idle && s.readers == 0 {
      i := s.writer.i;
    } else if s.writer != Idle {
      i :| 0 <= i < |s.threads| && Owed(0, s.threads[i]) > 0;
      if Outside(s.threads[i]) { OutsideOwesNothing(s.threads[i]); }
    } else {
      i :| 0 <= i < |s.threads| && s.threads[i] != [];
      if Inside(s.threads[i], RUnlock) {
        OutsideOwesNothing(s.threads[i][1..]);
        TotalUpdate(0, s.threads, i, []);
        TotalNotNegative(0, s.threads[i := []]);
      }
    }
  }

  lemma {:induction false} OutsideOwesNothing(rest: seq<Instr>)
    requires Outside(rest)
    ensures Owed(0, rest) == 0
    decreases |rest|
  {
    if rest != [] {
      if rest[0] == Save {
        OutsideOwesNothing(rest[1..]);
      } else {
        assert rest[1] == rest[..2][1];
        OutsideOwesNothing(rest[2..]);
        assert rest[1..][1..] == rest[2..];
      }
    }
  }

  // How much is left to do.
  function Work(threads: seq<seq<Instr>>): nat {
    if threads == [] then 0 else 2 * |threads[0]| + Work(threads[1..])
  }

  function Left(s: State): int {
    Work(s.threads) - if s.writer.Waiting? then 1 else 0
  }

  lemma {:induction false} WorkUpdate(threads: seq<seq<Instr>>, i: nat, rest: seq<Instr>)
    requires i < |threads|
    ensures Work(threads[i := rest]) == Work(threads) - 2 * |threads[i]| + 2 * |rest|
    ensures Work(threads) >= 2 * |threads[i]|
  {
    if i == 0 {
      assert threads[i := rest][1..] == threads[1..];
    } else {
      WorkUpdate(threads[1..], i - 1, rest);
      assert threads[i := rest][1..] == threads[1..][i - 1 := rest];
    }
  }

  /** From every reachable state of the intended text, everything in flight can be run to its end; and
      there it leaves the lock as free as it was at the start. */
  lemma {:induction false} EverythingCanFinish(s: State) returns (actions: seq<Action>)
    requires Accounted(Intended, s) && Orderly(s)
    ensures Run(Intended, s, actions)
    ensures var t := Final(Intended, s, actions); Finished(t) && t.readers == 0 && t.writer == Idle
    decreases Left(s)
  {
    if Finished(s) {
      actions := [];
      FinishedOwesNothing(0, s.threads);
    } else {
      var i := SomethingCanStep(s);
      var t := Next(Intended, s, Step(i));
      StepAccounted(Intended, s, Step(i));
      StepOrderly(s, Step(i));
      WorkUpdate(s.threads, i, s.threads[i][1..]);
      var rest := EverythingCanFinish(t);
      Prepend(Intended, s, Step(i), rest);
      actions := [Step(i)] + rest;
    }
  }

  lemma FreshIsOrderly()
    ensures Orderly(Fresh)
  {
    hide Outside, Inside;
  }

  lemma {:induction false} RunOrderly(s: State, actions: seq<Action>)
    requires Orderly(s) && Run(Intended, s, actions)
    ensures Orderly(Final(Intended, s, actions))
    decreases |actions|
  {
    if actions != [] {
      StepOrderly(s, actions[0]);
      RunOrderly(Next(Intended, s, actions[0]), actions[1..]);
    }
  }

  /** Some operation can step, unless all are done. */
  ghost predicate Live(s: State) {
    Finished(s) || exists i: nat :: Unfinished(s, i) && Enabled(s, Step(i))
  }

  lemma OrderlyIsLive(s: State)
    requires Accounted(Intended, s) && Orderly(s)
    ensures Live(s) && (Finished(s) ==> s.readers == 0 && s.writer == Idle)
  {
    if Finished(s) {
      QuietState(Intended, s);
    } else {
      var i := SomethingCanStep(s);
    }
  }

  /** Over every run of the intended text: some operation can step unless all are done, no matter which
      ones are in flight and where; and when all are done the lock is free. */
  lemma IntendedNeverDeadlocks(actions: seq<Action>)
    requires Run(Intended, Fresh, actions)
    ensures var s := Final(Intended, Fresh, actions);
            Live(s) && (Finished(s) ==> s.readers == 0 && s.writer == Idle)
  {
    hide *;
    FreshIsInOrder(Intended);
    FreshIsOrderly();
    RunAccounted(Intended, Fresh, actions);
    RunOrderly(Fresh, actions);
    OrderlyIsLive(Final(Intended, Fresh, actions));
  }
}
