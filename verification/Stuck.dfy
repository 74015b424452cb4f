/** The read-write lock as written: exactly which operations, called together, can get one of them stuck. */
module Stuck {
  import opened RwLock

  /** All of `ops` called, none of which has taken a step: a thread that has not started is one that waits. */
  function Begin(ops: seq<Op>): State {
    State(seq(|ops|, i requires 0 <= i < |ops| => Code(AsWritten, ops[i])), 0, Idle, 0)
  }

  ghost predicate OnlySteps(actions: seq<Action>) {
    forall k :: 0 <= k < |actions| ==> actions[k].Step?
  }

  /** Operation `i` is not done, and nothing that may still happen, new calls included, gets it done. */
  ghost predicate StuckForEver(s: State, i: nat) {
    Unfinished(s, i)
    && forall more :: Run(AsWritten, s, more) ==> Unfinished(Final(AsWritten, s, more), i)
  }

  /** Some interleaving of these operations gets one of them stuck for ever. */
  ghost predicate CanGetStuck(ops: seq<Op>) {
    exists run, i: nat :: OnlySteps(run) && Run(AsWritten, Begin(ops), run)
                          && StuckForEver(Final(AsWritten, Begin(ops), run), i)
  }

  /** The calls themselves, in any order, lead there. */
  lemma {:induction false} BeginIsReached(threads: seq<seq<Instr>>, ops: seq<Op>) returns (calls: seq<Action>)
    ensures calls == seq(|ops|, i requires 0 <= i < |ops| => Start(ops[i]))
    ensures var s := State(threads, 0, Idle, 0);
            Run(AsWritten, s, calls) && Final(AsWritten, s, calls) == s.(threads := threads + Begin(ops).threads)
    decreases |ops|
  {
    calls := [];
    if ops == [] {
      assert threads + [] == threads;
    } else {
      var rest := BeginIsReached(threads + [Code(AsWritten, ops[0])], ops[1..]);
      Prepend(AsWritten, State(threads, 0, Idle, 0), Start(ops[0]), rest);
      calls := [Start(ops[0])] + rest;
      assert Begin(ops).threads == [Code(AsWritten, ops[0])] + Begin(ops[1..]).threads;
      assert (threads + [Code(AsWritten, ops[0])]) + Begin(ops[1..]).threads == threads + Begin(ops).threads;
    }
    assert calls == seq(|ops|, i requires 0 <= i < |ops| => Start(ops[i]));
  }

  /** The operation saves once, after its only write section. */
  predicate Saves(op: Op) {
    op == New(true) || op == End(true) || op == Reap(true)
  }

  predicate TakesWriteLock(op: Op) {
    op != Read && op != NewRefused
  }

  ghost predicate SaverAndWriter(ops: seq<Op>, i: nat, j: nat) {
    i < |ops| && j < |ops| && i != j && Saves(ops[i]) && TakesWriteLock(ops[j])
  }

  /** Some SetPlaygroundDB that finds its session, some New that fails to save, or an operation that saves
      together with another one that takes the write lock. */
  ghost predicate Dangerous(ops: seq<Op>) {
    SetPlayground(true) in ops || New(false) in ops || exists i: nat, j: nat :: SaverAndWriter(ops, i, j)
  }

  // ---- A dangerous set of operations gets stuck -----------------------------------------------------

  lemma BeginTotal(leak: nat, ops: seq<Op>)
    requires leak == Leak(AsWritten)
    ensures TotalOwed(leak, Begin(ops).threads) == 0
  {
    if ops != [] {
      CodeOwesNothing(AsWritten, ops[0]);
      BeginTotal(leak, ops[1..]);
      assert Begin(ops).threads[1..] == Begin(ops[1..]).threads;
    }
  }

  lemma BeginAccounted(ops: seq<Op>)
    ensures Accounted(AsWritten, Begin(ops))
  {
    BeginTotal(1, ops);
    forall i | 0 <= i < |ops| ensures NeverNegative(1, Begin(ops).threads[i]) {
      CodeOwesNothing(AsWritten, ops[i]);
    }
  }

  const SAVER: seq<Instr> := [Lock, Unlock, RLock, RLock, RUnlock, Save]

  /** Thread `i` takes one step, from `s` to `t`, in front of `rest`. */
  lemma StepInFront(s: State, t: State, i: nat, rest: seq<Action>) returns (all: seq<Action>)
    requires Enabled(s, Step(i)) && Next(AsWritten, s, Step(i)) == t
    requires OnlySteps(rest) && Run(AsWritten, t, rest)
    ensures OnlySteps(all) && Run(AsWritten, s, all) && Final(AsWritten, s, all) == Final(AsWritten, t, rest)
  {
    Prepend(AsWritten, s, Step(i), rest);
    all := [Step(i)] + rest;
  }

  /** The state in which thread `i` has `rest` left to do and the others are as in `threads`. */
  function With(threads: seq<seq<Instr>>, i: nat, rest: seq<Instr>, readers: nat, writer: Writer, saves: nat): State
    requires i < |threads|
  {
    State(threads[i := rest], readers, writer, saves)
  }

  lemma WithSteps(threads: seq<seq<Instr>>, i: nat, h: Instr, rest: seq<Instr>,
                  readers: nat, writer: Writer, saves: nat)
    requires i < |threads|
    ensures threads[i := [h] + rest][i := ([h] + rest)[1..]] == threads[i := rest]
    ensures ([h] + rest)[1..] == rest
  {
  }

  lemma SaverEnds(threads: seq<seq<Instr>>, i: nat, after: seq<Instr>) returns (run: seq<Action>)
    requires i < |threads|
    ensures OnlySteps(run)
    ensures var s := With(threads, i, [RLock] + ([RLock] + ([RUnlock] + ([Save] + after))), 0, Idle, 0);
            Run(AsWritten, s, run) && Final(AsWritten, s, run) == With(threads, i, after, 1, Idle, 1)
  {
    var r1 := [Save] + after;
    var r2 := [RUnlock] + r1;
    var r3 := [RLock] + r2;
    var r4 := [RLock] + r3;
    WithSteps(threads, i, Save, after, 1, Idle, 0);
    WithSteps(threads, i, RUnlock, r1, 2, Idle, 0);
    WithSteps(threads, i, RLock, r2, 1, Idle, 0);
    WithSteps(threads, i, RLock, r3, 0, Idle, 0);
    run := StepInFront(With(threads, i, r1, 1, Idle, 0), With(threads, i, after, 1, Idle, 1), i, []);
    run := StepInFront(With(threads, i, r2, 2, Idle, 0), With(threads, i, r1, 1, Idle, 0), i, run);
    run := StepInFront(With(threads, i, r3, 1, Idle, 0), With(threads, i, r2, 2, Idle, 0), i, run);
    run := StepInFront(With(threads, i, r4, 0, Idle, 0), With(threads, i, r3, 1, Idle, 0), i, run);
  }

  lemma SaverStarts(threads: seq<seq<Instr>>, i: nat, rest: seq<Instr>, more: seq<Action>) returns (run: seq<Action>)
    requires i < |threads| && OnlySteps(more) && Run(AsWritten, With(threads, i, rest, 0, Idle, 0), more)
    ensures OnlySteps(run)
    ensures var s := With(threads, i, [Lock] + ([Unlock] + rest), 0, Idle, 0);
            Run(AsWritten, s, run)
            && Final(AsWritten, s, run) == Final(AsWritten, With(threads, i, rest, 0, Idle, 0), more)
  {
    var r1 := [Unlock] + rest;
    var r2 := [Lock] + r1;
    WithSteps(threads, i, Unlock, rest, 0, Holding(i), 0);
    WithSteps(threads, i, Lock, r1, 0, Idle, 0);
    run := StepInFront(With(threads, i, r1, 0, Holding(i), 0), With(threads, i, rest, 0, Idle, 0), i, more);
    run := StepInFront(With(threads, i, r2, 0, Waiting(i), 0), With(threads, i, r1, 0, Holding(i), 0), i, run);
    run := StepInFront(With(threads, i, r2, 0, Idle, 0), With(threads, i, r2, 0, Waiting(i), 0), i, run);
  }

  /** One operation runs up to the end of its save, with the others waiting. */
  lemma OneSave(ops: seq<Op>, i: nat, after: seq<Instr>) returns (run: seq<Action>)
    requires i < |ops| && Code(AsWritten, ops[i]) == SAVER + after
    ensures OnlySteps(run) && Run(AsWritten, Begin(ops), run)
    ensures Final(AsWritten, Begin(ops), run) == State(Begin(ops).threads[i := after], 1, Idle, 1)
  {
    var threads := Begin(ops).threads;
    var saving := [RLock] + ([RLock] + ([RUnlock] + ([Save] + after)));
    var code := [Lock] + ([Unlock] + saving);
    assert code == SAVER + after;
    assert threads[i := code] == threads;
    run := SaverEnds(threads, i, after);
    run := SaverStarts(threads, i, saving, run);
  }

  lemma LockedOutForEver(s: State, i: nat)
    requires Accounted(AsWritten, s) && s.saves > 0 && Unfinished(s, i) && s.threads[i][0] == Lock
    ensures StuckForEver(s, i)
  {
    forall more | Run(AsWritten, s, more) ensures Unfinished(Final(AsWritten, s, more), i) {
      AfterASaveNobodyWrites(s, more, i);
    }
  }

  lemma SelfBlocked(s: State, i: nat)
    requires i < |s.threads| && s.writer == Holding(i) && s.threads[i] == Code(AsWritten, SetPlayground(true))[1..]
    ensures StuckForEver(s, i)
  {
    forall more | Run(AsWritten, s, more) ensures Unfinished(Final(AsWritten, s, more), i) {
      SetPlaygroundBlocksItself(s, more, i);
    }
  }

  lemma PlaygroundGetsStuck(ops: seq<Op>, i: nat)
    requires i < |ops| && ops[i] == SetPlayground(true)
    ensures CanGetStuck(ops)
  {
    var threads := Begin(ops).threads;
    assert Code(AsWritten, ops[i]) == [Lock] + Code(AsWritten, ops[i])[1..];
    var inside := Code(AsWritten, ops[i])[1..];
    assert threads[i := [Lock] + inside] == threads;
    WithSteps(threads, i, Lock, inside, 0, Idle, 0);
    var t := With(threads, i, inside, 0, Holding(i), 0);
    var run := StepInFront(With(threads, i, [Lock] + inside, 0, Waiting(i), 0), t, i, []);
    run := StepInFront(Begin(ops), With(threads, i, [Lock] + inside, 0, Waiting(i), 0), i, run);
    SelfBlocked(t, i);
  }

  lemma SaveGetsStuck(ops: seq<Op>, i: nat, after: seq<Instr>, j: nat)
    requires i < |ops| && j < |ops| && Code(AsWritten, ops[i]) == SAVER + after
    requires if i == j then after != [] && after[0] == Lock else TakesWriteLock(ops[j])
    ensures CanGetStuck(ops)
  {
    var run := OneSave(ops, i, after);
    var t := State(Begin(ops).threads[i := after], 1, Idle, 1);
    BeginAccounted(ops);
    RunAccounted(AsWritten, Begin(ops), run);
    assert t.threads[j] == if i == j then after else Code(AsWritten, ops[j]);
    LockedOutForEver(t, j);
  }

  lemma DangerousGetsStuck(ops: seq<Op>)
    requires Dangerous(ops)
    ensures CanGetStuck(ops)
  {
    if SetPlayground(true) in ops {
      var i :| 0 <= i < |ops| && ops[i] == SetPlayground(true);
      PlaygroundGetsStuck(ops, i);
    } else if New(false) in ops {
      var i :| 0 <= i < |ops| && ops[i] == New(false);
      assert Code(AsWritten, ops[i]) == SAVER + [Lock, Unlock];
      SaveGetsStuck(ops, i, [Lock, Unlock], i);
    } else {
      var i: nat, j: nat :| SaverAndWriter(ops, i, j);
      assert Code(AsWritten, ops[i]) == SAVER + [];
      SaveGetsStuck(ops, i, [], j);
    }
  }

  // ---- Any other set does not -----------------------------------------------------------------------

  /** Everything in flight can still be brought to its end, by steps alone. */
  ghost predicate CanFinish(s: State) {
    exists run :: OnlySteps(run) && Run(AsWritten, s, run) && Finished(Final(AsWritten, s, run))
  }

  lemma CanFinishFirst(s: State, i: nat)
    requires Enabled(s, Step(i)) && CanFinish(Next(AsWritten, s, Step(i)))
    ensures CanFinish(s)
  {
    var t := Next(AsWritten, s, Step(i));
    var rest :| OnlySteps(rest) && Run(AsWritten, t, rest) && Finished(Final(AsWritten, t, rest));
    var all := StepInFront(s, t, i, rest);
  }

  // No operation saves: the text as written is the intended one.

  lemma {:induction false} OrderlyFinishes(s: State)
    requires Accounted(Intended, s) && Orderly(s)
    ensures CanFinish(s)
    decreases Left(s)
  {
    if Finished(s) {
      assert OnlySteps([]) && Run(AsWritten, s, []) && Final(AsWritten, s, []) == s;
    } else {
      var i := SomethingCanStep(s);
      StepAccounted(Intended, s, Step(i));
      StepOrderly(s, Step(i));
      WorkUpdate(s.threads, i, s.threads[i][1..]);
      OrderlyFinishes(Next(Intended, s, Step(i)));
      CanFinishFirst(s, i);
    }
  }

  lemma {:induction false} OrderlyRun(s: State, run: seq<Action>)
    requires Accounted(Intended, s) && Orderly(s) && OnlySteps(run) && Run(AsWritten, s, run)
    ensures CanFinish(Final(AsWritten, s, run))
    decreases |run|
  {
    if run == [] {
      OrderlyFinishes(s);
    } else {
      StepAccounted(Intended, s, run[0]);
      StepOrderly(s, run[0]);
      OrderlyRun(Next(AsWritten, s, run[0]), run[1..]);
    }
  }

  predicate NeverSaves(op: Op) {
    !Saves(op) && op != New(false) && op != SetPlayground(true)
  }

  lemma BeginOrderly(ops: seq<Op>)
    requires forall i :: 0 <= i < |ops| ==> NeverSaves(ops[i])
    ensures Orderly(Begin(ops)) && Accounted(Intended, Begin(ops))
  {
    forall i | 0 <= i < |ops| ensures Outside(Begin(ops).threads[i]) && NeverNegative(0, Begin(ops).threads[i]) {
      assert Code(AsWritten, ops[i]) == Code(Intended, ops[i]);
      IntendedIsOutside(ops[i]);
      CodeOwesNothing(Intended, ops[i]);
    }
    SavelessTotal(ops);
  }

  lemma {:induction false} SavelessTotal(ops: seq<Op>)
    requires forall i :: 0 <= i < |ops| ==> NeverSaves(ops[i])
    ensures TotalOwed(0, Begin(ops).threads) == 0
  {
    if ops != [] {
      assert Code(AsWritten, ops[0]) == Code(Intended, ops[0]);
      CodeOwesNothing(Intended, ops[0]);
      SavelessTotal(ops[1..]);
      assert Begin(ops).threads[1..] == Begin(ops[1..]).threads;
    }
  }

  // One operation saves and nobody else takes the write lock.

  predicate Reading(rest: seq<Instr>) {
    rest == [] || rest == [RUnlock] || rest == [RLock, RUnlock]
  }

  /** `k` is the operation that saves; the others only read. */
  ghost predicate Tame(s: State, k: nat) {
    && k < |s.threads|
    && (forall i :: 0 <= i < |s.threads| && i != k ==> Reading(s.threads[i]))
    && var rest := s.threads[k];
       if rest == SAVER then s.saves == 0 && (s.writer == Idle || s.writer == Waiting(k))
       else if rest == SAVER[1..] then s.saves == 0 && s.writer == Holding(k)
       else s.writer == Idle && rest in {SAVER[2..], SAVER[3..], SAVER[4..], SAVER[5..], []}
  }

  lemma SaverTails()
    ensures SAVER[1..] == [Unlock, RLock, RLock, RUnlock, Save]
    ensures SAVER[2..] == [RLock, RLock, RUnlock, Save] == SAVER[1..][1..]
    ensures SAVER[3..] == [RLock, RUnlock, Save] == SAVER[2..][1..]
    ensures SAVER[4..] == [RUnlock, Save] == SAVER[3..][1..]
    ensures SAVER[5..] == [Save] == SAVER[4..][1..]
    ensures SAVER[5..][1..] == []
  {
  }

  lemma ReadingTails(rest: seq<Instr>)
    requires Reading(rest)
    ensures rest != [] ==> Reading(rest[1..]) && rest[0] in {RLock, RUnlock}
    ensures rest != [] ==> Owed(1, rest) == if rest[0] == RUnlock then 1 else 0
  {
    if rest == [RLock, RUnlock] {
      assert rest[1..] == [RUnlock] && Owed(1, [RUnlock]) == 1;
    }
  }

  lemma StepTame(s: State, k: nat, i: nat)
    requires Tame(s, k) && Enabled(s, Step(i))
    ensures Tame(Next(AsWritten, s, Step(i)), k)
  {
    SaverTails();
    if i != k {
      ReadingTails(s.threads[i]);
    }
  }

  lemma OwesAtUnlock(s: State, i: nat)
    requires Accounted(AsWritten, s) && Unfinished(s, i) && s.threads[i][0] == RUnlock
    ensures s.readers > 0
  {
    TotalUpdate(1, s.threads, i, []);
    TotalNotNegative(1, s.threads[i := []]);
    assert NeverNegative(1, s.threads[i]);
    assert NeverNegative(1, s.threads[i][1..]);
    assert Owed(1, s.threads[i]) == Owed(1, s.threads[i][1..]) + 1;
  }

  lemma TameCanStep(s: State, k: nat) returns (i: nat)
    requires Accounted(AsWritten, s) && Tame(s, k) && !Finished(s)
    ensures Enabled(s, Step(i))
  {
    SaverTails();
    TotalNotNegative(1, s.threads);
    if s.writer == Waiting(k) && s.readers > 0 {
      i :| 0 <= i < |s.threads| && Owed(1, s.threads[i]) > 0;
      CodeOwesNothing(AsWritten, New(true));
      assert Code(AsWritten, New(true)) == SAVER;
      ReadingTails(s.threads[i]);
    } else if s.writer != Idle {
      i := k;
    } else {
      i :| 0 <= i < |s.threads| && s.threads[i] != [];
      if s.threads[i][0] == RUnlock {
        OwesAtUnlock(s, i);
      } else if i != k {
        ReadingTails(s.threads[i]);
      }
    }
  }

  lemma {:induction false} TameFinishes(s: State, k: nat)
    requires Accounted(AsWritten, s) && Tame(s, k)
    ensures CanFinish(s)
    decreases Left(s)
  {
    if Finished(s) {
      assert OnlySteps([]) && Run(AsWritten, s, []) && Final(AsWritten, s, []) == s;
    } else {
      var i := TameCanStep(s, k);
      StepAccounted(AsWritten, s, Step(i));
      StepTame(s, k, i);
      WorkUpdate(s.threads, i, s.threads[i][1..]);
      TameFinishes(Next(AsWritten, s, Step(i)), k);
      CanFinishFirst(s, i);
    }
  }

  lemma {:induction false} TameRun(s: State, k: nat, run: seq<Action>)
    requires Accounted(AsWritten, s) && Tame(s, k) && OnlySteps(run) && Run(AsWritten, s, run)
    ensures CanFinish(Final(AsWritten, s, run))
    decreases |run|
  {
    if run == [] {
      TameFinishes(s, k);
    } else {
      StepAccounted(AsWritten, s, run[0]);
      StepTame(s, k, run[0].i);
      TameRun(Next(AsWritten, s, run[0]), k, run[1..]);
    }
  }

  lemma BeginTame(ops: seq<Op>, k: nat)
    requires k < |ops| && Saves(ops[k]) && forall j :: 0 <= j < |ops| && j != k ==> !TakesWriteLock(ops[j])
    ensures Tame(Begin(ops), k)
  {
    assert Code(AsWritten, ops[k]) == SAVER;
  }

  lemma SafeNeverStuck(ops: seq<Op>, run: seq<Action>)
    requires !Dangerous(ops) && OnlySteps(run) && Run(AsWritten, Begin(ops), run)
    ensures CanFinish(Final(AsWritten, Begin(ops), run))
  {
    if k: nat :| k < |ops| && Saves(ops[k]) {
      forall j: nat | j < |ops| && j != k ensures !TakesWriteLock(ops[j]) {
        assert !SaverAndWriter(ops, k, j);
      }
      BeginTame(ops, k);
      BeginAccounted(ops);
      TameRun(Begin(ops), k, run);
    } else {
      BeginOrderly(ops);
      OrderlyRun(Begin(ops), run);
    }
  }

  lemma CanFinishNotStuck(s: State, i: nat)
    requires CanFinish(s)
    ensures !StuckForEver(s, i)
  {
    var more :| OnlySteps(more) && Run(AsWritten, s, more) && Finished(Final(AsWritten, s, more));
    assert !Unfinished(Final(AsWritten, s, more), i);
  }

  /** The exact condition: operations called together can get one of them stuck for ever if and only if
      they are dangerous; otherwise everything can be brought to its end, wherever the run has got to. */
  lemma StuckExactly(ops: seq<Op>)
    ensures CanGetStuck(ops) <==> Dangerous(ops)
  {
    if Dangerous(ops) {
      DangerousGetsStuck(ops);
    } else {
      forall run, i: nat | OnlySteps(run) && Run(AsWritten, Begin(ops), run)
        ensures !StuckForEver(Final(AsWritten, Begin(ops), run), i)
      {
        SafeNeverStuck(ops, run);
        CanFinishNotStuck(Final(AsWritten, Begin(ops), run), i);
      }
    }
  }

  // ---- Between the two read locks -------------------------------------------------------------------

  /** A VerifyAccess that announces itself between the two read locks of a first save. */
  const HALFWAY: State := State([[RLock, RUnlock, Save], [Lock, Unlock]], 1, Waiting(1), 0)

  lemma HalfwayIsReached() returns (run: seq<Action>)
    ensures OnlySteps(run) && Run(AsWritten, Begin([New(true), Verify]), run)
    ensures Final(AsWritten, Begin([New(true), Verify]), run) == HALFWAY
  {
    var ops := [New(true), Verify];
    var threads := Begin(ops).threads;
    var verify := [Lock, Unlock];
    var r3 := [RLock, RUnlock, Save];
    var r4 := [RLock] + r3;
    var code := [Lock] + ([Unlock] + r4);
    assert Code(AsWritten, New(true)) == code && threads == [code, verify];
    WithSteps(threads, 0, RLock, r3, 0, Idle, 0);
    assert threads[0 := r3] == [r3, verify];
    run := StepInFront(State([r3, verify], 1, Idle, 0), HALFWAY, 1, []);
    run := StepInFront(With(threads, 0, r4, 0, Idle, 0), State([r3, verify], 1, Idle, 0), 0, run);
    assert threads[0 := code] == threads;
    run := SaverStarts(threads, 0, r4, run);
  }

  /** Neither has saved and no SetPlaygroundDB is involved, and both are stuck for ever. */
  lemma HalfwayIsStuck()
    ensures StuckForEver(HALFWAY, 0) && StuckForEver(HALFWAY, 1)
  {
    forall more | Run(AsWritten, HALFWAY, more)
      ensures Unfinished(Final(AsWritten, HALFWAY, more), 0) && Unfinished(Final(AsWritten, HALFWAY, more), 1)
    {
      NothingMoves(HALFWAY, more);
    }
  }

  /** A writer that waits for a reader who waits for it: whoever comes later waits as well. */
  ghost predicate Jammed(s: State) {
    && s.writer == Waiting(1) && s.readers == 1 && |s.threads| >= 2
    && s.threads[1] == [Lock, Unlock]
    && s.threads[0] != []
    && forall i :: 0 <= i < |s.threads| ==> s.threads[i] == [] || s.threads[i][0] in {RLock, Lock}
  }

  lemma {:induction false} NothingMoves(s: State, more: seq<Action>)
    requires Jammed(s) && Run(AsWritten, s, more)
    ensures Jammed(Final(AsWritten, s, more))
    decreases |more|
  {
    if more != [] {
      NothingMoves(Next(AsWritten, s, more[0]), more[1..]);
    }
  }
}
