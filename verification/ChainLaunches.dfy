/**
  The order of the launches: exactly when the code launches a step although an earlier one has not
  been observed finished and successful, told from the rows of the store.
 */
module ChainLaunches {
  import opened Wrappers
  import opened ChainRun
  import opened ChainRunInvariant
  import opened ChainSystem
  import opened ChainInvariant
  import opened ChainPreservation
  import opened ChainProgress
  import opened ChainWrites

  // ----- the history -----

  /** What the goroutine adds to the history. */
  function LoopLog(pc: Pc, answer: Answer): seq<Event> {
    match pc
    case Launch(k, request) => [Launched(k, request, Reply(answer))]
    case Poll(k) => if answer.Yes? then [Observed(k)] else []
    case _ => []
  }

  function LogOf(s: System, a: Action, id: RunId): seq<Event> {
    if a.LoopMove? && a.loop in s.loops && s.loops[a.loop].run == id then LoopLog(s.loops[a.loop].loop.pc, a.answer)
    else []
  }

  lemma LoopLogs(job: Job, loop: Loop, answer: Answer)
    requires loop.pc.Sweep? ==> Quiet(job.row.steps) && Sound(job.row, loop.pc)
    ensures LoopNext(job, loop, answer).0.log == job.log + LoopLog(loop.pc, answer)
  {
    hide *;
    Phases(loop.pc);
    NoEvent(job.log);
    if loop.pc.Sweep? {
      SweepLogs(job, loop, answer);
    } else if loop.pc.Launch? || loop.pc.Poll? {
      WatchLogs(job, loop, answer);
    } else if loop.pc.Mark? || loop.pc.Position? || loop.pc.Handoff? || loop.pc.Record? || loop.pc.Settle? {
      StepLogs(job, loop, answer);
    } else if loop.pc.Open? || loop.pc.Top? || loop.pc.Next? || loop.pc.Errored? || loop.pc.FailOpen? {
      OpenLogs(job, loop, answer);
    } else {
      EndLogs(job, loop, answer);
    }
  }

  lemma NoEvent(log: seq<Event>)
    ensures log + [] == log
  {
  }

  lemma SweepLogs(job: Job, loop: Loop, answer: Answer)
    requires loop.pc.Sweep? && Quiet(job.row.steps) && Sound(job.row, loop.pc)
    ensures LoopNext(job, loop, answer).0.log == job.log + LoopLog(loop.pc, answer)
  {
    SweepMoves(job, loop, answer);
    hide LoopNext;
  }

  lemma WatchLogs(job: Job, loop: Loop, answer: Answer)
    requires loop.pc.Launch? || loop.pc.Poll?
    ensures LoopNext(job, loop, answer).0.log == job.log + LoopLog(loop.pc, answer)
  {
  }

  lemma StepLogs(job: Job, loop: Loop, answer: Answer)
    requires loop.pc.Mark? || loop.pc.Position? || loop.pc.Handoff? || loop.pc.Record? || loop.pc.Settle?
    ensures LoopNext(job, loop, answer).0.log == job.log + LoopLog(loop.pc, answer)
  {
    hide WithStatus, WithInstance, RequestFor, MissingHandoff;
  }

  lemma OpenLogs(job: Job, loop: Loop, answer: Answer)
    requires loop.pc.Open? || loop.pc.Top? || loop.pc.Next? || loop.pc.Errored? || loop.pc.FailOpen?
    ensures LoopNext(job, loop, answer).0.log == job.log + LoopLog(loop.pc, answer)
  {
    hide NextPending;
    NoEvent(job.log);
  }

  lemma EndLogs(job: Job, loop: Loop, answer: Answer)
    requires loop.pc.ListSteps? || loop.pc.Close? || loop.pc.Born? || AfterClose(loop.pc)
    ensures LoopNext(job, loop, answer).0.log == job.log + LoopLog(loop.pc, answer)
  {
    hide LeftOut, RowsRead;
    NoEvent(job.log);
  }

  lemma MoveLoopLogs(s: System, l: nat, answer: Answer, id: RunId)
    requires Inv(s) && l in s.loops && id in s.store
    ensures id in MoveLoop(s, l, answer).store
    ensures MoveLoop(s, l, answer).store[id].log == s.store[id].log + LogOf(s, LoopMove(l, answer), id)
  {
    hide LoopNext, Inv, Sound;
    var Driver(run, loop) := s.loops[l];
    if run in s.store {
      SoundAt(s, l);
      LoopLogs(s.store[run], loop, answer);
    }
  }

  lemma OthersKeepLog(s: System, id: RunId, c: nat, answer: Answer)
    requires id in s.store
    ensures c in s.callers ==>
              var t := MoveCaller(s, c, answer);
              id in t.store && t.store[id].log == s.store[id].log
  {
    hide Fire, Clean, Restartable;
  }

  lemma SweepKeepsLog(s: System, id: RunId, answer: Answer)
    requires id in s.store && s.recovery.Some?
    ensures var t := MoveRecovery(s, s.recovery.value, answer); id in t.store && t.store[id].log == s.store[id].log
  {
    hide LeftOut, RowsRead, WithStatus;
  }

  lemma ExecLogs(s: System, a: Action, id: RunId)
    requires Inv(s) && id in s.store
    ensures id in Exec(s, a).store && Exec(s, a).store[id].log == s.store[id].log + LogOf(s, a, id)
  {
    hide Inv, MoveLoop, MoveCaller, MoveRecovery, ActiveRuns, FreshSteps, LoopLog;
    NoEvent(s.store[id].log);
    match a
    case LoopMove(l, answer) =>
      if l in s.loops {
        MoveLoopLogs(s, l, answer, id);
      }
    case CallerMove(c, answer) => OthersKeepLog(s, id, c, answer);
    case SweepMove(answer) =>
      if s.recovery.Some? {
        SweepKeepsLog(s, id, answer);
      }
    case _ =>
  }

  // ----- an observed step is completed, or the run is dead -----

  predicate Done(row: Run, j: nat) {
    j < |row.steps| && row.steps[j].status.Completed?
  }

  /** The goroutine has observed step j finished and is about to write so. */
  predicate Settles(pc: Pc, j: nat) {
    pc.Settle? && pc.step == j && pc.to.Completed?
  }

  /** No goroutine works on the run, and no call is going to start one. */
  ghost predicate Dead(s: System, id: RunId) {
    id !in s.registry && forall c | c in s.callers :: StartTarget(s.callers[c]) != Some(id)
  }

  ghost predicate Accounts(s: System, id: RunId, j: nat)
    requires id in s.store
  {
    || Done(s.store[id].row, j)
    || (id in s.registry && s.registry[id] in s.loops && Settles(s.loops[s.registry[id]].loop.pc, j))
    || Dead(s, id)
  }

  ghost predicate Accounted(s: System, id: RunId) {
    id in s.store ==> forall j | Observed(j) in s.store[id].log :: Accounts(s, id, j)
  }

  /** A goroutine completes what it observed. */
  lemma LoopAccounts(job: Job, loop: Loop, answer: Answer, j: nat)
    requires RunInv(job, Some(loop))
    requires Observed(j) in job.log ==> Done(job.row, j) || Settles(loop.pc, j)
    ensures var (job', loop') := LoopNext(job, loop, answer);
            Observed(j) in job'.log ==> Done(job'.row, j) || Settles(loop'.pc, j)
  {
    LoopWrites(job, loop, answer);
    SoundLoop(job, loop);
    LoopLogs(job, loop, answer);
    if loop.pc.Poll? {
      PollSettles(job, loop, answer);
    }
    hide RunInv, LoopNext;
    DoneStays(job.row, LoopNext(job, loop, answer).0.row, loop.pc, j);
  }

  lemma PollSettles(job: Job, loop: Loop, answer: Answer)
    requires loop.pc.Poll?
    ensures answer.Yes? ==> Settles(LoopNext(job, loop, answer).1.pc, loop.pc.step)
  {
  }

  lemma DoneStays(was: Run, now: Run, pc: Pc, j: nat)
    requires Written(was, now, LoopWrite(pc)) && Sound(was, pc) && (pc.Sweep? ==> Quiet(was.steps))
    ensures Done(was, j) || Settles(pc, j) ==> Done(now, j)
  {
  }

  lemma OwnMoveAccounts(s: System, answer: Answer, id: RunId)
    requires Inv(s) && id in s.store && id in s.registry && s.registry[id] in s.loops && Accounted(s, id)
    ensures Accounted(MoveLoop(s, s.registry[id], answer), id)
  {
    hide Inv, LoopNext;
    var l := s.registry[id];
    RegistryEntry(s, id);
    var loop := s.loops[l].loop;
    LiveFacts(s, l);
    forall j | Observed(j) in MoveLoop(s, l, answer).store[id].log
      ensures Accounts(MoveLoop(s, l, answer), id, j)
    {
      if !Locking(loop.pc) {
        LoopAccounts(s.store[id], loop, answer, j);
      }
    }
  }

  lemma RegistryEntry(s: System, id: RunId)
    requires Inv(s) && id in s.registry
    ensures s.registry[id] in s.loops && s.loops[s.registry[id]].run == id
    ensures !s.loops[s.registry[id]].loop.pc.Unlocking?
  {
    hide RunInv, RunsInv, LockInv, CallerInv, ActiveInv, SpawnInv, RecoveryInv;
  }

  /** The entry of a run stays while its goroutine does not move. */
  lemma RegistryStays(s: System, a: Action, id: RunId)
    requires Inv(s) && id in s.registry && NotOf([a], s.registry[id])
    ensures id in Exec(s, a).registry && Exec(s, a).registry[id] == s.registry[id]
  {
    hide Inv, MoveCaller, MoveLoop, MoveRecovery, ActiveRuns, FreshSteps;
    assert a in [a];
    match a
    case CallerMove(c, answer) =>
      if c in s.callers {
        CallKeepsEntry(s, c, answer, id);
      }
    case LoopMove(m, answer) =>
      if m in s.loops {
        LoopKeepsEntry(s, m, answer, id);
      }
    case SweepMove(answer) => SweepKeepsRegistry(s, answer);
    case _ =>
  }

  lemma CallKeepsEntry(s: System, c: nat, answer: Answer, id: RunId)
    requires Inv(s) && id in s.registry && c in s.callers
    ensures var t := MoveCaller(s, c, answer); id in t.registry && t.registry[id] == s.registry[id]
  {
    hide Inv, StartWritten, CancelWritten, Fire, Resting, Startable;
    CallFacts(s, c);
  }

  lemma LoopKeepsEntry(s: System, m: nat, answer: Answer, id: RunId)
    requires Inv(s) && id in s.registry && m in s.loops && m != s.registry[id]
    ensures var t := MoveLoop(s, m, answer); id in t.registry && t.registry[id] == s.registry[id]
  {
    hide Inv, LoopNext;
    RegistryEntry(s, id);
    Exclusive(s);
  }

  lemma SweepKeepsRegistry(s: System, answer: Answer)
    ensures s.recovery.Some? ==>
              var t := MoveRecovery(s, s.recovery.value, answer); t.registry == s.registry && t.callers == s.callers
  {
    hide LeftOut, RowsRead, SweepCancel, SweepClosed;
  }

  /** A run with a history that nobody works on and nobody is about to start stays so. */
  lemma DeadStays(s: System, a: Action, id: RunId)
    requires Inv(s) && id in s.store && s.store[id].log != [] && Dead(s, id)
    ensures Dead(Exec(s, a), id)
  {
    hide Inv, MoveCaller, MoveLoop, MoveRecovery, ActiveRuns, FreshSteps;
    match a
    case CallerMove(c, answer) =>
      if c in s.callers {
        CallKeepsDead(s, c, answer, id);
      }
    case LoopMove(m, answer) =>
      if m in s.loops {
        LoopKeepsDead(s, m, answer, id);
      }
    case SweepMove(answer) => SweepKeepsRegistry(s, answer);
    case CallStart(c, run) => NoLogPending(s, id);
    case _ =>
  }

  lemma NoLogPending(s: System, id: RunId)
    requires Inv(s) && id in s.store && s.store[id].log != []
    ensures !s.store[id].row.status.RunPending?
  {
    hide Inv;
    LiveRun(s, id);
  }

  lemma CallKeepsDead(s: System, c: nat, answer: Answer, id: RunId)
    requires c in s.callers && Dead(s, id)
    ensures Dead(MoveCaller(s, c, answer), id)
  {
    hide MoveCaller;
    MoveCallerOthers(s, c, answer);
    CallKeepsAim(s, c, answer);
    if id in MoveCaller(s, c, answer).registry {
      CallRegisters(s, c, answer, id);
    }
  }

  lemma CallKeepsAim(s: System, c: nat, answer: Answer)
    requires c in s.callers
    ensures var callers := MoveCaller(s, c, answer).callers;
            c in callers ==> StartTarget(callers[c]).None? || StartTarget(callers[c]) == StartTarget(s.callers[c])
  {
    hide StartWritten, CancelWritten, Fire;
  }

  lemma CallRegisters(s: System, c: nat, answer: Answer, id: RunId)
    requires c in s.callers && id in MoveCaller(s, c, answer).registry
    ensures id in s.registry || StartTarget(s.callers[c]) == Some(id)
  {
    hide StartWritten, CancelWritten, Fire;
  }

  lemma LoopKeepsDead(s: System, m: nat, answer: Answer, id: RunId)
    requires m in s.loops && Dead(s, id)
    ensures Dead(MoveLoop(s, m, answer), id)
  {
    hide LoopNext;
  }

  /** What anyone else does neither adds to the history nor takes a completion back. */
  lemma OthersAccount(s: System, a: Action, id: RunId)
    requires Inv(s) && id in s.store && id in s.registry && NotOf([a], s.registry[id]) && Accounted(s, id)
    ensures Accounted(Exec(s, a), id)
  {
    hide Inv, Exec, Later;
    assert a in [a];
    RegistryEntry(s, id);
    RegistryStays(s, a, id);
    ActionKeepsPlaceOf(s, a, id);
    ExecLogs(s, a, id);
    NotItsLog(s, a, id);
    NoEvent(s.store[id].log);
    ExecLater(s, a);
    forall j | Observed(j) in s.store[id].log
      ensures Accounts(Exec(s, a), id, j)
    {
      CompletedStays(s, Exec(s, a), id, j);
    }
  }

  lemma ActionKeepsPlaceOf(s: System, a: Action, id: RunId)
    requires Inv(s) && id in s.store && id in s.registry && NotOf([a], s.registry[id])
    requires s.registry[id] in s.loops && s.loops[s.registry[id]].run == id
    ensures var l := s.registry[id];
            !s.loops[l].loop.pc.Born? ==> l in Exec(s, a).loops && Exec(s, a).loops[l].loop.pc == s.loops[l].loop.pc
  {
    hide Inv, Exec;
    var l := s.registry[id];
    if !s.loops[l].loop.pc.Born? {
      ActionKeepsPlace(s, a, l, id, s.loops[l].loop.pc);
    }
  }

  lemma NotItsLog(s: System, a: Action, id: RunId)
    requires Inv(s) && id in s.registry && NotOf([a], s.registry[id])
    ensures LogOf(s, a, id) == []
  {
    hide Inv, LoopLog;
    assert a in [a];
    RegistryEntry(s, id);
    Exclusive(s);
  }

  lemma CompletedStays(s: System, t: System, id: RunId, j: nat)
    requires Later(s, t) && id in s.store && id in t.store
    ensures Done(s.store[id].row, j) ==> Done(t.store[id].row, j)
  {
    if Done(s.store[id].row, j) {
      assert JobLater(s.store[id], t.store[id]);
      assert StepLater(s.store[id].row.steps[j], t.store[id].row.steps[j]);
    }
  }

  /** Without an entry in the registry the history does not grow. */
  lemma UnregisteredAccounts(s: System, a: Action, id: RunId)
    requires Inv(s) && id in s.store && id !in s.registry && Accounted(s, id)
    ensures Accounted(Exec(s, a), id)
  {
    hide Inv, Exec, Later;
    ExecLogs(s, a, id);
    NoGoroutineNoLog(s, a, id);
    NoEvent(s.store[id].log);
    ExecLater(s, a);
    forall j | Observed(j) in s.store[id].log
      ensures Accounts(Exec(s, a), id, j)
    {
      CompletedStays(s, Exec(s, a), id, j);
      if Dead(s, id) {
        DeadStays(s, a, id);
      }
    }
  }

  lemma NoGoroutineNoLog(s: System, a: Action, id: RunId)
    requires Inv(s) && id !in s.registry
    ensures LogOf(s, a, id) == []
  {
    hide RunInv, RunsInv, LockInv, CallerInv, ActiveInv, SpawnInv, RecoveryInv;
  }

  lemma CrashAccounts(s: System, id: RunId)
    ensures Accounted(Crashed(s), id)
  {
  }

  lemma ExecAccounts(s: System, a: Action, id: RunId)
    requires Inv(s) && Accounted(s, id)
    ensures Accounted(Exec(s, a), id)
  {
    hide Inv, Accounted, Later;
    if a.Crash? {
      CrashAccounts(s, id);
    } else if id !in s.store {
      NewAccounts(s, a, id);
    } else if id !in s.registry {
      UnregisteredAccounts(s, a, id);
    } else {
      RegistryEntry(s, id);
      if a.LoopMove? && a.loop == s.registry[id] {
        OwnMoveAccounts(s, a.answer, id);
      } else {
        hide Exec;
        OthersAccount(s, a, id);
      }
    }
  }

  lemma NewAccounts(s: System, a: Action, id: RunId)
    requires Inv(s) && id !in s.store
    ensures Accounted(Exec(s, a), id)
  {
    hide Inv;
    if id in Exec(s, a).store {
      OnlyCreated(s, a, id);
    }
  }

  lemma {:induction false} PlayAccounts(actions: seq<Action>, id: RunId)
    ensures Accounted(Play(Boot(), actions), id)
  {
    hide Inv, Exec, Accounted;
    if actions == [] {
      NothingToAccount(id);
    } else {
      var before := actions[..|actions| - 1];
      PlayAccounts(before, id);
      ReachableInv(before);
      ExecAccounts(Play(Boot(), before), actions[|actions| - 1], id);
    }
  }

  lemma NothingToAccount(id: RunId)
    ensures Accounted(Boot(), id)
  {
  }

  /**
    When a step is about to be launched, an earlier step was observed finished and successful exactly
    if its row says that it is completed.
   */
  lemma ObservedIsCompleted(actions: seq<Action>, l: nat, j: nat)
    requires l in Play(Boot(), actions).loops && Play(Boot(), actions).loops[l].loop.pc.Launch?
    ensures var s := Play(Boot(), actions);
            var Driver(id, loop) := s.loops[l];
            id in s.store && (j < loop.pc.step ==> (Observed(j) in s.store[id].log <==> Done(s.store[id].row, j)))
  {
    hide Inv, Play, Exec;
    ReachableInv(actions);
    PlayAccounts(actions, Play(Boot(), actions).loops[l].run);
    LaunchObserved(Play(Boot(), actions), l, j);
  }

  lemma LaunchObserved(s: System, l: nat, j: nat)
    requires Inv(s) && l in s.loops && s.loops[l].loop.pc.Launch? && Accounted(s, s.loops[l].run)
    ensures var id := s.loops[l].run; id in s.store && (Observed(j) in s.store[id].log <==> Done(s.store[id].row, j))
  {
    hide Inv;
    LiveFacts(s, l);
    ItsEntry(s, l);
    CompletedObserved(s.store[s.loops[l].run], s.loops[l].loop, j);
  }

  lemma ItsEntry(s: System, l: nat)
    requires Inv(s) && l in s.loops && !s.loops[l].loop.pc.Unlocking?
    ensures s.loops[l].run in s.registry && s.registry[s.loops[l].run] == l
  {
    hide RunInv, RunsInv, LockInv, CallerInv, ActiveInv, SpawnInv, RecoveryInv;
  }

  lemma CompletedObserved(job: Job, loop: Loop, j: nat)
    requires RunInv(job, Some(loop))
    ensures Done(job.row, j) ==> Observed(j) in job.log
  {
    hide LoopInv, Ending, Shaped;
  }

  // ----- when the order is lost -----

  /** The goroutine of the run is about to launch a step while the row of an earlier one is not completed. */
  ghost predicate Jumps(s: System, a: Action, id: RunId) {
    && a.LoopMove? && a.loop in s.loops && s.loops[a.loop].run == id && id in s.store
    && s.loops[a.loop].loop.pc.Launch?
    && exists j: nat | j < s.loops[a.loop].loop.pc.step :: !Done(s.store[id].row, j)
  }

  lemma LastEvent(log: seq<Event>, e: Event)
    ensures InOrder(log + [e]) <==>
            InOrder(log) && (e.Launched? ==> forall j | 0 <= j < e.step :: Observed(j) in log)
  {
    assert (log + [e])[..|log|] == log;
  }

  lemma ExecOrder(s: System, a: Action, id: RunId)
    requires Inv(s) && id in s.store && Accounted(s, id)
    ensures id in Exec(s, a).store
    ensures InOrder(Exec(s, a).store[id].log) <==> InOrder(s.store[id].log) && !Jumps(s, a, id)
  {
    hide Exec, Inv, InOrder, Done, Accounted;
    ExecLogs(s, a, id);
    var log, added := s.store[id].log, LogOf(s, a, id);
    if added == [] {
      NoEvent(log);
    } else {
      LastEvent(log, added[0]);
      assert added == [added[0]];
      if added[0].Launched? {
        forall j: nat
          ensures Observed(j) in log <==> Done(s.store[id].row, j)
        {
          LaunchObserved(s, a.loop, j);
        }
      }
    }
  }

  /**
    Exactly when a launch comes out of order: when the goroutine launches a step while the row of an
    earlier one is not completed.
   */
  lemma LaunchOrderBreaksExactly(actions: seq<Action>, a: Action, id: RunId)
    requires id in Play(Boot(), actions).store && InOrder(Play(Boot(), actions).store[id].log)
    ensures id in Play(Boot(), actions + [a]).store
    ensures !InOrder(Play(Boot(), actions + [a]).store[id].log) <==> Jumps(Play(Boot(), actions), a, id)
  {
    hide Exec, Inv, InOrder, Jumps, Accounted;
    ReachableInv(actions);
    PlayAccounts(actions, id);
    ExecOrder(Play(Boot(), actions), a, id);
    PlayedOn(actions, a);
  }

  ghost predicate NeverJumps(actions: seq<Action>, id: RunId) {
    forall n | 0 <= n < |actions| :: !Jumps(Play(Boot(), actions[..n]), actions[n], id)
  }

  lemma NeverJumpsSplit(actions: seq<Action>, id: RunId)
    requires actions != []
    ensures var before := actions[..|actions| - 1];
            NeverJumps(actions, id) <==>
              NeverJumps(before, id) && !Jumps(Play(Boot(), before), actions[|actions| - 1], id)
  {
    hide Play, Jumps;
    var before := actions[..|actions| - 1];
    assert forall n | 0 <= n < |actions| :: before[..n] == actions[..n];
  }

  /** The launches of the run are in order, if it is there. */
  ghost predicate LogInOrder(s: System, id: RunId) {
    id in s.store ==> InOrder(s.store[id].log)
  }

  /**
    Over a whole run of the system: every launch came after the earlier steps had been observed
    finished and successful, if and only if none was made while an earlier row was not completed.
   */
  lemma {:induction false} LaunchedInOrderThroughout(actions: seq<Action>, id: RunId)
    ensures LogInOrder(Play(Boot(), actions), id) <==> NeverJumps(actions, id)
  {
    hide Exec, Inv, InOrder, Jumps, Accounted, NeverJumps;
    if actions == [] {
      NothingLaunched(id);
    } else {
      var before, a := actions[..|actions| - 1], actions[|actions| - 1];
      var s := Play(Boot(), before);
      LaunchedInOrderThroughout(before, id);
      NeverJumpsSplit(actions, id);
      ReachableInv(before);
      PlayAccounts(before, id);
      if id in s.store {
        ExecOrder(s, a, id);
      } else {
        NewInOrder(s, a, id);
      }
    }
  }

  lemma NothingLaunched(id: RunId)
    ensures NeverJumps([], id)
  {
  }

  lemma NewInOrder(s: System, a: Action, id: RunId)
    requires Inv(s) && id !in s.store
    ensures LogInOrder(Exec(s, a), id) && !Jumps(s, a, id)
  {
    hide Inv;
    if id in Exec(s, a).store {
      OnlyCreated(s, a, id);
      NoLogYet(s, a, id);
    }
  }

  /** With the steps in order no launch can jump. */
  lemma ShapedNeverJumps(s: System, a: Action, id: RunId)
    requires Inv(s) && id in s.store && Shaped(s.store[id].row.steps)
    ensures !Jumps(s, a, id)
  {
    hide Inv;
    if Jumps(s, a, id) {
      LiveFacts(s, a.loop);
      LaunchedAfter(s.store[id], s.loops[a.loop].loop);
    }
  }

  lemma LaunchedAfter(job: Job, loop: Loop)
    requires RunInv(job, Some(loop)) && loop.pc.Launch? && Shaped(job.row.steps)
    ensures loop.pc.step < |job.row.steps|
    ensures forall j | 0 <= j < loop.pc.step :: job.row.steps[j].status.Completed?
  {
  }

  /** A run whose steps have been in order throughout was also launched in order. */
  lemma {:induction false} InOrderLaunches(actions: seq<Action>, id: RunId)
    requires AlwaysShaped(actions, id) && id in Play(Boot(), actions).store
    ensures InOrder(Play(Boot(), actions).store[id].log)
  {
    hide Exec, Shaped, AlwaysShaped, Inv, InOrder, Jumps, Accounted;
    if actions != [] {
      var before, a := actions[..|actions| - 1], actions[|actions| - 1];
      var s := Play(Boot(), before);
      AlwaysShapedSplit(actions, id);
      AlwaysAtEnd(before, id);
      ReachableInv(before);
      if id in s.store {
        InOrderLaunches(before, id);
        PlayAccounts(before, id);
        ShapedNeverJumps(s, a, id);
        ExecOrder(s, a, id);
      } else {
        OnlyCreated(s, a, id);
        NoLogYet(s, a, id);
      }
    }
  }

  lemma NoLogYet(s: System, a: Action, id: RunId)
    requires id !in s.store && a.Create? && id in Exec(s, a).store
    ensures InOrder(Exec(s, a).store[id].log)
  {
  }
}
