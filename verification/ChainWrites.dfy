/**
  Every action writes at most one status. From that, exact conditions for what the code does not
  always keep: the order of the steps and the finality of statuses.
 */
module ChainWrites {
  import opened Wrappers
  import opened ChainRun
  import opened ChainRunInvariant
  import opened ChainSystem
  import opened ChainInvariant
  import opened ChainPreservation
  import opened ChainProgress

  // ----- the one status an action writes -----

  datatype Write = Nothing | OfStep(step: nat, to: StepStatus) | OfRun(status: RunStatus)

  function LoopWrite(pc: Pc): Write {
    match pc
    case Mark(k, _) => OfStep(k, Running)
    case Settle(k, to, _) => OfStep(k, to)
    case Sweep(v, listed, j) => if j < |listed| && Discards(v, listed[j].status) then OfStep(j, Canceled) else Nothing
    case Close(v) => OfRun(v)
    case _ => Nothing
  }

  function CallWrite(caller: Caller, id: RunId): Write {
    if caller == StartWrite(id) then OfRun(RunActive)
    else if caller == CancelWrite(id) then OfRun(RunCanceled)
    else Nothing
  }

  function SweepWrite(recovery: Recovery, id: RunId): Write {
    match recovery
    case Walking(todo, listed, j) =>
      if todo != [] && todo[0] == id && j < |listed| && (listed[j].status.Running? || listed[j].status.Pending?)
      then OfStep(j, Canceled) else Nothing
    case Closing(todo) => if todo != [] && todo[0] == id then OfRun(RunFailed) else Nothing
    case _ => Nothing
  }

  /** What the action writes to the run. */
  function WriteOf(s: System, a: Action, id: RunId): Write {
    match a
    case LoopMove(l, _) => if l in s.loops && s.loops[l].run == id then LoopWrite(s.loops[l].loop.pc) else Nothing
    case CallerMove(c, _) => if c in s.callers then CallWrite(s.callers[c], id) else Nothing
    case SweepMove(_) => if s.recovery.Some? then SweepWrite(s.recovery.value, id) else Nothing
    case _ => Nothing
  }

  /** The statuses of the row are as before, but for what was written. */
  ghost predicate Written(was: Run, now: Run, w: Write) {
    && now.status == (if w.OfRun? then w.status else was.status) && now.initial == was.initial
    && |now.steps| == |was.steps|
    && forall k | 0 <= k < |was.steps| ::
         now.steps[k].status == if w.OfStep? && w.step == k then w.to else was.steps[k].status
  }

  lemma LoopWrites(job: Job, loop: Loop, answer: Answer)
    ensures Written(job.row, LoopNext(job, loop, answer).0.row, LoopWrite(loop.pc))
  {
    hide *;
    Phases(loop.pc);
    if loop.pc.Sweep? {
      SweepWrites(job, loop, answer);
    } else if loop.pc.Mark? || loop.pc.Position? || loop.pc.Handoff? {
      BeginWrites(job, loop, answer);
    } else if loop.pc.Record? || loop.pc.Settle? {
      SettleWrites(job, loop, answer);
    } else if loop.pc.Launch? || loop.pc.Poll? {
      WatchWrites(job, loop, answer);
    } else if loop.pc.Open? || loop.pc.Top? || loop.pc.Next? || loop.pc.Errored? || loop.pc.FailOpen? {
      OpenWrites(job, loop, answer);
    } else if loop.pc.Close? {
      CloseWrites(job, loop, answer);
    } else {
      EndWrites(job, loop, answer);
    }
  }

  lemma RowWrites(row: Run, k: nat, status: StepStatus)
    ensures Written(row, WithStatus(row, k, status), OfStep(k, status))
    ensures Written(row, row, Nothing)
  {
  }

  lemma InstanceWrites(row: Run, k: nat, instance: string, request: Request)
    ensures Written(row, WithInstance(row, k, instance, request), Nothing)
  {
  }

  lemma PositionWrites(row: Run, position: int)
    ensures Written(row, row.(position := position), Nothing)
  {
  }

  lemma StatusWrites(row: Run, status: RunStatus)
    ensures Written(row, row.(status := status), OfRun(status))
  {
  }

  lemma SweepWrites(job: Job, loop: Loop, answer: Answer)
    requires loop.pc.Sweep?
    ensures Written(job.row, LoopNext(job, loop, answer).0.row, LoopWrite(loop.pc))
  {
    SweepMoves(job, loop, answer);
    hide LoopNext, Written, WithStatus;
    RowWrites(job.row, loop.pc.at, Canceled);
  }

  lemma BeginWrites(job: Job, loop: Loop, answer: Answer)
    requires loop.pc.Mark? || loop.pc.Position? || loop.pc.Handoff?
    ensures Written(job.row, LoopNext(job, loop, answer).0.row, LoopWrite(loop.pc))
  {
    hide RequestFor, MissingHandoff, Written, WithStatus;
    RowWrites(job.row, loop.pc.step, Running);
    if loop.pc.Position? {
      PositionWrites(job.row, loop.pc.seen.position);
    }
  }

  lemma SettleWrites(job: Job, loop: Loop, answer: Answer)
    requires loop.pc.Record? || loop.pc.Settle?
    ensures Written(job.row, LoopNext(job, loop, answer).0.row, LoopWrite(loop.pc))
  {
    hide Written, WithStatus, WithInstance;
    if loop.pc.Record? {
      InstanceWrites(job.row, loop.pc.step, loop.pc.instance, loop.pc.request);
    } else {
      RowWrites(job.row, loop.pc.step, loop.pc.to);
    }
  }

  lemma WatchWrites(job: Job, loop: Loop, answer: Answer)
    requires loop.pc.Launch? || loop.pc.Poll?
    ensures Written(job.row, LoopNext(job, loop, answer).0.row, LoopWrite(loop.pc))
  {
    hide Written;
    RowWrites(job.row, 0, Running);
  }

  lemma OpenWrites(job: Job, loop: Loop, answer: Answer)
    requires loop.pc.Open? || loop.pc.Top? || loop.pc.Next? || loop.pc.Errored? || loop.pc.FailOpen?
    ensures Written(job.row, LoopNext(job, loop, answer).0.row, LoopWrite(loop.pc))
  {
    hide Written, NextPending;
    RowWrites(job.row, 0, Running);
  }

  lemma CloseWrites(job: Job, loop: Loop, answer: Answer)
    requires loop.pc.Close?
    ensures Written(job.row, LoopNext(job, loop, answer).0.row, LoopWrite(loop.pc))
  {
    hide Written;
    StatusWrites(job.row, loop.pc.verdict);
  }

  lemma EndWrites(job: Job, loop: Loop, answer: Answer)
    requires loop.pc.ListSteps? || loop.pc.Born? || AfterClose(loop.pc)
    ensures Written(job.row, LoopNext(job, loop, answer).0.row, LoopWrite(loop.pc))
  {
    hide LeftOut, RowsRead, Written;
    RowWrites(job.row, 0, Running);
  }

  lemma MoveLoopWrites(s: System, l: nat, answer: Answer, id: RunId)
    requires l in s.loops && id in s.store
    ensures id in MoveLoop(s, l, answer).store
    ensures Written(s.store[id].row, MoveLoop(s, l, answer).store[id].row, WriteOf(s, LoopMove(l, answer), id))
  {
    hide LoopNext;
    var Driver(run, loop) := s.loops[l];
    if run in s.store {
      LoopWrites(s.store[run], loop, answer);
    }
  }

  lemma MoveCallerWrites(s: System, c: nat, answer: Answer, id: RunId)
    requires c in s.callers && id in s.store
    ensures id in MoveCaller(s, c, answer).store
    ensures Written(s.store[id].row, MoveCaller(s, c, answer).store[id].row, CallWrite(s.callers[c], id))
  {
    CallsWrite(s.store[id]);
    hide StartWritten, CancelWritten, Fire, Written;
  }

  lemma CallsWrite(job: Job)
    ensures Written(job.row, job.row, Nothing)
    ensures Written(job.row, StartWritten(job).row, OfRun(RunActive))
    ensures Written(job.row, CancelWritten(job).row, OfRun(RunCanceled))
  {
    hide Restartable, Clean;
  }

  lemma MoveRecoveryWrites(s: System, answer: Answer, id: RunId)
    requires Inv(s) && s.recovery.Some? && id in s.store
    ensures id in MoveRecovery(s, s.recovery.value, answer).store
    ensures Written(s.store[id].row, MoveRecovery(s, s.recovery.value, answer).store[id].row,
                    SweepWrite(s.recovery.value, id))
  {
    Sweeping(s);
    SweepKeepsAll(s.store[id]);
    match s.recovery.value
    case Walking(todo, listed, j) =>
      if j < |listed| {
        CancelingWrites(s.store[id], listed, j);
      }
      hide Inv, LeftOut, RowsRead, Written, SweepCancel;
    case _ =>
      hide Inv, LeftOut, RowsRead, Written, SweepCancel;
  }

  lemma SweepKeepsAll(job: Job)
    ensures Written(job.row, job.row, Nothing) && Written(job.row, SweepClosed(job).row, OfRun(RunFailed))
  {
  }

  lemma CancelingWrites(job: Job, listed: seq<Step>, j: nat)
    requires j < |listed|
    ensures Written(job.row, SweepCancel(job, listed, j).row,
                    if listed[j].status.Running? || listed[j].status.Pending? then OfStep(j, Canceled) else Nothing)
  {
  }

  lemma ExecWrites(s: System, a: Action, id: RunId)
    requires Inv(s) && id in s.store
    ensures id in Exec(s, a).store && Written(s.store[id].row, Exec(s, a).store[id].row, WriteOf(s, a, id))
  {
    hide Inv, MoveCaller, MoveLoop, MoveRecovery, ActiveRuns, FreshSteps, CallWrite, LoopWrite, SweepWrite;
    match a
    case LoopMove(l, answer) =>
      if l in s.loops {
        MoveLoopWrites(s, l, answer, id);
      }
    case CallerMove(c, answer) =>
      if c in s.callers {
        MoveCallerWrites(s, c, answer, id);
      }
    case SweepMove(answer) =>
      if s.recovery.Some? {
        MoveRecoveryWrites(s, answer, id);
      }
    case _ =>
  }

  /** Each action writes one status of a run or none: the one that `WriteOf` tells from the state. */
  lemma WritesExactly(actions: seq<Action>, a: Action, id: RunId)
    requires id in Play(Boot(), actions).store
    ensures id in Play(Boot(), actions + [a]).store
    ensures var s := Play(Boot(), actions);
            Written(s.store[id].row, Play(Boot(), actions + [a]).store[id].row, WriteOf(s, a, id))
  {
    hide Exec, Inv, Written, WriteOf;
    ReachableInv(actions);
    ExecWrites(Play(Boot(), actions), a, id);
    PlayedOn(actions, a);
  }

  lemma PlayedOn(actions: seq<Action>, a: Action)
    ensures Play(Boot(), actions + [a]) == Exec(Play(Boot(), actions), a)
  {
    hide Exec;
    assert (actions + [a])[..|actions|] == actions;
  }

  // ----- what is known of a write before it happens -----

  /** A goroutine starts a pending step, settles the only running one, and discards pending ones. */
  ghost predicate Sound(row: Run, pc: Pc) {
    match pc
    case Mark(k, _) => k < |row.steps| && row.steps[k].status.Pending?
    case Settle(k, to, _) => RunsOnly(row.steps, k) && !to.Pending? && !to.Running?
    case Sweep(_, listed, j) =>
      Quiet(row.steps) && j < |listed| ==> j < |row.steps| && listed[j].status == row.steps[j].status
    case _ => true
  }

  lemma SoundLoop(job: Job, loop: Loop)
    requires RunInv(job, Some(loop))
    ensures Sound(job.row, loop.pc) && (loop.pc.Sweep? ==> Quiet(job.row.steps))
    ensures ExecutingStep(loop.pc).Some? ==> job.working
  {
    hide History, Shaped;
  }

  lemma SoundAt(s: System, l: nat)
    requires Inv(s) && l in s.loops && s.loops[l].run in s.store
    ensures var Driver(id, loop) := s.loops[l];
            Sound(s.store[id].row, loop.pc) && (loop.pc.Sweep? ==> Quiet(s.store[id].row.steps))
  {
    hide Inv, Sound;
    if !s.loops[l].loop.pc.Unlocking? {
      LiveFacts(s, l);
      SoundLoop(s.store[s.loops[l].run], s.loops[l].loop);
    } else {
      SoundUnlocking(s.store[s.loops[l].run].row);
    }
  }

  lemma SoundUnlocking(row: Run)
    ensures Sound(row, Unlocking)
  {
  }

  /** The sweep discards what is pending or running in a run that is "running". */
  lemma SoundSweep(s: System, id: RunId)
    requires Inv(s) && s.recovery.Some? && id in s.store && SweepWrite(s.recovery.value, id) != Nothing
    ensures var row := s.store[id].row;
            && row.status.RunActive?
            && match SweepWrite(s.recovery.value, id)
               case OfStep(k, to) =>
                 k < |row.steps| && to.Canceled? && (row.steps[k].status.Pending? || row.steps[k].status.Running?)
               case OfRun(status) => status.RunFailed?
               case Nothing => true
  {
    hide Inv;
    Sweeping(s);
  }

  // ----- the order of the steps -----

  /** The goroutine of the run is about to start a step that follows one which is not completed. */
  ghost predicate Disorders(s: System, a: Action, id: RunId) {
    && a.LoopMove? && a.loop in s.loops && s.loops[a.loop].run == id && id in s.store
    && s.loops[a.loop].loop.pc.Mark?
    && exists i | 0 <= i < |s.store[id].row.steps| && i < s.loops[a.loop].loop.pc.step ::
         !s.store[id].row.steps[i].status.Completed?
  }

  lemma StartKeepsShape(was: Run, now: Run, k: nat)
    requires Written(was, now, OfStep(k, Running)) && k < |was.steps| && was.steps[k].status.Pending?
    requires Shaped(was.steps)
    ensures Shaped(now.steps) <==> forall i | 0 <= i < k :: was.steps[i].status.Completed?
  {
    if Shaped(now.steps) {
      forall i | 0 <= i < k
        ensures was.steps[i].status.Completed?
      {
        assert now.steps[i].status.Completed?;
      }
    }
    assert !was.steps[k].status.Completed?;
  }

  lemma SettleKeepsShape(was: Run, now: Run, k: nat, to: StepStatus)
    requires Written(was, now, OfStep(k, to)) && RunsOnly(was.steps, k) && Shaped(was.steps)
    ensures Shaped(now.steps)
  {
  }

  lemma DiscardKeepsShape(was: Run, now: Run, k: nat)
    requires Written(was, now, OfStep(k, Canceled)) && Shaped(was.steps)
    requires k < |was.steps| && (was.steps[k].status.Pending? || was.steps[k].status.Running?)
    ensures Shaped(now.steps)
  {
  }

  lemma NoStepKeepsShape(was: Run, now: Run, w: Write)
    requires Written(was, now, w) && !w.OfStep?
    ensures Shaped(now.steps) <==> Shaped(was.steps)
  {
  }

  lemma LoopKeepsShape(was: Run, now: Run, pc: Pc)
    requires Written(was, now, LoopWrite(pc)) && Sound(was, pc) && (pc.Sweep? ==> Quiet(was.steps)) && Shaped(was.steps)
    ensures pc.Mark? ==> (Shaped(now.steps) <==> forall i | 0 <= i < pc.step :: was.steps[i].status.Completed?)
    ensures !pc.Mark? ==> Shaped(now.steps)
  {
    hide Written, Shaped;
    match pc
    case Mark(k, _) => StartKeepsShape(was, now, k);
    case Settle(k, to, _) => SettleKeepsShape(was, now, k, to);
    case Sweep(v, listed, j) =>
      if LoopWrite(pc).OfStep? {
        DiscardKeepsShape(was, now, j);
      } else {
        NoStepKeepsShape(was, now, LoopWrite(pc));
      }
    case _ => NoStepKeepsShape(was, now, LoopWrite(pc));
  }

  lemma ExecShape(s: System, a: Action, id: RunId)
    requires Inv(s) && id in s.store && Shaped(s.store[id].row.steps)
    ensures id in Exec(s, a).store && (!Shaped(Exec(s, a).store[id].row.steps) <==> Disorders(s, a, id))
  {
    hide Exec, Inv, Written, Shaped, LoopWrite, CallWrite, SweepWrite, Sound;
    ExecWrites(s, a, id);
    var was, now := s.store[id].row, Exec(s, a).store[id].row;
    if a.LoopMove? && a.loop in s.loops && s.loops[a.loop].run == id {
      SoundAt(s, a.loop);
      LoopKeepsShape(was, now, s.loops[a.loop].loop.pc);
      MarkInRange(was, s.loops[a.loop].loop.pc);
    } else if WriteOf(s, a, id).OfStep? {
      CallsWriteRuns(s, a, id);
      SoundSweep(s, id);
      DiscardKeepsShape(was, now, WriteOf(s, a, id).step);
    } else {
      NoStepKeepsShape(was, now, WriteOf(s, a, id));
    }
  }

  lemma MarkInRange(row: Run, pc: Pc)
    requires Sound(row, pc)
    ensures pc.Mark? ==> pc.step < |row.steps|
  {
  }

  lemma CallsWriteRuns(s: System, a: Action, id: RunId)
    requires WriteOf(s, a, id).OfStep? && !(a.LoopMove? && a.loop in s.loops && s.loops[a.loop].run == id)
    ensures s.recovery.Some? && WriteOf(s, a, id) == SweepWrite(s.recovery.value, id)
  {
  }

  /**
    Exactly when the steps of a run get out of order: when its goroutine starts a step while an
    earlier one is not completed.
   */
  lemma OrderBreaksExactly(actions: seq<Action>, a: Action, id: RunId)
    requires id in Play(Boot(), actions).store && Shaped(Play(Boot(), actions).store[id].row.steps)
    ensures id in Play(Boot(), actions + [a]).store
    ensures !Shaped(Play(Boot(), actions + [a]).store[id].row.steps) <==> Disorders(Play(Boot(), actions), a, id)
  {
    hide Exec, Inv, Shaped, Disorders;
    ReachableInv(actions);
    ExecShape(Play(Boot(), actions), a, id);
    PlayedOn(actions, a);
  }

  ghost predicate InShape(s: System, id: RunId) {
    id in s.store ==> Shaped(s.store[id].row.steps)
  }

  /** In every state on the way the steps are in order. */
  ghost predicate AlwaysShaped(actions: seq<Action>, id: RunId) {
    forall n | 0 <= n <= |actions| :: InShape(Play(Boot(), actions[..n]), id)
  }

  /** The run's goroutine never starts a step that follows one which is not completed. */
  ghost predicate NeverDisorders(actions: seq<Action>, id: RunId) {
    forall n | 0 <= n < |actions| :: !Disorders(Play(Boot(), actions[..n]), actions[n], id)
  }

  lemma AlwaysShapedSplit(actions: seq<Action>, id: RunId)
    requires actions != []
    ensures AlwaysShaped(actions, id) <==>
            AlwaysShaped(actions[..|actions| - 1], id) && InShape(Play(Boot(), actions), id)
  {
    hide Play, InShape;
    var before := actions[..|actions| - 1];
    assert actions[..|actions|] == actions;
    assert forall n | 0 <= n < |actions| :: before[..n] == actions[..n];
  }

  lemma NeverDisordersSplit(actions: seq<Action>, id: RunId)
    requires actions != []
    ensures var before := actions[..|actions| - 1];
            NeverDisorders(actions, id) <==>
              NeverDisorders(before, id) && !Disorders(Play(Boot(), before), actions[|actions| - 1], id)
  {
    hide Play, Disorders;
    var before := actions[..|actions| - 1];
    assert forall n | 0 <= n < |actions| :: before[..n] == actions[..n];
  }

  /** Over a whole run of the system: in order throughout, if and only if no such step is ever started. */
  lemma {:induction false} InOrderThroughout(actions: seq<Action>, id: RunId)
    ensures AlwaysShaped(actions, id) <==> NeverDisorders(actions, id)
  {
    hide Exec, Shaped, Disorders, AlwaysShaped, NeverDisorders, Inv;
    if actions == [] {
      NothingYet(id);
    } else {
      var before, a := actions[..|actions| - 1], actions[|actions| - 1];
      InOrderThroughout(before, id);
      AlwaysShapedSplit(actions, id);
      NeverDisordersSplit(actions, id);
      AlwaysAtEnd(before, id);
      var s := Play(Boot(), before);
      ReachableInv(before);
      if id !in s.store {
        NewIsShaped(before, a, id);
      } else if Shaped(s.store[id].row.steps) {
        ExecShape(s, a, id);
      }
    }
  }

  lemma NothingYet(id: RunId)
    ensures AlwaysShaped([], id) && NeverDisorders([], id)
  {
  }

  lemma AlwaysAtEnd(actions: seq<Action>, id: RunId)
    ensures AlwaysShaped(actions, id) && id in Play(Boot(), actions).store ==>
              Shaped(Play(Boot(), actions).store[id].row.steps)
  {
    hide Play, Shaped;
    assert actions[..|actions|] == actions;
  }

  /** A run enters the store with every step pending. */
  lemma NewIsShaped(before: seq<Action>, a: Action, id: RunId)
    requires id !in Play(Boot(), before).store
    ensures !Disorders(Play(Boot(), before), a, id)
    ensures id in Exec(Play(Boot(), before), a).store ==> Shaped(Exec(Play(Boot(), before), a).store[id].row.steps)
  {
    hide Play, Inv;
    ReachableInv(before);
    if id in Exec(Play(Boot(), before), a).store {
      OnlyCreated(Play(Boot(), before), a, id);
    }
  }

  lemma OnlyCreated(s: System, a: Action, id: RunId)
    requires Inv(s) && id !in s.store && id in Exec(s, a).store
    ensures a.Create? && AllPending(Exec(s, a).store[id].row.steps)
  {
    hide Inv, LoopNext, Fire, StartWritten, CancelWritten, SweepCancel, LeftOut, RowsRead, ActiveRuns;
  }

  // ----- finality -----

  /** The action replaces the run's terminal status by another. */
  predicate Overwrites(s: System, a: Action, id: RunId)
    requires id in s.store
  {
    match a
    case CallerMove(c, _) =>
      c in s.callers && (s.callers[c] == StartWrite(id) ||
                         (s.callers[c] == CancelWrite(id) && !s.store[id].row.status.RunCanceled?))
    case LoopMove(l, _) =>
      && l in s.loops && s.loops[l].run == id
      && s.loops[l].loop.pc.Close? && s.loops[l].loop.pc.verdict != s.store[id].row.status
    case _ => false
  }

  /** The action changes the status of a step: its goroutine starts it, settles it or discards it. */
  predicate Rewrites(s: System, a: Action, id: RunId) {
    && a.LoopMove? && a.loop in s.loops && s.loops[a.loop].run == id
    && var pc := s.loops[a.loop].loop.pc;
       pc.Mark? || pc.Settle? || (pc.Sweep? && pc.at < |pc.listed| && pc.listed[pc.at].status.Pending?)
  }

  lemma ExecFinal(s: System, a: Action, id: RunId)
    requires Inv(s) && id in s.store && Terminal(s.store[id].row.status)
    ensures id in Exec(s, a).store
    ensures Exec(s, a).store[id].row.status != s.store[id].row.status <==> Overwrites(s, a, id)
  {
    hide Exec, Inv, Sound;
    ExecWrites(s, a, id);
    if s.recovery.Some? && SweepWrite(s.recovery.value, id) != Nothing {
      SoundSweep(s, id);
    }
  }

  lemma LoopRewrites(was: Run, now: Run, pc: Pc)
    requires Written(was, now, LoopWrite(pc)) && Sound(was, pc) && (pc.Sweep? ==> Quiet(was.steps))
    ensures (exists k | 0 <= k < |was.steps| :: now.steps[k].status != was.steps[k].status) <==>
            pc.Mark? || pc.Settle? || (pc.Sweep? && pc.at < |pc.listed| && pc.listed[pc.at].status.Pending?)
  {
    if pc.Mark? || pc.Settle? {
      assert now.steps[pc.step].status != was.steps[pc.step].status;
    } else if pc.Sweep? && pc.at < |pc.listed| && pc.listed[pc.at].status.Pending? {
      assert now.steps[pc.at].status != was.steps[pc.at].status;
    }
  }

  lemma ExecStepsFinal(s: System, a: Action, id: RunId)
    requires Inv(s) && id in s.store && Terminal(s.store[id].row.status)
    ensures id in Exec(s, a).store && |Exec(s, a).store[id].row.steps| == |s.store[id].row.steps|
    ensures var steps, steps' := s.store[id].row.steps, Exec(s, a).store[id].row.steps;
            (exists k | 0 <= k < |steps| :: steps'[k].status != steps[k].status) <==> Rewrites(s, a, id)
  {
    hide Exec, Inv, Sound, LoopWrite;
    ExecWrites(s, a, id);
    if a.LoopMove? && a.loop in s.loops && s.loops[a.loop].run == id {
      SoundAt(s, a.loop);
      LoopRewrites(s.store[id].row, Exec(s, a).store[id].row, s.loops[a.loop].loop.pc);
    } else if s.recovery.Some? && SweepWrite(s.recovery.value, id) != Nothing {
      SoundSweep(s, id);
    }
  }

  /**
    Exactly when a terminal status is left: a Start writes, a Cancel writes over another status than
    "canceled", or the run's goroutine writes a verdict other than the status that a Cancel had
    written meanwhile. And exactly when a step's status still changes.
   */
  lemma FinalityBreaksExactly(actions: seq<Action>, a: Action, id: RunId)
    requires id in Play(Boot(), actions).store && Terminal(Play(Boot(), actions).store[id].row.status)
    ensures var s, t := Play(Boot(), actions), Play(Boot(), actions + [a]);
            && id in t.store && |t.store[id].row.steps| == |s.store[id].row.steps|
            && (t.store[id].row.status != s.store[id].row.status <==> Overwrites(s, a, id))
            && ((exists k | 0 <= k < |s.store[id].row.steps| ::
                   t.store[id].row.steps[k].status != s.store[id].row.steps[k].status) <==> Rewrites(s, a, id))
  {
    hide Exec, Inv, Overwrites, Rewrites;
    ReachableInv(actions);
    ExecFinal(Play(Boot(), actions), a, id);
    ExecStepsFinal(Play(Boot(), actions), a, id);
    PlayedOn(actions, a);
  }

  /** The run still has its status and, if the whole row is meant, every step its own. */
  ghost predicate Same(s: System, t: System, id: RunId, whole: bool) {
    && id in s.store && id in t.store && t.store[id].row.status == s.store[id].row.status
    && (whole ==> SameStatuses(s.store[id].row.steps, t.store[id].row.steps))
  }

  ghost predicate Disturbs(s: System, a: Action, id: RunId, whole: bool) {
    id in s.store && (Overwrites(s, a, id) || (whole && Rewrites(s, a, id)))
  }

  ghost predicate Stays(a: seq<Action>, b: seq<Action>, id: RunId, whole: bool) {
    forall n | 0 <= n <= |b| :: Same(Play(Boot(), a), Play(Boot(), a + b[..n]), id, whole)
  }

  ghost predicate NeverDisturbed(a: seq<Action>, b: seq<Action>, id: RunId, whole: bool) {
    forall n | 0 <= n < |b| :: !Disturbs(Play(Boot(), a + b[..n]), b[n], id, whole)
  }

  lemma StaysSplit(a: seq<Action>, b: seq<Action>, id: RunId, whole: bool)
    requires b != []
    ensures Stays(a, b, id, whole) <==>
            Stays(a, b[..|b| - 1], id, whole) && Same(Play(Boot(), a), Play(Boot(), a + b), id, whole)
  {
    hide Play, Same;
    var before := b[..|b| - 1];
    assert b[..|b|] == b;
    forall n | 0 <= n < |b|
      ensures before[..n] == b[..n]
    {
    }
  }

  lemma NeverDisturbedSplit(a: seq<Action>, b: seq<Action>, id: RunId, whole: bool)
    requires b != []
    ensures var before := b[..|b| - 1];
            NeverDisturbed(a, b, id, whole) <==>
              NeverDisturbed(a, before, id, whole) && !Disturbs(Play(Boot(), a + before), b[|b| - 1], id, whole)
  {
    hide Play, Disturbs;
    var before := b[..|b| - 1];
    assert forall n | 0 <= n < |b| :: before[..n] == b[..n];
  }

  lemma ExecSame(first: System, s: System, a: Action, id: RunId, whole: bool)
    requires Inv(s) && Same(first, s, id, whole) && Terminal(s.store[id].row.status)
    ensures Same(first, Exec(s, a), id, whole) <==> !Disturbs(s, a, id, whole)
  {
    hide Exec, Inv, Overwrites, Rewrites;
    ExecFinal(s, a, id);
    ExecStepsFinal(s, a, id);
    if whole && Rewrites(s, a, id) {
      var steps, steps' := s.store[id].row.steps, Exec(s, a).store[id].row.steps;
      var k :| 0 <= k < |steps| && steps'[k].status != steps[k].status;
      assert steps[k].status == first.store[id].row.steps[k].status;
    }
  }

  /**
    Over a whole continuation: a terminal status stays if and only if nothing overwrites it, and it
    stays together with the statuses of the steps if and only if nothing rewrites those, either.
   */
  lemma {:induction false} FinalThroughout(a: seq<Action>, b: seq<Action>, id: RunId, whole: bool)
    requires id in Play(Boot(), a).store && Terminal(Play(Boot(), a).store[id].row.status)
    ensures Stays(a, b, id, whole) <==> NeverDisturbed(a, b, id, whole)
  {
    hide Exec, Inv, Play, Disturbs, Same, Stays, NeverDisturbed;
    if b == [] {
      StaysAtFirst(a, id, whole);
    } else {
      var before, last := b[..|b| - 1], b[|b| - 1];
      FinalThroughout(a, before, id, whole);
      StaysSplit(a, b, id, whole);
      NeverDisturbedSplit(a, b, id, whole);
      if Stays(a, before, id, whole) {
        StaysAtEnd(a, before, id, whole);
        ReachableInv(a + before);
        ExecSame(Play(Boot(), a), Play(Boot(), a + before), last, id, whole);
        PlayedOn(a + before, last);
        assert a + b == a + before + [last];
      }
    }
  }

  lemma StaysAtFirst(a: seq<Action>, id: RunId, whole: bool)
    requires id in Play(Boot(), a).store
    ensures Stays(a, [], id, whole) && NeverDisturbed(a, [], id, whole)
  {
    hide Play;
    var none: seq<Action> := [];
    assert a + none == a;
    assert none[..0] == none;
  }

  lemma StaysAtEnd(a: seq<Action>, b: seq<Action>, id: RunId, whole: bool)
    requires Stays(a, b, id, whole)
    ensures var s, t := Play(Boot(), a), Play(Boot(), a + b);
            Same(s, t, id, whole) && id in s.store && id in t.store && t.store[id].row.status == s.store[id].row.status
  {
    hide Play;
    assert b[..|b|] == b;
  }
}
