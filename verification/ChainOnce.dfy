/**
  Runs that are given to Start at most once, as both callers in the repository do: for them the
  order of steps and launches and the meaning of "completed" need no further condition, whatever
  Cancel, crashes and failing reads do.
 */
module ChainOnce {
  import opened Wrappers
  import opened ChainRun
  import opened ChainRunInvariant
  import opened ChainSystem
  import opened ChainInvariant
  import opened ChainPreservation
  import opened ChainProgress
  import opened ChainWrites

  /** How many of the actions call Start on the run. */
  function Starts(actions: seq<Action>, id: RunId): nat {
    if actions == [] then 0
    else
      var last := actions[|actions| - 1];
      Starts(actions[..|actions| - 1], id) + if last.CallStart? && last.run == id then 1 else 0
  }

  /** A call of Start that may still write "running" to the run. */
  predicate StartsRun(caller: Caller, id: RunId) {
    caller == StartWait(id) || caller == StartCheck(id) || caller == StartWrite(id)
  }

  /** At most as many calls of Start as were made are still to write, and then none has written. */
  ghost predicate OnceInv(s: System, id: RunId, calls: nat) {
    && (id in s.store ==> !s.store[id].spoiled && s.store[id].clean)
    && (calls == 0 ==> id in s.store ==> !s.store[id].begun)
    && (forall c | c in s.callers && StartsRun(s.callers[c], id) :: calls > 0 && id in s.store && !s.store[id].begun)
    && (forall c, d | c in s.callers && d in s.callers ::
          StartsRun(s.callers[c], id) && StartsRun(s.callers[d], id) ==> c == d)
  }

  lemma MoveLoopOnce(s: System, l: nat, answer: Answer, id: RunId, calls: nat)
    requires l in s.loops && OnceInv(s, id, calls)
    ensures OnceInv(MoveLoop(s, l, answer), id, calls)
  {
    hide LoopNext;
    if s.loops[l].run in s.store {
      LoopKeepsMarks(s.store[s.loops[l].run], s.loops[l].loop, answer);
    }
  }

  /** The write of a first Start finds every step pending. */
  lemma FirstWrite(job: Job, live: Option<Loop>)
    requires RunInv(job, live) && !job.begun
    ensures StartWritten(job).begun && StartWritten(job).clean && !StartWritten(job).spoiled
  {
  }

  /** A call does not become one that may still start the run. */
  lemma CallsOnly(s: System, c: nat, answer: Answer, id: RunId)
    requires c in s.callers
    ensures var t := MoveCaller(s, c, answer);
            c in t.callers && StartsRun(t.callers[c], id) ==> StartsRun(s.callers[c], id) && t.store == s.store
  {
    hide StartWritten, CancelWritten, Fire;
  }

  lemma CallsMark(s: System, c: nat, answer: Answer, id: RunId)
    requires c in s.callers && id in s.store
    ensures var t := MoveCaller(s, c, answer);
            && id in t.store
            && if s.callers[c] == StartWrite(id) then t.store[id] == StartWritten(s.store[id])
               else SameMarks(s.store[id], t.store[id]) ||
                    (s.callers[c] == CancelWrite(id) && t.store[id] == CancelWritten(s.store[id]))
  {
    hide StartWritten, CancelWritten, Fire;
  }

  lemma CallsNoNew(s: System, c: nat, answer: Answer, id: RunId)
    requires c in s.callers && id !in s.store
    ensures id !in MoveCaller(s, c, answer).store
  {
    hide StartWritten, CancelWritten, Fire;
  }

  lemma MoveCallerOnce(s: System, c: nat, answer: Answer, id: RunId, calls: nat)
    requires Inv(s) && c in s.callers && OnceInv(s, id, calls)
    ensures OnceInv(MoveCaller(s, c, answer), id, calls)
  {
    hide Inv, RunInv, StartWritten, MoveCaller;
    CallsOnly(s, c, answer, id);
    MoveCallerOthers(s, c, answer);
    if id in s.store {
      CallsMark(s, c, answer, id);
      if s.callers[c] == StartWrite(id) {
        LiveRun(s, id);
        FirstWrite(s.store[id], Live(s.registry, s.loops, id));
      }
    } else {
      CallsNoNew(s, c, answer, id);
    }
  }

  lemma MoveRecoveryOnce(s: System, answer: Answer, id: RunId, calls: nat)
    requires s.recovery.Some? && OnceInv(s, id, calls)
    ensures OnceInv(MoveRecovery(s, s.recovery.value, answer), id, calls)
  {
    hide LeftOut, RowsRead, WithStatus, Restartable, Clean;
  }

  /** A run that is still pending has not begun. */
  lemma PendingNotBegun(s: System, id: RunId)
    requires Inv(s) && id in s.store
    ensures s.store[id].row.status.RunPending? ==> !s.store[id].begun
  {
    hide Inv;
    LiveRun(s, id);
  }

  lemma CallStartOnce(s: System, c: nat, run: RunId, id: RunId, calls: nat)
    requires Inv(s) && c !in s.callers && run in s.store && s.store[run].row.status.RunPending?
    requires OnceInv(s, id, calls) && (run == id ==> calls == 0)
    ensures OnceInv(s.(callers := s.callers[c := StartWait(run)]), id, calls + if run == id then 1 else 0)
  {
    hide Inv;
    PendingNotBegun(s, run);
  }

  lemma ExecOnce(s: System, a: Action, id: RunId, calls: nat)
    requires Inv(s) && OnceInv(s, id, calls) && (a.CallStart? && a.run == id ==> calls == 0)
    ensures OnceInv(Exec(s, a), id, calls + if a.CallStart? && a.run == id then 1 else 0)
  {
    hide Inv, MoveCaller, MoveLoop, MoveRecovery, ActiveRuns, FreshSteps;
    match a
    case LoopMove(l, answer) =>
      if l in s.loops {
        MoveLoopOnce(s, l, answer, id, calls);
      }
    case CallerMove(c, answer) =>
      if c in s.callers {
        MoveCallerOnce(s, c, answer, id, calls);
      }
    case SweepMove(answer) =>
      if s.recovery.Some? {
        MoveRecoveryOnce(s, answer, id, calls);
      }
    case CallStart(c, run) =>
      if s.recovery.None? && c !in s.callers && run in s.store && s.store[run].row.status.RunPending? {
        CallStartOnce(s, c, run, id, calls);
      }
    case _ =>
  }

  lemma {:induction false} PlayOnce(actions: seq<Action>, id: RunId)
    requires Starts(actions, id) <= 1
    ensures OnceInv(Play(Boot(), actions), id, Starts(actions, id))
  {
    hide Inv, Exec, OnceInv;
    if actions == [] {
      BootOnce(id);
    } else {
      var before := actions[..|actions| - 1];
      PlayOnce(before, id);
      ReachableInv(before);
      ExecOnce(Play(Boot(), before), actions[|actions| - 1], id, Starts(before, id));
    }
  }

  lemma BootOnce(id: RunId)
    ensures OnceInv(Boot(), id, 0)
  {
  }

  /**
    A run given to Start at most once, in every reachable state, with Cancel racing, crashes and
    wind-downs cut short: the steps are in order, and every launch came after the earlier steps had
    been observed finished; "completed" means every step completed; "failed", and "canceled" once
    the work is over, mean completed*, at most one failed, then canceled steps exactly if the
    listing left nothing out.
   */
  lemma StartedOnceIsSafe(actions: seq<Action>, id: RunId)
    requires Starts(actions, id) <= 1 && id in Play(Boot(), actions).store
    ensures var job := Play(Boot(), actions).store[id];
            var steps := job.row.steps;
            && Shaped(steps) && InOrder(job.log)
            && (job.row.status.RunCompleted? ==> AllCompleted(steps))
            && (job.row.status.RunFailed? ==> (WoundDown(steps) <==> !job.unlisted))
            && (job.row.status.RunCanceled? && job.begun && !job.working ==> (WoundDown(steps) <==> !job.unlisted))
            && (job.row.status.RunCanceled? && !job.begun ==> AllPending(steps))
  {
    hide Inv, RunInv, Play;
    PlayOnce(actions, id);
    ReachableInv(actions);
    var s := Play(Boot(), actions);
    LiveRun(s, id);
    CleanRun(s.store[id], Live(s.registry, s.loops, id));
  }

  lemma CleanRun(job: Job, live: Option<Loop>)
    requires RunInv(job, live) && !job.spoiled && job.clean
    ensures var steps := job.row.steps;
            && Shaped(steps) && InOrder(job.log)
            && (job.row.status.RunCompleted? ==> AllCompleted(steps))
            && (job.row.status.RunFailed? ==> (WoundDown(steps) <==> !job.unlisted))
            && (job.row.status.RunCanceled? && job.begun && !job.working ==> (WoundDown(steps) <==> !job.unlisted))
            && (job.row.status.RunCanceled? && !job.begun ==> AllPending(steps))
  {
  }

  // ----- a run canceled while it executed a step -----

  /** The run has begun, is not "completed", nobody is about to start it, and only a struck goroutine works on it. */
  ghost predicate Struck(s: System, id: RunId) {
    && id in s.store && s.store[id].begun && !s.store[id].row.status.RunCompleted?
    && (forall c | c in s.callers :: StartTarget(s.callers[c]) != Some(id))
    && (forall l | l in s.loops && s.loops[l].run == id :: s.loops[l].loop.canceled && s.loops[l].loop.struck.Some?)
  }

  /** A struck goroutine does not write "completed". */
  lemma StruckMove(job: Job, loop: Loop, answer: Answer)
    requires RunInv(job, Some(loop)) && loop.struck.Some? && !job.row.status.RunCompleted?
    ensures !LoopNext(job, loop, answer).0.row.status.RunCompleted?
  {
    LoopWrites(job, loop, answer);
    NotItsVerdict(job, loop);
    hide RunInv, LoopNext;
  }

  lemma NotItsVerdict(job: Job, loop: Loop)
    requires RunInv(job, Some(loop)) && loop.struck.Some?
    ensures loop.pc != Close(RunCompleted)
  {
    hide History, PcInv, Ending, Shaped;
  }

  lemma LoopKeepsStruck(s: System, l: nat, answer: Answer, id: RunId)
    requires Inv(s) && l in s.loops && Struck(s, id) && Later(s, MoveLoop(s, l, answer))
    ensures Struck(MoveLoop(s, l, answer), id)
  {
    hide Inv, LoopNext, RunInv, Later;
    var Driver(run, loop) := s.loops[l];
    if run in s.store {
      LoopKeepsMarks(s.store[run], loop, answer);
      StaysStruck(loop, s.store[run], answer);
      if run == id && !loop.pc.Unlocking? {
        LiveFacts(s, l);
        StruckMove(s.store[run], loop, answer);
      }
    }
  }

  lemma StaysStruck(loop: Loop, job: Job, answer: Answer)
    ensures var next := LoopNext(job, loop, answer).1; next.struck == loop.struck && next.canceled == loop.canceled
  {
    hide SweepStep, LeftOut, RowsRead, NextPending, WithStatus, WithInstance, RequestFor, MissingHandoff;
  }

  /** A call comes to aim at starting the run only if it did before. */
  lemma CallsAim(s: System, c: nat, answer: Answer, id: RunId)
    requires c in s.callers
    ensures var t := MoveCaller(s, c, answer);
            c in t.callers && StartTarget(t.callers[c]) == Some(id) ==> StartTarget(s.callers[c]) == Some(id)
  {
    hide StartWritten, CancelWritten, Fire;
  }

  lemma CallsLeave(s: System, c: nat, answer: Answer, id: RunId)
    requires c in s.callers && StartTarget(s.callers[c]) != Some(id)
    requires id in s.store && s.store[id].begun && !s.store[id].row.status.RunCompleted?
    ensures var t := MoveCaller(s, c, answer);
            id in t.store && t.store[id].begun && !t.store[id].row.status.RunCompleted?
  {
    hide StartWritten, Fire;
  }

  lemma CallsFire(s: System, c: nat, answer: Answer, id: RunId)
    requires c in s.callers && StartTarget(s.callers[c]) != Some(id)
    requires forall l | l in s.loops && s.loops[l].run == id :: s.loops[l].loop.canceled && s.loops[l].loop.struck.Some?
    ensures var t := MoveCaller(s, c, answer);
            forall l | l in t.loops && t.loops[l].run == id :: t.loops[l].loop.canceled && t.loops[l].loop.struck.Some?
  {
    hide StartWritten, CancelWritten, Launches;
  }

  lemma CallKeepsStruck(s: System, c: nat, answer: Answer, id: RunId)
    requires c in s.callers && Struck(s, id)
    ensures Struck(MoveCaller(s, c, answer), id)
  {
    MoveCallerOthers(s, c, answer);
    CallsAim(s, c, answer, id);
    CallsLeave(s, c, answer, id);
    CallsFire(s, c, answer, id);
    hide MoveCaller;
  }

  lemma SweepKeepsStruck(s: System, answer: Answer, id: RunId)
    requires s.recovery.Some? && Struck(s, id)
    ensures Struck(MoveRecovery(s, s.recovery.value, answer), id)
  {
    hide LeftOut, RowsRead;
  }

  lemma ExecKeepsStruck(s: System, a: Action, id: RunId)
    requires Inv(s) && Struck(s, id)
    ensures Struck(Exec(s, a), id)
  {
    hide Inv, MoveCaller, MoveLoop, MoveRecovery, ActiveRuns, FreshSteps, Later;
    ExecLater(s, a);
    match a
    case LoopMove(l, answer) =>
      if l in s.loops {
        LoopKeepsStruck(s, l, answer, id);
      }
    case CallerMove(c, answer) =>
      if c in s.callers {
        CallKeepsStruck(s, c, answer, id);
      }
    case SweepMove(answer) =>
      if s.recovery.Some? {
        SweepKeepsStruck(s, answer, id);
      }
    case CallStart(c, run) =>
      if run in s.store {
        PendingNotBegun(s, run);
      }
    case _ =>
  }

  lemma {:induction false} PlayKeepsStruck(s: System, actions: seq<Action>, id: RunId)
    requires Inv(s) && Struck(s, id)
    ensures Struck(Play(s, actions), id)
  {
    hide Inv, Exec, Struck;
    if actions != [] {
      var before := actions[..|actions| - 1];
      PlayKeepsStruck(s, before, id);
      PlayKeeps(s, before);
      ExecKeepsStruck(Play(s, before), actions[|actions| - 1], id);
    }
  }

  /** A run given to Start once, whose goroutine was struck while it executed a step, meets the conditions. */
  lemma StruckOnce(s: System, l: nat, calls: nat)
    requires Inv(s) && l in s.loops && !s.loops[l].loop.pc.Unlocking? && s.loops[l].loop.struck.Some?
    requires OnceInv(s, s.loops[l].run, calls)
    ensures Struck(s, s.loops[l].run)
  {
    hide Inv;
    var id := s.loops[l].run;
    LiveFacts(s, l);
    StruckRun(s.store[id], s.loops[l].loop);
    Exclusive(s);
    NotRegistering(s, l);
  }

  lemma StruckRun(job: Job, loop: Loop)
    requires RunInv(job, Some(loop)) && loop.struck.Some?
    ensures job.begun && loop.canceled && !job.row.status.RunCompleted?
  {
    hide History, PcInv, Shaped;
  }

  lemma NotRegistering(s: System, l: nat)
    requires Inv(s) && l in s.loops && !s.loops[l].loop.pc.Unlocking?
    ensures forall c | c in s.callers :: s.callers[c] != StartRegister(s.loops[l].run)
  {
    hide RunInv, RunsInv, LockInv, ActiveInv, SpawnInv, RecoveryInv, Resting, Startable;
    forall c | c in s.callers
      ensures s.callers[c] != StartRegister(s.loops[l].run)
    {
      assert TargetInv(s.callers[c], s.store, s.registry);
    }
  }

  /**
    A run given to Start at most once, whose context was canceled while executeStep was in progress,
    is "completed" in no later state, whatever happens.
   */
  lemma StruckNeverCompletes(a: seq<Action>, b: seq<Action>, l: nat)
    requires l in Play(Boot(), a).loops && Starts(a, Play(Boot(), a).loops[l].run) <= 1
    requires Play(Boot(), a).loops[l].loop.struck.Some? && !Play(Boot(), a).loops[l].loop.pc.Unlocking?
    ensures var id := Play(Boot(), a).loops[l].run;
            var t := Play(Boot(), a + b);
            id in t.store && !t.store[id].row.status.RunCompleted?
  {
    hide Inv, Play, OnceInv;
    var s := Play(Boot(), a);
    var id := s.loops[l].run;
    ReachableInv(a);
    PlayOnce(a, id);
    StruckOnce(s, l, Starts(a, id));
    PlayKeepsStruck(s, b, id);
    PlayConcat(Boot(), a, b);
  }
}
