/**
  Every goroutine comes to an end: each of its effective actions lowers a rank that no other action
  raises. An action is effective unless it only waits (for the lock, or for a workflow instance).
 */
module ChainTermination {
  import opened Wrappers
  import opened ChainRun
  import opened ChainRunInvariant
  import opened ChainSystem
  import opened ChainInvariant
  import opened ChainPreservation

  function PendingCount(steps: seq<Step>): nat {
    if steps == [] then 0
    else (if steps[|steps| - 1].status.Pending? then 1 else 0) + PendingCount(steps[..|steps| - 1])
  }

  lemma {:induction false} PendingCountUpdate(steps: seq<Step>, k: nat, step: Step)
    requires k < |steps|
    ensures PendingCount(steps[k := step]) ==
            PendingCount(steps) - (if steps[k].status.Pending? then 1 else 0) + (if step.status.Pending? then 1 else 0)
  {
    var last := |steps| - 1;
    if k < last {
      PendingCountUpdate(steps[..last], k, step);
      assert steps[k := step][..last] == steps[..last][k := step];
    } else {
      assert steps[k := step][..last] == steps[..last];
    }
  }

  lemma {:induction false} PendingCountBound(steps: seq<Step>)
    ensures PendingCount(steps) <= |steps|
  {
    if steps != [] {
      PendingCountBound(steps[..|steps| - 1]);
    }
  }

  /** How many effective actions a goroutine at `pc` has left, at most. */
  function Rank(steps: seq<Step>, pc: Pc): nat {
    var end := |steps| + 9;
    var work := end + 10 * PendingCount(steps);
    match pc
    case Unlocking => 1
    case Deleting => 2
    case Leave => 3
    case Close(_) => 4
    case Sweep(_, listed, j) => 5 + if j <= |listed| then |listed| - j else 0
    case ListSteps(_) => 6 + |steps|
    case FailOpen => 7 + |steps|
    case Errored => 8 + |steps|
    case Settle(_, _, _) => work + 4
    case Poll(_) => work + 5
    case Record(_, _, _) => work + 6
    case Launch(_, _) => work + 7
    case Handoff(_, _) => work + 8
    case Position(_, _) => work + 9
    case Mark(_, _) => work + 1
    case Next => work + 2
    case Top => work + 3
    case Open => work + 4
    case Born => work + 5
  }

  /** Polling an instance that has not finished, with the context not canceled. */
  predicate Waiting(loop: Loop, answer: Answer) {
    loop.pc.Poll? && !answer.Yes? && !answer.No? && !loop.canceled
  }

  lemma StatusRank(row: Run, k: nat, status: StepStatus)
    requires k < |row.steps| && !status.Pending?
    ensures |WithStatus(row, k, status).steps| == |row.steps|
    ensures PendingCount(WithStatus(row, k, status).steps) ==
            PendingCount(row.steps) - if row.steps[k].status.Pending? then 1 else 0
  {
    PendingCountUpdate(row.steps, k, row.steps[k].(status := status));
  }

  lemma InstanceRank(row: Run, k: nat, instance: string, request: Request)
    ensures |WithInstance(row, k, instance, request).steps| == |row.steps|
    ensures PendingCount(WithInstance(row, k, instance, request).steps) == PendingCount(row.steps)
  {
    if k < |row.steps| {
      PendingCountUpdate(row.steps, k, WithInstance(row, k, instance, request).steps[k]);
    }
  }

  lemma StatusWorkLowersRank(job: Job, loop: Loop, answer: Answer)
    requires PcInv(job, loop) && (loop.pc.Mark? || loop.pc.Settle?)
    ensures var (job', loop') := LoopNext(job, loop, answer);
            Rank(job'.row.steps, loop'.pc) < Rank(job.row.steps, loop.pc)
  {
    hide Serves, SameDefinition, BusyAt, WithStatus, SweepStep;
    StatusRank(job.row, loop.pc.step, if loop.pc.Mark? then Running else loop.pc.to);
  }

  lemma SweepWorkLowersRank(job: Job, loop: Loop, answer: Answer)
    requires PcInv(job, loop) && loop.pc.Sweep?
    ensures var (job', loop') := LoopNext(job, loop, answer);
            Rank(job'.row.steps, loop'.pc) < Rank(job.row.steps, loop.pc)
  {
    hide WithStatus, PendingCount;
    if loop.pc.at < |loop.pc.listed| {
      StatusRank(job.row, loop.pc.at, Canceled);
    }
  }

  lemma StepWorkKeepsCount(job: Job, loop: Loop, answer: Answer)
    requires ExecutingStep(loop.pc).Some? && !loop.pc.Mark? && !loop.pc.Settle?
    ensures var steps, steps' := job.row.steps, LoopNext(job, loop, answer).0.row.steps;
            |steps'| == |steps| && PendingCount(steps') == PendingCount(steps)
  {
    hide PendingCount, WithInstance;
    if loop.pc.Record? {
      InstanceRank(job.row, loop.pc.step, loop.pc.instance, loop.pc.request);
    }
  }

  lemma StepWorkLowersRank(job: Job, loop: Loop, answer: Answer)
    requires ExecutingStep(loop.pc).Some? && !loop.pc.Mark? && !loop.pc.Settle? && !Waiting(loop, answer)
    ensures var (job', loop') := LoopNext(job, loop, answer);
            Rank(job'.row.steps, loop'.pc) < Rank(job.row.steps, loop.pc)
  {
    StepWorkKeepsCount(job, loop, answer);
    hide PendingCount, RequestFor, MissingHandoff, WithStatus, WithInstance, SweepStep, LeftOut, RowsRead, NextPending;
  }

  lemma WorkLowersRank(job: Job, loop: Loop, answer: Answer)
    requires PcInv(job, loop) && !Locking(loop.pc) && !Waiting(loop, answer)
    ensures var (job', loop') := LoopNext(job, loop, answer);
            Rank(job'.row.steps, loop'.pc) < Rank(job.row.steps, loop.pc)
  {
    hide PcInv, PendingCount, RequestFor, MissingHandoff, WithStatus, WithInstance, SweepStep, LeftOut;
    if loop.pc.Mark? || loop.pc.Settle? {
      StatusWorkLowersRank(job, loop, answer);
    } else if loop.pc.Sweep? {
      SweepWorkLowersRank(job, loop, answer);
    } else if ExecutingStep(loop.pc).Some? {
      StepWorkLowersRank(job, loop, answer);
    }
  }

  // ----- in the system -----

  /** The rank of goroutine l; 0 when it is gone. */
  function LoopRank(s: System, l: nat): nat {
    if l in s.loops && s.loops[l].run in s.store
    then Rank(s.store[s.loops[l].run].row.steps, s.loops[l].loop.pc) else 0
  }

  /** Whether goroutine l does something when it is its turn. */
  predicate Effective(s: System, l: nat, answer: Answer) {
    && l in s.loops && !s.loops[l].loop.pc.Born? && !Waiting(s.loops[l].loop, answer)
    && (s.loops[l].loop.pc.Leave? ==> s.lock.None?)
  }

  lemma OwnMoveLowersRank(s: System, l: nat, answer: Answer)
    requires Inv(s) && Effective(s, l, answer)
    ensures LoopRank(MoveLoop(s, l, answer), l) < LoopRank(s, l)
  {
    hide LoopNext, RunInv, Inv, PcInv, PendingCount;
    var Driver(id, loop) := s.loops[l];
    StoredLoop(s, l);
    if !Locking(loop.pc) {
      WorkLowersRank(s.store[id], loop, answer);
    }
  }

  lemma StoredLoop(s: System, l: nat)
    requires Inv(s) && l in s.loops
    ensures s.loops[l].run in s.store && l < s.nextLoop
    ensures !s.loops[l].loop.pc.Unlocking? ==> PcInv(s.store[s.loops[l].run], s.loops[l].loop)
  {
    hide RunInv, PcInv;
    if !s.loops[l].loop.pc.Unlocking? {
      LiveLoop(s, l);
      PcOf(s.store[s.loops[l].run], s.loops[l].loop);
    }
  }

  lemma PcOf(job: Job, loop: Loop)
    requires RunInv(job, Some(loop))
    ensures PcInv(job, loop)
  {
    hide PcInv;
  }

  /** Other actions leave the statuses of the run and the place of the goroutine alone. */
  lemma SameStatusesSameRank(a: seq<Step>, b: seq<Step>, pc: Pc)
    requires |a| == |b| && forall i | 0 <= i < |a| :: a[i].status.Pending? == b[i].status.Pending?
    ensures Rank(a, pc) == Rank(b, pc)
  {
    SamePendingCount(a, b);
  }

  lemma {:induction false} SamePendingCount(a: seq<Step>, b: seq<Step>)
    requires |a| == |b| && forall i | 0 <= i < |a| :: a[i].status.Pending? == b[i].status.Pending?
    ensures PendingCount(a) == PendingCount(b)
  {
    if a != [] {
      SamePendingCount(a[..|a| - 1], b[..|b| - 1]);
    }
  }

  lemma CallKeepsRank(s: System, l: nat, c: nat, answer: Answer)
    requires Inv(s) && l < s.nextLoop && c in s.callers
    ensures LoopRank(MoveCaller(s, c, answer), l) <= LoopRank(s, l)
  {
    hide Inv, Rank, Launches, Restartable;
    Spawned(s, c);
  }

  lemma Spawned(s: System, c: nat)
    requires Inv(s) && c in s.callers
    ensures forall l, steps | SpawnTarget(s.callers[c]) == Some(l) ::
              l in s.loops && s.loops[l].loop.pc.Born? && Rank(steps, Open) <= Rank(steps, Born)
  {
    hide RunInv, RunsInv, LockInv, CallerInv, ActiveInv, RegistryInv, RecoveryInv;
  }

  lemma OtherMoveKeepsRank(s: System, l: nat, m: nat, answer: Answer)
    requires Inv(s) && l in s.loops && m in s.loops && m != l
    ensures LoopRank(MoveLoop(s, m, answer), l) <= LoopRank(s, l)
  {
    hide LoopNext, Inv, Rank;
    Exclusive(s);
  }

  lemma HandKeepsRank(job: Job, k: nat, step: Step, pc: Pc)
    requires Hands(job, k, step)
    ensures Rank(WithStep(job, k, step).row.steps, pc) == Rank(job.row.steps, pc)
  {
    hide Rank;
    SameStatusesSameRank(job.row.steps, WithStep(job, k, step).row.steps, pc);
  }

  predicate IsEffective(s: System, a: Action, l: nat) {
    a.LoopMove? && a.loop == l && Effective(s, l, a.answer)
  }

  lemma LoopMoveRank(s: System, l: nat, m: nat, answer: Answer)
    requires Inv(s) && m in s.loops
    ensures MoveLoop(s, m, answer).nextLoop == s.nextLoop
    ensures LoopRank(MoveLoop(s, m, answer), l) + (if m == l && Effective(s, l, answer) then 1 else 0) <= LoopRank(s, l)
  {
    hide LoopNext, Inv, Rank;
    if m != l {
      if l in s.loops {
        OtherMoveKeepsRank(s, l, m, answer);
      }
    } else if Effective(s, l, answer) {
      OwnMoveLowersRank(s, l, answer);
    } else if Waiting(s.loops[l].loop, answer) && s.loops[l].run in s.store {
      WaitingKeeps(s.store[s.loops[l].run], s.loops[l].loop, answer);
    }
  }

  lemma WaitingKeeps(job: Job, loop: Loop, answer: Answer)
    requires Waiting(loop, answer)
    ensures LoopNext(job, loop, answer) == (job, loop)
  {
  }

  lemma RecoveryRank(s: System, l: nat, answer: Answer)
    requires s.recovery.Some? && s.loops == map[]
    ensures LoopRank(MoveRecovery(s, s.recovery.value, answer), l) == 0
    ensures MoveRecovery(s, s.recovery.value, answer).nextLoop == s.nextLoop
  {
    hide Rank;
  }

  lemma HandRank(s: System, l: nat, id: RunId, k: nat, step: Step)
    requires id in s.store && Hands(s.store[id], k, step)
    ensures LoopRank(s.(store := s.store[id := WithStep(s.store[id], k, step)]), l) == LoopRank(s, l)
  {
    hide Rank, WithStep, Hands;
    if l in s.loops && s.loops[l].run == id {
      HandKeepsRank(s.store[id], k, step, s.loops[l].loop.pc);
    }
  }

  lemma CallGrows(s: System, c: nat, answer: Answer)
    requires c in s.callers
    ensures s.nextLoop <= MoveCaller(s, c, answer).nextLoop
  {
    hide StartWritten, CancelWritten, Fire;
  }

  lemma ExecRank(s: System, a: Action, l: nat)
    requires Inv(s) && l < s.nextLoop
    ensures l < Exec(s, a).nextLoop
    ensures LoopRank(Exec(s, a), l) + (if IsEffective(s, a, l) then 1 else 0) <= LoopRank(s, l)
  {
    hide Inv, MoveCaller, MoveLoop, MoveRecovery, ActiveRuns, FreshSteps, WithStep, Rank, Effective;
    Idle(s);
    match a
    case SweepMove(answer) =>
      if s.recovery.Some? {
        RecoveryRank(s, l, answer);
      }
    case CallerMove(c, answer) =>
      if c in s.callers {
        CallKeepsRank(s, l, c, answer);
        CallGrows(s, c, answer);
      }
    case LoopMove(m, answer) =>
      if m in s.loops {
        LoopMoveRank(s, l, m, answer);
      } else {
        NotEffective(s, l, answer);
      }
    case HandTicket(id, k, ticket) =>
      if PendingStep(s, id, k) {
        HandRank(s, l, id, k, s.store[id].row.steps[k].(ticket := Some(ticket)));
      }
    case HandInstructions(id, k, text) =>
      if PendingStep(s, id, k) {
        HandRank(s, l, id, k, s.store[id].row.steps[k].(instructions := text));
      }
    case Create(id, initial, steps) => CreateRank(s, l);
    case _ =>
  }

  lemma NotEffective(s: System, l: nat, answer: Answer)
    ensures l !in s.loops ==> !Effective(s, l, answer)
  {
  }

  lemma CreateRank(s: System, l: nat)
    requires Inv(s)
    ensures l in s.loops ==> s.loops[l].run in s.store
  {
    if l in s.loops {
      hide Inv;
      StoredLoop(s, l);
    }
  }

  /** How many of the actions, played from s, are effective actions of goroutine l. */
  ghost function EffectiveMoves(s: System, actions: seq<Action>, l: nat): nat {
    if actions == [] then 0
    else var before := actions[..|actions| - 1];
      EffectiveMoves(s, before, l) + if IsEffective(Play(s, before), actions[|actions| - 1], l) then 1 else 0
  }

  lemma {:induction false} PlayRank(s: System, actions: seq<Action>, l: nat)
    requires Inv(s) && l < s.nextLoop
    ensures l < Play(s, actions).nextLoop
    ensures LoopRank(Play(s, actions), l) + EffectiveMoves(s, actions, l) <= LoopRank(s, l)
  {
    hide Inv, Exec, IsEffective, LoopRank;
    if actions != [] {
      var before := actions[..|actions| - 1];
      PlayRank(s, before, l);
      PlayKeeps(s, before);
      ExecRank(Play(s, before), actions[|actions| - 1], l);
    }
  }

  /**
    From any reachable state on, whatever else happens, goroutine l takes at most 11 actions for
    each step of its run and 18 more: the loop of runLoop terminates.
   */
  lemma GoroutineTerminates(a: seq<Action>, b: seq<Action>, l: nat)
    requires l in Play(Boot(), a).loops
    ensures var s := Play(Boot(), a);
            && s.loops[l].run in s.store
            && EffectiveMoves(s, b, l) <= 11 * |s.store[s.loops[l].run].row.steps| + 18
  {
    hide Inv, Play;
    var s := Play(Boot(), a);
    ReachableInv(a);
    StoredLoop(s, l);
    PlayRank(s, b, l);
    RankBound(s.store[s.loops[l].run], s.loops[l].loop);
  }

  lemma RankBound(job: Job, loop: Loop)
    requires !loop.pc.Unlocking? ==> PcInv(job, loop)
    ensures Rank(job.row.steps, loop.pc) <= 11 * |job.row.steps| + 18
  {
    PendingCountBound(job.row.steps);
  }
}
