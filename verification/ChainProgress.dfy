/** How the state of the chain runner may change over time: what is final and what only grows. */
module ChainProgress {
  import opened Wrappers
  import opened ChainRun
  import opened ChainRunInvariant
  import opened ChainSystem
  import opened ChainInvariant
  import opened ChainPreservation

  predicate Settled(status: StepStatus) {
    status.Completed? || status.Failed? || status.Canceled?
  }

  /** How a step row may change: its outcome is final, and it never becomes pending again. */
  predicate StepLater(a: Step, b: Step) {
    && a.workflow == b.workflow && a.scope == b.scope && a.requireHandoff == b.requireHandoff
    && (Settled(a.status) ==> b.status == a.status)
    && (!a.status.Pending? ==> !b.status.Pending?)
  }

  ghost predicate SameStatuses(a: seq<Step>, b: seq<Step>) {
    |a| == |b| && forall k | 0 <= k < |a| :: a[k].status == b[k].status
  }

  /** How the record of a run may change. */
  ghost predicate JobLater(a: Job, b: Job) {
    && (a.begun ==> b.begun) && (a.raced ==> b.raced) && (a.spoiled ==> b.spoiled)
    && a.log <= b.log && |a.row.steps| == |b.row.steps|
    && (forall k | 0 <= k < |a.row.steps| :: StepLater(a.row.steps[k], b.row.steps[k]))
    && (Terminal(a.row.status) && !b.raced ==>
          b.row.status == a.row.status && SameStatuses(a.row.steps, b.row.steps))
  }

  predicate LoopLater(a: Loop, b: Loop) {
    && (a.canceled ==> b.canceled && b.base == a.base && b.struck == a.struck)
    && (a.pc.Unlocking? ==> b.pc.Unlocking?)
  }

  ghost predicate LoopsLater(a: map<nat, Driver>, nextLoop: nat, b: map<nat, Driver>) {
    forall l | l in b && l < nextLoop :: l in a && a[l].run == b[l].run && LoopLater(a[l].loop, b[l].loop)
  }

  ghost predicate StoreLater(a: map<RunId, Job>, b: map<RunId, Job>) {
    forall id | id in a :: id in b && JobLater(a[id], b[id])
  }

  ghost predicate Later(a: System, b: System) {
    && a.nextLoop <= b.nextLoop
    && StoreLater(a.store, b.store) && LoopsLater(a.loops, a.nextLoop, b.loops)
  }

  lemma JobLaterRefl(a: Job)
    ensures JobLater(a, a)
  {
  }

  lemma JobLaterTrans(a: Job, b: Job, c: Job)
    requires JobLater(a, b) && JobLater(b, c)
    ensures JobLater(a, c)
  {
    forall k | 0 <= k < |a.row.steps|
      ensures StepLater(a.row.steps[k], c.row.steps[k])
    {
      assert StepLater(a.row.steps[k], b.row.steps[k]) && StepLater(b.row.steps[k], c.row.steps[k]);
    }
  }

  lemma LaterTrans(a: System, b: System, c: System)
    requires Later(a, b) && Later(b, c)
    ensures Later(a, c)
  {
    hide JobLater;
    forall id | id in a.store
      ensures id in c.store && JobLater(a.store[id], c.store[id])
    {
      JobLaterTrans(a.store[id], b.store[id], c.store[id]);
    }
  }

  // ----- one action -----

  lemma SweepStepLater(job: Job, loop: Loop)
    requires RunInv(job, Some(loop)) && loop.pc.Sweep? && loop.pc.at < |loop.pc.listed|
    ensures var job' := SweepStep(job, loop.pc.verdict, loop.pc.listed, loop.pc.at);
            job'.row.status == job.row.status && (!Terminal(job.row.status) || job.raced ==> JobLater(job, job'))
  {
    SweepStepKeeps(job, loop.pc.verdict, loop.pc.listed, loop.pc.at);
  }

  lemma StatusLater(job: Job, k: nat, status: StepStatus)
    requires k < |job.row.steps| && !Settled(job.row.steps[k].status) && !status.Pending?
    requires !job.raced ==> !Terminal(job.row.status)
    ensures JobLater(job, job.(row := WithStatus(job.row, k, status)))
  {
  }

  lemma LogLater(job: Job, e: Event)
    ensures JobLater(job, job.(log := job.log + [e])) && JobLater(job, job)
  {
  }

  lemma InstanceLater(job: Job, k: nat, instance: string, request: Request)
    ensures JobLater(job, job.(row := WithInstance(job.row, k, instance, request)))
  {
  }

  lemma PositionLater(job: Job, position: int)
    ensures JobLater(job, job.(row := job.row.(position := position)))
  {
  }

  lemma ExecuteLater(job: Job, loop: Loop, answer: Answer)
    requires PcInv(job, loop) && ExecutingStep(loop.pc).Some?
    requires !job.raced ==> !Terminal(job.row.status)
    ensures JobLater(job, LoopNext(job, loop, answer).0)
  {
    hide JobLater, WithInstance, WithStatus, Serves, SameDefinition, BusyAt, RequestFor, MissingHandoff;
    match loop.pc
    case Mark(k, _) => StatusLater(job, k, Running);
    case Position(_, seen) => PositionLater(job, seen.position);
    case Handoff(_, _) => PositionLater(job, job.row.position);
    case Launch(k, request) => LogLater(job, Launched(k, request, Reply(answer)));
    case Record(k, request, instance) => InstanceLater(job, k, instance, request);
    case Poll(k) => LogLater(job, Observed(k));
    case Settle(k, to, _) => StatusLater(job, k, to);
    case _ =>
  }

  lemma LoopNextLater(job: Job, loop: Loop, answer: Answer)
    requires RunInv(job, Some(loop)) && !Locking(loop.pc)
    ensures var (job', loop') := LoopNext(job, loop, answer); JobLater(job, job') && LoopLater(loop, loop')
  {
    hide History, CancelInv, PcInv, Ending, SweepStep, WithStatus, WithInstance, NextPending, LeftOut;
    if ExecutingStep(loop.pc).Some? {
      ExecuteLater(job, loop, answer);
    } else if loop.pc.Sweep? && loop.pc.at < |loop.pc.listed| {
      SweepStepLater(job, loop);
    }
  }

  lemma MoveLoopLater(s: System, l: nat, answer: Answer)
    requires Inv(s) && l in s.loops
    ensures Later(s, MoveLoop(s, l, answer))
  {
    hide RunInv, LoopNext, Inv, JobLater;
    var Driver(id, loop) := s.loops[l];
    Reflexive(s);
    if !Locking(loop.pc) {
      LiveFacts(s, l);
      LoopNextLater(s.store[id], loop, answer);
    }
  }

  lemma Reflexive(s: System)
    ensures Later(s, s)
    ensures forall id | id in s.store :: JobLater(s.store[id], s.store[id])
  {
    hide JobLater;
    forall id | id in s.store
      ensures JobLater(s.store[id], s.store[id])
    {
      JobLaterRefl(s.store[id]);
    }
  }

  lemma WrittenLater(job: Job)
    ensures JobLater(job, StartWritten(job)) && JobLater(job, CancelWritten(job))
  {
  }

  lemma Spawning(s: System, c: nat)
    requires Inv(s) && c in s.callers
    ensures forall l | SpawnTarget(s.callers[c]) == Some(l) :: l in s.loops && s.loops[l].loop.pc.Born?
  {
    hide RunInv, RunsInv, LockInv, CallerInv, ActiveInv, RegistryInv, RecoveryInv;
  }

  lemma MoveCallerLater(s: System, c: nat, answer: Answer)
    requires Inv(s) && c in s.callers
    ensures Later(s, MoveCaller(s, c, answer))
  {
    hide RunInv, Inv, JobLater, StartWritten, CancelWritten, Launches;
    Reflexive(s);
    Spawning(s, c);
    match s.callers[c]
    case StartWrite(id) =>
      if id in s.store {
        WrittenLater(s.store[id]);
      }
    case CancelWrite(id) =>
      if id in s.store {
        WrittenLater(s.store[id]);
      }
    case _ =>
  }

  lemma CrashLater(s: System)
    ensures Later(s, Crashed(s))
  {
  }

  lemma SweepCancelLater(job: Job, listed: seq<Step>, j: nat)
    requires j < |listed| <= |job.row.steps| && listed[j].status == job.row.steps[j].status
    requires job.row.status.RunActive?
    ensures JobLater(job, SweepCancel(job, listed, j))
  {
  }

  lemma SweepMarksLater(job: Job, left: bool)
    ensures JobLater(job, job.(unlisted := left))
    ensures job.row.status.RunActive? ==> JobLater(job, SweepClosed(job))
  {
  }

  lemma MoveRecoveryLater(s: System, answer: Answer)
    requires Inv(s) && s.recovery.Some?
    ensures Later(s, MoveRecovery(s, s.recovery.value, answer))
  {
    hide RunInv, Inv, JobLater, SweepCancel, LeftOut, RowsRead, Over, SweepClosed;
    Reflexive(s);
    assert SweepInv(s.recovery.value, s.store) by { Sweeping(s); }
    match s.recovery.value
    case Query =>
    case Listing(todo) =>
      if todo != [] {
        var job := s.store[todo[0]];
        SweepMarksLater(job, LeftOut(job.row.steps, RowsRead(answer, |job.row.steps|)));
      }
    case Walking(todo, listed, j) =>
      if j < |listed| {
        SweepCancelLater(s.store[todo[0]], listed, j);
      }
    case Closing(todo) => SweepMarksLater(s.store[todo[0]], false);
  }

  lemma HandLater(job: Job, k: nat, step: Step)
    requires Hands(job, k, step)
    ensures JobLater(job, WithStep(job, k, step))
  {
  }

  /** Outcomes of steps, terminal statuses without races, and history are never taken back. */
  lemma ExecLater(s: System, a: Action)
    requires Inv(s)
    ensures Later(s, Exec(s, a))
  {
    hide Inv, MoveCaller, MoveLoop, MoveRecovery, Crashed, ActiveRuns, FreshSteps, JobLater, WithStep;
    Reflexive(s);
    match a
    case Crash => CrashLater(s);
    case SweepMove(answer) =>
      if s.recovery.Some? {
        MoveRecoveryLater(s, answer);
      }
    case CallerMove(c, answer) =>
      if c in s.callers {
        MoveCallerLater(s, c, answer);
      }
    case LoopMove(l, answer) =>
      if l in s.loops {
        MoveLoopLater(s, l, answer);
      }
    case HandTicket(id, k, ticket) =>
      if PendingStep(s, id, k) {
        HandLater(s.store[id], k, s.store[id].row.steps[k].(ticket := Some(ticket)));
      }
    case HandInstructions(id, k, text) =>
      if PendingStep(s, id, k) {
        HandLater(s.store[id], k, s.store[id].row.steps[k].(instructions := text));
      }
    case _ =>
  }

  lemma {:induction false} PlayLater(s: System, actions: seq<Action>)
    requires Inv(s)
    ensures Later(s, Play(s, actions))
  {
    hide Inv, Exec, Later;
    if actions == [] {
      Reflexive(s);
    } else {
      var before := actions[..|actions| - 1];
      PlayLater(s, before);
      PlayKeeps(s, before);
      ExecLater(Play(s, before), actions[|actions| - 1]);
      LaterTrans(s, Play(s, before), Play(s, actions));
    }
  }

  lemma {:induction false} PlayConcat(s: System, a: seq<Action>, b: seq<Action>)
    ensures Play(s, a + b) == Play(Play(s, a), b)
  {
    hide Exec;
    if b == [] {
      assert a + b == a;
    } else {
      var b0 := b[..|b| - 1];
      PlayConcat(s, a, b0);
      assert (a + b)[..|a + b| - 1] == a + b0;
    }
  }

  lemma ReachableLater(a: seq<Action>, b: seq<Action>)
    ensures Later(Play(Boot(), a), Play(Boot(), a + b))
  {
    hide Inv, Later;
    ReachableInv(a);
    PlayLater(Play(Boot(), a), b);
    PlayConcat(Boot(), a, b);
  }

  lemma LaunchBound(s: System, l: nat)
    requires Inv(s) && l in s.loops && !s.loops[l].loop.pc.Unlocking? && s.loops[l].loop.canceled
    ensures var Driver(id, loop) := s.loops[l];
            id in s.store && loop.base <= Launches(s.store[id].log) <= loop.base + 1
  {
    hide Inv, PcInv, History, Ending;
    LiveFacts(s, l);
  }

  lemma RunLater(a: System, b: System, id: RunId)
    requires Later(a, b) && id in a.store
    ensures id in b.store && a.store[id].log <= b.store[id].log
  {
    hide StepLater;
  }

  lemma LoopBound(s: System, l: nat)
    requires Inv(s) && l in s.loops
    ensures l < s.nextLoop && s.loops[l].run in s.store
  {
    hide RunInv, RunsInv, LockInv, CallerInv, ActiveInv, SpawnInv, RecoveryInv;
  }

  // ----- a goroutine stays where it is while others act -----

  /** Actions of others than goroutine l, without a crash. */
  ghost predicate NotOf(actions: seq<Action>, l: nat) {
    forall a | a in actions :: !a.Crash? && !(a.LoopMove? && a.loop == l)
  }

  ghost predicate InPlace(s: System, l: nat, id: RunId, pc: Pc) {
    l in s.loops && s.loops[l].run == id && s.loops[l].loop.pc == pc && id in s.store
  }

  lemma CallKeepsPlace(s: System, c: nat, answer: Answer, l: nat, id: RunId, pc: Pc)
    requires Inv(s) && InPlace(s, l, id, pc) && !pc.Born? && c in s.callers
    ensures InPlace(MoveCaller(s, c, answer), l, id, pc)
  {
    hide Inv, StartWritten, CancelWritten, Launches;
    Spawning(s, c);
    LoopBound(s, l);
  }

  lemma LoopKeepsPlace(s: System, m: nat, answer: Answer, l: nat, id: RunId, pc: Pc)
    requires InPlace(s, l, id, pc) && m in s.loops && m != l
    ensures InPlace(MoveLoop(s, m, answer), l, id, pc)
  {
    hide LoopNext;
  }

  lemma ActionKeepsPlace(s: System, a: Action, l: nat, id: RunId, pc: Pc)
    requires Inv(s) && InPlace(s, l, id, pc) && !pc.Born? && NotOf([a], l)
    ensures InPlace(Exec(s, a), l, id, pc)
  {
    hide Inv, MoveCaller, MoveLoop, MoveRecovery, ActiveRuns, FreshSteps, WithStep;
    Idle(s);
    assert a in [a];
    match a
    case CallerMove(c, answer) =>
      if c in s.callers {
        CallKeepsPlace(s, c, answer, l, id, pc);
      }
    case LoopMove(m, answer) =>
      if m in s.loops {
        LoopKeepsPlace(s, m, answer, l, id, pc);
      }
    case _ =>
  }

  lemma {:induction false} OthersKeepPlace(before: seq<Action>, more: seq<Action>, l: nat, id: RunId, pc: Pc)
    requires InPlace(Play(Boot(), before), l, id, pc) && !pc.Born? && NotOf(more, l)
    ensures InPlace(Play(Boot(), before + more), l, id, pc)
  {
    hide Inv, Exec, InPlace;
    if more == [] {
      assert before + more == before;
    } else {
      var last := |more| - 1;
      OthersKeepPlace(before, more[..last], l, id, pc);
      var s := Play(Boot(), before + more[..last]);
      ReachableInv(before + more[..last]);
      assert NotOf([more[last]], l);
      ActionKeepsPlace(s, more[last], l, id, pc);
      assert (before + more)[..|before + more| - 1] == before + more[..last];
    }
  }

  // ----- main results -----

  /** A terminal status stays, with every step status, as long as no Start or Cancel raced on the run. */
  lemma TerminalIsFinal(a: seq<Action>, b: seq<Action>, id: RunId)
    requires id in Play(Boot(), a).store
    ensures id in Play(Boot(), a + b).store
    ensures var was, now := Play(Boot(), a).store[id], Play(Boot(), a + b).store[id];
            Terminal(was.row.status) && !now.raced ==>
              now.row.status == was.row.status && SameStatuses(was.row.steps, now.row.steps)
  {
    ReachableLater(a, b);
  }

  /** The outcome of a step is never rewritten, not even by a sweep or a second goroutine. */
  lemma OutcomesAreFinal(a: seq<Action>, b: seq<Action>, id: RunId, k: nat)
    requires id in Play(Boot(), a).store && k < |Play(Boot(), a).store[id].row.steps|
    ensures id in Play(Boot(), a + b).store && k < |Play(Boot(), a + b).store[id].row.steps|
    ensures StepLater(Play(Boot(), a).store[id].row.steps[k], Play(Boot(), a + b).store[id].row.steps[k])
  {
    ReachableLater(a, b);
  }

  /** Between two states of one canceled goroutine at most one step is launched. */
  lemma OneMoreLaunch(a: seq<Action>, b: seq<Action>, l: nat)
    requires l in Play(Boot(), a).loops && l in Play(Boot(), a + b).loops
    requires Play(Boot(), a).loops[l].loop.canceled && !Play(Boot(), a + b).loops[l].loop.pc.Unlocking?
    ensures var s, t := Play(Boot(), a), Play(Boot(), a + b);
            var id := s.loops[l].run;
            && id in s.store && id in t.store && s.store[id].log <= t.store[id].log && t.loops[l].run == id
            && Launches(t.store[id].log) <= Launches(s.store[id].log) + 1
  {
    hide Inv, LoopInv, JobLater, Play;
    var s, t := Play(Boot(), a), Play(Boot(), a + b);
    ReachableInv(a);
    ReachableInv(a + b);
    ReachableLater(a, b);
    LoopBound(s, l);
    RunLater(s, t, s.loops[l].run);
    LaunchBound(s, l);
    LaunchBound(t, l);
  }
}
