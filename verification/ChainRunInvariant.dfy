/** What every reachable state keeps about a single run and the goroutine driving it. */
module ChainRunInvariant {
  import opened Wrappers
  import opened ChainRun

  // ----- history -----

  /** A step is launched only after every earlier step was observed finished and successful. */
  ghost predicate InOrder(log: seq<Event>) {
    log == [] ||
    var before, last := log[..|log| - 1], log[|log| - 1];
    InOrder(before) && (last.Launched? ==> forall j | 0 <= j < last.step :: Observed(j) in before)
  }

  /** The request is for this step, and carries a ticket if the step needs a handoff. */
  ghost predicate Serves(request: Request, step: Step) {
    && request.workflow == step.workflow && request.scope == step.scope
    && !(step.scope == "ticket" && step.requireHandoff && request.ticket == "")
  }

  ghost predicate History(job: Job) {
    && var steps, log := job.row.steps, job.log;
    && (forall k | 0 <= k < |steps| :: steps[k].status.Completed? ==> Observed(k) in log)
    && (forall e | e in log && e.Launched? :: e.step < |steps| && Serves(e.request, steps[e.step]))
    && (forall k | 0 <= k < |steps| :: steps[k].instance.Some? ==> Recorded(log, k, steps[k]))
    && (forall e | e in log :: !e.Stopped?)
    && (!job.spoiled ==> InOrder(log))
  }

  /** The row of a step that has an instance repeats the request the orchestrator was sent. */
  ghost predicate Recorded(log: seq<Event>, k: nat, step: Step) {
    && !step.status.Pending? && step.ticket.Some?
    && Launched(k, Request(step.workflow, step.instructions, step.scope, step.ticket.value), step.instance) in log
  }

  // ----- endings -----

  /** No step is left pending or running. */
  predicate Over(steps: seq<Step>) {
    Quiet(steps) && NonePending(steps)
  }

  /** What the status of a run says about its steps. */
  ghost predicate Ending(job: Job) {
    var steps := job.row.steps;
    match job.row.status
    case RunPending => !job.begun
    case RunActive => job.begun && job.working
    case RunCompleted =>
      job.begun && !job.working && Over(steps) && !job.unlisted && (AllCompleted(steps) <==> job.clean)
    case RunFailed => job.begun && !job.working && (Over(steps) <==> !job.unlisted)
    case RunCanceled => job.begun && !job.working ==> (Over(steps) <==> !job.unlisted)
  }

  // ----- the goroutine -----

  predicate CanLaunch(pc: Pc) {
    pc.Next? || pc.Mark? || pc.Position? || pc.Handoff? || pc.Launch?
  }

  predicate AfterClose(pc: Pc) {
    pc.Leave? || pc.Deleting? || pc.Unlocking?
  }

  /** After its context is canceled a goroutine launches at most one more step, the one it was in. */
  ghost predicate CancelInv(log: seq<Event>, loop: Loop) {
    && (loop.canceled ==> loop.base <= Launches(log) <= loop.base + 1)
    && (loop.canceled && CanLaunch(loop.pc) ==> Launches(log) == loop.base)
    && (loop.struck.Some? ==>
          && loop.canceled
          && !loop.pc.Born? && !loop.pc.Open? && !loop.pc.Next? && loop.pc != Close(RunCompleted)
          && (ExecutingStep(loop.pc).Some? ==> ExecutingStep(loop.pc) == loop.struck))
  }

  ghost predicate SameDefinition(a: Step, b: Step) {
    a.workflow == b.workflow && a.scope == b.scope && a.requireHandoff == b.requireHandoff && a.position == b.position
  }

  ghost predicate Executing(job: Job, k: nat) {
    RunsOnly(job.row.steps, k) && (!job.spoiled ==> BusyAt(job.row.steps, k)) && (job.clean <==> Clean(job.row.steps))
  }

  /** The run's current position is that of the step in execution. */
  ghost predicate Placed(job: Job, k: nat) {
    k < |job.row.steps| && Executing(job, k) && job.row.position == job.row.steps[k].position
  }

  ghost predicate PcInv(job: Job, loop: Loop) {
    var steps := job.row.steps;
    match loop.pc
    case Mark(k, seen) =>
      && k < |steps| && steps[k].status.Pending? && Quiet(steps) && SameDefinition(seen, steps[k])
      && (job.clean <==> Clean(steps))
      && (!job.spoiled ==> Ready(steps) && forall i | 0 <= i < |steps| :: steps[i].status.Completed? <==> i < k)
    case Position(k, seen) => Executing(job, k) && SameDefinition(seen, steps[k])
    case Handoff(k, seen) => Placed(job, k) && SameDefinition(seen, steps[k])
    case Launch(k, request) => Placed(job, k) && Serves(request, steps[k])
    case Record(k, request, instance) =>
      Placed(job, k) && Serves(request, steps[k]) && Launched(k, request, Some(instance)) in job.log
    case Poll(k) => Placed(job, k)
    case Settle(k, to, err) =>
      && Placed(job, k) && !to.Pending? && !to.Running?
      && (to.Completed? ==> Observed(k) in job.log)
      && (to.Canceled? ==> loop.canceled && err)
    case Errored => Quiet(steps)
    case FailOpen => Quiet(steps)
    case ListSteps(v) => Quiet(steps) && v in {RunFailed, RunCanceled}
    case Sweep(v, listed, j) =>
      && Quiet(steps) && v in {RunFailed, RunCanceled} && j <= |listed| <= |steps|
      && (forall i | j <= i < |listed| :: listed[i].status == steps[i].status)
      && (forall i | 0 <= i < j :: !steps[i].status.Pending?)
      && (job.unlisted <==> LeftOut(steps, |listed|))
    case Close(v) =>
      && Quiet(steps) && v != RunPending && v != RunActive && (NonePending(steps) <==> !job.unlisted)
      && (v == RunCompleted ==> NonePending(steps) && (AllCompleted(steps) <==> job.clean))
    case Leave => Quiet(steps)
    case Deleting => Quiet(steps)
    case Unlocking => Quiet(steps)
    case _ => Quiet(steps) && (!job.spoiled ==> Restartable(steps)) && (job.clean <==> Clean(steps))
  }

  /** Whether the steps have been listed for the wind-down. */
  predicate HasListed(pc: Pc) {
    pc.Sweep? || pc.Close? || AfterClose(pc)
  }

  ghost predicate LoopInv(job: Job, loop: Loop) {
    && job.begun && PcInv(job, loop) && CancelInv(job.log, loop)
    && (AfterClose(loop.pc) ==> (!job.working || job.orphaned) && Resting(job))
    && (!AfterClose(loop.pc) ==> job.working && !job.orphaned)
    && (!HasListed(loop.pc) ==> !job.unlisted)
    && (AfterClose(loop.pc) && loop.struck.Some? ==> !job.row.status.RunCompleted?)
  }

  /** A run no goroutine is at work on, as Start may find it. */
  ghost predicate Resting(job: Job) {
    Quiet(job.row.steps)
  }

  /** What Start establishes before it spawns the goroutine. */
  ghost predicate Startable(job: Job) {
    && job.begun && job.working && !job.orphaned && !job.unlisted
    && (!job.spoiled ==> Restartable(job.row.steps)) && (job.clean <==> Clean(job.row.steps))
  }

  /** The invariant of a run; `live` is its registered goroutine, if it has one. */
  ghost predicate RunInv(job: Job, live: Option<Loop>) {
    && History(job) && Ending(job)
    && (job.spoiled ==> job.raced)
    && (!job.raced ==> job.clean)
    && (!job.raced && job.working ==> job.row.status.RunActive?)
    && (!job.spoiled ==> Shaped(job.row.steps))
    && (job.row.status.RunPending? ==> live.None?)
    && (job.working ==> job.begun && job.row.status in {RunActive, RunCanceled})
    && (job.orphaned ==> job.working)
    && (!job.begun ==>
          && AllPending(job.row.steps) && job.row.status in {RunPending, RunCanceled} && job.log == []
          && job.clean && !job.unlisted && !job.spoiled)
    && (live.Some? ==> LoopInv(job, live.value))
  }

  // ----- preservation -----

  lemma InOrderAppend(log: seq<Event>, e: Event)
    requires InOrder(log)
    requires e.Launched? ==> forall j | 0 <= j < e.step :: Observed(j) in log
    ensures InOrder(log + [e])
  {
    assert (log + [e])[..|log|] == log;
  }

  lemma LaunchesAppend(log: seq<Event>, e: Event)
    ensures Launches(log + [e]) == Launches(log) + if e.Launched? then 1 else 0
  {
    assert (log + [e])[..|log|] == log;
  }

  lemma WalkKeeps(job: Job, loop: Loop, answer: Answer)
    requires RunInv(job, Some(loop))
    requires loop.pc.Open? || loop.pc.Top? || loop.pc.Errored? || loop.pc.FailOpen?
    ensures var (job', loop') := LoopNext(job, loop, answer); RunInv(job', Some(loop'))
  {
  }

  lemma NextKeeps(job: Job, loop: Loop, answer: Answer)
    requires RunInv(job, Some(loop)) && loop.pc.Next?
    ensures var (job', loop') := LoopNext(job, loop, answer); RunInv(job', Some(loop'))
  {
  }

  lemma StatusKeepsHistory(job: Job, k: nat, status: StepStatus)
    requires History(job) && !status.Pending? && (status.Completed? ==> Observed(k) in job.log)
    ensures History(job.(row := WithStatus(job.row, k, status)))
  {
  }

  lemma StatusKeepsClean(row: Run, k: nat, status: StepStatus)
    requires k < |row.steps| && !row.steps[k].status.Failed? && !row.steps[k].status.Canceled?
    ensures !status.Failed? && !status.Canceled? ==> (Clean(WithStatus(row, k, status).steps) <==> Clean(row.steps))
  {
    var steps, steps' := row.steps, WithStatus(row, k, status).steps;
    if !status.Failed? && !status.Canceled? && Clean(steps') {
      assert forall i | 0 <= i < |steps| && i != k :: steps[i] == steps'[i];
    }
  }

  lemma LogKeepsHistory(job: Job, e: Event)
    requires History(job) && !e.Stopped?
    requires e.Launched? ==> e.step < |job.row.steps| && Serves(e.request, job.row.steps[e.step])
    requires e.Launched? && !job.spoiled ==> forall j | 0 <= j < e.step :: Observed(j) in job.log
    ensures History(job.(log := job.log + [e]))
    ensures Launches(job.log + [e]) == Launches(job.log) + if e.Launched? then 1 else 0
  {
    LaunchesAppend(job.log, e);
    if !job.spoiled {
      InOrderAppend(job.log, e);
    }
  }

  lemma MarkKeeps(job: Job, loop: Loop, answer: Answer)
    requires RunInv(job, Some(loop)) && loop.pc.Mark?
    ensures var (job', loop') := LoopNext(job, loop, answer); RunInv(job', Some(loop'))
  {
    StatusKeepsHistory(job, loop.pc.step, Running);
    StatusKeepsClean(job.row, loop.pc.step, Running);
  }

  lemma SettleKeeps(job: Job, loop: Loop, answer: Answer)
    requires RunInv(job, Some(loop)) && loop.pc.Settle?
    ensures var (job', loop') := LoopNext(job, loop, answer); RunInv(job', Some(loop'))
  {
    StatusKeepsHistory(job, loop.pc.step, loop.pc.to);
    StatusKeepsClean(job.row, loop.pc.step, loop.pc.to);
  }

  /** What an entry in the log does not touch. */
  lemma LogKeeps(job: Job, k: nat, e: Event)
    requires Placed(job, k)
    ensures var job' := job.(log := job.log + [e]);
            Placed(job', k) && job'.row == job.row && e in job'.log
  {
  }

  lemma LaunchKeeps(job: Job, loop: Loop, answer: Answer)
    requires RunInv(job, Some(loop)) && loop.pc.Launch?
    ensures var (job', loop') := LoopNext(job, loop, answer); RunInv(job', Some(loop'))
  {
    var e := Launched(loop.pc.step, loop.pc.request, Reply(answer));
    if !job.spoiled {
      BeforeIsObserved(job, loop.pc.step);
    }
    LogKeepsHistory(job, e);
    LogKeeps(job, loop.pc.step, e);
    hide History, Shaped, Quiet, NonePending, Placed, Launches;
  }

  lemma BeforeIsObserved(job: Job, k: nat)
    requires Placed(job, k) && History(job) && !job.spoiled
    ensures forall j | 0 <= j < k :: Observed(j) in job.log
  {
  }

  lemma PollKeeps(job: Job, loop: Loop, answer: Answer)
    requires RunInv(job, Some(loop)) && loop.pc.Poll?
    ensures var (job', loop') := LoopNext(job, loop, answer); RunInv(job', Some(loop'))
  {
    var e := Observed(loop.pc.step);
    LogKeepsHistory(job, e);
    LogKeeps(job, loop.pc.step, e);
    hide History, Shaped, Quiet, NonePending, Placed, Launches;
  }

  lemma PrepareKeeps(job: Job, loop: Loop, answer: Answer)
    requires RunInv(job, Some(loop)) && (loop.pc.Position? || loop.pc.Handoff?)
    ensures var (job', loop') := LoopNext(job, loop, answer); RunInv(job', Some(loop'))
  {
  }

  lemma RecordKeeps(job: Job, loop: Loop, answer: Answer)
    requires RunInv(job, Some(loop)) && loop.pc.Record?
    ensures var (job', loop') := LoopNext(job, loop, answer); RunInv(job', Some(loop'))
  {
    InstanceKeeps(job, loop.pc.step, loop.pc.instance, loop.pc.request);
    hide History, Placed, Shaped, WithInstance, Quiet, NonePending, CancelInv;
    CancelKeeps(job.log, loop, Poll(loop.pc.step));
  }

  lemma InstanceKeeps(job: Job, k: nat, instance: string, request: Request)
    requires History(job) && Placed(job, k) && Serves(request, job.row.steps[k])
    requires Launched(k, request, Some(instance)) in job.log
    ensures var job' := job.(row := WithInstance(job.row, k, instance, request));
            && History(job') && Placed(job', k) && (Shaped(job.row.steps) ==> Shaped(job'.row.steps))
            && job'.row.status == job.row.status
  {
    var steps, steps' := job.row.steps, WithInstance(job.row, k, instance, request).steps;
    assert forall i | 0 <= i < |steps| :: steps'[i].status == steps[i].status;
    SameStatusesSameClean(steps, steps');
  }

  lemma SameStatusesSameClean(a: seq<Step>, b: seq<Step>)
    requires |a| == |b| && forall i | 0 <= i < |a| :: b[i].status == a[i].status
    ensures Clean(a) <==> Clean(b)
  {
  }

  /** Within executeStep the promises made to a canceled context carry over. */
  lemma CancelKeeps(log: seq<Event>, loop: Loop, pc: Pc)
    requires CancelInv(log, loop) && !CanLaunch(pc)
    requires ExecutingStep(pc).Some? && ExecutingStep(pc) == ExecutingStep(loop.pc)
    ensures CancelInv(log, loop.(pc := pc))
  {
  }

  /** Since no listed step is running, the sweep only cancels pending steps and stops no instance. */
  lemma SweepStepKeeps(job: Job, verdict: RunStatus, listed: seq<Step>, j: nat)
    requires History(job) && Quiet(job.row.steps) && |listed| <= |job.row.steps| && j < |listed|
    requires listed[j].status == job.row.steps[j].status
    ensures var job' := SweepStep(job, verdict, listed, j);
            && job' == job.(row := job'.row) && History(job')
            && job'.row == job.row.(steps := job'.row.steps)
            && Quiet(job'.row.steps) && |job'.row.steps| == |job.row.steps|
            && !job'.row.steps[j].status.Pending?
            && (Shaped(job.row.steps) ==> Shaped(job'.row.steps))
            && forall i | 0 <= i < |job.row.steps| && i != j :: job'.row.steps[i] == job.row.steps[i]
  {
    StatusKeepsHistory(job, j, Canceled);
  }

  /** One round of the loop over the listed steps. */
  lemma SweepRoundKeeps(job: Job, loop: Loop)
    requires PcInv(job, loop) && loop.pc.Sweep? && loop.pc.at < |loop.pc.listed| && History(job)
    ensures var Sweep(verdict, listed, j) := loop.pc;
            PcInv(SweepStep(job, verdict, listed, j), loop.(pc := Sweep(verdict, listed, j + 1)))
  {
    var Sweep(verdict, listed, j) := loop.pc;
    SweepStepKeeps(job, verdict, listed, j);
    hide History, SweepStep, Quiet;
    assert LeftOut(SweepStep(job, verdict, listed, j).row.steps, |listed|) <==> LeftOut(job.row.steps, |listed|);
  }

  lemma SweepKeeps(job: Job, loop: Loop, answer: Answer)
    requires RunInv(job, Some(loop)) && loop.pc.Sweep?
    ensures var (job', loop') := LoopNext(job, loop, answer); RunInv(job', Some(loop'))
  {
    hide *;
    SweepMoves(job, loop, answer);
    if loop.pc.at < |loop.pc.listed| {
      SweepRoundKeepsRun(job, loop);
    } else {
      SweepExitKeeps(job, loop);
    }
  }

  lemma SweepMoves(job: Job, loop: Loop, answer: Answer)
    requires loop.pc.Sweep?
    ensures LoopNext(job, loop, answer) ==
            var Sweep(verdict, listed, j) := loop.pc;
            if j < |listed| then (SweepStep(job, verdict, listed, j), loop.(pc := Sweep(verdict, listed, j + 1)))
            else (job, loop.(pc := Close(verdict)))
  {
    hide SweepStep;
  }

  lemma SweepRoundKeepsRun(job: Job, loop: Loop)
    requires RunInv(job, Some(loop)) && loop.pc.Sweep? && loop.pc.at < |loop.pc.listed|
    ensures var Sweep(verdict, listed, j) := loop.pc;
            RunInv(SweepStep(job, verdict, listed, j), Some(loop.(pc := Sweep(verdict, listed, j + 1))))
  {
    SweepRoundKeeps(job, loop);
    SweepStepKeeps(job, loop.pc.verdict, loop.pc.listed, loop.pc.at);
    hide History, SweepStep, PcInv, Shaped, Over, Clean, LoopNext;
  }

  lemma SweepExitKeeps(job: Job, loop: Loop)
    requires RunInv(job, Some(loop)) && loop.pc.Sweep? && loop.pc.at >= |loop.pc.listed|
    ensures RunInv(job, Some(loop.(pc := Close(loop.pc.verdict))))
  {
    assert !job.unlisted ==> NonePending(job.row.steps);
    hide History, Shaped, Over, Clean;
  }

  lemma CloseKeeps(job: Job, loop: Loop, answer: Answer)
    requires RunInv(job, Some(loop)) && (loop.pc.ListSteps? || loop.pc.Close?)
    ensures var (job', loop') := LoopNext(job, loop, answer); RunInv(job', Some(loop'))
  {
  }

  /** Every action of the goroutine keeps the invariant of its run. */
  lemma LoopKeeps(job: Job, loop: Loop, answer: Answer)
    requires RunInv(job, Some(loop))
    ensures var (job', loop') := LoopNext(job, loop, answer); RunInv(job', Some(loop'))
  {
    match loop.pc
    case Mark(_, _) => MarkKeeps(job, loop, answer);
    case Position(_, _) => PrepareKeeps(job, loop, answer);
    case Handoff(_, _) => PrepareKeeps(job, loop, answer);
    case Launch(_, _) => LaunchKeeps(job, loop, answer);
    case Record(_, _, _) => RecordKeeps(job, loop, answer);
    case Poll(_) => PollKeeps(job, loop, answer);
    case Settle(_, _, _) => SettleKeeps(job, loop, answer);
    case ListSteps(_) => CloseKeeps(job, loop, answer);
    case Sweep(_, _, _) => SweepKeeps(job, loop, answer);
    case Close(_) => CloseKeeps(job, loop, answer);
    case Next => NextKeeps(job, loop, answer);
    case Born =>
    case Leave =>
    case Deleting =>
    case Unlocking =>
    case _ => WalkKeeps(job, loop, answer);
  }

  lemma FireKeeps(job: Job, loop: Loop)
    requires RunInv(job, Some(loop))
    ensures RunInv(job, Some(Fire(job, loop)))
  {
  }

  /** The goroutine's last moves, around the deletion of its registry entry. */
  lemma ExitKeeps(job: Job, loop: Loop, pc: Pc)
    requires RunInv(job, Some(loop)) && AfterClose(loop.pc) && AfterClose(pc)
    ensures RunInv(job, Some(loop.(pc := pc))) && RunInv(job, None)
    ensures Resting(job) && (!job.working || job.orphaned)
  {
  }

  lemma SpawnKeeps(job: Job, loop: Loop)
    requires RunInv(job, Some(loop)) && loop.pc.Born?
    ensures RunInv(job, Some(loop.(pc := Open)))
  {
  }

  lemma BornKeeps(job: Job)
    requires RunInv(job, None) && Quiet(job.row.steps) && Startable(job)
    ensures RunInv(job, Some(Loop(false, 0, None, Born)))
  {
  }

  // ----- what a goroutine leaves alone -----

  lemma Phases(pc: Pc)
    ensures || pc.Sweep? || pc.Mark? || pc.Position? || pc.Handoff? || pc.Record? || pc.Settle? || pc.Launch?
            || pc.Poll?
            || pc.Open? || pc.Top? || pc.Next? || pc.Errored? || pc.FailOpen?
            || pc.ListSteps? || pc.Close? || pc.Born? || AfterClose(pc)
  {
  }

  /** The marks that only Start and Cancel set. */
  ghost predicate SameMarks(was: Job, now: Job) {
    now.begun == was.begun && now.raced == was.raced && now.spoiled == was.spoiled && now.clean == was.clean
  }

  /** A goroutine sets none of them. */
  lemma LoopKeepsMarks(job: Job, loop: Loop, answer: Answer)
    ensures SameMarks(job, LoopNext(job, loop, answer).0)
  {
    hide *;
    Phases(loop.pc);
    if loop.pc.Sweep? {
      SweepKeepsMarks(job, loop, answer);
    } else if loop.pc.Mark? || loop.pc.Position? || loop.pc.Handoff? {
      BeginKeepsMarks(job, loop, answer);
    } else if loop.pc.Record? || loop.pc.Settle? || loop.pc.Launch? || loop.pc.Poll? {
      WatchKeepsMarks(job, loop, answer);
    } else if loop.pc.Open? || loop.pc.Top? || loop.pc.Next? || loop.pc.Errored? || loop.pc.FailOpen? {
      OpenKeepsMarks(job, loop, answer);
    } else {
      EndKeepsMarks(job, loop, answer);
    }
  }

  lemma SweepKeepsMarks(job: Job, loop: Loop, answer: Answer)
    requires loop.pc.Sweep?
    ensures SameMarks(job, LoopNext(job, loop, answer).0)
  {
    SweepMoves(job, loop, answer);
    hide LoopNext, WithStatus;
  }

  lemma BeginKeepsMarks(job: Job, loop: Loop, answer: Answer)
    requires loop.pc.Mark? || loop.pc.Position? || loop.pc.Handoff?
    ensures SameMarks(job, LoopNext(job, loop, answer).0)
  {
    hide WithStatus, RequestFor, MissingHandoff;
  }

  lemma WatchKeepsMarks(job: Job, loop: Loop, answer: Answer)
    requires loop.pc.Record? || loop.pc.Settle? || loop.pc.Launch? || loop.pc.Poll?
    ensures SameMarks(job, LoopNext(job, loop, answer).0)
  {
    hide WithStatus, WithInstance;
  }

  lemma OpenKeepsMarks(job: Job, loop: Loop, answer: Answer)
    requires loop.pc.Open? || loop.pc.Top? || loop.pc.Next? || loop.pc.Errored? || loop.pc.FailOpen?
    ensures SameMarks(job, LoopNext(job, loop, answer).0)
  {
    hide NextPending;
  }

  lemma EndKeepsMarks(job: Job, loop: Loop, answer: Answer)
    requires loop.pc.ListSteps? || loop.pc.Close? || loop.pc.Born? || AfterClose(loop.pc)
    ensures SameMarks(job, LoopNext(job, loop, answer).0)
  {
    hide LeftOut, RowsRead;
  }
}
