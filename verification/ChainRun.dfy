/**
  One workflow chain run: its rows in the store, and the goroutine that drives it.

  `LoopNext` is one atomic action of that goroutine (one store access, one orchestrator
  call, or one branch), with what the outside world replied as an argument.
 */
module ChainRun {
  import opened Wrappers

  datatype RunStatus = RunPending | RunActive | RunCompleted | RunFailed | RunCanceled

  predicate Terminal(status: RunStatus) {
    status in {RunCompleted, RunFailed, RunCanceled}
  }

  datatype StepStatus = Pending | Running | Completed | Failed | Canceled

  /** A row of workflow_chain_run_steps. */
  datatype Step = Step(
    position: int, status: StepStatus, workflow: string, scope: string, requireHandoff: bool,
    instance: Option<string>, ticket: Option<string>, instructions: string)

  /** A row of workflow_chain_runs with its step rows in position order. */
  datatype Run = Run(status: RunStatus, initial: string, position: int, steps: seq<Step>)

  datatype Request = Request(workflow: string, instructions: string, scope: string, ticket: string)

  /** What was asked of the orchestrator, and what polling it showed. */
  datatype Event =
    | Launched(step: nat, request: Request, reply: Option<string>)  // orch.Start was called
    | Observed(step: nat)  // the instance was seen finished and successful
    | Stopped(step: nat)   // orch.StopByInstance was called

  /**
    A run together with its history. Marks of what has ever happened to it:
    begun: Start wrote "running"; raced: Start or Cancel wrote although the status was no longer
    "pending"; spoiled: Start wrote although a step had failed or was canceled and another was
    still pending.
    Marks that every Start sets anew:
    clean: no step had failed or was canceled when Start wrote; working: neither the goroutine nor
    a sweep has written a final status since; unlisted: the listing of the steps for the wind-down
    left out one that was pending or running; orphaned: the goroutine went away while working
    (crash, or failRun could not open the store).
   */
  datatype Job = Job(row: Run, log: seq<Event>, begun: bool, raced: bool, spoiled: bool,
                     clean: bool, working: bool, unlisted: bool, orphaned: bool)

  /** Where the goroutine of a run is. `seen` is the row GetNextPendingStep returned. */
  datatype Pc =
    | Born                                        // registered; `go runLoop` not yet executed
    | Open                                        // runLoop is about to open the store
    | Top                                         // at the select on ctx.Done
    | Next                                        // about to call GetNextPendingStep
    | Mark(step: nat, seen: Step)                 // executeStep: about to write "running"
    | Position(step: nat, seen: Step)             // about to call SetCurrentPosition
    | Handoff(step: nat, seen: Step)              // about to check the ticket handoff
    | Launch(step: nat, request: Request)         // about to call orch.Start
    | Record(step: nat, request: Request, instance: string)  // about to call SetRunStepInstance
    | Poll(step: nat)                             // in pollInstance
    | Settle(step: nat, to: StepStatus, err: bool)  // about to write the step's outcome
    | Errored                                     // executeStep returned an error
    | FailOpen                                    // failRun: about to open the store
    | ListSteps(verdict: RunStatus)               // cancelRun or failRun: about to list the steps
    | Sweep(verdict: RunStatus, listed: seq<Step>, at: nat)  // walking that listing
    | Close(verdict: RunStatus)                   // about to write the run's status
    | Leave                                       // deferred function: about to lock
    | Deleting                                    // holds the lock, about to delete the entry
    | Unlocking                                   // entry deleted, about to unlock

  /**
    The goroutine's context and place. When the cancel function fires, `base` keeps how many
    launches the run had had, and `struck` the step whose executeStep was in progress, if any.
   */
  datatype Loop = Loop(canceled: bool, base: nat, struck: Option<nat>, pc: Pc)

  /**
    What the outside replies to an action: it works, it fails, (polling) ctx.Done is taken, or
    (listing) it fails after that many rows, which are returned all the same.
   */
  datatype Answer = Yes(instance: string) | No | Stop | Part(rows: nat)

  /** The instance that orch.Start returned, if it worked. */
  function Reply(answer: Answer): Option<string> {
    if answer.Yes? then Some(answer.instance) else None
  }

  // ----- the rows -----

  function WithStatus(row: Run, k: nat, status: StepStatus): Run {
    if k < |row.steps| then row.(steps := row.steps[k := row.steps[k].(status := status)]) else row
  }

  function WithInstance(row: Run, k: nat, instance: string, request: Request): Run {
    if k < |row.steps| then
      row.(steps := row.steps[k := row.steps[k].(instance := Some(instance),
                                                 ticket := Some(request.ticket),
                                                 instructions := request.instructions)])
    else row
  }

  /** How many of the rows ListRunSteps returns. */
  function RowsRead(answer: Answer, total: nat): (n: nat)
    ensures n <= total
  {
    match answer
    case Yes(_) => total
    case Part(rows) => if rows < total then rows else total
    case _ => 0
  }

  /** The index GetNextPendingStep selects, or |steps| when no step is pending. */
  function NextPending(steps: seq<Step>): (k: nat)
    ensures k <= |steps|
    ensures forall i | 0 <= i < k :: !steps[i].status.Pending?
    ensures k < |steps| ==> steps[k].status.Pending?
  {
    if steps == [] || steps[0].status.Pending? then 0 else 1 + NextPending(steps[1..])
  }

  function TicketOf(step: Step): string {
    if step.ticket.Some? then step.ticket.value else ""
  }

  function RequestFor(step: Step, initial: string): Request {
    Request(step.workflow,
            if step.instructions == "" then initial else step.instructions,
            step.scope, TicketOf(step))
  }

  predicate MissingHandoff(step: Step) {
    step.scope == "ticket" && step.requireHandoff && TicketOf(step) == ""
  }

  // ----- the goroutine -----

  /** The step whose executeStep is in progress at `pc`. */
  function ExecutingStep(pc: Pc): Option<nat> {
    match pc
    case Mark(k, _) => Some(k)
    case Position(k, _) => Some(k)
    case Handoff(k, _) => Some(k)
    case Launch(k, _) => Some(k)
    case Record(k, _, _) => Some(k)
    case Poll(k) => Some(k)
    case Settle(k, _, _) => Some(k)
    case _ => None
  }

  function Launches(log: seq<Event>): nat {
    if log == [] then 0
    else Launches(log[..|log| - 1]) + if log[|log| - 1].Launched? then 1 else 0
  }

  /** The context's cancel function is called. */
  function Fire(job: Job, loop: Loop): Loop {
    if loop.canceled then loop
    else loop.(canceled := true, base := Launches(job.log), struck := ExecutingStep(loop.pc))
  }

  /** Whether cancelRun (first case) or failRun turns a step listed with this status into "canceled". */
  predicate Discards(verdict: RunStatus, listed: StepStatus) {
    listed.Pending? || (verdict.RunCanceled? && listed.Running?)
  }

  function SweepStep(job: Job, verdict: RunStatus, listed: seq<Step>, j: nat): Job
    requires j < |listed|
  {
    var stop := verdict.RunCanceled? && listed[j].status.Running? && listed[j].instance.Some?;
    var told := if stop then job.(log := job.log + [Stopped(j)]) else job;
    if Discards(verdict, listed[j].status) then told.(row := WithStatus(told.row, j, Canceled)) else told
  }

  /** One atomic action of runLoop, executeStep, pollInstance, cancelRun or failRun. */
  function LoopNext(job: Job, loop: Loop, answer: Answer): (Job, Loop) {
    var row := job.row;
    match loop.pc
    case Open =>
      (job, loop.(pc := if answer.Yes? then Top else FailOpen))
    case Top =>
      (job, loop.(pc := if loop.canceled then ListSteps(RunCanceled) else Next))
    case Next =>
      var k := NextPending(row.steps);
      (job, loop.(pc := if !answer.Yes? then FailOpen
                        else if k == |row.steps| then Close(RunCompleted)
                        else Mark(k, row.steps[k])))
    case Mark(k, seen) =>
      (job.(row := WithStatus(row, k, Running)), loop.(pc := Position(k, seen)))
    case Position(k, seen) =>
      (job.(row := row.(position := seen.position)), loop.(pc := Handoff(k, seen)))
    case Handoff(k, seen) =>
      (job, loop.(pc := if MissingHandoff(seen) then Settle(k, Failed, true)
                        else Launch(k, RequestFor(seen, row.initial))))
    case Launch(k, request) =>
      (job.(log := job.log + [Launched(k, request, Reply(answer))]),
       loop.(pc := if answer.Yes? then Record(k, request, answer.instance) else Settle(k, Failed, true)))
    case Record(k, request, instance) =>
      (job.(row := WithInstance(row, k, instance, request)), loop.(pc := Poll(k)))
    case Poll(k) =>
      (match answer
       case Yes(_) => (job.(log := job.log + [Observed(k)]), loop.(pc := Settle(k, Completed, false)))
       case No => (job, loop.(pc := Settle(k, Failed, false)))
       case _ => (job, if loop.canceled then loop.(pc := Settle(k, Canceled, true)) else loop))
    case Settle(k, to, err) =>
      (job.(row := WithStatus(row, k, to)),
       loop.(pc := if to.Completed? then Top else if err then Errored else FailOpen))
    case Errored =>
      (job, loop.(pc := if loop.canceled then ListSteps(RunCanceled) else FailOpen))
    case FailOpen =>
      if answer.Yes? then (job, loop.(pc := ListSteps(RunFailed)))
      else (job.(orphaned := true), loop.(pc := Leave))
    case ListSteps(verdict) =>
      var n := RowsRead(answer, |row.steps|);
      (job.(unlisted := LeftOut(row.steps, n)), loop.(pc := Sweep(verdict, row.steps[..n], 0)))
    case Sweep(verdict, listed, j) =>
      if j < |listed| then (SweepStep(job, verdict, listed, j), loop.(pc := Sweep(verdict, listed, j + 1)))
      else (job, loop.(pc := Close(verdict)))
    case Close(verdict) =>
      (job.(row := row.(status := verdict), working := false), loop.(pc := Leave))
    case _ => (job, loop)
  }

  // ----- step shapes -----

  predicate Untouched(status: StepStatus) {
    status.Pending? || status.Canceled?
  }

  /** Every step that was completed, is running or failed comes after completed steps only. */
  predicate Shaped(steps: seq<Step>) {
    forall i, j | 0 <= i < j < |steps| :: !Untouched(steps[j].status) ==> steps[i].status.Completed?
  }

  predicate Quiet(steps: seq<Step>) {
    forall i | 0 <= i < |steps| :: !steps[i].status.Running?
  }

  predicate NonePending(steps: seq<Step>) {
    forall i | 0 <= i < |steps| :: !steps[i].status.Pending?
  }

  /** Whether a step from n on is pending or running. */
  predicate LeftOut(steps: seq<Step>, n: nat) {
    exists i | n <= i < |steps| :: steps[i].status.Pending? || steps[i].status.Running?
  }

  /** No step has failed or was canceled. */
  predicate Clean(steps: seq<Step>) {
    forall i | 0 <= i < |steps| :: !steps[i].status.Failed? && !steps[i].status.Canceled?
  }

  predicate AllPending(steps: seq<Step>) {
    forall i | 0 <= i < |steps| :: steps[i].status.Pending?
  }

  predicate AllCompleted(steps: seq<Step>) {
    forall i | 0 <= i < |steps| :: steps[i].status.Completed?
  }

  /** Only completed and pending steps: what a run that can still go on looks like. */
  predicate Ready(steps: seq<Step>) {
    forall i | 0 <= i < |steps| :: steps[i].status.Completed? || steps[i].status.Pending?
  }

  /** Step k runs, everything before it is completed, everything after it pending. */
  predicate BusyAt(steps: seq<Step>, k: nat) {
    && k < |steps| && steps[k].status.Running?
    && (forall i | 0 <= i < k :: steps[i].status.Completed?)
    && (forall i | k < i < |steps| :: steps[i].status.Pending?)
  }

  /** Step k is the only running one. */
  predicate RunsOnly(steps: seq<Step>, k: nat) {
    && k < |steps| && steps[k].status.Running?
    && (forall i | 0 <= i < |steps| && i != k :: !steps[i].status.Running?)
  }

  /** Completed steps, then at most one failed step, then only canceled steps. */
  predicate WoundDown(steps: seq<Step>) {
    Shaped(steps) && Quiet(steps) && NonePending(steps)
  }

  /** Nothing left to do, or nothing but completed and pending steps. */
  predicate Restartable(steps: seq<Step>) {
    NonePending(steps) || Ready(steps)
  }
}
