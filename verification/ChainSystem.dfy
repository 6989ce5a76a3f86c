/**
  The whole chain runner as a transition system: the store, the `runs` registry with its mutex,
  the calls of Start and Cancel in flight, the goroutines, crashes and the startup sweep.

  `Exec` performs one atomic action. An action that is not enabled leaves the state alone, so every
  sequence of actions is a run of the system.
 */
module ChainSystem {
  import opened Wrappers
  import opened ChainRun

  type RunId = string

  /** A goroutine and the run it drives. */
  datatype Driver = Driver(run: RunId, loop: Loop)

  datatype Owner = ByCaller(caller: nat) | ByLoop(loop: nat)

  /** A call of Start or Cancel in flight, by what it is about to do. */
  datatype Caller =
    | StartWait(run: RunId)                  // read status "pending", about to lock
    | StartCheck(run: RunId)                 // locked, about to look the run up in the registry
    | StartReject(run: RunId)                // found it there, about to unlock and return an error
    | StartWrite(run: RunId)                 // about to write "running"
    | StartRegister(run: RunId)              // about to store the cancel function
    | StartUnlock(run: RunId, loop: nat)     // about to unlock
    | StartSpawn(run: RunId, loop: nat)      // about to execute `go runLoop`
    | CancelWait(run: RunId)                 // about to lock
    | CancelLook(run: RunId)                 // locked, about to look the run up
    | CancelUnlock(run: RunId, found: Option<nat>)  // about to unlock
    | CancelFire(loop: nat)                  // about to call the cancel function it found
    | CancelRead(run: RunId)                 // found none, about to read the status
    | CancelWrite(run: RunId)                // read "pending", about to write "canceled"

  /** FailAllRunning at startup, by what it is about to do; `todo` are the runs left. */
  datatype Recovery =
    | Query
    | Listing(todo: seq<RunId>)
    | Walking(todo: seq<RunId>, listed: seq<Step>, at: nat)
    | Closing(todo: seq<RunId>)

  /** `registry` maps a run to the goroutine whose cancel function is stored for it. */
  datatype System = System(
    store: map<RunId, Job>, registry: map<RunId, nat>, loops: map<nat, Driver>, nextLoop: nat,
    callers: map<nat, Caller>, lock: Option<Owner>, recovery: Option<Recovery>)

  datatype Action =
    | Create(run: RunId, initial: string, steps: seq<Step>)
    | CallStart(caller: nat, run: RunId)
    | CallCancel(caller: nat, run: RunId)
    | CallerMove(caller: nat, answer: Answer)
    | LoopMove(loop: nat, answer: Answer)
    | HandTicket(run: RunId, step: nat, ticket: string)
    | HandInstructions(run: RunId, step: nat, text: string)
    | Crash
    | SweepFound(order: seq<RunId>)
    | SweepMove(answer: Answer)

  function Boot(): System {
    System(map[], map[], map[], 0, map[], None, None)
  }

  // ----- calls -----

  function StartWritten(job: Job): Job {
    job.(row := job.row.(status := RunActive), begun := true,
         raced := job.raced || !job.row.status.RunPending?,
         spoiled := job.spoiled || !Restartable(job.row.steps),
         clean := Clean(job.row.steps), working := true, unlisted := false, orphaned := false)
  }

  function CancelWritten(job: Job): Job {
    job.(row := job.row.(status := RunCanceled), raced := job.raced || !job.row.status.RunPending?)
  }

  function MoveCaller(s: System, c: nat, answer: Answer): System
    requires c in s.callers
  {
    match s.callers[c]
    case StartWait(id) =>
      if s.lock.None? then s.(lock := Some(ByCaller(c)), callers := s.callers[c := StartCheck(id)]) else s
    case StartCheck(id) =>
      s.(callers := s.callers[c := if id in s.registry then StartReject(id) else StartWrite(id)])
    case StartReject(id) =>
      s.(lock := None, callers := s.callers - {c})
    case StartWrite(id) =>
      if id in s.store then
        s.(store := s.store[id := StartWritten(s.store[id])], callers := s.callers[c := StartRegister(id)])
      else s
    case StartRegister(id) =>
      var l := s.nextLoop;
      s.(registry := s.registry[id := l], loops := s.loops[l := Driver(id, Loop(false, 0, None, Born))],
         nextLoop := l + 1, callers := s.callers[c := StartUnlock(id, l)])
    case StartUnlock(id, l) =>
      s.(lock := None, callers := s.callers[c := StartSpawn(id, l)])
    case StartSpawn(id, l) =>
      if l in s.loops then
        s.(loops := s.loops[l := s.loops[l].(loop := s.loops[l].loop.(pc := Open))], callers := s.callers - {c})
      else s
    case CancelWait(id) =>
      if s.lock.None? then s.(lock := Some(ByCaller(c)), callers := s.callers[c := CancelLook(id)]) else s
    case CancelLook(id) =>
      s.(callers := s.callers[c := CancelUnlock(id, if id in s.registry then Some(s.registry[id]) else None)])
    case CancelUnlock(id, found) =>
      s.(lock := None,
         callers := s.callers[c := if found.Some? then CancelFire(found.value) else CancelRead(id)])
    case CancelFire(l) =>
      var done := s.(callers := s.callers - {c});
      if l in s.loops && s.loops[l].run in s.store then
        done.(loops := s.loops[l := s.loops[l].(loop := Fire(s.store[s.loops[l].run], s.loops[l].loop))])
      else done
    case CancelRead(id) =>
      if answer.Yes? && id in s.store && s.store[id].row.status.RunPending?
      then s.(callers := s.callers[c := CancelWrite(id)]) else s.(callers := s.callers - {c})
    case CancelWrite(id) =>
      var done := s.(callers := s.callers - {c});
      if id in s.store then done.(store := s.store[id := CancelWritten(s.store[id])]) else done
  }

  // ----- goroutines -----

  function MoveLoop(s: System, l: nat, answer: Answer): System
    requires l in s.loops
  {
    var Driver(id, loop) := s.loops[l];
    match loop.pc
    case Born => s
    case Leave =>
      if s.lock.None? then s.(lock := Some(ByLoop(l)), loops := s.loops[l := Driver(id, loop.(pc := Deleting))]) else s
    case Deleting =>
      s.(registry := s.registry - {id}, loops := s.loops[l := Driver(id, loop.(pc := Unlocking))])
    case Unlocking =>
      s.(lock := None, loops := s.loops - {l})
    case _ =>
      if id in s.store then
        var (job, next) := LoopNext(s.store[id], loop, answer);
        s.(store := s.store[id := job], loops := s.loops[l := Driver(id, next)])
      else s
  }

  // ----- crash and recovery -----

  function Abandon(job: Job): Job {
    job.(orphaned := job.working)
  }

  function Crashed(s: System): System {
    System(map id | id in s.store :: Abandon(s.store[id]), map[], map[], s.nextLoop, map[], None, Some(Query))
  }

  /** What GetActiveRuns returns: every run in status "running", once. */
  ghost predicate ActiveRuns(s: System, order: seq<RunId>) {
    && (forall id :: id in order <==> id in s.store && s.store[id].row.status.RunActive?)
    && (forall i, j | 0 <= i < j < |order| :: order[i] != order[j])
  }

  function SweepCancel(job: Job, listed: seq<Step>, j: nat): Job
    requires j < |listed|
  {
    if listed[j].status.Running? || listed[j].status.Pending?
    then job.(row := WithStatus(job.row, j, Canceled)) else job
  }

  function SweepClosed(job: Job): Job {
    job.(row := job.row.(status := RunFailed), working := false, orphaned := false)
  }

  function MoveRecovery(s: System, at: Recovery, answer: Answer): System {
    match at
    case Query => if answer.Yes? then s else s.(recovery := None)
    case Listing(todo) =>
      if todo == [] || todo[0] !in s.store then s.(recovery := None)
      else
        var job := s.store[todo[0]];
        var n := RowsRead(answer, |job.row.steps|);
        s.(store := s.store[todo[0] := job.(unlisted := LeftOut(job.row.steps, n))],
           recovery := Some(Walking(todo, job.row.steps[..n], 0)))
    case Walking(todo, listed, j) =>
      if j == |listed| || todo == [] || todo[0] !in s.store || j > |listed| then s.(recovery := Some(Closing(todo)))
      else s.(store := s.store[todo[0] := SweepCancel(s.store[todo[0]], listed, j)],
              recovery := Some(Walking(todo, listed, j + 1)))
    case Closing(todo) =>
      if todo == [] || todo[0] !in s.store then s.(recovery := None)
      else var job := s.store[todo[0]];
        s.(store := s.store[todo[0] := SweepClosed(job)],
           recovery := Some(Listing(todo[1..])))
  }

  // ----- the other actors -----

  predicate FreshSteps(steps: seq<Step>) {
    AllPending(steps) && forall i | 0 <= i < |steps| :: steps[i].instance.None?
  }

  function NewJob(initial: string, steps: seq<Step>): Job {
    Job(Run(RunPending, initial, 0, steps), [], false, false, false, true, false, false, false)
  }

  predicate PendingStep(s: System, id: RunId, k: nat) {
    id in s.store && k < |s.store[id].row.steps| && s.store[id].row.steps[k].status.Pending?
  }

  function WithStep(job: Job, k: nat, step: Step): Job
    requires k < |job.row.steps|
  {
    job.(row := job.row.(steps := job.row.steps[k := step]))
  }

  /** One atomic action of the system. */
  ghost function Exec(s: System, a: Action): System {
    match a
    case Crash => Crashed(s)
    case SweepFound(order) =>
      if s.recovery == Some(Query) && ActiveRuns(s, order) then s.(recovery := Some(Listing(order))) else s
    case SweepMove(answer) =>
      if s.recovery.Some? then MoveRecovery(s, s.recovery.value, answer) else s
    case Create(id, initial, steps) =>
      if s.recovery.None? && id !in s.store && steps != [] && FreshSteps(steps)
      then s.(store := s.store[id := NewJob(initial, steps)]) else s
    case CallStart(c, id) =>
      if s.recovery.None? && c !in s.callers && id in s.store && s.store[id].row.status.RunPending?
      then s.(callers := s.callers[c := StartWait(id)]) else s
    case CallCancel(c, id) =>
      if s.recovery.None? && c !in s.callers && id in s.store
      then s.(callers := s.callers[c := CancelWait(id)]) else s
    case CallerMove(c, answer) =>
      if c in s.callers then MoveCaller(s, c, answer) else s
    case LoopMove(l, answer) =>
      if l in s.loops then MoveLoop(s, l, answer) else s
    case HandTicket(id, k, ticket) =>
      if PendingStep(s, id, k)
      then s.(store := s.store[id := WithStep(s.store[id], k, s.store[id].row.steps[k].(ticket := Some(ticket)))])
      else s
    case HandInstructions(id, k, text) =>
      if PendingStep(s, id, k)
      then s.(store := s.store[id := WithStep(s.store[id], k, s.store[id].row.steps[k].(instructions := text))])
      else s
  }

  /** The state after a sequence of actions. */
  ghost function Play(s: System, actions: seq<Action>): System {
    if actions == [] then s else Exec(Play(s, actions[..|actions| - 1]), actions[|actions| - 1])
  }
}
