/** Which ticket and instructions a step is launched with, and the window in which a handoff is lost. */
module ChainHandoff {
  import opened Wrappers
  import opened ChainRun
  import opened ChainRunInvariant
  import opened ChainSystem
  import opened ChainInvariant
  import opened ChainPreservation
  import opened ChainProgress
  import opened ChainTermination
  import opened ChainWrites

  /** Between reading the row of step k and launching it. */
  predicate Holds(pc: Pc, k: nat, seen: Step, initial: string) {
    || pc == Mark(k, seen) || pc == Position(k, seen) || pc == Handoff(k, seen)
    || pc == Launch(k, RequestFor(seen, initial))
  }

  /** Neither about to launch step k nor on the way to it. */
  predicate Past(pc: Pc, k: nat) {
    !pc.Born? && !((pc.Mark? || pc.Position? || pc.Handoff? || pc.Launch?) && pc.step == k)
  }

  /** The goroutine has read `seen` and carries it to the launch, or is past that for good. */
  ghost predicate Bound(row: Run, pc: Pc, k: nat, seen: Step, initial: string) {
    && row.initial == initial && k < |row.steps|
    && (Holds(pc, k, seen, initial) || (Past(pc, k) && !row.steps[k].status.Pending?))
  }

  ghost predicate Carries(s: System, l: nat, k: nat, seen: Step, initial: string) {
    && l < s.nextLoop
    && (l in s.loops ==>
          var Driver(id, loop) := s.loops[l];
          id in s.store && Bound(s.store[id].row, loop.pc, k, seen, initial))
  }

  // ----- what a row asks for -----

  /** The request asks for what the row says; empty instructions give way to those of the run. */
  predicate Asks(request: Request, step: Step, initial: string) {
    && request.workflow == step.workflow && request.scope == step.scope
    && (step.instructions != "" ==> request.instructions == step.instructions)
    && (step.instructions == "" ==> request.instructions == initial)
    && (step.ticket.Some? ==> request.ticket == step.ticket.value)
    && (step.ticket.None? ==> request.ticket == "")
  }

  /** A ticket step that requires a handoff and has no ticket, or an empty one. */
  predicate Lacks(step: Step) {
    step.scope == "ticket" && step.requireHandoff && step.ticket in {None, Some("")}
  }

  lemma RowAsks(request: Request, step: Step, initial: string)
    ensures Asks(request, step, initial) <==> request == RequestFor(step, initial)
    ensures Lacks(step) <==> MissingHandoff(step)
  {
  }

  // ----- the goroutine's own actions -----

  lemma BeginCarries(job: Job, loop: Loop, answer: Answer, k: nat, seen: Step, initial: string)
    requires PcInv(job, loop) && Bound(job.row, loop.pc, k, seen, initial)
    requires loop.pc.Mark? || loop.pc.Position? || loop.pc.Handoff? || loop.pc.Launch?
    ensures var pc := LoopNext(job, loop, answer).1.pc;
            Holds(pc, k, seen, initial) || Past(pc, k)
  {
    hide Executing, SameDefinition, Serves, WithStatus, MissingHandoff, Quiet, Clean, Placed, RequestFor;
  }

  lemma RestCarries(job: Job, loop: Loop, answer: Answer, k: nat)
    requires Past(loop.pc, k) && k < |job.row.steps| && !job.row.steps[k].status.Pending?
    requires !loop.pc.Mark? && !loop.pc.Position? && !loop.pc.Handoff? && !loop.pc.Launch?
    ensures Past(LoopNext(job, loop, answer).1.pc, k)
  {
    hide WithStatus, WithInstance, SweepStep, LeftOut, RowsRead;
  }

  /** Once the step is marked running it is not pending any more. */
  lemma NotPending(job: Job, loop: Loop)
    requires PcInv(job, loop) && ExecutingStep(loop.pc).Some? && !loop.pc.Mark?
    ensures loop.pc.step < |job.row.steps| && job.row.steps[loop.pc.step].status.Running?
  {
    hide SameDefinition, Serves, BusyAt, Clean;
  }

  lemma LoopCarries(job: Job, loop: Loop, answer: Answer, k: nat, seen: Step, initial: string)
    requires RunInv(job, Some(loop)) && Bound(job.row, loop.pc, k, seen, initial)
    ensures var (job', loop') := LoopNext(job, loop, answer); Bound(job'.row, loop'.pc, k, seen, initial)
  {
    LoopWrites(job, loop, answer);
    PcOf(job, loop);
    var pc := loop.pc;
    if ExecutingStep(pc).Some? && !pc.Mark? {
      NotPending(job, loop);
    }
    hide RunInv, PcInv, LoopNext;
    if pc.Mark? || pc.Position? || pc.Handoff? || pc.Launch? {
      BeginCarries(job, loop, answer, k, seen, initial);
      HeldIsWritten(job.row, LoopNext(job, loop, answer).0.row, pc, k, seen, initial);
    } else {
      RestCarries(job, loop, answer, k);
      RestIsWritten(job.row, LoopNext(job, loop, answer).0.row, loop, job, k);
    }
  }

  lemma HeldIsWritten(was: Run, now: Run, pc: Pc, k: nat, seen: Step, initial: string)
    requires Written(was, now, LoopWrite(pc)) && Bound(was, pc, k, seen, initial)
    requires pc.Mark? || pc.Position? || pc.Handoff? || pc.Launch?
    requires !pc.Mark? ==> pc.step < |was.steps| && was.steps[pc.step].status.Running?
    ensures now.initial == initial && k < |now.steps| && !now.steps[k].status.Pending?
  {
    hide RequestFor;
  }

  lemma RestIsWritten(was: Run, now: Run, loop: Loop, job: Job, k: nat)
    requires job.row == was && RunInv(job, Some(loop)) && Written(was, now, LoopWrite(loop.pc))
    requires k < |was.steps| && !was.steps[k].status.Pending?
    ensures k < |now.steps| && !now.steps[k].status.Pending?
  {
    SoundLoop(job, loop);
    hide RunInv, Quiet, RunsOnly;
  }

  // ----- every action -----

  lemma MoveCarries(s: System, l: nat, answer: Answer, k: nat, seen: Step, initial: string)
    requires Inv(s) && l in s.loops && Carries(s, l, k, seen, initial)
    ensures Carries(MoveLoop(s, l, answer), l, k, seen, initial)
  {
    hide Inv, LoopNext, Bound;
    var Driver(id, loop) := s.loops[l];
    if Locking(loop.pc) {
      LeavingCarries(s.store[id].row, loop.pc, k, seen, initial);
    } else {
      LiveFacts(s, l);
      LoopCarries(s.store[id], loop, answer, k, seen, initial);
    }
  }

  lemma LeavingCarries(row: Run, pc: Pc, k: nat, seen: Step, initial: string)
    requires Bound(row, pc, k, seen, initial) && Locking(pc)
    ensures !pc.Born? && Bound(row, Deleting, k, seen, initial) && Bound(row, Unlocking, k, seen, initial)
  {
  }

  lemma OtherCarries(s: System, a: Action, l: nat, k: nat, seen: Step, initial: string)
    requires Inv(s) && l in s.loops && Carries(s, l, k, seen, initial) && NotOf([a], l)
    ensures Carries(Exec(s, a), l, k, seen, initial)
  {
    hide Inv, Exec, Written;
    var Driver(id, loop) := s.loops[l];
    ActionKeepsPlace(s, a, l, id, loop.pc);
    ExecLater(s, a);
    ExecWrites(s, a, id);
    StepStays(s, Exec(s, a), id, k);
    InitialStays(s.store[id].row, Exec(s, a).store[id].row, WriteOf(s, a, id));
  }

  lemma StepStays(s: System, t: System, id: RunId, k: nat)
    requires Later(s, t) && id in s.store && k < |s.store[id].row.steps|
    ensures id in t.store && k < |t.store[id].row.steps| && s.nextLoop <= t.nextLoop
    ensures !s.store[id].row.steps[k].status.Pending? ==> !t.store[id].row.steps[k].status.Pending?
  {
    assert JobLater(s.store[id], t.store[id]);
    assert StepLater(s.store[id].row.steps[k], t.store[id].row.steps[k]);
  }

  lemma InitialStays(was: Run, now: Run, w: Write)
    requires Written(was, now, w)
    ensures now.initial == was.initial
  {
  }

  lemma ExecCarries(s: System, a: Action, l: nat, k: nat, seen: Step, initial: string)
    requires Inv(s) && Carries(s, l, k, seen, initial)
    ensures Carries(Exec(s, a), l, k, seen, initial)
  {
    hide Inv, Bound, MoveLoop, Later, LoopsLater;
    ExecLater(s, a);
    NoReturn(s, Exec(s, a), l);
    if l in s.loops {
      if a.LoopMove? && a.loop == l {
        MoveCarries(s, l, a.answer, k, seen, initial);
      } else if !a.Crash? {
        hide Exec, Carries;
        OtherCarries(s, a, l, k, seen, initial);
      }
    }
  }

  lemma NoReturn(s: System, t: System, l: nat)
    requires Later(s, t) && l < s.nextLoop
    ensures l < t.nextLoop && (l in t.loops ==> l in s.loops)
  {
  }

  lemma {:induction false} PlayCarries(s: System, actions: seq<Action>, l: nat, k: nat, seen: Step, initial: string)
    requires Inv(s) && Carries(s, l, k, seen, initial)
    ensures Carries(Play(s, actions), l, k, seen, initial)
  {
    hide Inv, Exec, Carries;
    if actions != [] {
      var before := actions[..|actions| - 1];
      PlayCarries(s, before, l, k, seen, initial);
      PlayKeeps(s, before);
      ExecCarries(Play(s, before), actions[|actions| - 1], l, k, seen, initial);
    }
  }

  // ----- what is launched -----

  lemma BoundAtMark(s: System, l: nat)
    requires Inv(s) && l in s.loops && s.loops[l].loop.pc.Mark?
    ensures var Driver(id, loop) := s.loops[l];
            id in s.store && Carries(s, l, loop.pc.step, loop.pc.seen, s.store[id].row.initial)
  {
    hide Inv;
    StoredLoop(s, l);
  }

  /** A step is launched with the ticket and instructions of the row that was read for it. */
  lemma LaunchedAsRead(a: seq<Action>, b: seq<Action>, l: nat)
    requires l in Play(Boot(), a).loops && Play(Boot(), a).loops[l].loop.pc.Mark?
    ensures var s, t := Play(Boot(), a), Play(Boot(), a + b);
            var Driver(id, loop) := s.loops[l];
            && id in s.store
            && forall request | l in t.loops && t.loops[l].loop.pc == Launch(loop.pc.step, request) ::
                 request == RequestFor(loop.pc.seen, s.store[id].row.initial)
  {
    hide Inv, Play, RequestFor;
    var s := Play(Boot(), a);
    ReachableInv(a);
    BoundAtMark(s, l);
    PlayConcat(Boot(), a, b);
    PlayCarries(s, b, l, s.loops[l].loop.pc.step, s.loops[l].loop.pc.seen, s.store[s.loops[l].run].row.initial);
  }

  /**
    So what has been handed over by the time GetNextPendingStep reads the row is what is launched,
    whatever comes between.
   */
  lemma LaunchedAsHanded(a: seq<Action>, instance: string, b: seq<Action>, l: nat)
    requires l in Play(Boot(), a).loops && Play(Boot(), a).loops[l].loop.pc.Next?
    ensures var s, t := Play(Boot(), a), Play(Boot(), a + [LoopMove(l, Yes(instance))] + b);
            var id := s.loops[l].run;
            && id in s.store
            && var k := NextPending(s.store[id].row.steps);
               k < |s.store[id].row.steps| && l in t.loops ==>
                 forall request | t.loops[l].loop.pc == Launch(k, request) ::
                   Asks(request, s.store[id].row.steps[k], s.store[id].row.initial)
  {
    hide Inv, Play, RequestFor, Exec, Asks;
    var s, read := Play(Boot(), a), LoopMove(l, Yes(instance));
    ReachableInv(a);
    StoredLoop(s, l);
    var id := s.loops[l].run;
    var steps, k := s.store[id].row.steps, NextPending(s.store[id].row.steps);
    if k < |steps| {
      PlayedOn(a, read);
      Reads(s, l, instance);
      LaunchedAsRead(a + [read], b, l);
      RowAsks(RequestFor(steps[k], s.store[id].row.initial), steps[k], s.store[id].row.initial);
    }
  }

  lemma Reads(s: System, l: nat, instance: string)
    requires l in s.loops && s.loops[l].loop.pc.Next? && s.loops[l].run in s.store
    requires NextPending(s.store[s.loops[l].run].row.steps) < |s.store[s.loops[l].run].row.steps|
    ensures var id := s.loops[l].run;
            var t, steps := Exec(s, LoopMove(l, Yes(instance))), s.store[id].row.steps;
            && l in t.loops && t.loops[l].run == id && t.store[id] == s.store[id]
            && t.loops[l].loop.pc == Mark(NextPending(steps), steps[NextPending(steps)])
  {
    hide NextPending;
  }

  // ----- the window -----

  /** A step in execution can still be handed something exactly between the read and the mark "running". */
  lemma HandoffWindow(actions: seq<Action>, l: nat)
    requires l in Play(Boot(), actions).loops && ExecutingStep(Play(Boot(), actions).loops[l].loop.pc).Some?
    ensures var s := Play(Boot(), actions);
            var Driver(id, loop) := s.loops[l];
            PendingStep(s, id, loop.pc.step) <==> loop.pc.Mark?
  {
    hide Inv, Play;
    ReachableInv(actions);
    var s := Play(Boot(), actions);
    StoredLoop(s, l);
    if s.loops[l].loop.pc.Mark? {
      BoundAtMark(s, l);
      StillPending(s.store[s.loops[l].run], s.loops[l].loop);
    } else {
      NotPending(s.store[s.loops[l].run], s.loops[l].loop);
    }
  }

  lemma StillPending(job: Job, loop: Loop)
    requires PcInv(job, loop) && loop.pc.Mark?
    ensures loop.pc.step < |job.row.steps| && job.row.steps[loop.pc.step].status.Pending?
  {
    hide SameDefinition, Clean, Ready, Quiet;
  }

  // ----- what is handed over -----

  datatype Handed = Ticket(ticket: string) | Text(text: string)

  function HandOf(h: Handed, id: RunId, k: nat): Action {
    match h
    case Ticket(ticket) => HandTicket(id, k, ticket)
    case Text(text) => HandInstructions(id, k, text)
  }

  /** The row holds what was handed over. */
  predicate InRow(h: Handed, step: Step) {
    match h
    case Ticket(ticket) => step.ticket == Some(ticket)
    case Text(text) => step.instructions == text
  }

  /** The request carries it; empty instructions give way to those of the run. */
  predicate InRequest(h: Handed, request: Request, initial: string) {
    match h
    case Ticket(ticket) => request.ticket == ticket
    case Text(text) => request.instructions == if text == "" then initial else text
  }

  /** Another handoff of the same kind to the same step. */
  predicate Replaces(a: Action, h: Handed, id: RunId, k: nat) {
    match a
    case HandTicket(run, step, _) => h.Ticket? && run == id && step == k
    case HandInstructions(run, step, _) => h.Text? && run == id && step == k
    case _ => false
  }

  // ----- handed over in time -----

  /** A goroutine on its way to launch step k carries it. */
  predicate PcHolds(pc: Pc, k: nat, h: Handed, initial: string) {
    match pc
    case Mark(step, seen) => step == k ==> InRow(h, seen)
    case Position(step, seen) => step == k ==> InRow(h, seen)
    case Handoff(step, seen) => step == k ==> InRow(h, seen)
    case Launch(step, request) => step == k ==> InRequest(h, request, initial)
    case _ => true
  }

  predicate RowHolds(row: Run, k: nat, h: Handed, initial: string) {
    row.initial == initial && k < |row.steps| && (row.steps[k].status.Pending? ==> InRow(h, row.steps[k]))
  }

  ghost predicate Keeps(s: System, id: RunId, k: nat, h: Handed, initial: string) {
    && id in s.store && RowHolds(s.store[id].row, k, h, initial)
    && forall l | l in s.loops && s.loops[l].run == id :: PcHolds(s.loops[l].loop.pc, k, h, initial)
  }

  /** A step that is pending afterwards was so before, with the same row. */
  ghost predicate PendingStay(was: Run, now: Run) {
    && now.initial == was.initial && |now.steps| == |was.steps|
    && forall i | 0 <= i < |was.steps| && now.steps[i].status.Pending? :: now.steps[i] == was.steps[i]
  }

  lemma StatusStays(row: Run, k: nat, status: StepStatus)
    requires !status.Pending?
    ensures PendingStay(row, WithStatus(row, k, status)) && PendingStay(row, row)
  {
  }

  lemma InstanceStays(row: Run, k: nat, instance: string, request: Request)
    requires k < |row.steps| && !row.steps[k].status.Pending?
    ensures PendingStay(row, WithInstance(row, k, instance, request))
  {
  }

  lemma BeginStays(job: Job, loop: Loop, answer: Answer)
    requires loop.pc.Mark? || loop.pc.Position? || loop.pc.Handoff? || loop.pc.Launch?
    ensures PendingStay(job.row, LoopNext(job, loop, answer).0.row)
  {
    hide WithStatus, RequestFor, MissingHandoff;
    StatusStays(job.row, loop.pc.step, Running);
  }

  lemma WatchStays(job: Job, loop: Loop, answer: Answer)
    requires PcInv(job, loop) && (loop.pc.Record? || loop.pc.Poll? || loop.pc.Settle?)
    ensures PendingStay(job.row, LoopNext(job, loop, answer).0.row)
  {
    NotPending(job, loop);
    hide WithStatus, WithInstance, Placed, Serves, PendingStay;
    StatusStays(job.row, loop.pc.step, if loop.pc.Settle? then loop.pc.to else Running);
    if loop.pc.Record? {
      InstanceStays(job.row, loop.pc.step, loop.pc.instance, loop.pc.request);
    }
  }

  lemma SweepStays(job: Job, loop: Loop, answer: Answer)
    requires loop.pc.Sweep?
    ensures PendingStay(job.row, LoopNext(job, loop, answer).0.row)
  {
    SweepMoves(job, loop, answer);
    hide WithStatus, PendingStay, LoopNext;
    StatusStays(job.row, loop.pc.at, Canceled);
  }

  lemma OpenStays(job: Job, loop: Loop, answer: Answer)
    requires loop.pc.Open? || loop.pc.Top? || loop.pc.Next? || loop.pc.Errored? || loop.pc.FailOpen?
    ensures PendingStay(job.row, LoopNext(job, loop, answer).0.row)
  {
    hide NextPending, PendingStay, WithStatus;
    StatusStays(job.row, 0, Canceled);
  }

  lemma EndStays(job: Job, loop: Loop, answer: Answer)
    requires loop.pc.ListSteps? || loop.pc.Close? || loop.pc.Born? || AfterClose(loop.pc)
    ensures PendingStay(job.row, LoopNext(job, loop, answer).0.row)
  {
    hide LeftOut, RowsRead, PendingStay, WithStatus;
    StatusStays(job.row, 0, Canceled);
    if loop.pc.Close? {
      VerdictStays(job.row, loop.pc.verdict);
    }
  }

  lemma VerdictStays(row: Run, status: RunStatus)
    ensures PendingStay(row, row.(status := status))
  {
  }

  lemma LoopStays(job: Job, loop: Loop, answer: Answer)
    requires PcInv(job, loop)
    ensures PendingStay(job.row, LoopNext(job, loop, answer).0.row)
  {
    hide PcInv, LoopNext, PendingStay;
    Phases(loop.pc);
    if loop.pc.Sweep? {
      SweepStays(job, loop, answer);
    } else if loop.pc.Open? || loop.pc.Top? || loop.pc.Next? || loop.pc.Errored? || loop.pc.FailOpen? {
      OpenStays(job, loop, answer);
    } else if loop.pc.ListSteps? || loop.pc.Close? || loop.pc.Born? || AfterClose(loop.pc) {
      EndStays(job, loop, answer);
    } else if loop.pc.Mark? || loop.pc.Position? || loop.pc.Handoff? || loop.pc.Launch? {
      BeginStays(job, loop, answer);
    } else {
      WatchStays(job, loop, answer);
    }
  }

  lemma RowStillHolds(was: Run, now: Run, k: nat, h: Handed, initial: string)
    requires PendingStay(was, now) && RowHolds(was, k, h, initial)
    ensures RowHolds(now, k, h, initial)
  {
  }

  /** Reading takes it along, and so does everything up to the launch. */
  lemma PcStillHolds(job: Job, loop: Loop, answer: Answer, k: nat, h: Handed, initial: string)
    requires RowHolds(job.row, k, h, initial) && PcHolds(loop.pc, k, h, initial)
    ensures PcHolds(LoopNext(job, loop, answer).1.pc, k, h, initial)
  {
    if loop.pc.Mark? || loop.pc.Position? || loop.pc.Handoff? || loop.pc.Next? {
      hide WithStatus, MissingHandoff;
    } else {
      NeverToRead(job, loop, answer);
      hide LoopNext;
    }
  }

  lemma NeverToRead(job: Job, loop: Loop, answer: Answer)
    requires !loop.pc.Mark? && !loop.pc.Position? && !loop.pc.Handoff? && !loop.pc.Next?
    ensures var pc := LoopNext(job, loop, answer).1.pc;
            !pc.Mark? && !pc.Position? && !pc.Handoff? && !pc.Launch?
  {
    hide WithStatus, WithInstance, SweepStep, LeftOut, RowsRead;
  }

  lemma MoveKeeps(s: System, l: nat, answer: Answer, id: RunId, k: nat, h: Handed, initial: string)
    requires Inv(s) && l in s.loops && Keeps(s, id, k, h, initial)
    ensures Keeps(MoveLoop(s, l, answer), id, k, h, initial)
  {
    hide Inv, LoopNext, RowHolds, InRow, InRequest, PendingStay;
    var Driver(run, loop) := s.loops[l];
    if !Locking(loop.pc) && run == id {
      LiveFacts(s, l);
      PcOf(s.store[id], loop);
      LoopStays(s.store[id], loop, answer);
      RowStillHolds(s.store[id].row, LoopNext(s.store[id], loop, answer).0.row, k, h, initial);
      PcStillHolds(s.store[id], loop, answer, k, h, initial);
    }
  }

  lemma CallKeepsIt(s: System, c: nat, answer: Answer, id: RunId, k: nat, h: Handed, initial: string)
    requires c in s.callers && Keeps(s, id, k, h, initial)
    ensures Keeps(MoveCaller(s, c, answer), id, k, h, initial)
  {
    hide Clean, Restartable, Launches, InRow, InRequest;
  }

  lemma CancelingStays(job: Job, listed: seq<Step>, j: nat)
    requires j < |listed|
    ensures PendingStay(job.row, SweepCancel(job, listed, j).row)
  {
    hide WithStatus, PendingStay;
    StatusStays(job.row, j, Canceled);
  }

  lemma SweepingStays(s: System, answer: Answer, id: RunId)
    requires s.recovery.Some? && id in s.store
    ensures var t := MoveRecovery(s, s.recovery.value, answer);
            t.loops == s.loops && id in t.store && PendingStay(s.store[id].row, t.store[id].row)
  {
    StatusStays(s.store[id].row, 0, Canceled);
    VerdictStays(s.store[id].row, RunFailed);
    match s.recovery.value
    case Walking(todo, listed, j) =>
      if j < |listed| {
        CancelingStays(s.store[id], listed, j);
      }
      hide LeftOut, RowsRead, PendingStay, SweepCancel, WithStatus;
    case _ =>
      hide LeftOut, RowsRead, PendingStay, WithStatus;
  }

  lemma SweepKeepsIt(s: System, answer: Answer, id: RunId, k: nat, h: Handed, initial: string)
    requires s.recovery.Some? && Keeps(s, id, k, h, initial)
    ensures Keeps(MoveRecovery(s, s.recovery.value, answer), id, k, h, initial)
  {
    SweepingStays(s, answer, id);
    hide MoveRecovery, PcHolds, RowHolds, PendingStay;
    RowStillHolds(s.store[id].row, MoveRecovery(s, s.recovery.value, answer).store[id].row, k, h, initial);
  }

  lemma HandKeepsIt(s: System, a: Action, id: RunId, k: nat, h: Handed, initial: string)
    requires (a.HandTicket? || a.HandInstructions?) && !Replaces(a, h, id, k) && Keeps(s, id, k, h, initial)
    ensures Keeps(Exec(s, a), id, k, h, initial)
  {
    hide PcHolds;
  }

  lemma ExecKeepsIt(s: System, a: Action, id: RunId, k: nat, h: Handed, initial: string)
    requires Inv(s) && Keeps(s, id, k, h, initial) && !Replaces(a, h, id, k)
    ensures Keeps(Exec(s, a), id, k, h, initial)
  {
    hide Inv, MoveCaller, MoveLoop, MoveRecovery, ActiveRuns, FreshSteps, PcHolds, RowHolds;
    match a
    case LoopMove(l, answer) =>
      if l in s.loops {
        MoveKeeps(s, l, answer, id, k, h, initial);
      }
    case CallerMove(c, answer) =>
      if c in s.callers {
        CallKeepsIt(s, c, answer, id, k, h, initial);
      }
    case SweepMove(answer) =>
      if s.recovery.Some? {
        SweepKeepsIt(s, answer, id, k, h, initial);
      }
    case HandTicket(_, _, _) => HandKeepsIt(s, a, id, k, h, initial);
    case HandInstructions(_, _, _) => HandKeepsIt(s, a, id, k, h, initial);
    case _ =>
  }

  lemma {:induction false} PlayKeepsIt(s: System, actions: seq<Action>, id: RunId, k: nat, h: Handed, initial: string)
    requires Inv(s) && Keeps(s, id, k, h, initial) && forall a | a in actions :: !Replaces(a, h, id, k)
    ensures Keeps(Play(s, actions), id, k, h, initial)
  {
    hide Inv, Exec, Keeps, Replaces;
    if actions != [] {
      var before := actions[..|actions| - 1];
      PlayKeepsIt(s, before, id, k, h, initial);
      PlayKeeps(s, before);
      ExecKeepsIt(Play(s, before), actions[|actions| - 1], id, k, h, initial);
    }
  }

  /** A goroutine executing a pending step is at the mark. */
  lemma OnlyAtMark(s: System, id: RunId, k: nat, l: nat)
    requires Inv(s) && PendingStep(s, id, k) && l in s.loops && s.loops[l].run == id
    ensures ExecutingStep(s.loops[l].loop.pc) == Some(k) ==> s.loops[l].loop.pc.Mark?
  {
    hide Inv;
    StoredLoop(s, l);
    var pc := s.loops[l].loop.pc;
    if ExecutingStep(pc).Some? && !pc.Mark? {
      NotPending(s.store[id], s.loops[l].loop);
    }
  }

  lemma HandedBegins(s: System, id: RunId, k: nat, h: Handed)
    requires Inv(s) && PendingStep(s, id, k)
    requires forall l | l in s.loops && s.loops[l].run == id ::
               !(s.loops[l].loop.pc.Mark? && s.loops[l].loop.pc.step == k)
    ensures Keeps(Exec(s, HandOf(h, id, k)), id, k, h, s.store[id].row.initial)
  {
    hide Inv;
    forall l | l in s.loops && s.loops[l].run == id
      ensures PcHolds(s.loops[l].loop.pc, k, h, s.store[id].row.initial)
    {
      OnlyAtMark(s, id, k, l);
    }
  }

  /**
    A ticket or instructions handed to a pending step that no goroutine has read and not yet marked
    are what every later launch of the step carries, unless the same is handed over once more:
    through crashes, sweeps and restarts.
   */
  lemma HandedIsLaunched(a: seq<Action>, h: Handed, b: seq<Action>, id: RunId, k: nat)
    requires PendingStep(Play(Boot(), a), id, k) && forall x | x in b :: !Replaces(x, h, id, k)
    requires var s := Play(Boot(), a);
             forall l | l in s.loops && s.loops[l].run == id ::
               !(s.loops[l].loop.pc.Mark? && s.loops[l].loop.pc.step == k)
    ensures var t := Play(Boot(), a + [HandOf(h, id, k)] + b);
            forall l | l in t.loops && t.loops[l].run == id ::
              forall request | t.loops[l].loop.pc == Launch(k, request) ::
                InRequest(h, request, Play(Boot(), a).store[id].row.initial)
  {
    hide Inv, Play, Exec, InRequest, InRow, Replaces, RowHolds;
    var s, hand := Play(Boot(), a), HandOf(h, id, k);
    ReachableInv(a);
    HandedBegins(s, id, k, h);
    PlayedOn(a, hand);
    ReachableInv(a + [hand]);
    PlayKeepsIt(Play(Boot(), a + [hand]), b, id, k, h, s.store[id].row.initial);
    PlayConcat(Boot(), a + [hand], b);
  }

  // ----- handed over too late -----

  /** What is handed over in the window is stored, and the launch uses the row read before. */
  lemma HandoffIsLost(a: seq<Action>, h: Handed, b: seq<Action>, l: nat)
    requires l in Play(Boot(), a).loops && Play(Boot(), a).loops[l].loop.pc.Mark?
    ensures var s := Play(Boot(), a);
            var Driver(id, loop) := s.loops[l];
            var Mark(k, seen) := loop.pc;
            var hand := HandOf(h, id, k);
            var u, t := Play(Boot(), a + [hand]), Play(Boot(), a + [hand] + b);
            && id in s.store && id in u.store
            && k < |u.store[id].row.steps| && InRow(h, u.store[id].row.steps[k])
            && forall request | l in t.loops && t.loops[l].loop.pc == Launch(k, request) ::
                 Asks(request, seen, s.store[id].row.initial)
  {
    hide Inv, Play, Exec, InRow, RequestFor, Asks;
    var s := Play(Boot(), a);
    var Driver(id, loop) := s.loops[l];
    var hand := HandOf(h, id, loop.pc.step);
    HandoffWindow(a, l);
    PlayedOn(a, hand);
    IsHanded(s, id, loop.pc.step, h);
    LaunchedAsRead(a, [hand] + b, l);
    RowAsks(RequestFor(loop.pc.seen, s.store[id].row.initial), loop.pc.seen, s.store[id].row.initial);
    assert a + [hand] + b == a + ([hand] + b);
  }

  lemma IsHanded(s: System, id: RunId, k: nat, h: Handed)
    requires PendingStep(s, id, k)
    ensures var t := Exec(s, HandOf(h, id, k));
            id in t.store && k < |t.store[id].row.steps| && InRow(h, t.store[id].row.steps[k])
  {
  }

  /** The goroutine is about to fail the step for the missing ticket, or the step has failed. */
  ghost predicate Dooms(row: Run, pc: Pc, k: nat, seen: Step, initial: string) {
    && Bound(row, pc, k, seen, initial) && (pc.Launch? ==> pc.step != k)
    && (Past(pc, k) ==> pc == Settle(k, Failed, true) || row.steps[k].status.Failed?)
  }

  ghost predicate Doomed(s: System, l: nat, k: nat, seen: Step, initial: string) {
    && l < s.nextLoop
    && (l in s.loops ==>
          var Driver(id, loop) := s.loops[l];
          id in s.store && Dooms(s.store[id].row, loop.pc, k, seen, initial))
  }

  lemma BeginDooms(job: Job, loop: Loop, answer: Answer, k: nat, seen: Step, initial: string)
    requires Dooms(job.row, loop.pc, k, seen, initial) && MissingHandoff(seen)
    requires loop.pc.Mark? || loop.pc.Position? || loop.pc.Handoff?
    ensures var pc := LoopNext(job, loop, answer).1.pc;
            && (pc.Launch? ==> pc.step != k)
            && (Past(pc, k) ==> Past(loop.pc, k) || pc == Settle(k, Failed, true))
  {
    hide WithStatus, RequestFor;
  }

  lemma RestDooms(job: Job, loop: Loop, answer: Answer)
    requires !loop.pc.Mark? && !loop.pc.Position? && !loop.pc.Handoff?
    ensures !LoopNext(job, loop, answer).1.pc.Launch? || LoopNext(job, loop, answer).1.pc == loop.pc
  {
    hide WithStatus, WithInstance, SweepStep, LeftOut, RowsRead, NextPending;
  }

  lemma LoopDooms(job: Job, loop: Loop, answer: Answer, k: nat, seen: Step, initial: string)
    requires RunInv(job, Some(loop)) && !Locking(loop.pc)
    requires Dooms(job.row, loop.pc, k, seen, initial) && MissingHandoff(seen)
    ensures var (job', loop') := LoopNext(job, loop, answer); Dooms(job'.row, loop'.pc, k, seen, initial)
  {
    LoopCarries(job, loop, answer, k, seen, initial);
    LoopWrites(job, loop, answer);
    LoopNextLater(job, loop, answer);
    if loop.pc.Mark? || loop.pc.Position? || loop.pc.Handoff? {
      BeginDooms(job, loop, answer, k, seen, initial);
    } else {
      RestDooms(job, loop, answer);
    }
    hide RunInv, LoopNext, MissingHandoff;
    FailedStays(job, LoopNext(job, loop, answer).0, k);
  }

  lemma FailedStays(was: Job, now: Job, k: nat)
    requires JobLater(was, now) && k < |was.row.steps|
    ensures was.row.steps[k].status.Failed? ==> now.row.steps[k].status.Failed?
  {
    assert StepLater(was.row.steps[k], now.row.steps[k]);
  }

  lemma MoveDooms(s: System, l: nat, answer: Answer, k: nat, seen: Step, initial: string)
    requires Inv(s) && l in s.loops && Doomed(s, l, k, seen, initial) && MissingHandoff(seen)
    ensures Doomed(MoveLoop(s, l, answer), l, k, seen, initial)
  {
    hide Inv, LoopNext, Dooms, MissingHandoff;
    var Driver(id, loop) := s.loops[l];
    if Locking(loop.pc) {
      LeavingDooms(s.store[id].row, loop.pc, k, seen, initial);
    } else {
      LiveFacts(s, l);
      LoopDooms(s.store[id], loop, answer, k, seen, initial);
    }
  }

  lemma LeavingDooms(row: Run, pc: Pc, k: nat, seen: Step, initial: string)
    requires Dooms(row, pc, k, seen, initial) && Locking(pc)
    ensures Dooms(row, Deleting, k, seen, initial) && Dooms(row, Unlocking, k, seen, initial)
  {
  }

  lemma OtherDooms(s: System, a: Action, l: nat, k: nat, seen: Step, initial: string)
    requires Inv(s) && l in s.loops && Doomed(s, l, k, seen, initial) && NotOf([a], l)
    ensures Doomed(Exec(s, a), l, k, seen, initial)
  {
    hide Inv, Exec, Bound, Later;
    var Driver(id, loop) := s.loops[l];
    assert Carries(s, l, k, seen, initial);
    OtherCarries(s, a, l, k, seen, initial);
    NeverBorn(s.store[id].row, loop.pc, k, seen, initial);
    ActionKeepsPlace(s, a, l, id, loop.pc);
    ExecLater(s, a);
    FailedIn(s, Exec(s, a), id, k);
  }

  lemma NeverBorn(row: Run, pc: Pc, k: nat, seen: Step, initial: string)
    requires Bound(row, pc, k, seen, initial)
    ensures !pc.Born? && k < |row.steps|
  {
  }

  lemma FailedIn(s: System, t: System, id: RunId, k: nat)
    requires Later(s, t) && id in s.store && k < |s.store[id].row.steps|
    ensures id in t.store && k < |t.store[id].row.steps|
    ensures s.store[id].row.steps[k].status.Failed? ==> t.store[id].row.steps[k].status.Failed?
  {
    assert JobLater(s.store[id], t.store[id]);
    FailedStays(s.store[id], t.store[id], k);
  }

  lemma ExecDooms(s: System, a: Action, l: nat, k: nat, seen: Step, initial: string)
    requires Inv(s) && Doomed(s, l, k, seen, initial) && MissingHandoff(seen)
    ensures Doomed(Exec(s, a), l, k, seen, initial)
  {
    hide Inv, Dooms, MoveLoop, Later, MissingHandoff;
    ExecLater(s, a);
    NoReturn(s, Exec(s, a), l);
    if l in s.loops {
      if a.LoopMove? && a.loop == l {
        MoveDooms(s, l, a.answer, k, seen, initial);
      } else if !a.Crash? {
        hide Exec, Doomed;
        OtherDooms(s, a, l, k, seen, initial);
      }
    }
  }

  lemma {:induction false} PlayDooms(s: System, actions: seq<Action>, l: nat, k: nat, seen: Step, initial: string)
    requires Inv(s) && Doomed(s, l, k, seen, initial) && MissingHandoff(seen)
    ensures Doomed(Play(s, actions), l, k, seen, initial)
  {
    hide Inv, Exec, Doomed, MissingHandoff;
    if actions != [] {
      var before := actions[..|actions| - 1];
      PlayDooms(s, before, l, k, seen, initial);
      PlayKeeps(s, before);
      ExecDooms(Play(s, before), actions[|actions| - 1], l, k, seen, initial);
    }
  }

  /**
    Where the row read lacks the ticket its step requires, nothing handed over from then on helps:
    the goroutine never launches the step, and once it is past it the step has failed.
   */
  lemma MissingTicketFails(a: seq<Action>, b: seq<Action>, l: nat)
    requires l in Play(Boot(), a).loops && Play(Boot(), a).loops[l].loop.pc.Mark?
    requires Lacks(Play(Boot(), a).loops[l].loop.pc.seen)
    ensures var Mark(k, seen) := Play(Boot(), a).loops[l].loop.pc;
            var t := Play(Boot(), a + b);
            l in t.loops ==>
              var Driver(id, loop) := t.loops[l];
              && id in t.store && k < |t.store[id].row.steps| && !(loop.pc.Launch? && loop.pc.step == k)
              && (ExecutingStep(loop.pc) != Some(k) ==> t.store[id].row.steps[k].status.Failed?)
  {
    hide Inv, Play, MissingHandoff, Lacks;
    var s := Play(Boot(), a);
    ReachableInv(a);
    BoundAtMark(s, l);
    var seen := s.loops[l].loop.pc.seen;
    RowAsks(RequestFor(seen, ""), seen, "");
    PlayConcat(Boot(), a, b);
    PlayDooms(s, b, l, s.loops[l].loop.pc.step, s.loops[l].loop.pc.seen, s.store[s.loops[l].run].row.initial);
  }

  // ----- nothing missing -----

  /** Past the launch of step k the history says that it was launched. */
  ghost predicate Sends(job: Job, pc: Pc, k: nat, seen: Step, initial: string, n: nat) {
    && Bound(job.row, pc, k, seen, initial) && n <= |job.log|
    && (Past(pc, k) ==> exists reply :: Launched(k, RequestFor(seen, initial), reply) in job.log[n..])
  }

  ghost predicate Sending(s: System, l: nat, k: nat, seen: Step, initial: string, n: nat) {
    && l < s.nextLoop
    && (l in s.loops ==>
          var Driver(id, loop) := s.loops[l];
          id in s.store && Sends(s.store[id], loop.pc, k, seen, initial, n))
  }

  lemma LoopSends(job: Job, loop: Loop, answer: Answer, k: nat, seen: Step, initial: string, n: nat)
    requires RunInv(job, Some(loop)) && !Locking(loop.pc)
    requires Sends(job, loop.pc, k, seen, initial, n) && !MissingHandoff(seen)
    ensures var (job', loop') := LoopNext(job, loop, answer); Sends(job', loop'.pc, k, seen, initial, n)
  {
    LoopCarries(job, loop, answer, k, seen, initial);
    LoopNextLater(job, loop, answer);
    var (job', loop') := LoopNext(job, loop, answer);
    if Past(loop.pc, k) {
      hide *;
      StillSent(job, job', k, seen, initial, n);
    } else {
      assert Holds(loop.pc, k, seen, initial);
      LaunchSends(job, loop, answer, k, seen, initial, n);
      hide *;
    }
  }

  lemma StillSent(was: Job, now: Job, k: nat, seen: Step, initial: string, n: nat)
    requires JobLater(was, now) && n <= |was.log|
    requires exists reply :: Launched(k, RequestFor(seen, initial), reply) in was.log[n..]
    ensures n <= |now.log| && exists reply :: Launched(k, RequestFor(seen, initial), reply) in now.log[n..]
  {
    var reply :| Launched(k, RequestFor(seen, initial), reply) in was.log[n..];
    assert Launched(k, RequestFor(seen, initial), reply) in now.log[n..];
  }

  lemma LaunchSends(job: Job, loop: Loop, answer: Answer, k: nat, seen: Step, initial: string, n: nat)
    requires Holds(loop.pc, k, seen, initial) && !MissingHandoff(seen) && job.row.initial == initial
    requires n <= |job.log|
    ensures var (job', loop') := LoopNext(job, loop, answer);
            && n <= |job'.log|
            && (Past(loop'.pc, k) ==> exists reply :: Launched(k, RequestFor(seen, initial), reply) in job'.log[n..])
  {
    if loop.pc.Launch? {
      var e := Launched(k, RequestFor(seen, initial), Reply(answer));
      assert (job.log + [e])[n..] == job.log[n..] + [e];
      assert e in LoopNext(job, loop, answer).0.log[n..];
    }
    hide WithStatus, RequestFor, MissingHandoff;
  }

  lemma MoveSends(s: System, l: nat, answer: Answer, k: nat, seen: Step, initial: string, n: nat)
    requires Inv(s) && l in s.loops && Sending(s, l, k, seen, initial, n) && !MissingHandoff(seen)
    ensures Sending(MoveLoop(s, l, answer), l, k, seen, initial, n)
  {
    hide Inv, LoopNext, Sends, MissingHandoff;
    var Driver(id, loop) := s.loops[l];
    if Locking(loop.pc) {
      LeavingSends(s.store[id], loop.pc, k, seen, initial, n);
    } else {
      LiveFacts(s, l);
      LoopSends(s.store[id], loop, answer, k, seen, initial, n);
    }
  }

  lemma LeavingSends(job: Job, pc: Pc, k: nat, seen: Step, initial: string, n: nat)
    requires Sends(job, pc, k, seen, initial, n) && Locking(pc)
    ensures Sends(job, Deleting, k, seen, initial, n) && Sends(job, Unlocking, k, seen, initial, n)
  {
  }

  lemma OtherSends(s: System, a: Action, l: nat, k: nat, seen: Step, initial: string, n: nat)
    requires Inv(s) && l in s.loops && Sending(s, l, k, seen, initial, n) && NotOf([a], l)
    ensures Sending(Exec(s, a), l, k, seen, initial, n)
  {
    hide Inv, Exec, Bound, Later, Past, JobLater, RequestFor;
    var Driver(id, loop) := s.loops[l];
    assert Carries(s, l, k, seen, initial);
    OtherCarries(s, a, l, k, seen, initial);
    NeverBorn(s.store[id].row, loop.pc, k, seen, initial);
    ActionKeepsPlace(s, a, l, id, loop.pc);
    ExecLater(s, a);
    LaterJob(s, Exec(s, a), id);
    if Past(loop.pc, k) {
      StillSent(s.store[id], Exec(s, a).store[id], k, seen, initial, n);
    }
  }

  lemma LaterJob(s: System, t: System, id: RunId)
    requires Later(s, t) && id in s.store
    ensures id in t.store && JobLater(s.store[id], t.store[id]) && |s.store[id].log| <= |t.store[id].log|
  {
    assert JobLater(s.store[id], t.store[id]);
  }

  lemma ExecSends(s: System, a: Action, l: nat, k: nat, seen: Step, initial: string, n: nat)
    requires Inv(s) && Sending(s, l, k, seen, initial, n) && !MissingHandoff(seen)
    ensures Sending(Exec(s, a), l, k, seen, initial, n)
  {
    hide Inv, Sends, MoveLoop, Later, MissingHandoff;
    ExecLater(s, a);
    NoReturn(s, Exec(s, a), l);
    if l in s.loops {
      if a.LoopMove? && a.loop == l {
        MoveSends(s, l, a.answer, k, seen, initial, n);
      } else if !a.Crash? {
        hide Exec, Sending;
        OtherSends(s, a, l, k, seen, initial, n);
      }
    }
  }

  lemma {:induction false} PlaySends(s: System, actions: seq<Action>, l: nat, k: nat, seen: Step, initial: string,
                                     n: nat)
    requires Inv(s) && Sending(s, l, k, seen, initial, n) && !MissingHandoff(seen)
    ensures Sending(Play(s, actions), l, k, seen, initial, n)
  {
    hide Inv, Exec, Sending, MissingHandoff;
    if actions != [] {
      var before := actions[..|actions| - 1];
      PlaySends(s, before, l, k, seen, initial, n);
      PlayKeeps(s, before);
      ExecSends(Play(s, before), actions[|actions| - 1], l, k, seen, initial, n);
    }
  }

  /**
    Where the row read lacks nothing, the step is launched, with what that row asks for: once the
    goroutine is past executing it, the launch has been added to the history.
   */
  lemma LaunchedUnlessMissing(a: seq<Action>, b: seq<Action>, l: nat)
    requires l in Play(Boot(), a).loops && Play(Boot(), a).loops[l].loop.pc.Mark?
    requires !Lacks(Play(Boot(), a).loops[l].loop.pc.seen)
    ensures var s, t := Play(Boot(), a), Play(Boot(), a + b);
            var Driver(run, loop) := s.loops[l];
            var Mark(k, seen) := loop.pc;
            run in s.store && (l in t.loops && ExecutingStep(t.loops[l].loop.pc) != Some(k) ==>
              && t.loops[l].run in t.store && |s.store[run].log| <= |t.store[t.loops[l].run].log|
              && exists request, reply ::
                   Asks(request, seen, s.store[run].row.initial)
                   && Launched(k, request, reply) in t.store[t.loops[l].run].log[|s.store[run].log|..])
  {
    hide Inv, Play, MissingHandoff, Lacks, RequestFor, Asks, Bound;
    var s, t := Play(Boot(), a), Play(Boot(), a + b);
    ReachableInv(a);
    BoundAtMark(s, l);
    var Mark(k, seen) := s.loops[l].loop.pc;
    var initial, n := s.store[s.loops[l].run].row.initial, |s.store[s.loops[l].run].log|;
    RowAsks(RequestFor(seen, initial), seen, initial);
    PlayConcat(Boot(), a, b);
    PlaySends(s, b, l, k, seen, initial, n);
    if l in t.loops && ExecutingStep(t.loops[l].loop.pc) != Some(k) {
      NeverBorn(t.store[t.loops[l].run].row, t.loops[l].loop.pc, k, seen, initial);
      var reply :| Launched(k, RequestFor(seen, initial), reply) in t.store[t.loops[l].run].log[n..];
    }
  }
}
