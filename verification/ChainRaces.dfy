/**
  Start reads the status before it takes the lock, and Cancel reads and writes a pending run without
  it. This module shows what those unlocked reads cost, and that nothing is lost when no status
  changes between such a read and the write that relies on it.
 */
module ChainRaces {
  import opened Wrappers
  import opened ChainRun
  import opened ChainRunInvariant
  import opened ChainSystem
  import opened ChainInvariant
  import opened ChainPreservation
  import opened ChainProgress
  import opened ChainCalls
  import opened ChainOnce

  // ----- no change between read and write -----

  /** The run whose status this call has read as "pending" and is still going to overwrite. */
  function Relying(caller: Caller): Option<RunId> {
    match caller
    case StartWait(id) => Some(id)
    case StartCheck(id) => Some(id)
    case StartWrite(id) => Some(id)
    case CancelWrite(id) => Some(id)
    case _ => None
  }

  ghost predicate StatusKept(s: System, t: System, id: RunId) {
    id in s.store ==> id in t.store && t.store[id].row.status == s.store[id].row.status
  }

  /** No status changes on which a call that does not move relies. */
  ghost predicate Kept(s: System, t: System) {
    forall c | c in s.callers && c in t.callers && t.callers[c] == s.callers[c] && Relying(s.callers[c]).Some? ::
      StatusKept(s, t, Relying(s.callers[c]).value)
  }

  ghost predicate Undisturbed(actions: seq<Action>)
    decreases |actions|
  {
    actions == [] ||
    var before := actions[..|actions| - 1];
    Undisturbed(before) && Kept(Play(Boot(), before), Play(Boot(), actions))
  }

  ghost predicate Reliable(s: System) {
    && (forall id | id in s.store :: !s.store[id].raced)
    && (forall c | c in s.callers && Relying(s.callers[c]).Some? ::
          Relying(s.callers[c]).value in s.store && s.store[Relying(s.callers[c]).value].row.status.RunPending?)
  }

  lemma KeptReliable(s: System, t: System)
    requires Reliable(s) && Kept(s, t) && (forall id | id in t.store :: !t.store[id].raced)
    requires forall c | c in t.callers && Relying(t.callers[c]).Some? ::
               if c in s.callers && t.callers[c] == s.callers[c] then Relying(t.callers[c]).value in t.store
               else Holding(t, Relying(t.callers[c]).value)
    ensures Reliable(t)
  {
    forall c | c in t.callers && Relying(t.callers[c]).Some?
      ensures Holding(t, Relying(t.callers[c]).value)
    {
      if c in s.callers && t.callers[c] == s.callers[c] {
        assert StatusKept(s, t, Relying(s.callers[c]).value);
      }
    }
  }

  predicate Holding(s: System, id: RunId) {
    id in s.store && s.store[id].row.status.RunPending?
  }

  lemma MoveLoopReliable(s: System, l: nat, answer: Answer)
    requires Reliable(s) && l in s.loops && Kept(s, MoveLoop(s, l, answer))
    ensures Reliable(MoveLoop(s, l, answer))
  {
    hide LoopNext;
    var Driver(id, loop) := s.loops[l];
    if id in s.store {
      LoopKeepsMarks(s.store[id], loop, answer);
    }
    hide Kept;
    KeptReliable(s, MoveLoop(s, l, answer));
  }

  /** A call writes no status but one it relies on. */
  lemma MoveCallerUnraced(s: System, c: nat, answer: Answer)
    requires Reliable(s) && c in s.callers
    ensures var t := MoveCaller(s, c, answer);
            t.store.Keys == s.store.Keys && (forall id | id in t.store :: !t.store[id].raced)
  {
    hide Restartable, Fire;
    if Relying(s.callers[c]).Some? {
      assert Holding(s, Relying(s.callers[c]).value);
    }
  }

  lemma MoveCallerSelf(s: System, c: nat, answer: Answer)
    requires c in s.callers && (Relying(s.callers[c]).Some? ==> Holding(s, Relying(s.callers[c]).value))
    ensures var t := MoveCaller(s, c, answer);
            c in t.callers && Relying(t.callers[c]).Some? && t.callers[c] != s.callers[c] ==>
              t.store == s.store && Holding(s, Relying(t.callers[c]).value)
  {
    hide StartWritten, CancelWritten, Fire;
  }

  lemma MoveCallerReliable(s: System, c: nat, answer: Answer)
    requires Reliable(s) && c in s.callers && Kept(s, MoveCaller(s, c, answer))
    ensures Reliable(MoveCaller(s, c, answer))
  {
    MoveCallerUnraced(s, c, answer);
    MoveCallerOthers(s, c, answer);
    if Relying(s.callers[c]).Some? {
      assert Holding(s, Relying(s.callers[c]).value);
    }
    MoveCallerSelf(s, c, answer);
    hide MoveCaller, Kept;
    KeptReliable(s, MoveCaller(s, c, answer));
  }

  lemma MoveRecoveryReliable(s: System, answer: Answer)
    requires Reliable(s) && s.recovery.Some? && s.callers == map[]
    ensures Reliable(MoveRecovery(s, s.recovery.value, answer))
  {
    hide LeftOut, RowsRead, WithStatus;
  }

  lemma ExecReliable(s: System, a: Action)
    requires Inv(s) && Reliable(s) && Kept(s, Exec(s, a))
    ensures Reliable(Exec(s, a))
  {
    hide Inv, MoveCaller, MoveLoop, MoveRecovery, ActiveRuns, FreshSteps, WithStep, Kept;
    Idle(s);
    match a
    case SweepMove(answer) =>
      if s.recovery.Some? {
        MoveRecoveryReliable(s, answer);
      }
    case CallerMove(c, answer) =>
      if c in s.callers {
        MoveCallerReliable(s, c, answer);
      }
    case LoopMove(l, answer) =>
      if l in s.loops {
        MoveLoopReliable(s, l, answer);
      }
    case HandTicket(id, k, ticket) =>
      if PendingStep(s, id, k) {
        HandReliable(s, id, k, s.store[id].row.steps[k].(ticket := Some(ticket)));
      }
    case HandInstructions(id, k, text) =>
      if PendingStep(s, id, k) {
        HandReliable(s, id, k, s.store[id].row.steps[k].(instructions := text));
      }
    case _ =>
  }

  lemma HandReliable(s: System, id: RunId, k: nat, step: Step)
    requires PendingStep(s, id, k)
    ensures var job := WithStep(s.store[id], k, step);
            job.raced == s.store[id].raced && job.row.status == s.store[id].row.status
  {
  }

  lemma {:induction false} PlayReliable(actions: seq<Action>)
    requires Undisturbed(actions)
    ensures Reliable(Play(Boot(), actions))
  {
    hide Inv, Exec, Kept;
    if actions != [] {
      var before := actions[..|actions| - 1];
      PlayReliable(before);
      ReachableInv(before);
      ExecReliable(Play(Boot(), before), actions[|actions| - 1]);
    }
  }

  /** Where every Start and Cancel is undisturbed between its read and its write, no run is raced. */
  lemma UndisturbedIsUnraced(actions: seq<Action>, id: RunId)
    requires Undisturbed(actions)
    ensures var s := Play(Boot(), actions);
            id in s.store ==> !s.store[id].raced && !s.store[id].spoiled
  {
    PlayReliable(actions);
    ReachableInv(actions);
    var s := Play(Boot(), actions);
    if id in s.store {
      hide Inv, RunInv;
      LiveRun(s, id);
      Spoils(s.store[id], Live(s.registry, s.loops, id));
    }
  }

  lemma Spoils(job: Job, live: Option<Loop>)
    requires RunInv(job, live)
    ensures job.spoiled ==> job.raced
  {
  }

  /**
    What holds when every Start and Cancel is undisturbed: the steps are in order, every launch
    comes after the earlier steps were observed, "completed" means that every step is, "failed" and
    "canceled" after a start leave the steps wound down exactly if the listing left nothing out, and
    a terminal status, with the steps' statuses, is never left again.
   */
  lemma UndisturbedIsSafe(a: seq<Action>, b: seq<Action>, id: RunId)
    requires Undisturbed(a + b) && id in Play(Boot(), a).store
    ensures id in Play(Boot(), a + b).store
    ensures var was, now := Play(Boot(), a).store[id], Play(Boot(), a + b).store[id];
            && Shaped(now.row.steps) && InOrder(now.log)
            && (now.row.status.RunCompleted? ==> AllCompleted(now.row.steps))
            && (now.row.status in {RunFailed, RunCanceled} && now.begun ==>
                  (WoundDown(now.row.steps) <==> !now.unlisted))
            && (Terminal(was.row.status) ==>
                  && now.row.status == was.row.status && |now.row.steps| == |was.row.steps|
                  && forall k | 0 <= k < |was.row.steps| :: now.row.steps[k].status == was.row.steps[k].status)
  {
    hide Inv, RunInv, Play, Undisturbed;
    TerminalIsFinal(a, b, id);
    UndisturbedIsUnraced(a + b, id);
    ReachableInv(a + b);
    var s := Play(Boot(), a + b);
    LiveRun(s, id);
    Unraced(s.store[id], Live(s.registry, s.loops, id));
  }

  lemma Unraced(job: Job, live: Option<Loop>)
    requires RunInv(job, live) && !job.raced
    ensures Shaped(job.row.steps) && InOrder(job.log)
    ensures job.row.status.RunCompleted? ==> AllCompleted(job.row.steps)
    ensures job.row.status in {RunFailed, RunCanceled} && job.begun ==> (WoundDown(job.row.steps) <==> !job.unlisted)
  {
  }

  // ----- what a race does -----

  const STEP := Step(0, Pending, "build", "project", false, None, None, "")
  const RUN := "run-1"

  /** Two calls in flight on a new run, and nothing else. */
  function TwoCalls(steps: seq<Step>, first: Caller, second: Caller): System {
    System(map[RUN := NewJob("", steps)], map[], map[], 0, map[0 := first, 1 := second], None, None)
  }

  lemma Opening(steps: seq<Step>, second: Action)
    requires steps != [] && FreshSteps(steps) && second in {CallStart(1, RUN), CallCancel(1, RUN)}
    ensures Ahead(Boot(), [Create(RUN, "", steps), CallStart(0, RUN), second]) ==
            TwoCalls(steps, StartWait(RUN), if second.CallStart? then StartWait(RUN) else CancelWait(RUN))
  {
    var actions := [Create(RUN, "", steps), CallStart(0, RUN), second];
    var s1 := System(map[RUN := NewJob("", steps)], map[], map[], 0, map[], None, None);
    assert Exec(Boot(), actions[0]) == s1;
    var s2 := s1.(callers := map[0 := StartWait(RUN)]);
    assert Exec(s1, actions[1]) == s2;
    assert Ahead(Boot(), actions) == Ahead(s1, actions[1..]);
    assert Ahead(s1, actions[1..]) == Ahead(s2, actions[1..][1..]);
    assert actions[1..][1..] == [second];
    assert Ahead(s2, [second]) == Ahead(Exec(s2, second), []) == Exec(s2, second);
  }

  /** A canceled run can come back to "running": Start read "pending" before Cancel wrote. */
  lemma CanceledRunRestarts()
    ensures exists a, b ::
              && RUN in Play(Boot(), a).store && RUN in Play(Boot(), a + b).store
              && Play(Boot(), a).store[RUN].row.status.RunCanceled?
              && Play(Boot(), a + b).store[RUN].row.status.RunActive?
  {
    hide Exec, Ahead, Play, Moves;
    var opening := [Create(RUN, "", [STEP]), CallStart(0, RUN), CallCancel(1, RUN)];
    Opening([STEP], CallCancel(1, RUN));
    var s := TwoCalls([STEP], StartWait(RUN), CancelWait(RUN));
    CancelLooks(s, 1, RUN);
    var s1 := s.(callers := s.callers[1 := CancelRead(RUN)]);
    CancelWrites(s1, 1, RUN);
    var s2 := s1.(store := s.store[RUN := CancelWritten(s.store[RUN])], callers := s1.callers - {1});
    StartRuns(s2, 0, RUN);
    var a, b := opening + Moves(1, 5), Moves(0, 6);
    AheadConcat(Boot(), opening, Moves(1, 5));
    AheadConcat(Boot(), a, b);
    AheadIsPlay(Boot(), a);
    AheadIsPlay(Boot(), a + b);
    assert Play(Boot(), a) == s2;
    assert Play(Boot(), a + b) == Started(s2, 0, RUN);
  }

  /** Some sequence of actions with at most so many calls of Start on the run leads to the state. */
  ghost predicate Reached(s: System, starts: nat) {
    exists actions :: Play(Boot(), actions) == s && Starts(actions, RUN) <= starts
  }

  lemma {:induction false} StartsMore(a: seq<Action>, b: seq<Action>)
    requires forall x | x in b :: !x.CallStart?
    ensures Starts(a + b, RUN) == Starts(a, RUN)
  {
    if b == [] {
      assert a + b == a;
    } else {
      var before := b[..|b| - 1];
      StartsMore(a, before);
      assert (a + b)[..|a + b| - 1] == a + before;
    }
  }

  lemma ReachOn(s: System, starts: nat, more: seq<Action>)
    requires Reached(s, starts) && forall x | x in more :: !x.CallStart?
    ensures Reached(Ahead(s, more), starts)
  {
    hide Exec;
    var actions :| Play(Boot(), actions) == s && Starts(actions, RUN) <= starts;
    PlayConcat(Boot(), actions, more);
    AheadIsPlay(s, more);
    StartsMore(actions, more);
  }

  lemma ReachByCall(s: System, starts: nat, c: nat, n: nat)
    requires Reached(s, starts)
    ensures Reached(Ahead(s, Moves(c, n)), starts)
  {
    hide Exec, Play, Reached;
    ReachOn(s, starts, Moves(c, n));
  }

  lemma ReachByLoop(s: System, starts: nat, l: nat, answers: seq<Answer>)
    requires Reached(s, starts)
    ensures Reached(Ahead(s, LoopMoves(l, answers)), starts)
  {
    hide Exec, Play, Reached;
    ReachOn(s, starts, LoopMoves(l, answers));
  }

  // Two steps; launching the first fails, and so does opening the store to record the failure.

  const TWO_STEPS := [STEP, STEP.(position := 1)]
  const SENT := Request("build", "", "project", "")

  function Begun(steps: seq<Step>): Job {
    StartWritten(NewJob("", steps))
  }

  function Loops(pc: Pc): Loop {
    Loop(false, 0, None, pc)
  }

  function Abandoned(): Job {
    var job := Begun([STEP.(status := Failed), TWO_STEPS[1]]);
    job.(log := [Launched(0, SENT, None)], orphaned := true, spoiled := false, clean := true)
  }

  lemma GoroutineOpens(job: Job, answers: seq<Answer>)
    requires |answers| >= 2 && answers[0].Yes?
    ensures Works(job, Loops(Open), answers) == Works(job, Loops(Next), answers[2..])
    ensures WorksThrough(job, Loops(Open), answers) == WorksThrough(job, Loops(Next), answers[2..])
  {
    hide Works, WorksThrough;
    WorksOn(job, Loops(Open), answers, job, Loops(Top));
    WorksOn(job, Loops(Top), answers[1..], job, Loops(Next));
    assert answers[1..][1..] == answers[2..];
  }

  lemma FirstStepMarked()
    ensures var answers := [Yes(""), Yes(""), Yes(""), Yes("")];
            && WorksThrough(Begun(TWO_STEPS), Loops(Open), answers)
            && Works(Begun(TWO_STEPS), Loops(Open), answers) == (FirstRuns(), Loops(Position(0, STEP)))
  {
    hide Works, WorksThrough;
    var job, answers := Begun(TWO_STEPS), [Yes(""), Yes(""), Yes(""), Yes("")];
    GoroutineOpens(job, answers);
    WorksOn(job, Loops(Next), answers[2..], job, Loops(Mark(0, STEP)));
    assert TWO_STEPS[0 := STEP.(status := Running)] == FirstRuns().row.steps;
    WorksOn(job, Loops(Mark(0, STEP)), answers[3..], FirstRuns(), Loops(Position(0, STEP)));
    WorksNone(FirstRuns(), Loops(Position(0, STEP)));
  }

  function FirstRuns(): Job {
    Begun([STEP.(status := Running), TWO_STEPS[1]]).(spoiled := false, clean := true)
  }

  lemma FirstLaunchFails()
    ensures var answers := [Yes(""), Yes(""), No];
            && WorksThrough(FirstRuns(), Loops(Position(0, STEP)), answers)
            && Works(FirstRuns(), Loops(Position(0, STEP)), answers) ==
               (FirstRuns().(log := [Launched(0, SENT, None)]), Loops(Settle(0, Failed, true)))
  {
    hide Works, WorksThrough;
    var job, answers := FirstRuns(), [Yes(""), Yes(""), No];
    WorksOn(job, Loops(Position(0, STEP)), answers, job, Loops(Handoff(0, STEP)));
    WorksOn(job, Loops(Handoff(0, STEP)), answers[1..], job, Loops(Launch(0, SENT)));
    assert job.log + [Launched(0, SENT, None)] == [Launched(0, SENT, None)];
    var launched := job.(log := [Launched(0, SENT, None)]);
    WorksOn(job, Loops(Launch(0, SENT)), answers[2..], launched, Loops(Settle(0, Failed, true)));
    assert answers[2..][1..] == [];
    WorksNone(job.(log := [Launched(0, SENT, None)]), Loops(Settle(0, Failed, true)));
  }

  lemma FailureSettled(answers: seq<Answer>)
    requires |answers| >= 2
    ensures var job, failed := FirstRuns().(log := [Launched(0, SENT, None)]), Abandoned().(orphaned := false);
            && Works(job, Loops(Settle(0, Failed, true)), answers) == Works(failed, Loops(FailOpen), answers[2..])
            && WorksThrough(job, Loops(Settle(0, Failed, true)), answers)
               == WorksThrough(failed, Loops(FailOpen), answers[2..])
  {
    hide Works, WorksThrough;
    var job, failed := FirstRuns().(log := [Launched(0, SENT, None)]), Abandoned().(orphaned := false);
    assert job.row.steps[0 := STEP.(status := Failed)] == failed.row.steps;
    WorksOn(job, Loops(Settle(0, Failed, true)), answers, failed, Loops(Errored));
    WorksOn(failed, Loops(Errored), answers[1..], failed, Loops(FailOpen));
  }

  lemma FailureUnrecorded()
    ensures var answers, job := [Yes(""), Yes(""), No], FirstRuns().(log := [Launched(0, SENT, None)]);
            && WorksThrough(job, Loops(Settle(0, Failed, true)), answers)
            && Works(job, Loops(Settle(0, Failed, true)), answers) == (Abandoned(), Loops(Leave))
  {
    hide Works, WorksThrough;
    var answers := [Yes(""), Yes(""), No];
    FailureSettled(answers);
    WorksOn(Abandoned().(orphaned := false), Loops(FailOpen), answers[2..], Abandoned(), Loops(Leave));
    assert answers[2..][1..] == [];
    WorksNone(Abandoned(), Loops(Leave));
  }

  function SecondRuns(): Job {
    var job := StartWritten(Abandoned());
    job.(row := WithStatus(job.row, 1, Running))
  }

  lemma SecondStepRuns()
    ensures var answers, job := [Yes(""), Yes(""), Yes(""), Yes("")], StartWritten(Abandoned());
            && WorksThrough(job, Loops(Open), answers)
            && Works(job, Loops(Open), answers) == (SecondRuns(), Loops(Position(1, TWO_STEPS[1])))
  {
    hide Works, WorksThrough;
    var job, answers := StartWritten(Abandoned()), [Yes(""), Yes(""), Yes(""), Yes("")];
    var steps := job.row.steps;
    assert NextPending(steps) == 1;
    GoroutineOpens(job, answers);
    WorksOn(job, Loops(Next), answers[2..], job, Loops(Mark(1, steps[1])));
    WorksOn(job, Loops(Mark(1, steps[1])), answers[3..], SecondRuns(), Loops(Position(1, steps[1])));
    WorksNone(SecondRuns(), Loops(Position(1, steps[1])));
  }

  function SecondPlaced(): Job {
    SecondRuns().(row := SecondRuns().row.(position := 1))
  }

  function SecondLaunched(): Job {
    SecondPlaced().(log := [Launched(0, SENT, None), Launched(1, SENT, None)])
  }

  lemma SecondStepLaunches()
    ensures var answers := [Yes(""), Yes(""), No];
            && WorksThrough(SecondRuns(), Loops(Position(1, TWO_STEPS[1])), answers)
            && Works(SecondRuns(), Loops(Position(1, TWO_STEPS[1])), answers)
               == (SecondLaunched(), Loops(Settle(1, Failed, true)))
  {
    hide Works, WorksThrough;
    var job, seen, answers := SecondRuns(), TWO_STEPS[1], [Yes(""), Yes(""), No];
    WorksOn(job, Loops(Position(1, seen)), answers, SecondPlaced(), Loops(Handoff(1, seen)));
    WorksOn(SecondPlaced(), Loops(Handoff(1, seen)), answers[1..], SecondPlaced(), Loops(Launch(1, SENT)));
    assert SecondPlaced().log + [Launched(1, SENT, None)] == SecondLaunched().log;
    WorksOn(SecondPlaced(), Loops(Launch(1, SENT)), answers[2..], SecondLaunched(), Loops(Settle(1, Failed, true)));
    assert answers[2..][1..] == [];
    WorksNone(SecondLaunched(), Loops(Settle(1, Failed, true)));
  }

  /** The goroutine has failed without recording it and is gone; the run is still "running". */
  lemma FirstGoroutineIsLost(waiting: map<nat, Caller>, starts: nat) returns (s: System)
    requires 0 !in waiting && Reached(Called(waiting), starts)
    ensures Reached(s, starts) && s == System(map[RUN := Abandoned()], map[], map[], 1, waiting, None, None)
  {
    hide Exec, Ahead, Play, LoopMoves, Works, WorksThrough, Reached;
    var no := [Yes(""), Yes(""), No];
    var s0 := FirstGoroutineFails(waiting, starts);
    FailureUnrecorded();
    WorksInSystem(s0, 0, RUN, Loops(Settle(0, Failed, true)), no);
    ReachByLoop(s0, starts, 0, no);
    var s1 := WithDriver(s0, 0, RUN, Abandoned(), Loops(Leave));
    Departs(s1, 0, RUN, Loops(Leave), no);
    ReachByLoop(s1, starts, 0, no);
    s := s1.(registry := s1.registry - {RUN}, loops := s1.loops - {0});
  }

  /**
    A run can be "running" without a goroutine, after a single call of Start: the store could not be
    opened to record a failure.
   */
  lemma RunningWithoutGoroutine()
    ensures exists actions ::
              var s := Play(Boot(), actions);
              && Starts(actions, RUN) <= 1 && s.lock.None? && s.loops == map[] && s.registry == map[]
              && RUN in s.store && s.store[RUN].row.status.RunActive?
  {
    hide Exec, Ahead, Play, Starts;
    OneStarting();
    var s := FirstGoroutineIsLost(map[], 1);
    var actions :| Play(Boot(), actions) == s && Starts(actions, RUN) <= 1;
    assert s.store[RUN].row.status.RunActive?;
  }

  /** The first call's goroutine is lost, and the second call's runs the second step. */
  lemma SecondGoroutineRuns() returns (s: System)
    ensures Reached(s, 2) && RUN in s.store && s.store[RUN] == SecondRuns()
    ensures 1 in s.loops && s.loops[1] == Driver(RUN, Loops(Position(1, TWO_STEPS[1])))
  {
    hide Exec, Ahead, Play, Moves, LoopMoves, Works, WorksThrough, StartWritten, Reached;
    var yes := [Yes(""), Yes(""), Yes(""), Yes("")];
    BothStarting();
    var s2 := FirstGoroutineIsLost(map[1 := StartWait(RUN)], 2);
    StartRuns(s2, 1, RUN);
    ReachByCall(s2, 2, 1, 6);
    var s3 := Started(s2, 1, RUN);
    SecondStepRuns();
    WorksInSystem(s3, 1, RUN, Loops(Open), yes);
    ReachByLoop(s3, 2, 1, yes);
    s := WithDriver(s3, 1, RUN, SecondRuns(), Loops(Position(1, TWO_STEPS[1])));
  }

  /**
    With two calls of Start on one run and a failure that could not be recorded, a step runs, and is
    launched, after a failed one.
   */
  lemma StepsOutOfOrder()
    ensures exists actions ::
              RUN in Play(Boot(), actions).store && !Shaped(Play(Boot(), actions).store[RUN].row.steps)
    ensures exists actions ::
              RUN in Play(Boot(), actions).store && !InOrder(Play(Boot(), actions).store[RUN].log)
  {
    hide Exec, Ahead, Play, LoopMoves, Works, WorksThrough, Shaped, InOrder, Reached;
    var s := SecondGoroutineRuns();
    OutOfOrder(s);
    var answers := [Yes(""), Yes(""), No];
    SecondStepLaunches();
    WorksInSystem(s, 1, RUN, Loops(Position(1, TWO_STEPS[1])), answers);
    ReachByLoop(s, 2, 1, answers);
    LaunchedTooEarly(WithDriver(s, 1, RUN, SecondLaunched(), Loops(Settle(1, Failed, true))));
  }

  lemma OutOfOrder(s: System)
    requires Reached(s, 2) && RUN in s.store && s.store[RUN] == SecondRuns()
    ensures exists actions ::
              RUN in Play(Boot(), actions).store && !Shaped(Play(Boot(), actions).store[RUN].row.steps)
  {
    hide Play, Starts;
    var actions :| Play(Boot(), actions) == s && Starts(actions, RUN) <= 2;
    var steps := s.store[RUN].row.steps;
    assert steps[0].status.Failed? && steps[1].status.Running?;
  }

  lemma LaunchedTooEarly(s: System)
    requires Reached(s, 2) && RUN in s.store && s.store[RUN] == SecondLaunched()
    ensures exists actions ::
              RUN in Play(Boot(), actions).store && !InOrder(Play(Boot(), actions).store[RUN].log)
  {
    hide Play, Starts;
    var actions :| Play(Boot(), actions) == s && Starts(actions, RUN) <= 2;
    var log := s.store[RUN].log;
    assert log[..1] == [Launched(0, SENT, None)] && log[1] == Launched(1, SENT, None);
    assert Observed(0) !in log[..1];
  }

  /** A run of two steps with one call of Start about to lock, and other calls that wait. */
  function Called(waiting: map<nat, Caller>): System {
    System(map[RUN := NewJob("", TWO_STEPS)], map[], map[], 0, waiting[0 := StartWait(RUN)], None, None)
  }

  lemma StartsStep(actions: seq<Action>, id: RunId)
    requires actions != []
    ensures var last := actions[|actions| - 1];
            Starts(actions, id) ==
            Starts(actions[..|actions| - 1], id) + if last.CallStart? && last.run == id then 1 else 0
    ensures Starts([], id) == 0
  {
  }

  lemma BothStarting()
    ensures Reached(Called(map[1 := StartWait(RUN)]), 2)
  {
    var actions := [Create(RUN, "", TWO_STEPS), CallStart(0, RUN), CallStart(1, RUN)];
    hide Exec, Play, Ahead, Starts;
    StartsStep(actions[..1], RUN);
    StartsStep(actions[..2], RUN);
    StartsStep(actions, RUN);
    assert actions[..1][..0] == [] && actions[..2][..1] == actions[..1];
    Opening(TWO_STEPS, CallStart(1, RUN));
    AheadIsPlay(Boot(), actions);
    var callers: map<nat, Caller> := map[1 := StartWait(RUN)];
    assert TwoCalls(TWO_STEPS, StartWait(RUN), StartWait(RUN)).callers == callers[0 := StartWait(RUN)];
    assert Play(Boot(), actions) == Called(map[1 := StartWait(RUN)]);
  }

  lemma OneStarting()
    ensures Reached(Called(map[]), 1)
  {
    var actions := [Create(RUN, "", TWO_STEPS), CallStart(0, RUN)];
    var s1 := System(map[RUN := NewJob("", TWO_STEPS)], map[], map[], 0, map[], None, None);
    assert actions[..1][..0] == [];
    assert actions[..1] == [actions[0]];
    assert Play(Boot(), actions[..1][..0]) == Boot();
    assert Play(Boot(), actions[..1]) == Exec(Boot(), actions[0]) == s1;
    assert Play(Boot(), actions) == Exec(s1, actions[1]) == Called(map[]);
    assert Starts(actions[..1], RUN) == 0;
  }

  // ----- a wind-down that could not list the steps -----

  function Closed(job: Job, status: RunStatus): Job {
    job.(row := job.row.(status := status), working := false)
  }

  /** The first step has failed and the store is open again to record it. */
  function FailedFirst(): Job {
    Abandoned().(orphaned := false)
  }

  lemma ClosesUnlisted(job: Job, answers: seq<Answer>)
    requires LeftOut(job.row.steps, 0) && |answers| == 4 && answers[0].Yes? && answers[1].No?
    ensures WorksThrough(job, Loops(FailOpen), answers)
    ensures Works(job, Loops(FailOpen), answers) == (Closed(job.(unlisted := true), RunFailed), Loops(Leave))
  {
    hide Works, WorksThrough;
    var unlisted := job.(unlisted := true);
    var none := job.row.steps[..0];
    WorksOn(job, Loops(FailOpen), answers, job, Loops(ListSteps(RunFailed)));
    WorksOn(job, Loops(ListSteps(RunFailed)), answers[1..], unlisted, Loops(Sweep(RunFailed, none, 0)));
    WorksOn(unlisted, Loops(Sweep(RunFailed, none, 0)), answers[1..][1..], unlisted, Loops(Close(RunFailed)));
    WorksOn(unlisted, Loops(Close(RunFailed)), answers[1..][1..][1..], Closed(unlisted, RunFailed), Loops(Leave));
    assert answers[1..][1..][1..][1..] == [];
    WorksNone(Closed(unlisted, RunFailed), Loops(Leave));
  }

  const UNLISTED := [Yes(""), No, Yes(""), No, Yes(""), Yes("")]

  lemma FailureUnlisted()
    ensures var job := FirstRuns().(log := [Launched(0, SENT, None)]);
            && WorksThrough(job, Loops(Settle(0, Failed, true)), UNLISTED)
            && Works(job, Loops(Settle(0, Failed, true)), UNLISTED)
               == (Closed(FailedFirst().(unlisted := true), RunFailed), Loops(Leave))
  {
    PendingSecond();
    FailureSettled(UNLISTED);
    hide *;
    ClosesUnlisted(FailedFirst(), UNLISTED[2..]);
  }

  lemma PendingSecond()
    ensures var steps := FailedFirst().row.steps;
            |steps| == 2 && steps[0].status.Failed? && steps[1].status.Pending? && LeftOut(steps, 0)
  {
    assert FailedFirst().row.steps[1].status.Pending?;
  }

  /** The call of Start has returned and its goroutine is about to settle the first step. */
  lemma FirstGoroutineFails(waiting: map<nat, Caller>, starts: nat) returns (s: System)
    requires 0 !in waiting && Reached(Called(waiting), starts)
    ensures Reached(s, starts) && s.lock.None? && s.recovery.None? && s.registry == map[RUN := 0] && s.nextLoop == 1
    ensures s.callers == waiting && s.loops == map[0 := Driver(RUN, Loops(Settle(0, Failed, true)))]
    ensures s.store == map[RUN := FirstRuns().(log := [Launched(0, SENT, None)])]
  {
    hide Exec, Ahead, Play, Moves, LoopMoves, Works, WorksThrough, StartWritten, Reached;
    var yes, no := [Yes(""), Yes(""), Yes(""), Yes("")], [Yes(""), Yes(""), No];
    var s0 := Called(waiting);
    StartRuns(s0, 0, RUN);
    ReachByCall(s0, starts, 0, 6);
    var s1 := Started(s0, 0, RUN);
    FirstStepMarked();
    FirstLaunchFails();
    WorksInSystem(s1, 0, RUN, Loops(Open), yes);
    ReachByLoop(s1, starts, 0, yes);
    var s2 := WithDriver(s1, 0, RUN, FirstRuns(), Loops(Position(0, STEP)));
    WorksInSystem(s2, 0, RUN, Loops(Position(0, STEP)), no);
    ReachByLoop(s2, starts, 0, no);
    s := WithDriver(s2, 0, RUN, FirstRuns().(log := [Launched(0, SENT, None)]), Loops(Settle(0, Failed, true)));
  }

  /**
    A failed run can keep a pending step, after a single call of Start: failRun overlooks that the
    listing failed.
   */
  lemma FailedRunKeepsPending()
    ensures exists actions ::
              var s := Play(Boot(), actions);
              && Starts(actions, RUN) <= 1 && RUN in s.store && s.store[RUN].row.status.RunFailed?
              && !s.store[RUN].raced && !NonePending(s.store[RUN].row.steps)
  {
    hide Exec, Ahead, Play, LoopMoves, Works, WorksThrough, Reached;
    OneStarting();
    var s := FirstGoroutineFails(map[], 1);
    FailureUnlisted();
    PendingSecond();
    WorksInSystem(s, 0, RUN, Loops(Settle(0, Failed, true)), UNLISTED);
    ReachByLoop(s, 1, 0, UNLISTED);
    KeptPending(WithDriver(s, 0, RUN, Closed(FailedFirst().(unlisted := true), RunFailed), Loops(Leave)));
  }

  lemma KeptPending(s: System)
    requires Reached(s, 1) && RUN in s.store && s.store[RUN] == Closed(FailedFirst().(unlisted := true), RunFailed)
    ensures exists actions ::
              var s := Play(Boot(), actions);
              && Starts(actions, RUN) <= 1 && RUN in s.store && s.store[RUN].row.status.RunFailed?
              && !s.store[RUN].raced && !NonePending(s.store[RUN].row.steps)
  {
    hide Play, Starts;
    var actions :| Play(Boot(), actions) == s && Starts(actions, RUN) <= 1;
    assert s.store[RUN].row.steps[1].status.Pending?;
  }

  // ----- a second Start on a run that is over -----

  function SecondCanceled(): Job {
    FailedFirst().(row := WithStatus(FailedFirst().row, 1, Canceled))
  }

  lemma FirstSwept(answers: seq<Answer>)
    requires |answers| >= 3 && answers[0].Yes? && answers[1].Yes?
    ensures var job := FailedFirst();
            && Works(job, Loops(FailOpen), answers)
               == Works(job, Loops(Sweep(RunFailed, job.row.steps, 1)), answers[3..])
            && WorksThrough(job, Loops(FailOpen), answers)
               == WorksThrough(job, Loops(Sweep(RunFailed, job.row.steps, 1)), answers[3..])
  {
    hide Works, WorksThrough;
    var job := FailedFirst();
    var steps := job.row.steps;
    assert steps[..2] == steps && !LeftOut(steps, 2);
    WorksOn(job, Loops(FailOpen), answers, job, Loops(ListSteps(RunFailed)));
    WorksOn(job, Loops(ListSteps(RunFailed)), answers[1..], job, Loops(Sweep(RunFailed, steps, 0)));
    WorksOn(job, Loops(Sweep(RunFailed, steps, 0)), answers[2..], job, Loops(Sweep(RunFailed, steps, 1)));
  }

  /** The sweep discards the last step it listed and closes the run. */
  lemma LastSwept(job: Job, listed: seq<Step>, j: nat, answers: seq<Answer>)
    requires |answers| == 3 && j + 1 == |listed| && listed[j].status.Pending?
    ensures var over := job.(row := WithStatus(job.row, j, Canceled));
            && WorksThrough(job, Loops(Sweep(RunFailed, listed, j)), answers)
            && Works(job, Loops(Sweep(RunFailed, listed, j)), answers) == (Closed(over, RunFailed), Loops(Leave))
  {
    hide Works, WorksThrough, WithStatus;
    var over := job.(row := WithStatus(job.row, j, Canceled));
    WorksOn(job, Loops(Sweep(RunFailed, listed, j)), answers, over, Loops(Sweep(RunFailed, listed, j + 1)));
    WorksOn(over, Loops(Sweep(RunFailed, listed, j + 1)), answers[1..], over, Loops(Close(RunFailed)));
    WorksOn(over, Loops(Close(RunFailed)), answers[1..][1..], Closed(over, RunFailed), Loops(Leave));
    assert answers[1..][1..][1..] == [];
    WorksNone(Closed(over, RunFailed), Loops(Leave));
  }

  const LISTED := [Yes(""), No, Yes(""), Yes(""), Yes(""), Yes(""), Yes(""), Yes("")]

  lemma FailureListed()
    ensures var job := FirstRuns().(log := [Launched(0, SENT, None)]);
            && WorksThrough(job, Loops(Settle(0, Failed, true)), LISTED)
            && Works(job, Loops(Settle(0, Failed, true)), LISTED) == (Closed(SecondCanceled(), RunFailed), Loops(Leave))
  {
    FailureSettled(LISTED);
    FirstSwept(LISTED[2..]);
    PendingSecond();
    var answers := LISTED[2..][3..];
    assert SecondCanceled() == FailedFirst().(row := WithStatus(FailedFirst().row, 1, Canceled));
    hide *;
    LastSwept(FailedFirst(), FailedFirst().row.steps, 1, answers);
  }

  function Restarted(): Job {
    StartWritten(Closed(SecondCanceled(), RunFailed))
  }

  /** A goroutine that finds no step pending writes "completed". */
  lemma FindsNothing(job: Job)
    requires NonePending(job.row.steps)
    ensures var answers := [Yes(""), Yes(""), Yes(""), Yes("")];
            && WorksThrough(job, Loops(Open), answers)
            && Works(job, Loops(Open), answers) == (Closed(job, RunCompleted), Loops(Leave))
  {
    hide Works, WorksThrough;
    var answers := [Yes(""), Yes(""), Yes(""), Yes("")];
    GoroutineOpens(job, answers);
    assert NextPending(job.row.steps) == |job.row.steps|;
    WorksOn(job, Loops(Next), answers[2..], job, Loops(Close(RunCompleted)));
    WorksOn(job, Loops(Close(RunCompleted)), answers[3..], Closed(job, RunCompleted), Loops(Leave));
    WorksNone(Closed(job, RunCompleted), Loops(Leave));
  }

  lemma NothingLeft()
    ensures NonePending(Restarted().row.steps)
  {
    PendingSecond();
  }

  /**
    "completed" over steps that are not: a second Start on a run that has failed and been wound down
    finds no step pending. `TerminalExact` says that this is the only way.
   */
  lemma CompletedOverCanceled()
    ensures exists actions ::
              var s := Play(Boot(), actions);
              RUN in s.store && s.store[RUN].row.status.RunCompleted? && !AllCompleted(s.store[RUN].row.steps)
  {
    hide Exec, Ahead, Play, Moves, LoopMoves, Works, WorksThrough, Reached, StartWritten;
    BothStarting();
    var s := FirstGoroutineFails(map[1 := StartWait(RUN)], 2);
    FailureListed();
    WorksInSystem(s, 0, RUN, Loops(Settle(0, Failed, true)), LISTED);
    ReachByLoop(s, 2, 0, LISTED);
    var s1 := WithDriver(s, 0, RUN, Closed(SecondCanceled(), RunFailed), Loops(Leave));
    var gone := [Yes(""), Yes(""), Yes("")];
    Departs(s1, 0, RUN, Loops(Leave), gone);
    ReachByLoop(s1, 2, 0, gone);
    var s2 := s1.(registry := s1.registry - {RUN}, loops := s1.loops - {0});
    StartRuns(s2, 1, RUN);
    ReachByCall(s2, 2, 1, 6);
    var s3 := Started(s2, 1, RUN);
    var yes, l := [Yes(""), Yes(""), Yes(""), Yes("")], s2.nextLoop;
    NothingLeft();
    FindsNothing(Restarted());
    WorksInSystem(s3, l, RUN, Loops(Open), yes);
    ReachByLoop(s3, 2, l, yes);
    OverCanceled(WithDriver(s3, l, RUN, Closed(Restarted(), RunCompleted), Loops(Leave)));
  }

  lemma OverCanceled(s: System)
    requires Reached(s, 2) && RUN in s.store && s.store[RUN] == Closed(Restarted(), RunCompleted)
    ensures exists actions ::
              var s := Play(Boot(), actions);
              RUN in s.store && s.store[RUN].row.status.RunCompleted? && !AllCompleted(s.store[RUN].row.steps)
  {
    hide Play, Starts;
    var actions :| Play(Boot(), actions) == s && Starts(actions, RUN) <= 2;
    assert s.store[RUN].row.steps[0].status.Failed?;
  }
}
