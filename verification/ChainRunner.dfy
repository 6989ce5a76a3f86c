/**
  The runner as the program it is: an object whose methods rewrite the store and the registry.
  `tape` records the actions performed since the beginning, by this call and by everyone else;
  `Valid` says that the object's state is the one those actions lead to.
 */
module ChainRunner {
  import opened Wrappers
  import opened ChainRun
  import opened ChainRunInvariant
  import opened ChainSystem
  import opened ChainInvariant
  import opened ChainPreservation
  import opened ChainProgress
  import opened ChainCalls
  import opened ChainTermination
  import ChainTheorems
  import opened ChainVerdicts

  /** `now` continues `was` with actions of others than goroutine l, without a crash. */
  ghost predicate ByOthers(was: seq<Action>, now: seq<Action>, l: nat) {
    was <= now && NotOf(now[|was|..], l)
  }

  lemma RankFallsFrom(s: System, more: seq<Action>, l: nat)
    requires Inv(s) && l < s.nextLoop && more != [] && IsEffective(s, more[0], l)
    ensures LoopRank(Play(s, more), l) < LoopRank(s, l)
  {
    hide *;
    PlayRank(s, more, l);
    FirstMoveCounts(s, more, l);
  }

  lemma RankFalls(before: seq<Action>, now: seq<Action>, l: nat, id: RunId)
    requires InPlace(Play(Boot(), before), l, id, Top)
    requires before < now && now[|before|] == LoopMove(l, No)
    ensures LoopRank(Play(Boot(), now), l) < LoopRank(Play(Boot(), before), l)
  {
    hide *;
    var more := now[|before|..];
    EffectiveAtTop(Play(Boot(), before), l, id);
    ReachableInv(before);
    PlaceStored(Play(Boot(), before), l, id, Top);
    RankFallsFrom(Play(Boot(), before), more, l);
    PlayConcat(Boot(), before, more);
    assert before + more == now;
  }

  lemma EffectiveAtTop(s: System, l: nat, id: RunId)
    requires InPlace(s, l, id, Top)
    ensures IsEffective(s, LoopMove(l, No), l)
  {
  }

  lemma {:induction false} FirstMoveCounts(s: System, actions: seq<Action>, l: nat)
    requires actions != [] && IsEffective(s, actions[0], l)
    ensures EffectiveMoves(s, actions, l) >= 1
  {
    hide Exec;
    var last := |actions| - 1;
    if last == 0 {
      assert actions[..last] == [];
    } else {
      FirstMoveCounts(s, actions[..last], l);
    }
  }

  /** What a goroutine leaves behind: a terminal status that says what became of the steps. */
  ghost predicate Finished(job: Job) {
    && Quiet(job.row.steps) && job.begun && Ending(job)
    && (job.orphaned || (!job.working && Terminal(job.row.status)))
  }

  lemma FinishedAtLeave(tape: seq<Action>, l: nat, id: RunId)
    requires InPlace(Play(Boot(), tape), l, id, Leave)
    ensures Finished(Play(Boot(), tape).store[id])
  {
    var s := Play(Boot(), tape);
    hide Inv, RunInv, Finished, Play;
    ReachableInv(tape);
    LiveFacts(s, l);
    FinishedRun(s.store[id], s.loops[l].loop);
  }

  lemma FinishedRun(job: Job, loop: Loop)
    requires RunInv(job, Some(loop)) && loop.pc.Leave?
    ensures Finished(job)
  {
  }

  lemma PlaceStored(s: System, l: nat, id: RunId, pc: Pc)
    requires Inv(s) && InPlace(s, l, id, pc)
    ensures l < s.nextLoop
  {
    hide Inv;
    StoredLoop(s, l);
  }

  lemma StepIsThere(tape: seq<Action>, l: nat, id: RunId, pc: Pc)
    requires InPlace(Play(Boot(), tape), l, id, pc) && (pc.Mark? || pc.Settle?)
    ensures pc.step < |Play(Boot(), tape).store[id].row.steps|
  {
    var s := Play(Boot(), tape);
    hide Inv, PcInv, Play;
    ReachableInv(tape);
    StoredLoop(s, l);
    StepOf(s.store[id], s.loops[l].loop);
  }

  lemma StepOf(job: Job, loop: Loop)
    requires PcInv(job, loop) && (loop.pc.Mark? || loop.pc.Settle?)
    ensures loop.pc.step < |job.row.steps|
  {
    hide SameDefinition, Quiet, Clean, Ready;
  }

  lemma StartPlayed(tape: seq<Action>, c: nat, id: RunId)
    requires var s := Play(Boot(), tape);
             && c !in s.callers && s.lock.None? && s.recovery.None? && id !in s.registry
             && id in s.store && s.store[id].row.status.RunPending?
    ensures var s := Play(Boot(), tape);
            Play(Boot(), tape + [CallStart(c, id)] + Moves(c, 6)) == Started(s, c, id)
  {
    var s := Play(Boot(), tape);
    hide Play, Ahead, Moves, StartWritten;
    CallPlayed(tape, CallStart(c, id), c, 6);
    var s1 := s.(callers := s.callers[c := StartWait(id)]);
    StartRuns(s1, c, id);
    assert s1.callers - {c} == s.callers - {c};
  }

  /** The effect of Cancel on a registered run, or on a pending one that is not. */
  function CanceledBy(s: System, id: RunId): System
    requires id in s.store && (id in s.registry ==> s.registry[id] in s.loops)
  {
    if id in s.registry then
      s.(loops := s.loops[s.registry[id] := Driver(id, Fire(s.store[id], s.loops[s.registry[id]].loop))])
    else s.(store := s.store[id := CancelWritten(s.store[id])])
  }

  lemma CancelPlayed(tape: seq<Action>, c: nat, id: RunId)
    requires var s := Play(Boot(), tape);
             && c !in s.callers && s.lock.None? && s.recovery.None? && id in s.store
             && if id in s.registry then s.registry[id] in s.loops && s.loops[s.registry[id]].run == id
                else s.store[id].row.status.RunPending?
    ensures var s := Play(Boot(), tape);
            Play(Boot(), tape + [CallCancel(c, id)] + Moves(c, 5)) == CanceledBy(s, id)
  {
    var s := Play(Boot(), tape);
    hide Play, Ahead, Moves, Fire, CancelWritten;
    CallPlayed(tape, CallCancel(c, id), c, 5);
    var s1 := s.(callers := s.callers[c := CancelWait(id)]);
    CancelLooks(s1, c, id);
    if id in s.registry {
      var l := s.registry[id];
      var s2 := s1.(callers := s1.callers[c := CancelFire(l)]);
      CancelFires(s2, c, l);
      assert s2.callers - {c} == s.callers;
    } else {
      var s2 := s1.(callers := s1.callers[c := CancelRead(id)]);
      CancelWrites(s2, c, id);
      assert s2.callers - {c} == s.callers;
    }
  }

  lemma Consistent(tape: seq<Action>, id: RunId)
    ensures var s := Play(Boot(), tape);
            id in s.registry ==> s.registry[id] in s.loops && s.loops[s.registry[id]].run == id && id in s.store
  {
    hide Play;
    ReachableInv(tape);
    RegistryEntry(Play(Boot(), tape), id);
  }

  lemma RegistryEntry(s: System, id: RunId)
    requires Inv(s)
    ensures id in s.registry ==> s.registry[id] in s.loops && s.loops[s.registry[id]].run == id && id in s.store
  {
    hide RunInv, RunsInv, LockInv, CallerInv, ActiveInv, SpawnInv, RecoveryInv;
  }

  lemma RegisteredOrNot(tape: seq<Action>, id: RunId)
    ensures var s := Play(Boot(), tape);
            s.lock.None? ==> (id in s.registry <==> exists l :: l in s.loops && s.loops[l].run == id)
  {
    ChainTheorems.RegisteredExactly(tape, id);
  }

  // ----- what the sweep does -----

  /** Every pending or running step canceled, the others as they were. */
  function Discarded(steps: seq<Step>): (r: seq<Step>)
    ensures |r| == |steps|
    ensures forall k | 0 <= k < |steps| ::
              r[k] == if steps[k].status.Pending? || steps[k].status.Running?
                      then steps[k].(status := Canceled) else steps[k]
  {
    if steps == [] then []
    else
      var last := steps[|steps| - 1];
      Discarded(steps[..|steps| - 1]) +
      [if last.status.Pending? || last.status.Running? then last.(status := Canceled) else last]
  }

  /** The record once the sweep has passed the first j steps. */
  function PartlySwept(job: Job, j: nat): Job
    requires j <= |job.row.steps|
  {
    job.(row := job.row.(steps := Discarded(job.row.steps[..j]) + job.row.steps[j..]))
  }

  lemma SweepNext(job: Job, n: nat, j: nat)
    requires j < n <= |job.row.steps|
    ensures SweepCancel(PartlySwept(job, j), job.row.steps[..n], j) == PartlySwept(job, j + 1)
  {
    assert SweepCancel(PartlySwept(job, j), job.row.steps[..n], j).row.steps == PartlySwept(job, j + 1).row.steps;
  }

  lemma SweepBegins(job: Job)
    ensures PartlySwept(job, 0) == job
  {
    assert PartlySwept(job, 0).row.steps == job.row.steps;
  }

  /** The reply to listing a run's steps: all rows, or those before the row at which it fails. */
  function RowsOf(rows: map<RunId, nat>, id: RunId): Answer {
    if id in rows then Part(rows[id]) else Yes("")
  }

  function Swept(job: Job, answer: Answer): Job {
    var n := RowsRead(answer, |job.row.steps|);
    SweepClosed(PartlySwept(job.(unlisted := LeftOut(job.row.steps, n)), n))
  }

  function SweptStore(store: map<RunId, Job>, rows: map<RunId, nat>): map<RunId, Job> {
    map id | id in store :: if store[id].row.status.RunActive? then Swept(store[id], RowsOf(rows, id)) else store[id]
  }

  /**
    After a sweep at startup no run is "running"; a run it failed has a pending or running step left
    exactly if the listing broke off before one; completed and failed steps and the history stay,
    runs that were not running stay as they were, and a second sweep changes nothing.
   */
  lemma RecoveryCleans(store: map<RunId, Job>, rows: map<RunId, nat>, again: map<RunId, nat>)
    ensures var after := SweptStore(store, rows);
            && after.Keys == store.Keys && SweptStore(after, again) == after
            && forall id | id in store :: SweptWell(store[id], after[id], RowsOf(rows, id))
  {
    var after := SweptStore(store, rows);
    forall id | id in store
      ensures SweptWell(store[id], after[id], RowsOf(rows, id)) && SweptStore(after, again)[id] == after[id]
    {
      hide SweptWell, Swept;
      SweptIsWell(store[id], RowsOf(rows, id));
    }
  }

  ghost predicate SweptWell(was: Job, now: Job, answer: Answer) {
    var steps, steps' := was.row.steps, now.row.steps;
    && !now.row.status.RunActive? && now.log == was.log && |steps'| == |steps|
    && (!was.row.status.RunActive? ==> now == was)
    && (was.row.status.RunActive? ==>
          && now.row.status.RunFailed? && !now.working && !now.orphaned
          && (forall k | 0 <= k < |steps| && Settled(steps[k].status) :: steps'[k] == steps[k])
          && (forall k | 0 <= k < |steps| && steps'[k] != steps[k] :: steps'[k].status.Canceled?)
          && (Over(steps') <==> !LeftOut(steps, RowsRead(answer, |steps|)))
          && (now.unlisted <==> !Over(steps'))
          && (Shaped(steps) ==> (WoundDown(steps') <==> !now.unlisted)))
  }

  /** The steps after the sweep, one by one. */
  lemma SweptSteps(job: Job, answer: Answer)
    ensures var steps, steps' := job.row.steps, Swept(job, answer).row.steps;
            && |steps'| == |steps|
            && forall k | 0 <= k < |steps| ::
                 steps'[k] == if k < RowsRead(answer, |steps|) && (steps[k].status.Pending? || steps[k].status.Running?)
                              then steps[k].(status := Canceled) else steps[k]
  {
    var steps, n := job.row.steps, RowsRead(answer, |job.row.steps|);
    assert Swept(job, answer).row.steps == Discarded(steps[..n]) + steps[n..] by {
      hide LeftOut, RowsRead, Discarded;
    }
    PartlyDiscarded(steps, n);
    hide LeftOut, RowsRead, Discarded, Swept;
  }

  lemma PartlyDiscarded(steps: seq<Step>, n: nat)
    requires n <= |steps|
    ensures var steps' := Discarded(steps[..n]) + steps[n..];
            && |steps'| == |steps|
            && forall k | 0 <= k < |steps| ::
                 steps'[k] == if k < n && (steps[k].status.Pending? || steps[k].status.Running?)
                              then steps[k].(status := Canceled) else steps[k]
  {
    hide Discarded;
    assert forall k | 0 <= k < n :: steps[..n][k] == steps[k];
  }

  lemma SweptIsOver(steps: seq<Step>, steps': seq<Step>, n: nat)
    requires |steps'| == |steps| && n <= |steps|
    requires forall k | 0 <= k < |steps| ::
               steps'[k] == if k < n && (steps[k].status.Pending? || steps[k].status.Running?)
                            then steps[k].(status := Canceled) else steps[k]
    ensures Over(steps') <==> !LeftOut(steps, n)
    ensures Shaped(steps) ==> Shaped(steps')
  {
    if LeftOut(steps, n) {
      var k :| n <= k < |steps| && (steps[k].status.Pending? || steps[k].status.Running?);
      assert steps'[k] == steps[k];
    }
  }

  lemma SweptIsWell(job: Job, answer: Answer)
    ensures job.row.status.RunActive? ==> SweptWell(job, Swept(job, answer), answer)
    ensures !job.row.status.RunActive? ==> SweptWell(job, job, answer)
    ensures !Swept(job, answer).row.status.RunActive?
  {
    SweptSteps(job, answer);
    SweptIsOver(job.row.steps, Swept(job, answer).row.steps, RowsRead(answer, |job.row.steps|));
    SweptMarks(job, answer);
    WellIfOver(job, Swept(job, answer), answer);
  }

  lemma WellIfOver(job: Job, now: Job, answer: Answer)
    requires now.row.status.RunFailed? && now.log == job.log && !now.working && !now.orphaned
    requires now.unlisted == LeftOut(job.row.steps, RowsRead(answer, |job.row.steps|)) == !Over(now.row.steps)
    requires |now.row.steps| == |job.row.steps|
    requires forall k | 0 <= k < |job.row.steps| && now.row.steps[k] != job.row.steps[k] ::
               now.row.steps[k].status.Canceled? && !Settled(job.row.steps[k].status)
    requires Shaped(job.row.steps) ==> Shaped(now.row.steps)
    ensures job.row.status.RunActive? ==> SweptWell(job, now, answer)
  {
    hide LeftOut, RowsRead, Shaped, Quiet, NonePending;
  }

  lemma SweptMarks(job: Job, answer: Answer)
    ensures var now := Swept(job, answer);
            && now.row.status.RunFailed? && now.log == job.log && !now.working && !now.orphaned
            && now.unlisted == LeftOut(job.row.steps, RowsRead(answer, |job.row.steps|))
  {
    hide LeftOut, RowsRead, Discarded;
  }

  // ----- the end of a goroutine -----

  /** How many moves the holder of the lock has to make until it releases it, at most. */
  function LockRank(s: System): nat {
    match s.lock
    case None => 0
    case Some(ByLoop(m)) => if m in s.loops && s.loops[m].loop.pc.Deleting? then 2 else 1
    case Some(ByCaller(c)) =>
      if c !in s.callers then 0
      else
        match s.callers[c]
        case StartCheck(_) => 4
        case StartWrite(_) => 3
        case StartRegister(_) => 2
        case CancelLook(_) => 2
        case _ => 1
  }

  /** The next move of whoever holds the lock. */
  function HolderMove(s: System): Action
    requires s.lock.Some?
  {
    match s.lock.value
    case ByCaller(c) => CallerMove(c, Yes(""))
    case ByLoop(m) => LoopMove(m, No)
  }

  lemma HolderAdvances(tape: seq<Action>, l: nat, id: RunId)
    requires Play(Boot(), tape).lock.Some? && InPlace(Play(Boot(), tape), l, id, Leave)
    ensures var s := Play(Boot(), tape);
            var t := Exec(s, HolderMove(s));
            && LockRank(t) < LockRank(s) && InPlace(t, l, id, Leave)
            && match s.lock.value
               case ByCaller(c) => c in s.callers && t == MoveCaller(s, c, Yes(""))
               case ByLoop(m) => m in s.loops && m != l && t == MoveLoop(s, m, No)
  {
    var s := Play(Boot(), tape);
    hide Play, Exec, Inv;
    ReachableInv(tape);
    HolderIsThere(s);
    match s.lock.value
    case ByCaller(c) =>
      CallerAdvances(s, c);
      CallKeepsPlace(s, c, Yes(""), l, id, Leave);
      ExecMoves(s, HolderMove(s));
    case ByLoop(m) =>
      LoopAdvances(s, m);
      LoopKeepsPlace(s, m, No, l, id, Leave);
      ExecMoves(s, HolderMove(s));
  }

  lemma ExecMoves(s: System, a: Action)
    ensures a.CallerMove? && a.caller in s.callers ==> Exec(s, a) == MoveCaller(s, a.caller, a.answer)
    ensures a.LoopMove? && a.loop in s.loops ==> Exec(s, a) == MoveLoop(s, a.loop, a.answer)
  {
    hide MoveCaller, MoveLoop;
  }

  lemma HolderIsThere(s: System)
    requires Inv(s) && s.lock.Some?
    ensures s.lock.value.ByCaller? ==>
              var c := s.lock.value.caller;
              c in s.callers && HoldsLock(s.callers[c]) && TargetInv(s.callers[c], s.store, s.registry)
    ensures s.lock.value.ByLoop? ==> s.lock.value.loop in s.loops && AfterDelete(s.loops[s.lock.value.loop].loop.pc)
  {
    hide RunsInv, RegistryInv, ActiveInv, SpawnInv, RecoveryInv, TargetInv;
  }

  lemma CallerAdvances(s: System, c: nat)
    requires s.lock == Some(ByCaller(c)) && c in s.callers && HoldsLock(s.callers[c])
    requires TargetInv(s.callers[c], s.store, s.registry)
    ensures LockRank(MoveCaller(s, c, Yes(""))) < LockRank(s)
  {
    hide StartWritten, CancelWritten, Fire, Resting, Startable;
  }

  lemma LoopAdvances(s: System, m: nat)
    requires s.lock == Some(ByLoop(m)) && m in s.loops && AfterDelete(s.loops[m].loop.pc)
    ensures LockRank(MoveLoop(s, m, No)) < LockRank(s)
  {
    hide LoopNext;
  }

  /** When a goroutine is about to unlock, its run is not registered and its work is over or orphaned. */
  lemma EndsUnregistered(tape: seq<Action>, l: nat, id: RunId)
    requires InPlace(Play(Boot(), tape), l, id, Unlocking)
    ensures var s := Play(Boot(), tape);
            id !in s.registry && Ending(s.store[id]) && (s.store[id].working ==> s.store[id].orphaned)
  {
    hide Play, Inv, RunInv, Ending;
    ReachableInv(tape);
    var s := Play(Boot(), tape);
    LiveRun(s, id);
    EndingOf(s.store[id], Live(s.registry, s.loops, id));
    Unregistered(s, l);
  }

  lemma EndingOf(job: Job, live: Option<Loop>)
    requires RunInv(job, live)
    ensures Ending(job)
  {
    hide Ending;
  }

  lemma Unregistered(s: System, l: nat)
    requires Inv(s) && l in s.loops && s.loops[l].loop.pc.Unlocking?
    ensures var id := s.loops[l].run;
            id in s.store && id !in s.registry && (s.store[id].working ==> s.store[id].orphaned)
  {
    hide RunInv, CallerInv, SpawnInv, RecoveryInv, RunsInv;
  }

  class Runner {
    var store: map<RunId, Job>
    var runs: map<RunId, nat>
    var loops: map<nat, Driver>
    var nextLoop: nat
    var callers: map<nat, Caller>
    var lock: Option<Owner>
    var recovery: Option<Recovery>
    ghost var tape: seq<Action>

    function View(): System
      reads this
    {
      System(store, runs, loops, nextLoop, callers, lock, recovery)
    }

    ghost predicate Valid()
      reads this
    {
      View() == Play(Boot(), tape)
    }

    constructor ()
      ensures Valid() && View() == Boot() && tape == []
    {
      store, runs, loops, nextLoop, callers, lock, recovery := map[], map[], map[], 0, map[], None, None;
      tape := [];
    }

    /** Goroutine l of run id is at pc. */
    ghost predicate At(l: nat, id: RunId, pc: Pc)
      reads this
    {
      l in loops && loops[l].run == id && loops[l].loop.pc == pc && id in store
    }

    // ----- chainrunner.go -----

    /**
      Start, uninterrupted; `readable` says whether opening the store and reading the run work. It
      succeeds exactly when they do and the run exists, is pending and not registered; then the run
      is "running" and registered for a new goroutine. Otherwise nothing changes.
     */
    method Start(c: nat, id: RunId, readable: bool) returns (started: bool)
      requires Valid() && c !in callers && lock.None? && recovery.None?
      modifies this
      ensures Valid() && old(tape) <= tape
      ensures started == old(readable && id in store && store[id].row.status.RunPending? && id !in runs)
      ensures View() == if started then Started(old(View()), c, id) else old(View())
    {
      started := false;
      if !readable || id !in store || !store[id].row.status.RunPending? {
        return;
      }
      lock := Some(ByCaller(c));
      if id in runs {
        lock := None;
        return;
      }
      store := store[id := StartWritten(store[id])];
      runs := runs[id := nextLoop];
      loops := loops[nextLoop := Driver(id, Loop(false, 0, None, Open))];
      nextLoop := nextLoop + 1;
      lock := None;
      started := true;
      assert callers - {c} == callers;
      StartPlayed(tape, c, id);
      tape := tape + [CallStart(c, id)] + Moves(c, 6);
    }

    /**
      Cancel, uninterrupted: a registered run has its context canceled, a pending one that is not
      registered becomes "canceled"; in every other case nothing changes and an error is returned.
     */
    method Cancel(c: nat, id: RunId) returns (ok: bool)
      requires Valid() && c !in callers && lock.None? && recovery.None?
      modifies this
      ensures Valid() && old(tape) <= tape
      ensures ok ==> old(id in runs || (id in store && store[id].row.status.RunPending?))
      ensures old(id in runs) ==> ok
      ensures !ok ==> View() == old(View())
      ensures ok && old(id in runs) ==>
                var l := old(runs[id]);
                && l in old(loops) && old(loops)[l].run == id && id in old(store)
                && var fired := Fire(old(store)[id], old(loops)[l].loop);
                   && View() == old(View()).(loops := old(loops)[l := Driver(id, fired)])
                   && loops[l].loop.canceled && loops[l].loop.pc == old(loops)[l].loop.pc
      ensures ok && old(id !in runs) ==>
                View() == old(View()).(store := old(store)[id := CancelWritten(old(store)[id])])
    {
      Consistent(tape, id);
      assert callers - {c} == callers;
      if id in runs {
        var l := runs[id];
        ok := true;
        CancelPlayed(tape, c, id);
        loops := loops[l := Driver(id, Fire(store[id], loops[l].loop))];
        tape := tape + [CallCancel(c, id)] + Moves(c, 5);
        return;
      }
      var readable := *;
      ok := id in store && readable && store[id].row.status.RunPending?;
      if ok {
        CancelPlayed(tape, c, id);
        store := store[id := CancelWritten(store[id])];
        tape := tape + [CallCancel(c, id)] + Moves(c, 5);
      }
    }

    /** GetActiveRuns */
    method GetActiveRuns() returns (order: seq<RunId>)
      ensures ActiveRuns(View(), order)
    {
      order := [];
      var rest := store.Keys;
      while rest != {}
        invariant rest <= store.Keys
        invariant forall id :: id in order <==> id in store && id !in rest && store[id].row.status.RunActive?
        invariant forall i, j | 0 <= i < j < |order| :: order[i] != order[j]
      {
        var id :| id in rest;
        if store[id].row.status.RunActive? {
          order := order + [id];
        }
        rest := rest - {id};
      }
    }

    /** One store access of the sweep, which takes it from `at` to `next` and may rewrite one run. */
    method SweepAct(at: Recovery, action: Action, id: RunId, job: Job, next: Option<Recovery>)
      requires Valid() && recovery == Some(at) && id in store
      requires Exec(View(), action) == View().(store := store[id := job], recovery := next)
      modifies this
      ensures Valid() && tape == old(tape) + [action] && recovery == next && store == old(store)[id := job]
    {
      store, recovery := store[id := job], next;
      Acted(action);
    }

    /** The sweep goes on, or ends, without touching the store. */
    method SweepPass(at: Recovery, action: Action, next: Option<Recovery>)
      requires Valid() && recovery == Some(at)
      requires Exec(View(), action) == View().(recovery := next)
      modifies this
      ensures Valid() && tape == old(tape) + [action] && recovery == next && store == old(store)
    {
      recovery := next;
      Acted(action);
    }

    /**
      FailAllRunning at startup. `readable` says whether the query for active runs works, `rows`
      for which runs listing the steps fails, and after how many rows.
     */
    method FailAllRunning(readable: bool, rows: map<RunId, nat>)
      requires Valid() && recovery == Some(Query)
      modifies this
      ensures Valid() && old(tape) <= tape && recovery.None?
      ensures store == if readable then SweptStore(old(store), rows) else old(store)
    {
      hide Play, Swept;
      if !readable {
        SweepPass(Query, SweepMove(No), None);
        return;
      }
      var todo := GetActiveRuns();
      SweepPass(Query, SweepFound(todo), Some(Listing(todo)));
      SweepAll(todo, rows);
    }

    method SweepAll(todo: seq<RunId>, rows: map<RunId, nat>)
      requires Valid() && recovery == Some(Listing(todo))
      requires forall i | 0 <= i < |todo| :: todo[i] in store
      requires forall i, j | 0 <= i < j < |todo| :: todo[i] != todo[j]
      modifies this
      ensures Valid() && old(tape) <= tape && recovery.None? && store.Keys == old(store).Keys
      ensures forall id | id in store ::
                store[id] == if id in todo then Swept(old(store)[id], RowsOf(rows, id)) else old(store)[id]
    {
      hide Play, Swept;
      var i := 0;
      while i < |todo|
        invariant i <= |todo| && Valid() && old(tape) <= tape && recovery == Some(Listing(todo[i..]))
        invariant store.Keys == old(store).Keys
        invariant forall id | id in store ::
                    store[id] == if id in todo[..i] then Swept(old(store)[id], RowsOf(rows, id)) else old(store)[id]
      {
        SweepRun(todo[i..], RowsOf(rows, todo[i]));
        assert todo[i..][1..] == todo[i + 1..];
        i := i + 1;
      }
      assert todo[..i] == todo;
      SweepPass(Listing(todo[i..]), SweepMove(Yes("")), None);
    }

    /** One run of the sweep: cancel its pending and running steps, then fail it. */
    method SweepRun(todo: seq<RunId>, answer: Answer)
      requires Valid() && recovery == Some(Listing(todo)) && todo != [] && todo[0] in store
      modifies this
      ensures Valid() && old(tape) <= tape && recovery == Some(Listing(todo[1..]))
      ensures store == old(store)[todo[0] := Swept(old(store)[todo[0]], answer)]
    {
      hide Exec, Play;
      SweepSteps(todo, answer);
      FailSwept(todo);
    }

    method FailSwept(todo: seq<RunId>)
      requires Valid() && recovery == Some(Closing(todo)) && todo != [] && todo[0] in store
      modifies this
      ensures Valid() && old(tape) <= tape && recovery == Some(Listing(todo[1..]))
      ensures store == old(store)[todo[0] := SweepClosed(old(store)[todo[0]])]
    {
      hide Play, SweepClosed;
      SweepAct(Closing(todo), SweepMove(Yes("")), todo[0], SweepClosed(store[todo[0]]),
               Some(Listing(todo[1..])));
    }

    method SweepSteps(todo: seq<RunId>, answer: Answer)
      requires Valid() && recovery == Some(Listing(todo)) && todo != [] && todo[0] in store
      modifies this
      ensures Valid() && old(tape) <= tape && recovery == Some(Closing(todo))
      ensures var job := old(store)[todo[0]];
              var n := RowsRead(answer, |job.row.steps|);
              store == old(store)[todo[0] := PartlySwept(job.(unlisted := LeftOut(job.row.steps, n)), n)]
    {
      hide Play, Discarded, SweepCancel, LeftOut, RowsRead, PartlySwept;
      var id, n := todo[0], RowsRead(answer, |store[todo[0]].row.steps|);
      var job := store[id].(unlisted := LeftOut(store[id].row.steps, n));
      var listed, j := job.row.steps[..n], 0;
      SweepAct(Listing(todo), SweepMove(answer), id, job, Some(Walking(todo, listed, 0)));
      SweepBegins(job);
      while j < |listed|
        invariant j <= |listed| && Valid() && old(tape) <= tape && recovery == Some(Walking(todo, listed, j))
        invariant store == old(store)[id := PartlySwept(job, j)]
      {
        SweepAct(Walking(todo, listed, j), SweepMove(Yes("")), id, SweepCancel(store[id], listed, j),
                 Some(Walking(todo, listed, j + 1)));
        SweepNext(job, n, j);
        j := j + 1;
      }
      SweepPass(Walking(todo, listed, j), SweepMove(Yes("")), Some(Closing(todo)));
    }

    /** IsRunning */
    method IsRunning(id: RunId) returns (running: bool)
      requires Valid() && lock.None?
      ensures running <==> exists l :: l in loops && loops[l].run == id
    {
      RegisteredOrNot(tape, id);
      running := id in runs;
    }

    /** Anyone may act while this call sleeps or waits for the lock. */
    method Anyone()
      requires Valid()
      modifies this
      ensures Valid() && old(tape) <= tape
    {
    }

    /** WaitAll; the deadline is a number of rounds. When it reports early, no goroutine is left. */
    method WaitAll(rounds: nat) returns (drained: bool)
      requires Valid()
      modifies this
      ensures Valid() && old(tape) <= tape
      ensures drained ==> loops == map[]
    {
      hide Play;
      for i := 0 to rounds
        invariant Valid() && old(tape) <= tape
      {
        if lock.None? && |runs| == 0 {
          assert runs == map[];
          ChainTheorems.EmptyRegistryIsIdle(tape);
          return true;
        }
        Anyone();
      }
      return false;
    }

    // ----- single actions of a goroutine -----

    /** db.NewPool, at the start of runLoop and of failRun. */
    method NewPool(l: nat, id: RunId, pc: Pc) returns (ok: bool)
      requires Valid() && At(l, id, pc) && (pc.Open? || pc.FailOpen?)
      modifies this
      ensures Valid() && tape == old(tape) + [LoopMove(l, if ok then Yes("") else No)]
      ensures At(l, id, if pc.Open? then if ok then Top else FailOpen else if ok then ListSteps(RunFailed) else Leave)
      ensures pc.FailOpen? && !ok ==> store[id].orphaned
    {
      ok := *;
      var loop := loops[l].loop;
      if pc.Open? {
        loop := loop.(pc := if ok then Top else FailOpen);
      } else if ok {
        loop := loop.(pc := ListSteps(RunFailed));
      } else {
        store := store[id := store[id].(orphaned := true)];
        loop := loop.(pc := Leave);
      }
      loops := loops[l := Driver(id, loop)];
      Acted(LoopMove(l, if ok then Yes("") else No));
    }

    /** Whether ctx is done: the select at the top of the loop, and the check after a step's error. */
    method ContextDone(l: nat, id: RunId, pc: Pc) returns (done: bool)
      requires Valid() && At(l, id, pc) && (pc.Top? || pc.Errored?)
      modifies this
      ensures Valid() && tape == old(tape) + [LoopMove(l, No)]
      ensures done == old(loops[l].loop.canceled)
      ensures At(l, id, if done then ListSteps(RunCanceled) else if pc.Top? then Next else FailOpen)
    {
      var loop := loops[l].loop;
      done := loop.canceled;
      loops := loops[l := Driver(id, loop.(pc := if done then ListSteps(RunCanceled)
                                                 else if pc.Top? then Next else FailOpen))];
      Acted(LoopMove(l, No));
    }

    method GetNextPendingStep(l: nat, id: RunId) returns (ok: bool, step: Option<(nat, Step)>)
      requires Valid() && At(l, id, Next)
      modifies this
      ensures Valid() && tape == old(tape) + [LoopMove(l, if ok then Yes("") else No)]
      ensures At(l, id, if !ok then FailOpen else if step.None? then Close(RunCompleted)
                        else Mark(step.value.0, step.value.1))
    {
      ok := *;
      var steps := store[id].row.steps;
      var k := NextPending(steps);
      step := if k < |steps| then Some((k, steps[k])) else None;
      loops := loops[l := Driver(id, loops[l].loop.(pc := if !ok then FailOpen
                                                         else if step.None? then Close(RunCompleted)
                                                         else Mark(step.value.0, step.value.1)))];
      Acted(LoopMove(l, if ok then Yes("") else No));
    }

    lemma StepInRange(l: nat, id: RunId, pc: Pc)
      requires Valid() && At(l, id, pc) && (pc.Mark? || pc.Settle?)
      ensures pc.step < |store[id].row.steps|
    {
      hide Play;
      StepIsThere(tape, l, id, pc);
    }

    method UpdateRunStepStatus(l: nat, id: RunId, k: nat, status: StepStatus, pc: Pc)
      requires Valid() && At(l, id, pc)
      requires (pc.Mark? && pc.step == k && status.Running?) || (pc.Settle? && pc.step == k && pc.to == status)
      modifies this
      ensures Valid() && tape == old(tape) + [LoopMove(l, Yes(""))]
      ensures At(l, id, if pc.Mark? then Position(k, pc.seen)
                        else if status.Completed? then Top else if pc.err then Errored else FailOpen)
      ensures k < |store[id].row.steps| && store[id].row.steps[k].status == status
    {
      StepInRange(l, id, pc);
      var job := store[id];
      store := store[id := job.(row := WithStatus(job.row, k, status))];
      loops := loops[l := Driver(id, loops[l].loop.(pc := if pc.Mark? then Position(k, pc.seen)
                                                         else if status.Completed? then Top
                                                         else if pc.err then Errored else FailOpen))];
      Acted(LoopMove(l, Yes("")));
    }

    method SetCurrentPosition(l: nat, id: RunId, k: nat, seen: Step)
      requires Valid() && At(l, id, Position(k, seen))
      modifies this
      ensures Valid() && tape == old(tape) + [LoopMove(l, Yes(""))]
      ensures At(l, id, Handoff(k, seen))
    {
      var job := store[id];
      store := store[id := job.(row := job.row.(position := seen.position))];
      loops := loops[l := Driver(id, loops[l].loop.(pc := Handoff(k, seen)))];
      Acted(LoopMove(l, Yes("")));
    }

    /** The handoff check and the request built from the row that was read. */
    method Prepare(l: nat, id: RunId, k: nat, seen: Step) returns (missing: bool, request: Request)
      requires Valid() && At(l, id, Handoff(k, seen))
      modifies this
      ensures Valid() && tape == old(tape) + [LoopMove(l, Yes(""))]
      ensures missing == MissingHandoff(seen)
      ensures At(l, id, if missing then Settle(k, Failed, true) else Launch(k, request))
    {
      hide LeftOut, NextPending, SweepStep, WithStatus, WithInstance, MoveCaller, MoveRecovery;
      var instructions := seen.instructions;
      if instructions == "" {
        instructions := store[id].row.initial;
      }
      var ticket := "";
      if seen.ticket.Some? {
        ticket := seen.ticket.value;
      }
      missing := seen.scope == "ticket" && seen.requireHandoff && ticket == "";
      request := Request(seen.workflow, instructions, seen.scope, ticket);
      var next := if missing then Settle(k, Failed, true) else Launch(k, request);
      loops := loops[l := Driver(id, loops[l].loop.(pc := next))];
      Acted(LoopMove(l, Yes("")));
    }

    /** orch.Start. */
    method StartWorkflow(l: nat, id: RunId, k: nat, request: Request) returns (ok: bool, instance: string)
      requires Valid() && At(l, id, Launch(k, request))
      modifies this
      ensures Valid() && tape == old(tape) + [LoopMove(l, if ok then Yes(instance) else No)]
      ensures At(l, id, if ok then Record(k, request, instance) else Settle(k, Failed, true))
    {
      ok, instance := *, *;
      var job := store[id];
      store := store[id := job.(log := job.log + [Launched(k, request, if ok then Some(instance) else None)])];
      loops := loops[l := Driver(id, loops[l].loop.(pc := if ok then Record(k, request, instance)
                                                         else Settle(k, Failed, true)))];
      Acted(LoopMove(l, if ok then Yes(instance) else No));
    }

    method SetRunStepInstance(l: nat, id: RunId, k: nat, request: Request, instance: string)
      requires Valid() && At(l, id, Record(k, request, instance))
      modifies this
      ensures Valid() && tape == old(tape) + [LoopMove(l, Yes(""))]
      ensures At(l, id, Poll(k))
    {
      var job := store[id];
      store := store[id := job.(row := WithInstance(job.row, k, instance, request))];
      loops := loops[l := Driver(id, loops[l].loop.(pc := Poll(k)))];
      Acted(LoopMove(l, Yes("")));
    }

    /** One round of the select in pollInstance; `left` is false while the instance still runs. */
    method PollOnce(l: nat, id: RunId, k: nat, answer: Answer) returns (left: bool)
      requires Valid() && At(l, id, Poll(k))
      modifies this
      ensures Valid() && tape == old(tape) + [LoopMove(l, answer)]
      ensures left == (answer.Yes? || answer.No? || old(loops[l].loop.canceled))
      ensures !left ==> At(l, id, Poll(k))
      ensures left ==> At(l, id, match answer
                                 case Yes(_) => Settle(k, Completed, false)
                                 case No => Settle(k, Failed, false)
                                 case _ => Settle(k, Canceled, true))
    {
      var job, loop := store[id], loops[l].loop;
      left := answer.Yes? || answer.No? || loop.canceled;
      if answer.Yes? {
        store := store[id := job.(log := job.log + [Observed(k)])];
      }
      if left {
        loop := loop.(pc := match answer
                            case Yes(_) => Settle(k, Completed, false)
                            case No => Settle(k, Failed, false)
                            case _ => Settle(k, Canceled, true));
      }
      loops := loops[l := Driver(id, loop)];
      Acted(LoopMove(l, answer));
    }

    /** The rows read, also when the listing fails after them: the callers overlook the error. */
    method ListRunSteps(l: nat, id: RunId, verdict: RunStatus) returns (answer: Answer, listed: seq<Step>)
      requires Valid() && At(l, id, ListSteps(verdict))
      modifies this
      ensures Valid() && tape == old(tape) + [LoopMove(l, answer)]
      ensures listed == old(store)[id].row.steps[..RowsRead(answer, |old(store)[id].row.steps|)]
      ensures At(l, id, Sweep(verdict, listed, 0))
    {
      hide LeftOut;
      var complete, rows: nat := *, *;
      answer := if complete then Yes("") else Part(rows);
      var job := store[id];
      var n := RowsRead(answer, |job.row.steps|);
      listed := job.row.steps[..n];
      store := store[id := job.(unlisted := LeftOut(job.row.steps, n))];
      loops := loops[l := Driver(id, loops[l].loop.(pc := Sweep(verdict, listed, 0)))];
      Acted(LoopMove(l, answer));
    }

    /** One round of the loop over the listed steps, and the exit from it. */
    method DiscardStep(l: nat, id: RunId, verdict: RunStatus, listed: seq<Step>, j: nat)
      requires Valid() && At(l, id, Sweep(verdict, listed, j)) && j <= |listed|
      modifies this
      ensures Valid() && tape == old(tape) + [LoopMove(l, Yes(""))]
      ensures At(l, id, if j < |listed| then Sweep(verdict, listed, j + 1) else Close(verdict))
    {
      if j < |listed| {
        store := store[id := SweepStep(store[id], verdict, listed, j)];
      }
      loops := loops[l := Driver(id, loops[l].loop.(pc := if j < |listed| then Sweep(verdict, listed, j + 1)
                                                         else Close(verdict)))];
      Acted(LoopMove(l, Yes("")));
    }

    method UpdateRunStatus(l: nat, id: RunId, verdict: RunStatus)
      requires Valid() && At(l, id, Close(verdict))
      modifies this
      ensures Valid() && tape == old(tape) + [LoopMove(l, Yes(""))]
      ensures At(l, id, Leave) && store[id].row.status == verdict && !store[id].working
    {
      var job := store[id];
      store := store[id := job.(row := job.row.(status := verdict), working := false)];
      loops := loops[l := Driver(id, loops[l].loop.(pc := Leave))];
      Acted(LoopMove(l, Yes("")));
    }

    /** The deferred function of runLoop: take the lock, which must be free, */
    method LockToLeave(l: nat, id: RunId)
      requires Valid() && At(l, id, Leave) && lock.None?
      modifies this
      ensures Valid() && tape == old(tape) + [LoopMove(l, No)]
      ensures At(l, id, Deleting) && lock == Some(ByLoop(l)) && runs == old(runs) && store == old(store)
    {
      lock, loops := Some(ByLoop(l)), loops[l := Driver(id, loops[l].loop.(pc := Deleting))];
      Acted(LoopMove(l, No));
    }

    /** delete the registry entry, */
    method DeleteEntry(l: nat, id: RunId)
      requires Valid() && At(l, id, Deleting)
      modifies this
      ensures Valid() && tape == old(tape) + [LoopMove(l, No)]
      ensures At(l, id, Unlocking) && runs == old(runs) - {id} && lock == old(lock) && store == old(store)
    {
      runs, loops := runs - {id}, loops[l := Driver(id, loops[l].loop.(pc := Unlocking))];
      Acted(LoopMove(l, No));
    }

    /** and unlock, which ends the goroutine. */
    method UnlockAndEnd(l: nat, id: RunId)
      requires Valid() && At(l, id, Unlocking)
      modifies this
      ensures Valid() && tape == old(tape) + [LoopMove(l, No)]
      ensures loops == old(loops) - {l} && lock.None? && runs == old(runs) && store == old(store)
    {
      lock, loops := None, loops - {l};
      Acted(LoopMove(l, No));
    }

    // ----- interference -----

    /** Everyone else acts, in any way the protocol allows; only a crash is left out. */
    method Others(l: nat)
      requires Valid()
      modifies this
      ensures Valid() && ByOthers(old(tape), tape, l)
    {
    }

    /** While the others act, goroutine l stays where it is. */
    method Yield(l: nat, id: RunId, pc: Pc)
      requires Valid() && At(l, id, pc) && !pc.Born?
      modifies this
      ensures Valid() && At(l, id, pc) && old(tape) <= tape
    {
      ghost var before := tape;
      Others(l);
      OthersKeepPlace(before, tape[|before|..], l, id, pc);
      assert before + tape[|before|..] == tape;
    }

    // ----- loop.go -----

    /** failRun */
    method FailRun(l: nat, id: RunId)
      requires Valid() && At(l, id, FailOpen)
      modifies this
      ensures Valid() && old(tape) <= tape && At(l, id, Leave)
      ensures store[id].row.status.RunFailed? || store[id].orphaned
    {
      hide *;
      var ok := NewPool(l, id, FailOpen);
      if ok {
        Yield(l, id, ListSteps(RunFailed));
        WindDown(l, id, RunFailed);
      }
    }

    /** What cancelRun and failRun share: list the steps, discard what is left, close the run. */
    method WindDown(l: nat, id: RunId, verdict: RunStatus)
      requires Valid() && At(l, id, ListSteps(verdict))
      modifies this
      ensures Valid() && old(tape) <= tape && At(l, id, Leave) && store[id].row.status == verdict
    {
      hide *;
      var answer, listed := ListRunSteps(l, id, verdict);
      DiscardAll(l, id, verdict, listed);
      Yield(l, id, Close(verdict));
      UpdateRunStatus(l, id, verdict);
    }

    method DiscardAll(l: nat, id: RunId, verdict: RunStatus, listed: seq<Step>)
      requires Valid() && At(l, id, Sweep(verdict, listed, 0))
      modifies this
      ensures Valid() && old(tape) <= tape && At(l, id, Close(verdict))
    {
      hide *;
      var j := 0;
      while j < |listed|
        invariant j <= |listed| && Valid() && old(tape) <= tape && At(l, id, Sweep(verdict, listed, j))
      {
        Yield(l, id, Sweep(verdict, listed, j));
        DiscardStep(l, id, verdict, listed, j);
        j := j + 1;
      }
      DiscardStep(l, id, verdict, listed, j);
    }

    /** pollInstance: after some rounds the instance has finished, or the context is canceled. */
    method PollInstance(l: nat, id: RunId, k: nat) returns (finished: bool, success: bool)
      requires Valid() && At(l, id, Poll(k))
      modifies this
      ensures Valid() && old(tape) <= tape && (success ==> finished)
      ensures At(l, id, if success then Settle(k, Completed, false)
                        else if finished then Settle(k, Failed, false) else Settle(k, Canceled, true))
    {
      hide Play, NotOf, Valid;
      var rounds: nat := *;
      while rounds > 0
        invariant Valid() && old(tape) <= tape && At(l, id, Poll(k))
      {
        Yield(l, id, Poll(k));
        rounds := rounds - 1;
      }
      finished, success := *, *;
      finished := finished || !loops[l].loop.canceled;
      success := success && finished;
      var left := PollOnce(l, id, k, if success then Yes("") else if finished then No else Stop);
    }

    /** executeStep: the step is launched, watched and settled as the results say, or fails with an error. */
    method ExecuteStep(l: nat, id: RunId, k: nat, seen: Step) returns (success: bool, err: bool)
      requires Valid() && At(l, id, Mark(k, seen))
      modifies this
      ensures Valid() && old(tape) <= tape && !(success && err)
      ensures At(l, id, if success then Top else if err then Errored else FailOpen)
      ensures k < |store[id].row.steps|
      ensures store[id].row.steps[k].status in
                if success then {Completed} else if err then {Failed, Canceled} else {Failed}
    {
      hide *;
      UpdateRunStepStatus(l, id, k, Running, Mark(k, seen));
      Yield(l, id, Position(k, seen));
      SetCurrentPosition(l, id, k, seen);
      Yield(l, id, Handoff(k, seen));
      var missing, request := Prepare(l, id, k, seen);
      if missing {
        UpdateRunStepStatus(l, id, k, Failed, Settle(k, Failed, true));
        return false, true;
      }
      Yield(l, id, Launch(k, request));
      success, err := LaunchAndWatch(l, id, k, request);
    }

    method LaunchAndWatch(l: nat, id: RunId, k: nat, request: Request) returns (success: bool, err: bool)
      requires Valid() && At(l, id, Launch(k, request))
      modifies this
      ensures Valid() && old(tape) <= tape && !(success && err)
      ensures At(l, id, if success then Top else if err then Errored else FailOpen)
      ensures k < |store[id].row.steps|
      ensures store[id].row.steps[k].status in
                if success then {Completed} else if err then {Failed, Canceled} else {Failed}
    {
      hide *;
      var ok, instance := StartWorkflow(l, id, k, request);
      if !ok {
        Yield(l, id, Settle(k, Failed, true));
        UpdateRunStepStatus(l, id, k, Failed, Settle(k, Failed, true));
        return false, true;
      }
      Yield(l, id, Record(k, request, instance));
      SetRunStepInstance(l, id, k, request, instance);
      var finished, succeeded := PollInstance(l, id, k);
      var to := if succeeded then Completed else if finished then Failed else Canceled;
      Yield(l, id, Settle(k, to, !finished));
      UpdateRunStepStatus(l, id, k, to, Settle(k, to, !finished));
      return succeeded, !finished;
    }

    /**
      runLoop, up to its deferred function. Whatever the others do in between, every store access it
      makes is an action of the system, and it comes to an end, with the verdict it has taken a turn
      to; if its context was canceled while a step was executed, with the one the step's row tells.
     */
    method RunLoop(l: nat, id: RunId)
      requires Valid() && At(l, id, Open)
      modifies this
      ensures Valid() && old(tape) <= tape && At(l, id, Leave) && Finished(store[id])
      ensures Concluded(store[id], tape, l)
      ensures loops[l].loop.struck.Some? ==> StruckTold(store[id], Leave, loops[l].loop.struck.value)
    {
      hide *;
      var ok := NewPool(l, id, Open);
      if !ok {
        Yield(l, id, FailOpen);
        FailRun(l, id);
      } else {
        var more := true;
        while more
          invariant Valid() && old(tape) <= tape && At(l, id, if more then Top else Leave)
          decreases more, LoopRank(View(), l)
        {
          more := RunStep(l, id);
        }
      }
      ConcludeAt(l, id);
    }

    /**
      The goroutine from its first action to its last: runLoop, then the deferred function. When it
      has ended it is gone, the lock is free and the run is not registered; its work is over, unless
      the run was orphaned.
     */
    method RunGoroutine(l: nat, id: RunId)
      requires Valid() && At(l, id, Open)
      modifies this
      ensures Valid() && old(tape) <= tape && l !in loops && lock.None? && id in store && id !in runs
      ensures Ending(store[id]) && (store[id].working ==> store[id].orphaned)
    {
      hide *;
      RunLoop(l, id);
      Yield(l, id, Leave);
      AwaitLock(l, id);
      LockToLeave(l, id);
      Yield(l, id, Deleting);
      DeleteEntry(l, id);
      Yield(l, id, Unlocking);
      Unregistering(l, id);
      UnlockAndEnd(l, id);
    }

    lemma Unregistering(l: nat, id: RunId)
      requires Valid() && At(l, id, Unlocking)
      ensures id !in runs && Ending(store[id]) && (store[id].working ==> store[id].orphaned)
    {
      hide Ending, Play;
      EndsUnregistered(tape, l, id);
    }

    /** Waiting for the lock: whoever holds it moves on, and after at most four moves it is free. */
    method AwaitLock(l: nat, id: RunId)
      requires Valid() && At(l, id, Leave)
      modifies this
      ensures Valid() && old(tape) <= tape && At(l, id, Leave) && lock.None?
    {
      hide Play, MoveCaller, MoveLoop, LockRank;
      while lock.Some?
        invariant Valid() && old(tape) <= tape && At(l, id, Leave)
        decreases LockRank(View())
      {
        HolderAdvances(tape, l, id);
        match lock.value
        case ByCaller(c) => Become(MoveCaller(View(), c, Yes("")), CallerMove(c, Yes("")));
        case ByLoop(m) => Become(MoveLoop(View(), m, No), LoopMove(m, No));
      }
    }

    /** The object takes the state that an action of another leads to. */
    method Become(t: System, a: Action)
      requires Valid() && Exec(View(), a) == t
      modifies this
      ensures Valid() && View() == t && tape == old(tape) + [a]
    {
      store, runs, loops, nextLoop := t.store, t.registry, t.loops, t.nextLoop;
      callers, lock, recovery := t.callers, t.lock, t.recovery;
      Acted(a);
    }

    lemma ConcludeAt(l: nat, id: RunId)
      requires Valid() && At(l, id, Leave)
      ensures Finished(store[id]) && Concluded(store[id], tape, l)
      ensures loops[l].loop.struck.Some? ==> StruckTold(store[id], Leave, loops[l].loop.struck.value)
    {
      hide Play, Concluded, StruckTold, Finished;
      FinishedAtLeave(tape, l, id);
      PlayTracks(tape, l);
      PlayTells(tape, l);
    }

    /** One round of the loop of runLoop; `more` is false when the round ends it. */
    method RunStep(l: nat, id: RunId) returns (more: bool)
      requires Valid() && At(l, id, Top)
      modifies this
      ensures Valid() && old(tape) <= tape && At(l, id, if more then Top else Leave)
      ensures LoopRank(View(), l) < old(LoopRank(View(), l))
    {
      hide Play, NotOf, LoopRank;
      ghost var before := tape;
      assert InPlace(Play(Boot(), before), l, id, Top);
      var done := ContextDone(l, id, Top);
      if done {
        Yield(l, id, ListSteps(RunCanceled));
        WindDown(l, id, RunCanceled);
        more := false;
      } else {
        Yield(l, id, Next);
        more := Advance(l, id);
      }
      RankFalls(before, tape, l, id);
    }

    /** The rest of a round, when the context is not done. */
    method Advance(l: nat, id: RunId) returns (more: bool)
      requires Valid() && At(l, id, Next)
      modifies this
      ensures Valid() && old(tape) <= tape && At(l, id, if more then Top else Leave)
    {
      hide *;
      more := false;
      var ok, step := GetNextPendingStep(l, id);
      if !ok {
        Yield(l, id, FailOpen);
        FailRun(l, id);
      } else if step.None? {
        Yield(l, id, Close(RunCompleted));
        UpdateRunStatus(l, id, RunCompleted);
      } else {
        Yield(l, id, Mark(step.value.0, step.value.1));
        var success, err := ExecuteStep(l, id, step.value.0, step.value.1);
        if err {
          Yield(l, id, Errored);
          StepError(l, id);
        } else if !success {
          Yield(l, id, FailOpen);
          FailRun(l, id);
        } else {
          more := true;
        }
      }
    }

    /** A step ended in an error: the run is canceled if its context is, and fails otherwise. */
    method StepError(l: nat, id: RunId)
      requires Valid() && At(l, id, Errored)
      modifies this
      ensures Valid() && old(tape) <= tape && At(l, id, Leave)
      ensures if old(loops[l].loop.canceled) then store[id].row.status.RunCanceled?
              else store[id].row.status.RunFailed? || store[id].orphaned
    {
      hide *;
      var done := ContextDone(l, id, Errored);
      if done {
        Yield(l, id, ListSteps(RunCanceled));
        WindDown(l, id, RunCanceled);
      } else {
        Yield(l, id, FailOpen);
        FailRun(l, id);
      }
    }

    /** Append to the tape the action whose effect is already in the fields. */
    ghost method Acted(a: Action)
      requires View() == Exec(Play(Boot(), tape), a)
      modifies this`tape
      ensures Valid() && tape == old(tape) + [a]
    {
      assert (tape + [a])[..|tape|] == tape;
      tape := tape + [a];
    }
  }
}
