/**
  What the chain runner guarantees in every reachable state, whatever the interleaving of Start,
  Cancel, goroutines, crashes and startup sweeps.
 */
module ChainTheorems {
  import opened Wrappers
  import opened ChainRun
  import opened ChainRunInvariant
  import opened ChainSystem
  import opened ChainInvariant
  import opened ChainPreservation

  // ----- the registry and its lock -----

  /** At most one goroutine per run is alive. */
  lemma MutualExclusion(actions: seq<Action>)
    ensures var s := Play(Boot(), actions);
            forall l, m | l in s.loops && m in s.loops && s.loops[l].run == s.loops[m].run :: l == m
  {
    ReachableInv(actions);
    var s := Play(Boot(), actions);
    Exclusive(s);
  }

  /** A run is registered exactly while it has a goroutine that has not deleted the entry yet. */
  lemma RegisteredExactly(actions: seq<Action>, id: RunId)
    ensures var s := Play(Boot(), actions);
            && (id in s.registry <==>
                  exists l :: l in s.loops && s.loops[l].run == id && !s.loops[l].loop.pc.Unlocking?)
            && (s.lock.None? ==> (id in s.registry <==> exists l :: l in s.loops && s.loops[l].run == id))
  {
    ReachableInv(actions);
    RegistryFacts(Play(Boot(), actions), id);
  }

  lemma RegistryFacts(s: System, id: RunId)
    requires Inv(s)
    ensures id in s.registry <==> exists l :: l in s.loops && s.loops[l].run == id && !s.loops[l].loop.pc.Unlocking?
    ensures s.lock.None? ==> (id in s.registry <==> exists l :: l in s.loops && s.loops[l].run == id)
  {
    hide RunInv, RunsInv, CallerInv, ActiveInv, SpawnInv, RecoveryInv;
    if id in s.registry {
      assert s.registry[id] in s.loops;
    }
  }

  /** With the lock free, an empty registry means that no goroutine is alive: what WaitAll waits for. */
  lemma EmptyRegistryIsIdle(actions: seq<Action>)
    ensures var s := Play(Boot(), actions); s.lock.None? ==> (s.registry == map[] <==> s.loops == map[])
  {
    ReachableInv(actions);
    var s := Play(Boot(), actions);
    hide Inv, Play;
    forall id
      ensures s.lock.None? ==> (id in s.registry <==> exists l :: l in s.loops && s.loops[l].run == id)
    {
      RegistryFacts(s, id);
    }
    if s.lock.None? && s.registry == map[] {
      assert forall l | l in s.loops :: s.loops[l].run in s.registry;
      assert s.loops.Keys == {};
    }
    if s.lock.None? && s.loops == map[] {
      assert s.registry.Keys == {};
    }
  }

  /**
    With the lock free, a run in status "running" has a goroutine that has not ended its work,
    exactly if it is not orphaned. Every Start takes the mark away.
   */
  lemma RunningIsRegistered(actions: seq<Action>, id: RunId)
    ensures var s := Play(Boot(), actions);
            s.lock.None? && id in s.store && s.store[id].row.status.RunActive? ==>
              (!s.store[id].orphaned <==>
                id in s.registry && s.registry[id] in s.loops && !s.loops[s.registry[id]].loop.pc.Leave?)
  {
    ReachableInv(actions);
    var s := Play(Boot(), actions);
    if s.lock.None? && id in s.store && s.store[id].row.status.RunActive? {
      ActiveFacts(s, id);
      if id in s.registry {
        RegistryFacts(s, id);
        AtWork(s, id);
      }
    }
  }

  lemma ActiveFacts(s: System, id: RunId)
    requires Inv(s) && s.lock.None? && id in s.store && s.store[id].row.status.RunActive?
    ensures !s.store[id].orphaned ==> id in s.registry
  {
    hide RunInv, CallerInv, RegistryInv, SpawnInv, RecoveryInv;
    LiveRun(s, id);
    hide RunsInv;
    WorkingStatus(s.store[id], Live(s.registry, s.loops, id));
  }

  lemma WorkingStatus(job: Job, live: Option<Loop>)
    requires RunInv(job, live)
    ensures job.row.status.RunActive? ==> job.working
  {
  }

  lemma AtWork(s: System, id: RunId)
    requires Inv(s) && s.lock.None? && id in s.store && s.store[id].row.status.RunActive? && id in s.registry
    ensures s.registry[id] in s.loops && (s.store[id].orphaned <==> s.loops[s.registry[id]].loop.pc.Leave?)
  {
    hide RunInv, CallerInv, ActiveInv, SpawnInv, RecoveryInv, RunsInv;
    LiveFacts(s, s.registry[id]);
    WorkingLoop(s.store[id], s.loops[s.registry[id]].loop);
  }

  lemma WorkingLoop(job: Job, loop: Loop)
    requires RunInv(job, Some(loop)) && job.row.status.RunActive?
    ensures job.orphaned <==> AfterClose(loop.pc)
  {
  }

  // ----- steps -----

  /**
    In every reachable state the steps of a run are completed*, then at most one running or failed
    step, then only pending or canceled ones, and every launch came after the earlier steps had been
    observed finished, unless Start was called on it with a failed or canceled step before a pending
    one. `ChainOnce` and `ChainWrites` say when that happens.
   */
  lemma StepsInOrder(actions: seq<Action>, id: RunId)
    ensures var s := Play(Boot(), actions);
            id in s.store && !s.store[id].spoiled ==> Shaped(s.store[id].row.steps) && InOrder(s.store[id].log)
  {
    var s := Play(Boot(), actions);
    if id in s.store {
      ReachableRun(actions, id);
    }
  }

  lemma ReachableRun(actions: seq<Action>, id: RunId)
    requires id in Play(Boot(), actions).store
    ensures var s := Play(Boot(), actions); RunInv(s.store[id], Live(s.registry, s.loops, id))
  {
    hide Inv, RunInv;
    ReachableInv(actions);
    LiveRun(Play(Boot(), actions), id);
  }

  /** The pattern written out: `phase` 0 reads completed steps, 1 has passed the odd one out. */
  predicate Matches(steps: seq<Step>, phase: nat)
    decreases |steps|
  {
    steps == [] ||
    match steps[0].status
    case Completed => phase == 0 && Matches(steps[1..], 0)
    case Running => phase == 0 && Matches(steps[1..], 1)
    case Failed => phase == 0 && Matches(steps[1..], 1)
    case _ => Matches(steps[1..], 1)
  }

  /** `Shaped` is the regular expression completed* (running|failed)? (pending|canceled)*. */
  lemma {:induction false} ShapedMatches(steps: seq<Step>)
    ensures Shaped(steps) <==> Matches(steps, 0)
    ensures (forall i | 0 <= i < |steps| :: Untouched(steps[i].status)) <==> Matches(steps, 1)
  {
    if steps != [] {
      var rest := steps[1..];
      ShapedMatches(rest);
      assert forall i | 0 <= i < |rest| :: rest[i] == steps[i + 1];
      assert forall i | 0 < i < |steps| :: steps[i] == rest[i - 1];
      if Shaped(rest) && steps[0].status.Completed? {
        assert Shaped(steps);
      }
      if Shaped(steps) {
        assert Shaped(rest);
      }
    }
  }

  /**
    What each status says about the steps, for every run and every interleaving. "completed": every
    step is completed exactly if none had failed or was canceled when Start wrote. "failed", and
    "canceled" once the work is over: completed*, at most one failed, then only canceled steps,
    exactly if the listing left nothing out and the order was kept. "canceled" before any Start:
    every step pending.
   */
  lemma TerminalExact(actions: seq<Action>, id: RunId)
    requires id in Play(Boot(), actions).store
    ensures var job := Play(Boot(), actions).store[id];
            var steps := job.row.steps;
            && (job.row.status.RunPending? ==> AllPending(steps))
            && (job.row.status.RunCompleted? ==> Over(steps) && (AllCompleted(steps) <==> job.clean))
            && (job.row.status.RunFailed? ==> (WoundDown(steps) <==> !job.unlisted && Shaped(steps)))
            && (job.row.status.RunCanceled? && !job.begun ==> AllPending(steps))
            && (job.row.status.RunCanceled? && job.begun && !job.working ==>
                  (WoundDown(steps) <==> !job.unlisted && Shaped(steps)))
            && (!job.spoiled ==> Shaped(steps))
  {
    ReachableRun(actions, id);
  }

  /** A run is canceled while work on it goes on only if Cancel wrote after Start had. */
  lemma CanceledAtWork(actions: seq<Action>, id: RunId)
    requires id in Play(Boot(), actions).store
    ensures var job := Play(Boot(), actions).store[id];
            job.working && !job.row.status.RunActive? ==> job.row.status.RunCanceled? && job.raced
  {
    ReachableRun(actions, id);
  }

  /**
    When a sweep whose query worked comes to its end, without a crash on the way, no run is in
    status "running".
   */
  lemma SweepLeavesNoneRunning(actions: seq<Action>, answer: Answer)
    requires Play(Boot(), actions).recovery.Some? && !Play(Boot(), actions).recovery.value.Query?
    ensures var s := Play(Boot(), actions + [SweepMove(answer)]);
            s.recovery.None? ==> forall id | id in s.store :: !s.store[id].row.status.RunActive?
  {
    hide Inv, Play;
    ReachableInv(actions);
    var s := Play(Boot(), actions);
    Sweeping(s);
    SweepEnds(s, answer);
    assert Play(Boot(), actions + [SweepMove(answer)]) == MoveRecovery(s, s.recovery.value, answer) by {
      PlayedSweep(actions, answer);
    }
  }

  lemma PlayedSweep(actions: seq<Action>, answer: Answer)
    requires Play(Boot(), actions).recovery.Some?
    ensures var s := Play(Boot(), actions);
            Play(Boot(), actions + [SweepMove(answer)]) == MoveRecovery(s, s.recovery.value, answer)
  {
    hide MoveRecovery;
    assert (actions + [SweepMove(answer)])[..|actions|] == actions;
  }

  lemma SweepEnds(s: System, answer: Answer)
    requires s.recovery.Some? && !s.recovery.value.Query? && SweepInv(s.recovery.value, s.store)
    ensures var t := MoveRecovery(s, s.recovery.value, answer);
            t.recovery.None? ==> t.store == s.store && forall id | id in s.store :: !s.store[id].row.status.RunActive?
  {
    hide LeftOut, RowsRead, WalkInv;
  }

  /** From the handoff check to the step's outcome, the run's current position is that of its one running step. */
  lemma PositionIsCurrent(actions: seq<Action>, l: nat)
    requires l in Play(Boot(), actions).loops
    ensures var s := Play(Boot(), actions);
            var Driver(id, loop) := s.loops[l];
            ExecutingStep(loop.pc).Some? && !loop.pc.Mark? && !loop.pc.Position? ==>
              && id in s.store && RunsOnly(s.store[id].row.steps, loop.pc.step)
              && s.store[id].row.position == s.store[id].row.steps[loop.pc.step].position
  {
    hide Inv, CancelInv, RunsOnly, BusyAt;
    ReachableInv(actions);
    var s := Play(Boot(), actions);
    if !s.loops[l].loop.pc.Unlocking? {
      LiveFacts(s, l);
    }
  }

  /** Every step that is completed was observed finished and successful before it was written so. */
  lemma CompletedWasObserved(actions: seq<Action>, id: RunId, k: nat)
    requires id in Play(Boot(), actions).store
    ensures var job := Play(Boot(), actions).store[id];
            k < |job.row.steps| && job.row.steps[k].status.Completed? ==> Observed(k) in job.log
  {
    ReachableRun(actions, id);
  }

  /** A launch comes after every earlier step was observed finished and successful. */
  predicate After(before: seq<Event>, e: Event) {
    e.Launched? ==> forall j | 0 <= j < e.step :: Observed(j) in before
  }

  /** Launches in order: no matter which launch of the history is looked at, what it needs stands before it. */
  lemma {:induction false} InOrderMatches(log: seq<Event>)
    ensures InOrder(log) <==> forall at | 0 <= at < |log| :: After(log[..at], log[at])
  {
    if log == [] {
    } else {
      var before := log[..|log| - 1];
      InOrderMatches(before);
      assert forall at | 0 <= at < |before| :: before[..at] == log[..at];
      assert InOrder(log) <==> InOrder(before) && After(log[..|before|], log[|before|]);
    }
  }

  /** When a step was launched, every earlier step had already been observed finished and successful. */
  lemma LaunchedInOrder(actions: seq<Action>, id: RunId, at: nat, j: nat)
    requires id in Play(Boot(), actions).store
    ensures var job := Play(Boot(), actions).store[id];
            !job.spoiled && at < |job.log| && job.log[at].Launched? && j < job.log[at].step
            ==> Observed(j) in job.log[..at]
  {
    ReachableRun(actions, id);
    var job := Play(Boot(), actions).store[id];
    if !job.spoiled && at < |job.log| {
      InOrderMatches(job.log);
      assert After(job.log[..at], job.log[at]);
    }
  }

  /** A ticket step that requires a handoff is never launched without a ticket. */
  lemma NeverWithoutTicket(actions: seq<Action>, id: RunId, k: nat, request: Request, reply: Option<string>)
    requires id in Play(Boot(), actions).store
    requires Launched(k, request, reply) in Play(Boot(), actions).store[id].log
    ensures var steps := Play(Boot(), actions).store[id].row.steps;
            && k < |steps| && request.workflow == steps[k].workflow && request.scope == steps[k].scope
            && (steps[k].scope == "ticket" && steps[k].requireHandoff ==> request.ticket != "")
  {
    ReachableRun(actions, id);
  }

  /** A step with an instance holds the ticket and instructions sent and the instance returned for them. */
  lemma StoredIsWhatWasSent(actions: seq<Action>, id: RunId, k: nat)
    requires id in Play(Boot(), actions).store
    ensures var job := Play(Boot(), actions).store[id];
            k < |job.row.steps| && job.row.steps[k].instance.Some? ==>
              var step := job.row.steps[k];
              && step.ticket.Some? && !step.status.Pending?
              && Launched(k, Request(step.workflow, step.instructions, step.scope, step.ticket.value), step.instance)
                 in job.log
  {
    ReachableRun(actions, id);
  }

  /** cancelRun never finds a running step to stop: its goroutine has already settled it. */
  lemma NoInstanceIsStopped(actions: seq<Action>, id: RunId, k: nat)
    requires id in Play(Boot(), actions).store
    ensures Stopped(k) !in Play(Boot(), actions).store[id].log
  {
    ReachableRun(actions, id);
  }

  // ----- cancellation -----

  /**
    Once the cancel function of a goroutine has been called, it launches at most one more step. If
    executeStep was in progress then, no later step is launched, and when the goroutine has written
    its verdict the run is failed or canceled, never completed.
   */
  lemma CancelOvershoot(actions: seq<Action>, l: nat)
    requires l in Play(Boot(), actions).loops
    ensures var s := Play(Boot(), actions);
            var Driver(id, loop) := s.loops[l];
            id in s.store && !loop.pc.Unlocking? && loop.canceled ==>
              && Launches(s.store[id].log) <= loop.base + 1
              && (loop.struck.Some? ==>
                    && loop.pc != Close(RunCompleted)
                    && !s.store[id].row.status.RunCompleted?
                    && (ExecutingStep(loop.pc).Some? ==> ExecutingStep(loop.pc) == loop.struck)
                    && (AfterClose(loop.pc) && !s.store[id].orphaned ==>
                          s.store[id].row.status in {RunFailed, RunCanceled}))
  {
    hide Inv, PcInv;
    ReachableInv(actions);
    var s := Play(Boot(), actions);
    if !s.loops[l].loop.pc.Unlocking? {
      LiveFacts(s, l);
      if s.loops[l].loop.canceled {
        StruckEnds(s.store[s.loops[l].run], s.loops[l].loop);
      }
    }
  }

  lemma StruckEnds(job: Job, loop: Loop)
    requires RunInv(job, Some(loop)) && loop.canceled
    ensures Launches(job.log) <= loop.base + 1
    ensures loop.struck.Some? ==>
              && loop.pc != Close(RunCompleted) && !job.row.status.RunCompleted?
              && (ExecutingStep(loop.pc).Some? ==> ExecutingStep(loop.pc) == loop.struck)
              && (AfterClose(loop.pc) && !job.orphaned ==> job.row.status in {RunFailed, RunCanceled})
  {
    hide PcInv, History, Shaped;
  }
}
