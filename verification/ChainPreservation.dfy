/** Every action keeps the invariant, so every reachable state satisfies it. */
module ChainPreservation {
  import opened Wrappers
  import opened ChainRun
  import opened ChainRunInvariant
  import opened ChainSystem
  import opened ChainInvariant

  // ----- the record of one run is replaced -----

  /** The new record lets every call in flight and the registry rely on what they did before. */
  ghost predicate Compatible(was: Job, job: Job, registered: bool) {
    && (was.orphaned ==> job.orphaned)
    && (!registered ==>
          && (Resting(was) ==> Resting(job))
          && (Startable(was) ==> Startable(job))
          && (job.working ==> was.working))
  }

  lemma StoreKeepsRuns(store: map<RunId, Job>, registry: map<RunId, nat>, loops: map<nat, Driver>, id: RunId, job: Job)
    requires RunsInv(store, registry, loops) && RunInv(job, Live(registry, loops, id))
    ensures RunsInv(store[id := job], registry, loops)
  {
    hide RunInv;
  }

  lemma StoreKeepsCallers(callers: map<nat, Caller>, store: map<RunId, Job>, registry: map<RunId, nat>, id: RunId,
                          job: Job)
    requires CallerInv(callers, store, registry) && ActiveInv(store, registry, callers)
    requires id in store && Compatible(store[id], job, id in registry)
    ensures CallerInv(callers, store[id := job], registry) && ActiveInv(store[id := job], registry, callers)
  {
    hide Resting, Startable;
    forall c | c in callers
      ensures TargetInv(callers[c], store[id := job], registry)
    {
      assert TargetInv(callers[c], store, registry);
    }
  }

  lemma StoreKeeps(s: System, id: RunId, job: Job)
    requires Inv(s) && s.recovery.None? && id in s.store && Compatible(s.store[id], job, id in s.registry)
    requires RunInv(job, Live(s.registry, s.loops, id))
    ensures Inv(s.(store := s.store[id := job]))
  {
    hide RunInv, Compatible, RunsInv, CallerInv, ActiveInv, LockInv, SpawnInv;
    StoreKeepsRuns(s.store, s.registry, s.loops, id, job);
    StoreKeepsCallers(s.callers, s.store, s.registry, id, job);
    assert s.store[id := job].Keys == s.store.Keys;
  }

  // ----- one goroutine moves -----

  function WithLoop(loops: map<nat, Driver>, l: nat, loop: Loop): map<nat, Driver>
    requires l in loops
  {
    loops[l := Driver(loops[l].run, loop)]
  }

  lemma LoopKeepsRuns(store: map<RunId, Job>, registry: map<RunId, nat>, loops: map<nat, Driver>, nextLoop: nat,
                      l: nat, job: Job, loop: Loop)
    requires RegistryInv(registry, loops, store.Keys, nextLoop) && RunsInv(store, registry, loops)
    requires l in loops && !loops[l].loop.pc.Unlocking? && !loop.pc.Unlocking?
    requires RunInv(job, Some(loop))
    ensures RegistryInv(registry, WithLoop(loops, l, loop), store.Keys, nextLoop)
    ensures RunsInv(store[loops[l].run := job], registry, WithLoop(loops, l, loop))
  {
    hide RunInv;
    var loops' := WithLoop(loops, l, loop);
    forall id | id in store && id != loops[l].run
      ensures Live(registry, loops', id) == Live(registry, loops, id)
    {
    }
  }

  /** A goroutine that takes no part in locking moves, and may rewrite its run. */
  lemma DriveKeeps(s: System, l: nat, job: Job, loop: Loop)
    requires Inv(s) && l in s.loops && !AfterDelete(s.loops[l].loop.pc) && !AfterDelete(loop.pc)
    requires !s.loops[l].loop.pc.Born? || forall c | c in s.callers :: SpawnTarget(s.callers[c]) != Some(l)
    requires RunInv(job, Some(loop)) && (s.store[s.loops[l].run].orphaned ==> job.orphaned)
    ensures Inv(s.(store := s.store[s.loops[l].run := job], loops := WithLoop(s.loops, l, loop)))
  {
    hide RunInv, RunsInv, CallerInv, ActiveInv, Resting, Startable;
    var id := s.loops[l].run;
    LoopKeepsRuns(s.store, s.registry, s.loops, s.nextLoop, l, job, loop);
    StoreKeepsCallers(s.callers, s.store, s.registry, id, job);
    assert s.store[id := job].Keys == s.store.Keys;
  }

  predicate AfterDelete(pc: Pc) {
    pc.Deleting? || pc.Unlocking?
  }

  /** Calling a cancel function leaves the goroutine where it is. */
  lemma FireLoopKeeps(s: System, l: nat, loop: Loop)
    requires Inv(s) && l in s.loops && loop.pc == s.loops[l].loop.pc
    requires !loop.pc.Unlocking? ==> RunInv(s.store[s.loops[l].run], Some(loop))
    ensures Inv(s.(loops := WithLoop(s.loops, l, loop)))
  {
    hide RunInv, CallerInv, ActiveInv;
    var id := s.loops[l].run;
    if loop.pc.Unlocking? {
      forall other | other in s.store
        ensures Live(s.registry, WithLoop(s.loops, l, loop), other) == Live(s.registry, s.loops, other)
      {
      }
    } else {
      LoopKeepsRuns(s.store, s.registry, s.loops, s.nextLoop, l, s.store[id], loop);
      assert s.store[id := s.store[id]] == s.store;
    }
  }

  // ----- the deferred function of runLoop -----

  lemma LeaveKeeps(s: System, l: nat, loop: Loop)
    requires Inv(s) && l in s.loops && s.loops[l].loop.pc.Leave? && s.lock.None?
    requires loop == s.loops[l].loop.(pc := Deleting)
    ensures Inv(s.(lock := Some(ByLoop(l)), loops := WithLoop(s.loops, l, loop)))
  {
    hide RunInv, CallerInv, ActiveInv;
    var id := s.loops[l].run;
    assert Live(s.registry, s.loops, id) == Some(s.loops[l].loop);
    ExitKeeps(s.store[id], s.loops[l].loop, Deleting);
    LoopKeepsRuns(s.store, s.registry, s.loops, s.nextLoop, l, s.store[id], loop);
    assert s.store[id := s.store[id]] == s.store;
  }

  lemma DeleteKeepsRuns(store: map<RunId, Job>, registry: map<RunId, nat>, loops: map<nat, Driver>, nextLoop: nat,
                        l: nat, loop: Loop)
    requires RegistryInv(registry, loops, store.Keys, nextLoop) && RunsInv(store, registry, loops)
    requires l in loops && loops[l].loop.pc.Deleting? && loop.pc.Unlocking?
    requires RunInv(store[loops[l].run], None)
    ensures RegistryInv(registry - {loops[l].run}, WithLoop(loops, l, loop), store.Keys, nextLoop)
    ensures RunsInv(store, registry - {loops[l].run}, WithLoop(loops, l, loop))
  {
    hide RunInv;
    var id := loops[l].run;
    forall other | other in store && other != id
      ensures Live(registry - {id}, WithLoop(loops, l, loop), other) == Live(registry, loops, other)
    {
    }
  }

  lemma DeleteKeepsCallers(s: System, l: nat)
    requires LockInv(s.callers, s.loops, s.lock) && l in s.loops && s.loops[l].loop.pc.Deleting?
    requires s.loops[l].run in s.store
    requires Resting(s.store[s.loops[l].run])
    requires CallerInv(s.callers, s.store, s.registry) && ActiveInv(s.store, s.registry, s.callers)
    requires !s.store[s.loops[l].run].working || s.store[s.loops[l].run].orphaned
    ensures CallerInv(s.callers, s.store, s.registry - {s.loops[l].run})
    ensures ActiveInv(s.store, s.registry - {s.loops[l].run}, s.callers)
  {
    hide Resting, Startable;
    forall c | c in s.callers
      ensures TargetInv(s.callers[c], s.store, s.registry - {s.loops[l].run})
    {
      assert TargetInv(s.callers[c], s.store, s.registry);
    }
  }

  lemma DeleteKeeps(s: System, l: nat)
    requires Inv(s) && l in s.loops && s.loops[l].loop.pc.Deleting?
    ensures Inv(MoveLoop(s, l, No))
  {
    hide RunInv, CallerInv, ActiveInv, RunsInv, RegistryInv, LoopNext, Resting;
    var id, loop := s.loops[l].run, s.loops[l].loop;
    LiveLoop(s, l);
    ExitKeeps(s.store[id], loop, Unlocking);
    DeleteKeepsRuns(s.store, s.registry, s.loops, s.nextLoop, l, loop.(pc := Unlocking));
    DeleteKeepsCallers(s, l);
  }

  lemma UnlockKeeps(s: System, l: nat)
    requires Inv(s) && l in s.loops && s.loops[l].loop.pc.Unlocking?
    ensures Inv(MoveLoop(s, l, No))
  {
    hide RunInv, CallerInv, ActiveInv, LoopNext;
    forall id | id in s.store
      ensures Live(s.registry, s.loops - {l}, id) == Live(s.registry, s.loops, id)
    {
    }
  }

  // ----- calls of Start and Cancel -----

  function WithCaller(callers: map<nat, Caller>, c: nat, next: Option<Caller>): map<nat, Caller> {
    if next.Some? then callers[c := next.value] else callers - {c}
  }

  lemma CallKeepsActive(s: System, c: nat, next: Option<Caller>)
    requires ActiveInv(s.store, s.registry, s.callers) && (c in s.callers ==> !s.callers[c].StartRegister?)
    ensures ActiveInv(s.store, s.registry, WithCaller(s.callers, c, next))
  {
    forall id | id in s.store && s.store[id].working && id !in s.registry && !s.store[id].orphaned
      ensures exists d :: d in WithCaller(s.callers, c, next) && WithCaller(s.callers, c, next)[d] == StartRegister(id)
    {
      var d :| d in s.callers && s.callers[d] == StartRegister(id);
      assert WithCaller(s.callers, c, next)[d] == StartRegister(id);
    }
  }

  lemma CallKeepsLock(callers: map<nat, Caller>, loops: map<nat, Driver>, lock: Option<Owner>,
                      c: nat, next: Option<Caller>, lock': Option<Owner>)
    requires LockInv(callers, loops, lock) && SpawnInv(callers, loops)
    requires LockMoves(callers, lock, c, next, lock')
    requires next.Some? && SpawnTarget(next.value).Some? ==>
               c in callers && SpawnTarget(callers[c]) == SpawnTarget(next.value)
    ensures LockInv(WithCaller(callers, c, next), loops, lock') && SpawnInv(WithCaller(callers, c, next), loops)
  {
  }

  ghost predicate LockMoves(callers: map<nat, Caller>, lock: Option<Owner>, c: nat, next: Option<Caller>,
                            lock': Option<Owner>)
  {
    var before := c in callers && HoldsLock(callers[c]);
    if next.Some? && HoldsLock(next.value) then lock' == Some(ByCaller(c)) && (before || lock.None?)
    else lock' == if before then None else lock
  }

  /** One call moves on (or returns, when `next` is None), taking or releasing the lock. */
  lemma CallKeeps(s: System, c: nat, next: Option<Caller>, lock: Option<Owner>)
    requires Inv(s) && s.recovery.None?
    requires c in s.callers ==> !s.callers[c].StartRegister?
    requires LockMoves(s.callers, s.lock, c, next, lock)
    requires next.Some? ==> TargetInv(next.value, s.store, s.registry) && !next.value.StartRegister?
    requires next.Some? && SpawnTarget(next.value).Some? ==>
               c in s.callers && SpawnTarget(s.callers[c]) == SpawnTarget(next.value)
    ensures Inv(s.(callers := WithCaller(s.callers, c, next), lock := lock))
  {
    hide RunsInv, TargetInv, RegistryInv, LockInv, SpawnInv, ActiveInv;
    CallKeepsLock(s.callers, s.loops, s.lock, c, next, lock);
    CallKeepsActive(s, c, next);
  }

  lemma StartWriteKeepsRun(job: Job)
    requires RunInv(job, None) && Resting(job)
    ensures RunInv(StartWritten(job), None) && Startable(StartWritten(job))
    ensures StartWritten(job).row.steps == job.row.steps && Resting(StartWritten(job))
  {
  }

  lemma StartWriteKeepsCallers(s: System, c: nat, id: RunId)
    requires CallerInv(s.callers, s.store, s.registry) && ActiveInv(s.store, s.registry, s.callers)
    requires c in s.callers && s.callers[c] == StartWrite(id) && id in s.store
    requires Startable(StartWritten(s.store[id])) && Resting(StartWritten(s.store[id]))
    requires forall d | d in s.callers && d != c :: !s.callers[d].StartRegister?
    ensures var store, callers := s.store[id := StartWritten(s.store[id])], s.callers[c := StartRegister(id)];
            CallerInv(callers, store, s.registry) && ActiveInv(store, s.registry, callers)
  {
    hide Startable, Resting, StartWritten;
    var store, callers := s.store[id := StartWritten(s.store[id])], s.callers[c := StartRegister(id)];
    forall d | d in callers
      ensures TargetInv(callers[d], store, s.registry)
    {
      assert TargetInv(s.callers[d], s.store, s.registry);
    }
    assert callers[c] == StartRegister(id);
  }

  /** What the holder of the lock knows about the run it is starting. */
  lemma StartFacts(s: System, c: nat, id: RunId)
    requires CallerInv(s.callers, s.store, s.registry) && RunsInv(s.store, s.registry, s.loops)
    requires c in s.callers && StartTarget(s.callers[c]) == Some(id) && id !in s.registry
    ensures id in s.store && Resting(s.store[id]) && RunInv(s.store[id], None)
    ensures s.callers[c].StartRegister? ==> Startable(s.store[id])
  {
    hide RunInv, Resting, Startable;
    assert TargetInv(s.callers[c], s.store, s.registry);
    assert Live(s.registry, s.loops, id) == None;
  }

  lemma SoleHolder(s: System, c: nat)
    requires LockInv(s.callers, s.loops, s.lock) && c in s.callers && HoldsLock(s.callers[c])
    ensures forall d | d in s.callers && d != c :: !HoldsLock(s.callers[d])
    ensures forall l | l in s.loops :: !AfterDelete(s.loops[l].loop.pc)
  {
  }

  lemma StartWriteKeeps(s: System, c: nat, id: RunId)
    requires Inv(s) && c in s.callers && s.callers[c] == StartWrite(id) && s.recovery.None? && id !in s.registry
    ensures id in s.store
    ensures Inv(s.(store := s.store[id := StartWritten(s.store[id])], callers := s.callers[c := StartRegister(id)]))
  {
    hide RunInv, Startable, Resting, StartWritten, RunsInv, CallerInv, ActiveInv, TargetInv;
    StartFacts(s, c, id);
    SoleHolder(s, c);
    StartWriteKeepsRun(s.store[id]);
    StoreKeepsRuns(s.store, s.registry, s.loops, id, StartWritten(s.store[id]));
    StartWriteKeepsCallers(s, c, id);
    assert s.store[id := StartWritten(s.store[id])].Keys == s.store.Keys;
  }

  lemma StartRegisterKeepsRuns(s: System, id: RunId, loop: Loop)
    requires RegistryInv(s.registry, s.loops, s.store.Keys, s.nextLoop) && RunsInv(s.store, s.registry, s.loops)
    requires id in s.store && id !in s.registry && RunInv(s.store[id], Some(loop)) && !loop.pc.Unlocking?
    requires forall l | l in s.loops :: !AfterDelete(s.loops[l].loop.pc)
    ensures var registry, loops := s.registry[id := s.nextLoop], s.loops[s.nextLoop := Driver(id, loop)];
            RegistryInv(registry, loops, s.store.Keys, s.nextLoop + 1) && RunsInv(s.store, registry, loops)
  {
    hide RunInv;
    var registry, loops := s.registry[id := s.nextLoop], s.loops[s.nextLoop := Driver(id, loop)];
    forall other | other in s.store && other != id
      ensures Live(registry, loops, other) == Live(s.registry, s.loops, other)
    {
    }
  }

  lemma StartRegisterKeepsCallers(s: System, c: nat, id: RunId, loop: Loop)
    requires LockInv(s.callers, s.loops, s.lock) && SpawnInv(s.callers, s.loops)
    requires CallerInv(s.callers, s.store, s.registry) && ActiveInv(s.store, s.registry, s.callers)
    requires c in s.callers && s.callers[c] == StartRegister(id) && s.nextLoop !in s.loops && loop.pc.Born?
    requires s.lock == Some(ByCaller(c))
    ensures var registry, loops := s.registry[id := s.nextLoop], s.loops[s.nextLoop := Driver(id, loop)];
            var callers := s.callers[c := StartUnlock(id, s.nextLoop)];
            && LockInv(callers, loops, s.lock) && SpawnInv(callers, loops)
            && CallerInv(callers, s.store, registry) && ActiveInv(s.store, registry, callers)
  {
    hide Startable, Resting;
    var registry, callers := s.registry[id := s.nextLoop], s.callers[c := StartUnlock(id, s.nextLoop)];
    forall d | d in callers
      ensures TargetInv(callers[d], s.store, registry)
    {
      assert TargetInv(s.callers[d], s.store, s.registry);
    }
  }

  lemma StartRegisterKeeps(s: System, c: nat, id: RunId, loop: Loop)
    requires Inv(s) && c in s.callers && s.callers[c] == StartRegister(id) && s.recovery.None? && id !in s.registry
    requires loop == Loop(false, 0, None, Born)
    ensures Inv(s.(registry := s.registry[id := s.nextLoop], loops := s.loops[s.nextLoop := Driver(id, loop)],
                   nextLoop := s.nextLoop + 1, callers := s.callers[c := StartUnlock(id, s.nextLoop)]))
  {
    assert s.nextLoop !in s.loops;
    hide RunInv, Startable, Resting, RunsInv, CallerInv, ActiveInv, TargetInv, SpawnInv, RegistryInv;
    StartFacts(s, c, id);
    SoleHolder(s, c);
    BornKeeps(s.store[id]);
    StartRegisterKeepsRuns(s, id, loop);
    StartRegisterKeepsCallers(s, c, id, loop);
  }

  lemma StartSpawnKeeps(s: System, c: nat, id: RunId, l: nat)
    requires Inv(s) && c in s.callers && s.callers[c] == StartSpawn(id, l) && s.recovery.None?
    ensures Inv(MoveCaller(s, c, No))
  {
    hide RunInv, Startable, Resting, LoopNext, CallerInv, ActiveInv, TargetInv, StartWritten, CancelWritten;
    hide Fire, RecoveryInv;
    var loop := s.loops[l].loop;
    assert Live(s.registry, s.loops, s.loops[l].run) == Some(loop);
    SpawnKeeps(s.store[s.loops[l].run], loop);
    CallKeeps(s, c, None, s.lock);
    var s1 := s.(callers := WithCaller(s.callers, c, None));
    DriveKeeps(s1, l, s.store[s.loops[l].run], loop.(pc := Open));
    assert s.store[s.loops[l].run := s.store[s.loops[l].run]] == s.store;
  }

  lemma LiveLoop(s: System, l: nat)
    requires RegistryInv(s.registry, s.loops, s.store.Keys, s.nextLoop) && RunsInv(s.store, s.registry, s.loops)
    requires l in s.loops && !s.loops[l].loop.pc.Unlocking?
    ensures s.loops[l].run in s.store && RunInv(s.store[s.loops[l].run], Some(s.loops[l].loop))
    ensures Live(s.registry, s.loops, s.loops[l].run) == Some(s.loops[l].loop)
  {
    hide RunInv;
    assert Live(s.registry, s.loops, s.loops[l].run) == Some(s.loops[l].loop);
  }

  lemma CancelFireKeeps(s: System, c: nat, l: nat)
    requires Inv(s) && c in s.callers && s.callers[c] == CancelFire(l) && s.recovery.None?
    ensures Inv(MoveCaller(s, c, No))
  {
    hide RunInv, Startable, Resting, CallerInv, ActiveInv, TargetInv, StartWritten, CancelWritten, RunsInv;
    CallKeeps(s, c, None, s.lock);
    var s1 := s.(callers := WithCaller(s.callers, c, None));
    if l in s.loops {
      var loop := s.loops[l].loop;
      if !loop.pc.Unlocking? {
        LiveLoop(s, l);
        FireKeeps(s.store[s.loops[l].run], loop);
      }
      FireLoopKeeps(s1, l, Fire(s.store[s.loops[l].run], loop));
    }
  }

  lemma CancelWriteKeepsRun(job: Job, live: Option<Loop>)
    requires RunInv(job, live)
    ensures RunInv(CancelWritten(job), live)
    ensures Compatible(job, CancelWritten(job), live.Some?)
  {
  }

  lemma CancelWriteKeeps(s: System, c: nat, id: RunId)
    requires Inv(s) && c in s.callers && s.callers[c] == CancelWrite(id) && s.recovery.None?
    ensures Inv(MoveCaller(s, c, No))
  {
    hide RunInv, Startable, Resting, CallerInv, ActiveInv, TargetInv, StartWritten, CancelWritten, Compatible;
    CallKeeps(s, c, None, s.lock);
    var s1 := s.(callers := WithCaller(s.callers, c, None));
    if id in s.store {
      CancelWriteKeepsRun(s.store[id], Live(s.registry, s.loops, id));
      StoreKeeps(s1, id, CancelWritten(s.store[id]));
    }
  }

  lemma CallFacts(s: System, c: nat)
    requires Inv(s) && c in s.callers
    ensures HoldsLock(s.callers[c]) <==> s.lock == Some(ByCaller(c))
    ensures TargetInv(s.callers[c], s.store, s.registry)
  {
    hide RunsInv, RegistryInv, ActiveInv, SpawnInv, RecoveryInv, TargetInv;
  }

  lemma MoveCallerKeeps(s: System, c: nat, answer: Answer)
    requires Inv(s) && c in s.callers && s.recovery.None?
    ensures Inv(MoveCaller(s, c, answer))
  {
    hide Inv, Startable, Resting, StartWritten, CancelWritten, Fire;
    CallFacts(s, c);
    match s.callers[c]
    case StartWait(id) =>
      if s.lock.None? {
        CallKeeps(s, c, Some(StartCheck(id)), Some(ByCaller(c)));
      }
    case StartCheck(id) => CallKeeps(s, c, Some(if id in s.registry then StartReject(id) else StartWrite(id)), s.lock);
    case StartReject(id) => CallKeeps(s, c, None, None);
    case StartWrite(id) => StartWriteKeeps(s, c, id);
    case StartRegister(id) => StartRegisterKeeps(s, c, id, Loop(false, 0, None, Born));
    case StartUnlock(id, l) => CallKeeps(s, c, Some(StartSpawn(id, l)), None);
    case StartSpawn(id, l) => StartSpawnKeeps(s, c, id, l);
    case CancelWait(id) =>
      if s.lock.None? {
        CallKeeps(s, c, Some(CancelLook(id)), Some(ByCaller(c)));
      }
    case CancelLook(id) =>
      CallKeeps(s, c, Some(CancelUnlock(id, if id in s.registry then Some(s.registry[id]) else None)), s.lock);
    case CancelUnlock(id, found) =>
      CallKeeps(s, c, Some(if found.Some? then CancelFire(found.value) else CancelRead(id)), None);
    case CancelFire(l) => CancelFireKeeps(s, c, l);
    case CancelRead(id) =>
      if answer.Yes? && id in s.store && s.store[id].row.status.RunPending? {
        CallKeeps(s, c, Some(CancelWrite(id)), s.lock);
      } else {
        CallKeeps(s, c, None, s.lock);
      }
    case CancelWrite(id) => CancelWriteKeeps(s, c, id);
  }

  lemma LoopMarks(job: Job, loop: Loop, answer: Answer)
    requires !Locking(loop.pc)
    ensures var (job', loop') := LoopNext(job, loop, answer);
            !AfterDelete(loop'.pc) && (job.orphaned ==> job'.orphaned)
  {
    hide LeftOut, NextPending, WithStatus, WithInstance, RequestFor;
  }

  predicate Locking(pc: Pc) {
    pc.Born? || AfterClose(pc)
  }

  lemma MoveLoopKeeps(s: System, l: nat, answer: Answer)
    requires Inv(s) && l in s.loops
    ensures Inv(MoveLoop(s, l, answer))
  {
    hide RunInv, LoopNext, CallerInv, ActiveInv, RunsInv, RegistryInv, LockInv, SpawnInv;
    var Driver(id, loop) := s.loops[l];
    if loop.pc.Leave? {
      if s.lock.None? {
        LeaveKeeps(s, l, loop.(pc := Deleting));
      }
    } else if loop.pc.Deleting? {
      DeleteKeeps(s, l);
    } else if loop.pc.Unlocking? {
      UnlockKeeps(s, l);
    } else if !loop.pc.Born? {
      LiveLoop(s, l);
      LoopKeeps(s.store[id], loop, answer);
      LoopMarks(s.store[id], loop, answer);
      var (job, next) := LoopNext(s.store[id], loop, answer);
      DriveKeeps(s, l, job, next);
    }
  }

  // ----- crash and recovery -----

  lemma AbandonKeeps(job: Job, live: Option<Loop>)
    requires RunInv(job, live)
    ensures RunInv(Abandon(job), None)
    ensures Abandon(job).working ==> Abandon(job).orphaned
  {
  }

  lemma CrashKeeps(s: System)
    requires Inv(s)
    ensures Inv(Crashed(s))
  {
    hide RunInv, Abandon;
    forall id | id in s.store
      ensures RunInv(Abandon(s.store[id]), None)
      ensures Abandon(s.store[id]).working ==> Abandon(s.store[id]).orphaned
    {
      AbandonKeeps(s.store[id], Live(s.registry, s.loops, id));
    }
  }

  lemma SweepCancelKeeps(job: Job, listed: seq<Step>, j: nat)
    requires RunInv(job, None) && job.row.status.RunActive?
    requires j < |listed| <= |job.row.steps| && listed[j].status == job.row.steps[j].status
    ensures var job' := SweepCancel(job, listed, j);
            && RunInv(job', None) && job' == job.(row := job'.row)
            && job'.row == job.row.(steps := job'.row.steps) && |job'.row.steps| == |job.row.steps|
            && !job'.row.steps[j].status.Pending? && !job'.row.steps[j].status.Running?
            && forall i | 0 <= i < |job.row.steps| && i != j :: job'.row.steps[i] == job.row.steps[i]
  {
    StatusKeepsHistory(job, j, Canceled);
  }

  lemma SweepCloseKeeps(job: Job)
    requires RunInv(job, None) && job.row.status.RunActive?
    requires Over(job.row.steps) <==> !job.unlisted
    ensures RunInv(SweepClosed(job), None)
  {
  }

  lemma UnlistedKeeps(job: Job, left: bool)
    requires RunInv(job, None) && job.row.status.RunActive?
    ensures RunInv(job.(unlisted := left), None)
  {
  }

  /** During recovery nothing but the sweep is at work. */
  lemma RecoveryKeeps(s: System, id: RunId, job: Job, next: Option<Recovery>)
    requires Inv(s) && s.recovery.Some? && id in s.store && RunInv(job, None)
    requires job.working ==> s.store[id].working && (s.store[id].orphaned ==> job.orphaned)
    requires next.Some? ==> SweepInv(next.value, s.store[id := job])
    ensures Inv(s.(store := s.store[id := job], recovery := next))
  {
    hide RunInv, SweepInv;
  }

  lemma RecoveryMovesOn(s: System, next: Option<Recovery>)
    requires Inv(s) && s.recovery.Some? && (next.Some? ==> SweepInv(next.value, s.store))
    ensures Inv(s.(recovery := next))
  {
    hide RunInv, SweepInv;
  }

  lemma RestingRun(s: System, id: RunId)
    requires Inv(s) && s.recovery.Some? && id in s.store
    ensures RunInv(s.store[id], None)
  {
    hide RunInv, SweepInv, CallerInv, ActiveInv, SpawnInv, LockInv;
    assert Live(s.registry, s.loops, id) == None;
  }

  lemma WalkKeepsSweep(store: map<RunId, Job>, todo: seq<RunId>, listed: seq<Step>, j: nat, job: Job)
    requires SweepInv(Walking(todo, listed, j), store) && j < |listed|
    requires job.row.status.RunActive? && job.unlisted == store[todo[0]].unlisted
    requires |job.row.steps| == |store[todo[0]].row.steps|
    requires !job.row.steps[j].status.Pending? && !job.row.steps[j].status.Running?
    requires forall i | 0 <= i < |job.row.steps| && i != j :: job.row.steps[i] == store[todo[0]].row.steps[i]
    ensures SweepInv(Walking(todo, listed, j + 1), store[todo[0] := job])
  {
    assert LeftOut(job.row.steps, |listed|) <==> LeftOut(store[todo[0]].row.steps, |listed|);
  }

  lemma WalkEnds(store: map<RunId, Job>, todo: seq<RunId>, listed: seq<Step>)
    requires SweepInv(Walking(todo, listed, |listed|), store)
    ensures SweepInv(Closing(todo), store)
  {
    var job := store[todo[0]];
    if !job.unlisted {
      assert Over(job.row.steps);
    }
  }

  lemma WalkBegins(store: map<RunId, Job>, todo: seq<RunId>, n: nat)
    requires TodoInv(todo, store) && todo != [] && n <= |store[todo[0]].row.steps|
    ensures var job := store[todo[0]];
            SweepInv(Walking(todo, job.row.steps[..n], 0),
                     store[todo[0] := job.(unlisted := LeftOut(job.row.steps, n))])
  {
  }

  lemma TodoRest(todo: seq<RunId>, store: map<RunId, Job>, job: Job)
    requires TodoInv(todo, store) && todo != [] && !job.row.status.RunActive?
    ensures TodoInv(todo[1..], store[todo[0] := job])
  {
  }

  lemma MoveRecoveryKeeps(s: System, answer: Answer)
    requires Inv(s) && s.recovery.Some?
    ensures Inv(MoveRecovery(s, s.recovery.value, answer))
  {
    hide RunInv, SweepCancel, CallerInv, ActiveInv, SpawnInv, LockInv, RegistryInv, RunsInv, Inv;
    assert SweepInv(s.recovery.value, s.store) by { Sweeping(s); }
    match s.recovery.value
    case Query => RecoveryMovesOn(s, None);
    case Listing(todo) =>
      if todo == [] {
        RecoveryMovesOn(s, None);
      } else {
        var job := s.store[todo[0]];
        RestingRun(s, todo[0]);
        var n := RowsRead(answer, |job.row.steps|);
        var left := LeftOut(job.row.steps, n);
        UnlistedKeeps(job, left);
        WalkBegins(s.store, todo, n);
        RecoveryKeeps(s, todo[0], job.(unlisted := left), Some(Walking(todo, job.row.steps[..n], 0)));
      }
    case Walking(todo, listed, j) =>
      if j == |listed| {
        WalkEnds(s.store, todo, listed);
        RecoveryMovesOn(s, Some(Closing(todo)));
      } else {
        RestingRun(s, todo[0]);
        SweepCancelKeeps(s.store[todo[0]], listed, j);
        var job := SweepCancel(s.store[todo[0]], listed, j);
        WalkKeepsSweep(s.store, todo, listed, j, job);
        RecoveryKeeps(s, todo[0], job, Some(Walking(todo, listed, j + 1)));
      }
    case Closing(todo) =>
      RestingRun(s, todo[0]);
      SweepCloseKeeps(s.store[todo[0]]);
      var job := SweepClosed(s.store[todo[0]]);
      TodoRest(todo, s.store, job);
      RecoveryKeeps(s, todo[0], job, Some(Listing(todo[1..])));
  }

  lemma Sweeping(s: System)
    requires Inv(s) && s.recovery.Some?
    ensures SweepInv(s.recovery.value, s.store)
  {
    hide RunInv, SweepInv;
  }

  // ----- the other actors -----

  /** Setting the ticket or the instructions of a pending step. */
  ghost predicate Hands(job: Job, k: nat, step: Step) {
    && k < |job.row.steps| && job.row.steps[k].status.Pending?
    && step == job.row.steps[k].(ticket := step.ticket, instructions := step.instructions)
  }

  lemma HandKeepsHistory(job: Job, k: nat, step: Step)
    requires Hands(job, k, step) && History(job)
    ensures History(WithStep(job, k, step))
  {
  }

  lemma HandKeepsShape(job: Job, k: nat, step: Step)
    requires Hands(job, k, step)
    ensures var steps, steps' := job.row.steps, WithStep(job, k, step).row.steps;
            && Quiet(steps') == Quiet(steps) && Shaped(steps') == Shaped(steps)
            && NonePending(steps') == NonePending(steps) && AllPending(steps') == AllPending(steps)
            && AllCompleted(steps') == AllCompleted(steps)
            && Ready(steps') == Ready(steps) && Clean(steps') == Clean(steps)
            && |steps'| == |steps| && forall n :: LeftOut(steps', n) == LeftOut(steps, n)
  {
    var steps, steps' := job.row.steps, WithStep(job, k, step).row.steps;
    assert forall i | 0 <= i < |steps| :: steps'[i].status == steps[i].status;
  }

  lemma HandKeepsExecuting(job: Job, k: nat, step: Step, at: nat)
    requires Hands(job, k, step) && Executing(job, at)
    ensures Executing(WithStep(job, k, step), at) && at != k
  {
    HandKeepsShape(job, k, step);
    hide Clean;
  }

  lemma HandKeepsPlaced(job: Job, k: nat, step: Step, at: nat)
    requires Hands(job, k, step)
    ensures Placed(job, at) ==> Placed(WithStep(job, k, step), at) && at != k
  {
    if Placed(job, at) {
      HandKeepsExecuting(job, k, step, at);
      hide Executing;
    }
  }

  /** In executeStep. */
  lemma HandKeepsStep(job: Job, loop: Loop, k: nat, step: Step)
    requires Hands(job, k, step) && PcInv(job, loop) && ExecutingStep(loop.pc).Some? && !loop.pc.Mark?
    ensures PcInv(WithStep(job, k, step), loop)
  {
    var at := loop.pc.step;
    if loop.pc.Position? {
      HandKeepsExecuting(job, k, step, at);
    } else {
      HandKeepsPlaced(job, k, step, at);
    }
    hide Executing, Placed, Hands;
    StepsElsewhere(job, k, step, at);
  }

  lemma StepsElsewhere(job: Job, k: nat, step: Step, at: nat)
    requires k < |job.row.steps|
    ensures at != k && at < |job.row.steps| ==> WithStep(job, k, step).row.steps[at] == job.row.steps[at]
    ensures WithStep(job, k, step).log == job.log
  {
  }

  lemma HandKeepsPc(job: Job, loop: Loop, k: nat, step: Step)
    requires Hands(job, k, step) && PcInv(job, loop)
    ensures PcInv(WithStep(job, k, step), loop)
  {
    if ExecutingStep(loop.pc).Some? && !loop.pc.Mark? {
      HandKeepsStep(job, loop, k, step);
    } else {
      HandKeepsShape(job, k, step);
      hide Quiet, NonePending, AllPending, AllCompleted, Ready, Executing, Clean, LeftOut, Placed, Serves;
    }
  }

  lemma HandKeepsLoop(job: Job, loop: Loop, k: nat, step: Step)
    requires Hands(job, k, step) && LoopInv(job, loop)
    ensures LoopInv(WithStep(job, k, step), loop)
  {
    HandKeepsPc(job, loop, k, step);
    hide PcInv, CancelInv;
  }

  lemma HandKeepsRun(job: Job, live: Option<Loop>, k: nat, step: Step)
    requires Hands(job, k, step) && RunInv(job, live)
    ensures RunInv(WithStep(job, k, step), live)
    ensures Compatible(job, WithStep(job, k, step), live.Some?)
  {
    HandKeepsHistory(job, k, step);
    HandKeepsShape(job, k, step);
    if live.Some? {
      HandKeepsLoop(job, live.value, k, step);
    }
    hide History, LoopInv, Quiet, Shaped, NonePending, AllPending, AllCompleted, Ready, Clean;
  }

  /** In recovery the sweep only looks at statuses. */
  lemma HandKeepsSweep(recovery: Recovery, store: map<RunId, Job>, id: RunId, k: nat, step: Step)
    requires SweepInv(recovery, store) && id in store && Hands(store[id], k, step)
    ensures SweepInv(recovery, store[id := WithStep(store[id], k, step)])
  {
    HandKeepsWalk(store[id], k, step);
    if !recovery.Query? {
      HandKeepsTodo(recovery.todo, store, id, WithStep(store[id], k, step));
    }
    hide WalkInv, TodoInv, WithStep, Hands, Over;
  }

  lemma HandKeepsWalk(job: Job, k: nat, step: Step)
    requires Hands(job, k, step)
    ensures var job' := WithStep(job, k, step);
            && job'.row.status == job.row.status && job'.unlisted == job.unlisted
            && Over(job'.row.steps) == Over(job.row.steps)
            && forall listed, j | WalkInv(job, listed, j) :: WalkInv(job', listed, j)
  {
    HandKeepsShape(job, k, step);
    hide LeftOut, Quiet, NonePending;
  }

  lemma HandKeepsTodo(todo: seq<RunId>, store: map<RunId, Job>, id: RunId, job: Job)
    requires id in store && job.row.status == store[id].row.status
    ensures TodoInv(todo, store) ==> TodoInv(todo, store[id := job])
  {
  }

  lemma HandKeeps(s: System, id: RunId, k: nat, step: Step)
    requires Inv(s) && id in s.store && Hands(s.store[id], k, step)
    ensures Inv(s.(store := s.store[id := WithStep(s.store[id], k, step)]))
  {
    hide RunInv, Hands, WithStep, Compatible, CallerInv, ActiveInv, SpawnInv, LockInv, RunsInv, Inv;
    LiveRun(s, id);
    HandKeepsStatus(s.store[id], k, step);
    HandKeepsRun(s.store[id], Live(s.registry, s.loops, id), k, step);
    if s.recovery.None? {
      StoreKeeps(s, id, WithStep(s.store[id], k, step));
    } else {
      Sweeping(s);
      HandKeepsSweep(s.recovery.value, s.store, id, k, step);
      RecoveryKeeps(s, id, WithStep(s.store[id], k, step), s.recovery);
    }
  }

  lemma HandKeepsStatus(job: Job, k: nat, step: Step)
    requires Hands(job, k, step)
    ensures k < |job.row.steps|
    ensures var job' := WithStep(job, k, step); job' == job.(row := job'.row) && job'.row.status == job.row.status
  {
  }

  lemma LiveRun(s: System, id: RunId)
    requires Inv(s) && id in s.store
    ensures RunInv(s.store[id], Live(s.registry, s.loops, id))
    ensures s.recovery.Some? ==> Live(s.registry, s.loops, id) == None
    ensures id in s.registry <==> Live(s.registry, s.loops, id).Some?
  {
    hide RunInv;
  }

  lemma NewJobKeeps(initial: string, steps: seq<Step>)
    requires FreshSteps(steps)
    ensures RunInv(NewJob(initial, steps), None)
  {
  }

  lemma CreateKeeps(s: System, id: RunId, job: Job)
    requires Inv(s) && s.recovery.None? && id !in s.store && RunInv(job, None) && !job.working
    ensures Inv(s.(store := s.store[id := job]))
  {
    hide RunInv, LockInv, SpawnInv;
    assert Live(s.registry, s.loops, id) == None;
  }

  lemma CallStartKeeps(s: System, c: nat, id: RunId)
    requires Inv(s) && s.recovery.None? && c !in s.callers && id in s.store && s.store[id].row.status.RunPending?
    ensures Inv(s.(callers := s.callers[c := StartWait(id)]))
  {
    LiveRun(s, id);
    PendingRests(s.store[id], Live(s.registry, s.loops, id));
    hide RunInv, RunsInv, RegistryInv, SpawnInv, ActiveInv, CallerInv, Resting;
    CallKeeps(s, c, Some(StartWait(id)), s.lock);
  }

  lemma PendingRests(job: Job, live: Option<Loop>)
    requires RunInv(job, live) && job.row.status.RunPending?
    ensures Resting(job) && live.None?
  {
  }

  lemma SweepFoundKeeps(s: System, order: seq<RunId>)
    requires Inv(s) && s.recovery == Some(Query) && ActiveRuns(s, order)
    ensures Inv(s.(recovery := Some(Listing(order))))
  {
    forall i | 0 <= i < |order|
      ensures order[i] in s.store && s.store[order[i]].row.status.RunActive?
    {
      assert order[i] in order;
    }
    hide RunInv, Inv;
    RecoveryMovesOn(s, Some(Listing(order)));
  }

  // ----- every action, every run -----

  lemma Idle(s: System)
    requires Inv(s)
    ensures s.recovery.Some? ==> s.callers == map[] && s.loops == map[]
  {
    hide RunInv;
  }

  lemma ExecKeeps(s: System, a: Action)
    requires Inv(s)
    ensures Inv(Exec(s, a))
  {
    hide Inv, MoveCaller, MoveLoop, MoveRecovery, Crashed, ActiveRuns, FreshSteps;
    Idle(s);
    match a
    case Crash => CrashKeeps(s);
    case SweepFound(order) =>
      if s.recovery == Some(Query) && ActiveRuns(s, order) {
        SweepFoundKeeps(s, order);
      }
    case SweepMove(answer) =>
      if s.recovery.Some? {
        MoveRecoveryKeeps(s, answer);
      }
    case Create(id, initial, steps) =>
      if s.recovery.None? && id !in s.store && steps != [] && FreshSteps(steps) {
        NewJobKeeps(initial, steps);
        CreateKeeps(s, id, NewJob(initial, steps));
      }
    case CallStart(c, id) =>
      if s.recovery.None? && c !in s.callers && id in s.store && s.store[id].row.status.RunPending? {
        CallStartKeeps(s, c, id);
      }
    case CallCancel(c, id) =>
      if s.recovery.None? && c !in s.callers && id in s.store {
        CallKeeps(s, c, Some(CancelWait(id)), s.lock);
      }
    case CallerMove(c, answer) =>
      if c in s.callers {
        MoveCallerKeeps(s, c, answer);
      }
    case LoopMove(l, answer) =>
      if l in s.loops {
        MoveLoopKeeps(s, l, answer);
      }
    case HandTicket(id, k, ticket) =>
      if PendingStep(s, id, k) {
        HandKeeps(s, id, k, s.store[id].row.steps[k].(ticket := Some(ticket)));
      }
    case HandInstructions(id, k, text) =>
      if PendingStep(s, id, k) {
        HandKeeps(s, id, k, s.store[id].row.steps[k].(instructions := text));
      }
  }

  lemma {:induction false} PlayKeeps(s: System, actions: seq<Action>)
    requires Inv(s)
    ensures Inv(Play(s, actions))
  {
    hide Inv, Exec;
    if actions != [] {
      var before := actions[..|actions| - 1];
      PlayKeeps(s, before);
      ExecKeeps(Play(s, before), actions[|actions| - 1]);
    }
  }

  /** Every state the chain runner can reach satisfies the invariant. */
  lemma ReachableInv(actions: seq<Action>)
    ensures Inv(Play(Boot(), actions))
  {
    PlayKeeps(Boot(), actions);
  }

  /** The invariant of a run, seen from its goroutine. */
  lemma LiveFacts(s: System, l: nat)
    requires Inv(s) && l in s.loops && !s.loops[l].loop.pc.Unlocking?
    ensures s.loops[l].run in s.store && RunInv(s.store[s.loops[l].run], Some(s.loops[l].loop))
  {
    hide RunInv;
    LiveLoop(s, l);
  }

  lemma Exclusive(s: System)
    requires Inv(s)
    ensures forall l, m | l in s.loops && m in s.loops && s.loops[l].run == s.loops[m].run :: l == m
  {
    hide RunInv, RunsInv, CallerInv, ActiveInv, SpawnInv, RecoveryInv;
  }

  /** A call leaves the other calls where they are. */
  lemma MoveCallerOthers(s: System, c: nat, answer: Answer)
    requires c in s.callers
    ensures var t := MoveCaller(s, c, answer);
            forall d | d in t.callers && d != c :: d in s.callers && t.callers[d] == s.callers[d]
  {
    hide StartWritten, CancelWritten, Fire;
  }
}
