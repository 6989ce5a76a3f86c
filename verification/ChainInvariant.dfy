/** The inductive invariant of the chain runner. */
module ChainInvariant {
  import opened Wrappers
  import opened ChainRun
  import opened ChainRunInvariant
  import opened ChainSystem

  predicate HoldsLock(caller: Caller) {
    || caller.StartCheck? || caller.StartReject? || caller.StartWrite? || caller.StartRegister?
    || caller.StartUnlock? || caller.CancelLook? || caller.CancelUnlock?
  }

  ghost predicate LockInv(callers: map<nat, Caller>, loops: map<nat, Driver>, lock: Option<Owner>) {
    && (forall c | c in callers :: HoldsLock(callers[c]) <==> lock == Some(ByCaller(c)))
    && (forall l | l in loops ::
          loops[l].loop.pc.Deleting? || loops[l].loop.pc.Unlocking? <==> lock == Some(ByLoop(l)))
    && match lock
       case None => true
       case Some(ByCaller(c)) => c in callers
       case Some(ByLoop(l)) => l in loops
  }

  /** The registry holds exactly the runs of the goroutines that have not deleted their entry yet. */
  ghost predicate RegistryInv(registry: map<RunId, nat>, loops: map<nat, Driver>, runs: set<RunId>, nextLoop: nat) {
    && (forall id | id in registry :: registry[id] in loops && loops[registry[id]].run == id)
    && (forall l | l in loops ::
          && l < nextLoop && loops[l].run in runs
          && if loops[l].loop.pc.Unlocking? then loops[l].run !in registry
             else loops[l].run in registry && registry[loops[l].run] == l)
  }

  /** A run this call may still start. */
  function StartTarget(caller: Caller): Option<RunId> {
    match caller
    case StartWait(id) => Some(id)
    case StartCheck(id) => Some(id)
    case StartWrite(id) => Some(id)
    case StartRegister(id) => Some(id)
    case _ => None
  }

  function SpawnTarget(caller: Caller): Option<nat> {
    match caller
    case StartUnlock(_, l) => Some(l)
    case StartSpawn(_, l) => Some(l)
    case _ => None
  }

  /** A run about to be started is at rest unless a goroutine is at work on it. */
  ghost predicate TargetInv(caller: Caller, store: map<RunId, Job>, registry: map<RunId, nat>) {
    var target := StartTarget(caller);
    target.Some? ==>
      var id := target.value;
      && id in store
      && (id !in registry ==> Resting(store[id]))
      && (caller.StartWrite? || caller.StartRegister? ==> id !in registry)
      && (caller.StartRegister? ==> Startable(store[id]))
  }

  ghost predicate CallerInv(callers: map<nat, Caller>, store: map<RunId, Job>, registry: map<RunId, nat>) {
    forall c | c in callers :: TargetInv(callers[c], store, registry)
  }

  /** Each goroutine not yet spawned is left to one call of Start. */
  ghost predicate SpawnInv(callers: map<nat, Caller>, loops: map<nat, Driver>) {
    && (forall c | c in callers && SpawnTarget(callers[c]).Some? ::
          var l := SpawnTarget(callers[c]).value;
          l in loops && loops[l].loop.pc.Born?)
    && (forall c, d | c in callers && d in callers && SpawnTarget(callers[c]).Some?
          && SpawnTarget(callers[c]) == SpawnTarget(callers[d]) :: c == d)
  }

  /** A run still being worked on is registered, unless it was orphaned or is being registered. */
  ghost predicate ActiveInv(store: map<RunId, Job>, registry: map<RunId, nat>, callers: map<nat, Caller>) {
    forall id | id in store && store[id].working && id !in registry ::
      store[id].orphaned || exists c :: c in callers && callers[c] == StartRegister(id)
  }

  ghost predicate RecoveryInv(s: System) {
    s.recovery.Some? ==>
      && s.callers == map[] && s.loops == map[] && s.registry == map[] && s.lock.None?
      && SweepInv(s.recovery.value, s.store)
  }

  ghost predicate SweepInv(recovery: Recovery, store: map<RunId, Job>) {
    match recovery
    case Query => true
    case Listing(todo) => TodoInv(todo, store)
    case Walking(todo, listed, j) => TodoInv(todo, store) && todo != [] && WalkInv(store[todo[0]], listed, j)
    case Closing(todo) =>
      && TodoInv(todo, store) && todo != []
      && (Over(store[todo[0]].row.steps) <==> !store[todo[0]].unlisted)
  }

  /** The sweep has canceled what was left of the first j steps it listed. */
  ghost predicate WalkInv(job: Job, listed: seq<Step>, j: nat) {
    var steps := job.row.steps;
    && j <= |listed| <= |steps|
    && (forall i | j <= i < |listed| :: listed[i].status == steps[i].status)
    && (forall i | 0 <= i < j :: !steps[i].status.Pending? && !steps[i].status.Running?)
    && (job.unlisted <==> LeftOut(steps, |listed|))
  }

  ghost predicate TodoInv(todo: seq<RunId>, store: map<RunId, Job>) {
    && (forall i | 0 <= i < |todo| :: todo[i] in store && store[todo[i]].row.status.RunActive?)
    && (forall id | id in store && store[id].row.status.RunActive? :: id in todo)
    && (forall i, j | 0 <= i < j < |todo| :: todo[i] != todo[j])
  }

  /** The goroutine registered for a run. */
  function Live(registry: map<RunId, nat>, loops: map<nat, Driver>, id: RunId): Option<Loop> {
    if id in registry && registry[id] in loops then Some(loops[registry[id]].loop) else None
  }

  ghost predicate RunsInv(store: map<RunId, Job>, registry: map<RunId, nat>, loops: map<nat, Driver>) {
    forall id | id in store :: RunInv(store[id], Live(registry, loops, id))
  }

  ghost predicate Inv(s: System) {
    && LockInv(s.callers, s.loops, s.lock)
    && RegistryInv(s.registry, s.loops, s.store.Keys, s.nextLoop)
    && CallerInv(s.callers, s.store, s.registry)
    && SpawnInv(s.callers, s.loops)
    && ActiveInv(s.store, s.registry, s.callers)
    && RunsInv(s.store, s.registry, s.loops)
    && RecoveryInv(s)
  }
}
