/** Calls and goroutines that run without interruption, as sequences of actions. */
module ChainCalls {
  import opened Wrappers
  import opened ChainRun
  import opened ChainSystem

  function Move(c: nat): Action {
    CallerMove(c, Yes(""))
  }

  function Moves(c: nat, n: nat): seq<Action> {
    seq(n, _ => Move(c))
  }

  /** The effect of a sequence of actions, taken from the front. */
  ghost function Ahead(s: System, actions: seq<Action>): System
    decreases |actions|
  {
    if actions == [] then s else Ahead(Exec(s, actions[0]), actions[1..])
  }

  lemma {:induction false} AheadIsPlay(s: System, actions: seq<Action>)
    ensures Ahead(s, actions) == Play(s, actions)
    decreases |actions|
  {
    hide Exec;
    if |actions| == 1 {
      assert actions[..0] == [];
    } else if |actions| > 1 {
      var last := |actions| - 1;
      AheadIsPlay(Exec(s, actions[0]), actions[1..]);
      AheadIsPlay(s, actions[..last]);
      AheadIsPlay(Exec(s, actions[0]), actions[1..last]);
      assert actions[1..][..last - 1] == actions[1..last];
      assert actions[..last][1..] == actions[1..last];
    }
  }

  lemma AheadMoves(s: System, c: nat, n: nat)
    requires n > 0
    ensures Ahead(s, Moves(c, n)) == Ahead(Exec(s, Move(c)), Moves(c, n - 1))
  {
    hide Exec;
    assert Moves(c, n)[1..] == Moves(c, n - 1);
  }

  /** A call and all its moves, as the last actions of a run. */
  lemma CallPlayed(tape: seq<Action>, call: Action, c: nat, n: nat)
    ensures Play(Boot(), tape + [call] + Moves(c, n)) == Ahead(Exec(Play(Boot(), tape), call), Moves(c, n))
  {
    hide Exec, Moves;
    AheadIsPlay(Boot(), tape + [call] + Moves(c, n));
    AheadConcat(Boot(), tape + [call], Moves(c, n));
    AheadIsPlay(Boot(), tape + [call]);
    assert (tape + [call])[..|tape|] == tape;
  }

  // ----- Start -----

  /** The state once a call of Start that has read "pending" has run to its end. */
  function Started(s: System, c: nat, id: RunId): System
    requires id in s.store
  {
    s.(store := s.store[id := StartWritten(s.store[id])], registry := s.registry[id := s.nextLoop],
       loops := s.loops[s.nextLoop := Driver(id, Loop(false, 0, None, Open))],
       nextLoop := s.nextLoop + 1, callers := s.callers - {c})
  }

  lemma StartLocks(s: System, c: nat, id: RunId)
    requires c in s.callers && s.callers[c] == StartWait(id) && s.lock.None? && id !in s.registry && id in s.store
    ensures Ahead(s, Moves(c, 6)) == Ahead(
              s.(lock := Some(ByCaller(c)), callers := s.callers[c := StartWrite(id)]), Moves(c, 4))
  {
    hide Ahead, Moves, StartWritten, CancelWritten, Fire, MoveLoop, MoveRecovery;
    AheadMoves(s, c, 6);
    var s1 := s.(lock := Some(ByCaller(c)), callers := s.callers[c := StartCheck(id)]);
    assert Exec(s, Move(c)) == s1;
    AheadMoves(s1, c, 5);
    assert Exec(s1, Move(c)) == s.(lock := Some(ByCaller(c)), callers := s.callers[c := StartWrite(id)]);
  }

  lemma StartWrites(s: System, c: nat, id: RunId)
    requires c in s.callers && s.callers[c] == StartWrite(id) && id in s.store
    ensures Ahead(s, Moves(c, 4)) == Ahead(
              s.(store := s.store[id := StartWritten(s.store[id])], callers := s.callers[c := StartRegister(id)]),
              Moves(c, 3))
  {
    hide StartWritten, Ahead, Moves;
    AheadMoves(s, c, 4);
  }

  lemma StartRegisters(s: System, c: nat, id: RunId)
    requires c in s.callers && s.callers[c] == StartRegister(id)
    ensures var l := s.nextLoop;
            Ahead(s, Moves(c, 3)) == Ahead(
              s.(registry := s.registry[id := l], loops := s.loops[l := Driver(id, Loop(false, 0, None, Born))],
                 nextLoop := l + 1, callers := s.callers[c := StartUnlock(id, l)]), Moves(c, 2))
  {
    hide Ahead, Moves, StartWritten, CancelWritten, Fire, MoveLoop, MoveRecovery;
    AheadMoves(s, c, 3);
  }

  lemma StartSpawns(s: System, c: nat, id: RunId, l: nat)
    requires c in s.callers && s.callers[c] == StartUnlock(id, l)
    requires l in s.loops && s.loops[l] == Driver(id, Loop(false, 0, None, Born))
    ensures Ahead(s, Moves(c, 2)) == s.(lock := None, callers := s.callers - {c},
                                        loops := s.loops[l := Driver(id, Loop(false, 0, None, Open))])
  {
    AheadMoves(s, c, 2);
    var s1 := s.(lock := None, callers := s.callers[c := StartSpawn(id, l)]);
    assert Exec(s, Move(c)) == s1;
    AheadMoves(s1, c, 1);
    var s2 := Exec(s1, Move(c));
    assert s1.callers - {c} == s.callers - {c};
    assert Ahead(s2, Moves(c, 0)) == s2;
  }

  lemma StartRuns(s: System, c: nat, id: RunId)
    requires c in s.callers && s.callers[c] == StartWait(id) && s.lock.None? && id !in s.registry && id in s.store
    ensures Ahead(s, Moves(c, 6)) == Started(s, c, id)
  {
    hide Exec, Ahead, Moves, StartWritten;
    var l := s.nextLoop;
    StartLocks(s, c, id);
    var s1 := s.(lock := Some(ByCaller(c)), callers := s.callers[c := StartWrite(id)]);
    StartWrites(s1, c, id);
    var s2 := s1.(store := s.store[id := StartWritten(s.store[id])], callers := s1.callers[c := StartRegister(id)]);
    StartRegisters(s2, c, id);
    var s3 := s2.(registry := s.registry[id := l], loops := s.loops[l := Driver(id, Loop(false, 0, None, Born))],
                  nextLoop := l + 1, callers := s2.callers[c := StartUnlock(id, l)]);
    StartSpawns(s3, c, id, l);
    assert s3.callers - {c} == s.callers - {c};
    var begun := Driver(id, Loop(false, 0, None, Open));
    assert s3.loops[l := begun] == s.loops[l := begun];
  }

  // ----- Cancel -----

  /** Cancel of a pending run that is not registered: it writes "canceled" and returns. */
  lemma CancelLooks(s: System, c: nat, id: RunId)
    requires c in s.callers && s.callers[c] == CancelWait(id) && s.lock.None?
    ensures var found := if id in s.registry then Some(s.registry[id]) else None;
            Ahead(s, Moves(c, 5)) == Ahead(
              s.(lock := None,
                 callers := s.callers[c := if found.Some? then CancelFire(found.value) else CancelRead(id)]),
              Moves(c, 2))
  {
    hide Ahead, Moves, StartWritten, CancelWritten, Fire, MoveLoop, MoveRecovery;
    var found := if id in s.registry then Some(s.registry[id]) else None;
    var next := if found.Some? then CancelFire(found.value) else CancelRead(id);
    CancelLocks(s, c, id);
    var s2 := s.(lock := Some(ByCaller(c)), callers := s.callers[c := CancelUnlock(id, found)]);
    AheadMoves(s2, c, 3);
    assert s2.callers[c := next] == s.callers[c := next];
  }

  lemma CancelLocks(s: System, c: nat, id: RunId)
    requires c in s.callers && s.callers[c] == CancelWait(id) && s.lock.None?
    ensures var found := if id in s.registry then Some(s.registry[id]) else None;
            Ahead(s, Moves(c, 5)) == Ahead(
              s.(lock := Some(ByCaller(c)), callers := s.callers[c := CancelUnlock(id, found)]), Moves(c, 3))
  {
    hide Ahead, Moves, StartWritten, CancelWritten, Fire, MoveLoop, MoveRecovery;
    AheadMoves(s, c, 5);
    var s1 := s.(lock := Some(ByCaller(c)), callers := s.callers[c := CancelLook(id)]);
    assert Exec(s, Move(c)) == s1;
    AheadMoves(s1, c, 4);
    var found := if id in s.registry then Some(s.registry[id]) else None;
    assert s1.callers[c := CancelUnlock(id, found)] == s.callers[c := CancelUnlock(id, found)];
  }

  lemma CancelWrites(s: System, c: nat, id: RunId)
    requires c in s.callers && s.callers[c] == CancelRead(id) && id in s.store && s.store[id].row.status.RunPending?
    ensures Ahead(s, Moves(c, 2)) == s.(store := s.store[id := CancelWritten(s.store[id])], callers := s.callers - {c})
  {
    AheadMoves(s, c, 2);
    var s1 := s.(callers := s.callers[c := CancelWrite(id)]);
    assert Exec(s, Move(c)) == s1;
    AheadMoves(s1, c, 1);
    var s2 := Exec(s1, Move(c));
    assert s1.callers - {c} == s.callers - {c};
    assert Ahead(s2, Moves(c, 0)) == s2;
  }

  /** Cancel of a registered run: it calls the cancel function; the last move finds the call gone. */
  lemma CancelFires(s: System, c: nat, l: nat)
    requires c in s.callers && s.callers[c] == CancelFire(l) && l in s.loops && s.loops[l].run in s.store
    ensures var Driver(id, loop) := s.loops[l];
            Ahead(s, Moves(c, 2)) == s.(loops := s.loops[l := Driver(id, Fire(s.store[id], loop))],
                                        callers := s.callers - {c})
  {
    hide Fire;
    AheadMoves(s, c, 2);
    var s1 := Exec(s, Move(c));
    AheadMoves(s1, c, 1);
    assert Exec(s1, Move(c)) == s1;
    assert Ahead(s1, Moves(c, 0)) == s1;
  }

  lemma AheadConcat(s: System, a: seq<Action>, b: seq<Action>)
    ensures Ahead(s, a + b) == Ahead(Ahead(s, a), b)
    decreases |a|
  {
    hide Exec;
    if a == [] {
      assert a + b == b;
    } else {
      AheadConcat(Exec(s, a[0]), a[1..], b);
      assert (a + b)[1..] == a[1..] + b;
    }
  }

  // ----- goroutines -----

  function LoopMoves(l: nat, answers: seq<Answer>): seq<Action> {
    seq(|answers|, i requires 0 <= i < |answers| => LoopMove(l, answers[i]))
  }

  predicate Outside(pc: Pc) {
    pc.Born? || pc.Leave? || pc.Deleting? || pc.Unlocking?
  }

  /** The goroutine's own actions, taken from the front; it stops where it would lock. */
  function Works(job: Job, loop: Loop, answers: seq<Answer>): (Job, Loop)
    decreases |answers|
  {
    if answers == [] || Outside(loop.pc) then (job, loop)
    else var (job', loop') := LoopNext(job, loop, answers[0]); Works(job', loop', answers[1..])
  }

  predicate WorksThrough(job: Job, loop: Loop, answers: seq<Answer>)
    decreases |answers|
  {
    answers == [] ||
    (!Outside(loop.pc) && var (job', loop') := LoopNext(job, loop, answers[0]); WorksThrough(job', loop', answers[1..]))
  }

  lemma WorksOn(job: Job, loop: Loop, answers: seq<Answer>, job': Job, loop': Loop)
    requires answers != [] && !Outside(loop.pc) && LoopNext(job, loop, answers[0]) == (job', loop')
    ensures Works(job, loop, answers) == Works(job', loop', answers[1..])
    ensures WorksThrough(job, loop, answers) == WorksThrough(job', loop', answers[1..])
  {
  }

  lemma WorksNone(job: Job, loop: Loop)
    ensures Works(job, loop, []) == (job, loop) && WorksThrough(job, loop, [])
  {
  }

  function WithDriver(s: System, l: nat, id: RunId, job: Job, loop: Loop): System {
    s.(store := s.store[id := job], loops := s.loops[l := Driver(id, loop)])
  }

  /** What a goroutine does on its own is what the system does when only it moves. */
  lemma {:induction false} WorksInSystem(s: System, l: nat, id: RunId, loop: Loop, answers: seq<Answer>)
    requires l in s.loops && s.loops[l] == Driver(id, loop) && id in s.store
    requires WorksThrough(s.store[id], loop, answers)
    ensures var (job', loop') := Works(s.store[id], loop, answers);
            Ahead(s, LoopMoves(l, answers)) == WithDriver(s, l, id, job', loop')
    decreases |answers|
  {
    hide LoopNext;
    if answers == [] {
      assert WithDriver(s, l, id, s.store[id], loop) == s;
    } else {
      var (job1, loop1) := LoopNext(s.store[id], loop, answers[0]);
      var s1 := WithDriver(s, l, id, job1, loop1);
      assert Exec(s, LoopMove(l, answers[0])) == s1;
      assert LoopMoves(l, answers)[1..] == LoopMoves(l, answers[1..]);
      WorksInSystem(s1, l, id, loop1, answers[1..]);
      var (job', loop') := Works(job1, loop1, answers[1..]);
      assert WithDriver(s1, l, id, job', loop') == WithDriver(s, l, id, job', loop');
    }
  }

  /** The deferred function: lock, delete the entry, unlock. */
  lemma Departs(s: System, l: nat, id: RunId, loop: Loop, answers: seq<Answer>)
    requires l in s.loops && s.loops[l] == Driver(id, loop) && loop.pc.Leave? && s.lock.None? && |answers| == 3
    ensures Ahead(s, LoopMoves(l, answers)) == s.(registry := s.registry - {id}, loops := s.loops - {l})
  {
    hide LoopNext;
    var s1 := s.(lock := Some(ByLoop(l)), loops := s.loops[l := Driver(id, loop.(pc := Deleting))]);
    assert Exec(s, LoopMove(l, answers[0])) == s1;
    var s2 := s1.(registry := s.registry - {id}, loops := s1.loops[l := Driver(id, loop.(pc := Unlocking))]);
    assert Exec(s1, LoopMove(l, answers[1])) == s2;
    var s3 := Exec(s2, LoopMove(l, answers[2]));
    assert s2.loops - {l} == s.loops - {l};
    var moves := LoopMoves(l, answers);
    assert Ahead(s, moves) == Ahead(s1, moves[1..]);
    assert Ahead(s1, moves[1..]) == Ahead(s2, moves[1..][1..]);
    assert moves[1..][1..][1..] == [];
    assert Ahead(s2, moves[1..][1..]) == Ahead(s3, []) == s3;
  }
}
