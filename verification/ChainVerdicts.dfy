/**
  Which verdict a goroutine reaches. For every run: told from its looks at the context and from the
  reads, steps and instances that failed. For a run canceled in the middle of a step: told from the
  row of that step alone.
 */
module ChainVerdicts {
  import opened Wrappers
  import opened ChainRun
  import opened ChainRunInvariant
  import opened ChainSystem
  import opened ChainInvariant
  import opened ChainPreservation
  import opened ChainProgress
  import opened ChainWrites

  // ----- what others leave alone -----

  /** What others than its goroutine may do to a run. */
  ghost predicate Untampered(was: Job, now: Job) {
    && |now.row.steps| == |was.row.steps|
    && (forall k | 0 <= k < |was.row.steps| && !was.row.steps[k].status.Pending? ::
          now.row.steps[k] == was.row.steps[k])
    && now.orphaned == was.orphaned && (was.raced ==> now.raced)
    && (now.row.status == was.row.status || (now.row.status.RunCanceled? && now.raced))
  }

  /** What they may do to the goroutine: let it begin, or cancel its context. */
  predicate LeftAlone(was: Loop, now: Loop) {
    && (now.pc == was.pc || (was.pc.Born? && now.pc.Open?))
    && (now == was.(pc := now.pc) || (!was.canceled && now.canceled && now.struck == ExecutingStep(was.pc)))
  }

  ghost predicate Left(s: System, t: System, l: nat) {
    && l in s.loops && l in t.loops && t.loops[l].run == s.loops[l].run
    && s.loops[l].run in s.store && s.loops[l].run in t.store
    && Untampered(s.store[s.loops[l].run], t.store[s.loops[l].run]) && LeftAlone(s.loops[l].loop, t.loops[l].loop)
  }

  lemma UntamperedItself(job: Job)
    ensures Untampered(job, job)
  {
  }

  lemma FiredIsLeft(job: Job, loop: Loop)
    ensures LeftAlone(loop, Fire(job, loop))
  {
    hide Launches;
  }

  lemma CanceledIsUntampered(job: Job, live: Option<Loop>)
    requires RunInv(job, live) && live.Some?
    ensures Untampered(job, CancelWritten(job))
  {
    hide History, LoopInv, Shaped;
  }

  lemma HandedIsUntampered(job: Job, k: nat, step: Step)
    requires k < |job.row.steps| && job.row.steps[k].status.Pending?
    ensures Untampered(job, WithStep(job, k, step))
  {
  }

  /** No call writes "running" to a run that is registered. */
  lemma NotWriting(s: System, l: nat, c: nat)
    requires Inv(s) && l in s.loops && !s.loops[l].loop.pc.Unlocking? && c in s.callers
    ensures s.callers[c] != StartWrite(s.loops[l].run)
  {
    hide RunInv, RunsInv, LockInv, ActiveInv, SpawnInv, RecoveryInv, Resting, Startable;
    assert TargetInv(s.callers[c], s.store, s.registry);
  }

  lemma CallLeaves(s: System, c: nat, answer: Answer, l: nat)
    requires Inv(s) && l in s.loops && !s.loops[l].loop.pc.Unlocking? && c in s.callers
    ensures Left(s, MoveCaller(s, c, answer), l)
  {
    hide Inv, RunInv, Untampered, LeftAlone, StartWritten, CancelWritten, Fire, Left;
    LiveFacts(s, l);
    LoopBound(s, l);
    NotWriting(s, l, c);
    Spawning(s, c);
    var Driver(id, loop) := s.loops[l];
    UntamperedItself(s.store[id]);
    match s.callers[c]
    case CancelWrite(run) =>
      if run == id {
        CanceledIsUntampered(s.store[id], Some(loop));
      }
      StaysLeft(s, MoveCaller(s, c, answer), l);
    case CancelFire(m) =>
      if m in s.loops && s.loops[m].run in s.store {
        FiredIsLeft(s.store[s.loops[m].run], s.loops[m].loop);
      }
      FiresLeft(s, MoveCaller(s, c, answer), l);
    case StartSpawn(_, m) => SpawnsLeft(s, MoveCaller(s, c, answer), l);
    case _ => StaysLeft(s, MoveCaller(s, c, answer), l);
  }

  lemma StaysLeft(s: System, t: System, l: nat)
    requires l in s.loops && l in t.loops && t.loops[l] == s.loops[l]
    requires s.loops[l].run in s.store && s.loops[l].run in t.store
    requires Untampered(s.store[s.loops[l].run], t.store[s.loops[l].run])
    ensures Left(s, t, l)
  {
    hide Untampered;
  }

  lemma FiresLeft(s: System, t: System, l: nat)
    requires l in s.loops && l in t.loops && t.loops[l].run == s.loops[l].run && t.store == s.store
    requires s.loops[l].run in s.store
    requires t.loops[l] == s.loops[l] || LeftAlone(s.loops[l].loop, t.loops[l].loop)
    ensures Left(s, t, l)
  {
    UntamperedItself(s.store[s.loops[l].run]);
    hide Untampered;
  }

  lemma SpawnsLeft(s: System, t: System, l: nat)
    requires l in s.loops && l in t.loops && t.loops[l].run == s.loops[l].run && t.store == s.store
    requires s.loops[l].run in s.store
    requires t.loops[l] == s.loops[l] ||
             (s.loops[l].loop.pc.Born? && t.loops[l].loop == s.loops[l].loop.(pc := Open))
    ensures Left(s, t, l)
  {
    UntamperedItself(s.store[s.loops[l].run]);
    hide Untampered;
  }

  lemma LoopLeaves(s: System, m: nat, answer: Answer, l: nat)
    requires Inv(s) && l in s.loops && !s.loops[l].loop.pc.Unlocking? && m in s.loops && m != l
    ensures Left(s, MoveLoop(s, m, answer), l)
  {
    hide Inv, LoopNext, RunInv, Untampered, Left;
    LiveFacts(s, l);
    Exclusive(s);
    UntamperedItself(s.store[s.loops[l].run]);
    StaysLeft(s, MoveLoop(s, m, answer), l);
  }

  lemma HandLeaves(s: System, id: RunId, k: nat, step: Step, l: nat)
    requires Inv(s) && l in s.loops && !s.loops[l].loop.pc.Unlocking? && PendingStep(s, id, k)
    ensures Left(s, s.(store := s.store[id := WithStep(s.store[id], k, step)]), l)
  {
    hide Inv, RunInv, Untampered, WithStep, Left;
    LiveFacts(s, l);
    UntamperedItself(s.store[s.loops[l].run]);
    HandedIsUntampered(s.store[id], k, step);
    StaysLeft(s, s.(store := s.store[id := WithStep(s.store[id], k, step)]), l);
  }

  /** Other actions than its own leave a goroutine in its place and its run alone, but for a Cancel. */
  lemma OthersLeave(s: System, a: Action, l: nat)
    requires Inv(s) && l in s.loops && !s.loops[l].loop.pc.Unlocking? && NotOf([a], l)
    ensures Left(s, Exec(s, a), l)
  {
    hide Inv, MoveCaller, MoveLoop, MoveRecovery, ActiveRuns, FreshSteps, WithStep, RunInv, Untampered, Left;
    Idle(s);
    LiveFacts(s, l);
    UntamperedItself(s.store[s.loops[l].run]);
    StaysLeft(s, s, l);
    assert a in [a];
    match a
    case CallerMove(c, answer) =>
      if c in s.callers {
        CallLeaves(s, c, answer, l);
      }
    case LoopMove(m, answer) =>
      if m in s.loops {
        LoopLeaves(s, m, answer, l);
      }
    case HandTicket(id, k, ticket) =>
      if PendingStep(s, id, k) {
        HandLeaves(s, id, k, s.store[id].row.steps[k].(ticket := Some(ticket)), l);
      }
    case HandInstructions(id, k, text) =>
      if PendingStep(s, id, k) {
        HandLeaves(s, id, k, s.store[id].row.steps[k].(instructions := text), l);
      }
    case _ => StaysLeft(s, Exec(s, a), l);
  }

  /** A goroutine that was not there has only just been registered. */
  lemma Newborn(s: System, a: Action, l: nat)
    requires Inv(s) && l !in s.loops && l in Exec(s, a).loops
    ensures l == s.nextLoop && Exec(s, a).loops[l].loop == Loop(false, 0, None, Born)
    ensures a.CallerMove?
  {
    hide Inv, MoveCaller, MoveLoop, MoveRecovery, ActiveRuns, FreshSteps, WithStep;
    match a
    case CallerMove(c, answer) =>
      if c in s.callers {
        Registered(s, c, answer, l);
      }
    case LoopMove(m, answer) =>
      if m in s.loops {
        NoneRegistered(s, m, answer);
      }
    case SweepMove(answer) =>
      if s.recovery.Some? {
        SweepsNone(s, answer);
      }
    case _ =>
  }

  lemma Registered(s: System, c: nat, answer: Answer, l: nat)
    requires c in s.callers && l !in s.loops && l in MoveCaller(s, c, answer).loops
    ensures l == s.nextLoop && MoveCaller(s, c, answer).loops[l].loop == Loop(false, 0, None, Born)
  {
    hide StartWritten, CancelWritten, Fire;
  }

  lemma NoneRegistered(s: System, m: nat, answer: Answer)
    requires m in s.loops
    ensures MoveLoop(s, m, answer).loops.Keys <= s.loops.Keys
  {
    hide LoopNext;
  }

  lemma SweepsNone(s: System, answer: Answer)
    requires s.recovery.Some?
    ensures MoveRecovery(s, s.recovery.value, answer).loops == s.loops
  {
    hide LeftOut, RowsRead, SweepCancel, SweepClosed;
  }

  // ----- the turns a goroutine takes -----

  /** The verdict that an action of the goroutine decides on, if it does. */
  ghost predicate Turns(s: System, a: Action, l: nat, verdict: RunStatus) {
    && a.LoopMove? && a.loop == l && l in s.loops && s.loops[l].run in s.store
    && var Driver(id, loop) := s.loops[l];
       match verdict
       // it looks at the context, between steps or after a step's error, and finds it done
       case RunCanceled => (loop.pc.Top? || loop.pc.Errored?) && loop.canceled
       // a read fails, the instance ended without success, or a step's error with the context alive
       case RunFailed =>
         || ((loop.pc.Open? || loop.pc.Next?) && !a.answer.Yes?)
         || (loop.pc.Poll? && a.answer.No?)
         || (loop.pc.Errored? && !loop.canceled)
       // no step is pending
       case RunCompleted => loop.pc.Next? && a.answer.Yes? && NonePending(s.store[id].row.steps)
       case _ => false
  }

  ghost predicate Turned(actions: seq<Action>, l: nat, verdict: RunStatus) {
    exists n | 0 <= n < |actions| :: Turns(Play(Boot(), actions[..n]), actions[n], l, verdict)
  }

  lemma TurnedSplit(actions: seq<Action>, l: nat, verdict: RunStatus)
    requires actions != []
    ensures var before := actions[..|actions| - 1];
            Turned(actions, l, verdict) <==>
              Turned(before, l, verdict) || Turns(Play(Boot(), before), actions[|actions| - 1], l, verdict)
  {
    hide Play, Turns;
    var before := actions[..|actions| - 1];
    forall n | 0 <= n < |actions|
      ensures before[..n] == actions[..n]
    {
    }
    if Turned(before, l, verdict) {
      var n :| 0 <= n < |before| && Turns(Play(Boot(), before[..n]), before[n], l, verdict);
      assert before[n] == actions[n];
    }
    if Turned(actions, l, verdict) {
      var n :| 0 <= n < |actions| && Turns(Play(Boot(), actions[..n]), actions[n], l, verdict);
      assert n < |before| ==> before[n] == actions[n];
    }
  }

  /** The verdict the goroutine has decided on. */
  predicate Bent(pc: Pc, verdict: RunStatus) {
    match pc
    case Settle(_, to, err) => to.Failed? && !err && verdict.RunFailed?
    case FailOpen => verdict.RunFailed?
    case ListSteps(v) => v == verdict
    case Sweep(v, _, _) => v == verdict
    case Close(v) => v == verdict
    case _ => false
  }

  /** Once its work is over, the verdict is in the row, unless a Cancel wrote over it or the store was lost. */
  ghost predicate Kept(job: Job, verdict: RunStatus) {
    if job.orphaned then verdict.RunFailed?
    else job.row.status == verdict || (job.row.status.RunCanceled? && job.raced)
  }

  /** The goroutine is bent on a verdict exactly if it has taken a turn to it. */
  ghost predicate Tracks(s: System, actions: seq<Action>, l: nat) {
    && (l >= s.nextLoop ==> forall v :: !Turned(actions, l, v))
    && (l in s.loops && !s.loops[l].loop.pc.Unlocking? ==>
          var Driver(id, loop) := s.loops[l];
          && id in s.store
          && if AfterClose(loop.pc) then Concluded(s.store[id], actions, l)
             else forall v :: Turned(actions, l, v) <==> Bent(loop.pc, v))
  }

  /** It has taken a turn, and none but to what the row now says. */
  ghost predicate Concluded(job: Job, actions: seq<Action>, l: nat) {
    (exists v :: Turned(actions, l, v)) && forall v | Turned(actions, l, v) :: Kept(job, v)
  }

  lemma OwnPc(job: Job, loop: Loop)
    requires RunInv(job, Some(loop))
    ensures PcInv(job, loop) && (!AfterClose(loop.pc) ==> !job.orphaned)
  {
    hide History, PcInv, Ending, Shaped, CancelInv;
  }

  ghost predicate TurnsRight(s: System, l: nat, answer: Answer, verdict: RunStatus)
    requires l in s.loops && s.loops[l].run in s.store
  {
    var loop, (job', loop') := s.loops[l].loop, LoopNext(s.store[s.loops[l].run], s.loops[l].loop, answer);
    && (!AfterClose(loop'.pc) ==>
          (Bent(loop'.pc, verdict) <==> Bent(loop.pc, verdict) || Turns(s, LoopMove(l, answer), l, verdict)))
    && (AfterClose(loop'.pc) ==>
          !Turns(s, LoopMove(l, answer), l, verdict) && (Bent(loop.pc, verdict) ==> Kept(job', verdict)))
  }

  lemma ReadTurns(s: System, l: nat, answer: Answer, verdict: RunStatus)
    requires l in s.loops && s.loops[l].run in s.store && s.loops[l].loop.pc.Next?
    ensures TurnsRight(s, l, answer, verdict)
  {
    var steps := s.store[s.loops[l].run].row.steps;
    assert NonePending(steps) <==> NextPending(steps) == |steps|;
    hide NextPending, NonePending;
  }

  lemma StepTurns(s: System, l: nat, answer: Answer, verdict: RunStatus)
    requires l in s.loops && s.loops[l].run in s.store && (s.loops[l].loop.pc.Settle? || s.loops[l].loop.pc.Poll?)
    requires PcInv(s.store[s.loops[l].run], s.loops[l].loop)
    ensures TurnsRight(s, l, answer, verdict)
  {
    hide Placed, WithStatus, NonePending;
  }

  lemma LookTurns(s: System, l: nat, answer: Answer, verdict: RunStatus)
    requires l in s.loops && s.loops[l].run in s.store
    requires var pc := s.loops[l].loop.pc; pc.Open? || pc.Top? || pc.Errored? || pc.FailOpen?
    ensures TurnsRight(s, l, answer, verdict)
  {
    hide NonePending;
  }

  lemma NoTurn(s: System, l: nat, answer: Answer, verdict: RunStatus)
    requires l in s.loops && s.loops[l].run in s.store
    requires var pc := s.loops[l].loop.pc;
             pc.Mark? || pc.Position? || pc.Handoff? || pc.Launch? || pc.Record?
    ensures TurnsRight(s, l, answer, verdict)
  {
    hide WithStatus, WithInstance, RequestFor, MissingHandoff, NonePending;
  }

  lemma EndTurns(s: System, l: nat, answer: Answer, verdict: RunStatus)
    requires l in s.loops && s.loops[l].run in s.store && !s.store[s.loops[l].run].orphaned
    requires var pc := s.loops[l].loop.pc; pc.ListSteps? || pc.Sweep? || pc.Close?
    ensures TurnsRight(s, l, answer, verdict)
  {
    hide SweepStep, LeftOut, RowsRead, NonePending;
  }

  /** The goroutine's own action, before the end. */
  lemma OwnTurn(s: System, l: nat, answer: Answer, verdict: RunStatus)
    requires Inv(s) && l in s.loops && !Locking(s.loops[l].loop.pc)
    ensures s.loops[l].run in s.store && TurnsRight(s, l, answer, verdict)
  {
    hide Inv, LoopNext, RunInv, PcInv, TurnsRight;
    var Driver(id, loop) := s.loops[l];
    LiveFacts(s, l);
    OwnPc(s.store[id], loop);
    Phases(loop.pc);
    if loop.pc.Next? {
      ReadTurns(s, l, answer, verdict);
    } else if loop.pc.Settle? || loop.pc.Poll? {
      StepTurns(s, l, answer, verdict);
    } else if loop.pc.Open? || loop.pc.Top? || loop.pc.Errored? || loop.pc.FailOpen? {
      LookTurns(s, l, answer, verdict);
    } else if loop.pc.Mark? || loop.pc.Position? || loop.pc.Handoff? || loop.pc.Launch? || loop.pc.Record? {
      NoTurn(s, l, answer, verdict);
    } else {
      EndTurns(s, l, answer, verdict);
    }
  }

  /** What its own action does to it. */
  lemma OwnMoveTracks(s: System, before: seq<Action>, l: nat, answer: Answer)
    requires Inv(s) && s == Play(Boot(), before) && Tracks(s, before, l)
    requires l in s.loops && !s.loops[l].loop.pc.Unlocking?
    ensures var t := MoveLoop(s, l, answer);
            l in t.loops && !t.loops[l].loop.pc.Unlocking? ==> Tracks(t, before + [LoopMove(l, answer)], l)
  {
    hide Inv, LoopNext, Play, Turned, Kept, Turns, Bent, TurnsRight;
    var a := LoopMove(l, answer);
    var pc := s.loops[l].loop.pc;
    LoopBound(s, l);
    forall v
      ensures Turned(before + [a], l, v) <==> Turned(before, l, v) || Turns(s, a, l, v)
      ensures if Locking(pc) then !Turns(s, a, l, v) else TurnsRight(s, l, answer, v)
    {
      TurnedMore(before, a, l, v);
      if Locking(pc) {
        LockingTakesNone(s, a, l, v);
      } else {
        OwnTurn(s, l, answer, v);
      }
    }
    if Locking(pc) {
      LockingIsBare(pc);
    } else {
      OwnTracks(s, before, l, answer);
    }
  }

  lemma LockingIsBare(pc: Pc)
    requires Locking(pc)
    ensures forall v :: !Bent(pc, v)
  {
  }

  lemma OwnTracks(s: System, before: seq<Action>, l: nat, answer: Answer)
    requires Tracks(s, before, l) && l in s.loops && l < s.nextLoop && !Locking(s.loops[l].loop.pc)
    requires s.loops[l].run in s.store
    requires var a := LoopMove(l, answer);
             forall v :: (Turned(before + [a], l, v) <==> Turned(before, l, v) || Turns(s, a, l, v))
                         && TurnsRight(s, l, answer, v)
    ensures Tracks(MoveLoop(s, l, answer), before + [LoopMove(l, answer)], l)
  {
    hide LoopNext, Turned, Kept, Turns;
    var loop', all := LoopNext(s.store[s.loops[l].run], s.loops[l].loop, answer).1, before + [LoopMove(l, answer)];
    if AfterClose(loop'.pc) {
      EndsBent(s.store[s.loops[l].run], s.loops[l].loop, answer);
      var v :| Bent(s.loops[l].loop.pc, v);
      assert Turned(all, l, v);
    }
    hide Bent;
  }

  /** The work ends with a verdict decided on. */
  lemma EndsBent(job: Job, loop: Loop, answer: Answer)
    requires !Locking(loop.pc) && AfterClose(LoopNext(job, loop, answer).1.pc)
    ensures exists v :: Bent(loop.pc, v)
  {
    assert loop.pc.Close? || loop.pc.FailOpen?;
    assert Bent(loop.pc, if loop.pc.Close? then loop.pc.verdict else RunFailed);
  }

  lemma LockingTakesNone(s: System, a: Action, l: nat, v: RunStatus)
    requires l in s.loops && Locking(s.loops[l].loop.pc)
    ensures !Turns(s, a, l, v)
  {
  }

  lemma TurnedMore(before: seq<Action>, a: Action, l: nat, v: RunStatus)
    ensures Turned(before + [a], l, v) <==> Turned(before, l, v) || Turns(Play(Boot(), before), a, l, v)
  {
    hide Turned, Turns, Play;
    TurnedSplit(before + [a], l, v);
    assert (before + [a])[..|before|] == before;
  }

  /** What the others do to it. */
  lemma OthersTrack(s: System, t: System, before: seq<Action>, a: Action, l: nat)
    requires s == Play(Boot(), before) && Tracks(s, before, l) && Left(s, t, l) && NotOf([a], l)
    requires l < s.nextLoop && !s.loops[l].loop.pc.Unlocking? && s.nextLoop <= t.nextLoop
    ensures Tracks(t, before + [a], l)
  {
    hide Play, Turned;
    assert a in [a];
    forall v
      ensures Turned(before + [a], l, v) <==> Turned(before, l, v)
    {
      TurnedMore(before, a, l, v);
    }
    hide Turns;
  }

  lemma NewbornTracks(s: System, t: System, before: seq<Action>, a: Action, l: nat)
    requires s == Play(Boot(), before) && Tracks(s, before, l) && l >= s.nextLoop && l !in s.loops
    requires l in t.loops ==> t.loops[l].loop.pc.Born? && t.loops[l].run in t.store
    ensures Tracks(t, before + [a], l)
  {
    hide Play, Turned;
    forall v
      ensures !Turned(before + [a], l, v)
    {
      TurnedMore(before, a, l, v);
    }
  }

  lemma ExecTracks(before: seq<Action>, a: Action, l: nat)
    requires Tracks(Play(Boot(), before), before, l)
    ensures Tracks(Play(Boot(), before + [a]), before + [a], l)
  {
    hide Inv, Exec, Tracks, Play, Later;
    var s, t := Play(Boot(), before), Exec(Play(Boot(), before), a);
    PlayedOn(before, a);
    ReachableInv(before);
    ReachableInv(before + [a]);
    ExecLater(s, a);
    LaterOf(s, t, l);
    if l !in s.loops {
      if l in t.loops {
        Newborn(s, a, l);
        LoopBound(t, l);
        NewbornTracks(s, t, before, a, l);
      } else if l >= s.nextLoop {
        NewbornTracks(s, t, before, a, l);
      } else {
        GoneTracks(t, before + [a], l);
      }
    } else {
      LoopBound(s, l);
      if l !in t.loops || t.loops[l].loop.pc.Unlocking? {
        GoneTracks(t, before + [a], l);
      } else if a.LoopMove? && a.loop == l {
        OwnMoveTracks(s, before, l, a.answer);
        ItMoves(s, a);
      } else {
        NotCrashed(s, a, l);
        OthersLeave(s, a, l);
        OthersTrack(s, t, before, a, l);
      }
    }
  }

  lemma ItMoves(s: System, a: Action)
    requires a.LoopMove? && a.loop in s.loops
    ensures Exec(s, a) == MoveLoop(s, a.loop, a.answer)
  {
    hide MoveLoop;
  }

  lemma NotCrashed(s: System, a: Action, l: nat)
    requires l in Exec(s, a).loops && !(a.LoopMove? && a.loop == l)
    ensures NotOf([a], l)
  {
  }

  lemma LaterOf(s: System, t: System, l: nat)
    requires Later(s, t)
    ensures s.nextLoop <= t.nextLoop
    ensures l in s.loops && l in t.loops && l < s.nextLoop && s.loops[l].loop.pc.Unlocking? ==>
              t.loops[l].loop.pc.Unlocking?
  {
  }

  lemma GoneTracks(t: System, actions: seq<Action>, l: nat)
    requires l < t.nextLoop && (l !in t.loops || t.loops[l].loop.pc.Unlocking?)
    ensures Tracks(t, actions, l)
  {
  }

  lemma {:induction false} PlayTracks(actions: seq<Action>, l: nat)
    ensures Tracks(Play(Boot(), actions), actions, l)
  {
    hide Exec, Turns;
    if actions == [] {
    } else {
      hide Tracks, Play;
      var before := actions[..|actions| - 1];
      PlayTracks(before, l);
      ExecTracks(before, actions[|actions| - 1], l);
      assert actions == before + [actions[|actions| - 1]];
    }
  }

  /**
    The verdict of every goroutine, whatever the others do. It is about to write "canceled" exactly if
    at one of its looks at the context, between steps or after a step's error, it found it done;
    "failed" exactly if a read failed, an instance ended without success, or a step ended in an
    error with the context alive; "completed" exactly if it found no step pending. When it has
    written, that is the status, unless a Cancel wrote "canceled" over it.
   */
  lemma VerdictExactly(actions: seq<Action>, l: nat, verdict: RunStatus)
    requires l in Play(Boot(), actions).loops
    ensures var s := Play(Boot(), actions);
            var Driver(id, loop) := s.loops[l];
            && (loop.pc.Close? ==> (loop.pc.verdict == verdict <==> Turned(actions, l, verdict)))
            && (loop.pc.Leave? || loop.pc.Deleting? ==>
                  && id in s.store
                  && (s.store[id].orphaned ==> (verdict.RunFailed? <==> Turned(actions, l, verdict)))
                  && (!s.store[id].orphaned && Turned(actions, l, verdict) ==>
                        s.store[id].row.status == verdict || (s.store[id].row.status.RunCanceled? && s.store[id].raced))
                  && (!s.store[id].orphaned && !s.store[id].raced ==>
                        (s.store[id].row.status == verdict <==> Turned(actions, l, verdict))))
  {
    hide Play, Turned;
    PlayTracks(actions, l);
  }

  // ----- canceled in the middle of a step -----

  /** The step's workflow was started and ended without success. */
  predicate Unlucky(step: Step) {
    step.status.Failed? && step.instance.Some?
  }

  /** Step k is under way, and has or has not got an instance. */
  predicate UnderWay(row: Run, k: nat, sent: bool) {
    k < |row.steps| && !row.steps[k].status.Pending? && row.steps[k].instance.Some? == sent
  }

  /** While a step is executed its row has an instance once one was started. */
  ghost predicate StepTold(row: Run, pc: Pc) {
    match pc
    case Position(k, _) => UnderWay(row, k, false)
    case Handoff(k, _) => UnderWay(row, k, false)
    case Launch(k, _) => UnderWay(row, k, false)
    case Record(k, _, _) => UnderWay(row, k, false)
    case Poll(k) => UnderWay(row, k, true)
    case Settle(k, to, err) => UnderWay(row, k, !(to.Failed? && err)) && (to.Completed? ==> !err)
    case _ => true
  }

  /** After the step in which the context was canceled, its row tells the verdict. */
  ghost predicate StruckTold(job: Job, pc: Pc, k: nat) {
    && k < |job.row.steps|
    && (ExecutingStep(pc).None? ==>
          && Settled(job.row.steps[k].status)
          && match pc
             case Top => !Unlucky(job.row.steps[k])
             case Errored => !Unlucky(job.row.steps[k])
             case FailOpen => Unlucky(job.row.steps[k])
             case ListSteps(v) => v == VerdictOf(job.row.steps[k])
             case Sweep(v, _, _) => v == VerdictOf(job.row.steps[k])
             case Close(v) => v == VerdictOf(job.row.steps[k])
             case _ => Kept(job, VerdictOf(job.row.steps[k])))
  }

  /** What becomes of a run whose context was canceled while this step was executed. */
  function VerdictOf(step: Step): RunStatus {
    if Unlucky(step) then RunFailed else RunCanceled
  }

  ghost predicate Told(job: Job, loop: Loop) {
    StepTold(job.row, loop.pc) && (loop.struck.Some? ==> StruckTold(job, loop.pc, loop.struck.value))
  }

  ghost predicate Tells(s: System, l: nat) {
    l in s.loops && !s.loops[l].loop.pc.Unlocking? ==>
      s.loops[l].run in s.store && Told(s.store[s.loops[l].run], s.loops[l].loop)
  }

  // ----- the goroutine's own actions -----

  /** What is known of a run and its goroutine when it moves on. */
  ghost predicate Known(job: Job, loop: Loop) {
    && PcInv(job, loop) && !job.orphaned
    && (forall k | 0 <= k < |job.row.steps| && job.row.steps[k].status.Pending? :: job.row.steps[k].instance.None?)
    && (loop.struck.Some? ==>
          && loop.canceled && !loop.pc.Next? && !loop.pc.Open? && loop.pc != Close(RunCompleted)
          && (ExecutingStep(loop.pc).Some? ==> ExecutingStep(loop.pc) == loop.struck))
  }

  lemma KnownLoop(job: Job, loop: Loop)
    requires RunInv(job, Some(loop)) && !AfterClose(loop.pc)
    ensures Known(job, loop)
  {
    hide PcInv, Ending, Shaped, InOrder, Serves;
  }

  lemma BeginTells(job: Job, loop: Loop, answer: Answer)
    requires Known(job, loop) && Told(job, loop)
    requires loop.pc.Mark? || loop.pc.Position? || loop.pc.Handoff? || loop.pc.Launch?
    ensures var (job', loop') := LoopNext(job, loop, answer); Told(job', loop')
  {
    hide SameDefinition, Executing, Quiet, Clean, Ready, RequestFor, MissingHandoff, Serves;
  }

  lemma WatchTells(job: Job, loop: Loop, answer: Answer)
    requires Known(job, loop) && Told(job, loop) && (loop.pc.Record? || loop.pc.Poll?)
    ensures var (job', loop') := LoopNext(job, loop, answer); Told(job', loop')
  {
    hide Placed, Serves;
  }

  lemma SettleTells(job: Job, loop: Loop, answer: Answer)
    requires Known(job, loop) && Told(job, loop) && loop.pc.Settle?
    ensures var (job', loop') := LoopNext(job, loop, answer); Told(job', loop')
  {
    hide Placed;
  }

  lemma LookTells(job: Job, loop: Loop, answer: Answer)
    requires Known(job, loop) && Told(job, loop)
    requires loop.pc.Open? || loop.pc.Top? || loop.pc.Next? || loop.pc.Errored? || loop.pc.FailOpen?
    ensures var (job', loop') := LoopNext(job, loop, answer); Told(job', loop')
  {
    hide PcInv;
  }

  lemma EndTells(job: Job, loop: Loop, answer: Answer)
    requires Known(job, loop) && Told(job, loop) && (loop.pc.ListSteps? || loop.pc.Close?)
    ensures var (job', loop') := LoopNext(job, loop, answer); Told(job', loop')
  {
    hide PcInv, LeftOut, RowsRead;
  }

  lemma SweepTells(job: Job, loop: Loop, answer: Answer)
    requires Known(job, loop) && Told(job, loop) && loop.pc.Sweep?
    ensures var (job', loop') := LoopNext(job, loop, answer); Told(job', loop')
  {
    SweepMoves(job, loop, answer);
    hide LoopNext, LeftOut;
  }

  lemma LoopTells(job: Job, loop: Loop, answer: Answer)
    requires RunInv(job, Some(loop)) && Told(job, loop) && !Locking(loop.pc)
    ensures var (job', loop') := LoopNext(job, loop, answer); Told(job', loop')
  {
    hide RunInv, Told, LoopNext, Known;
    KnownLoop(job, loop);
    Phases(loop.pc);
    if loop.pc.Mark? || loop.pc.Position? || loop.pc.Handoff? || loop.pc.Launch? {
      BeginTells(job, loop, answer);
    } else if loop.pc.Record? || loop.pc.Poll? {
      WatchTells(job, loop, answer);
    } else if loop.pc.Settle? {
      SettleTells(job, loop, answer);
    } else if loop.pc.Sweep? {
      SweepTells(job, loop, answer);
    } else if loop.pc.ListSteps? || loop.pc.Close? {
      EndTells(job, loop, answer);
    } else {
      LookTells(job, loop, answer);
    }
  }

  // ----- every action -----

  lemma LeftTells(was: Job, before: Loop, now: Job, after: Loop)
    requires Untampered(was, now) && LeftAlone(before, after) && Told(was, before)
    requires ExecutingStep(before.pc).Some? ==> ExecutingStep(before.pc).value < |was.row.steps|
    requires before.struck.Some? ==> before.canceled
    ensures Told(now, after)
  {
  }

  lemma OwnMoveTells(s: System, l: nat, answer: Answer)
    requires Inv(s) && l in s.loops && Tells(s, l)
    ensures Tells(MoveLoop(s, l, answer), l)
  {
    hide Inv, LoopNext, RunInv, Told;
    var Driver(id, loop) := s.loops[l];
    if !loop.pc.Unlocking? {
      LiveFacts(s, l);
      if !Locking(loop.pc) {
        LoopTells(s.store[id], loop, answer);
      } else {
        LockingTells(s.store[id], loop);
      }
    }
  }

  lemma LockingTells(job: Job, loop: Loop)
    requires Told(job, loop)
    ensures loop.pc.Leave? ==> Told(job, loop.(pc := Deleting))
  {
  }

  lemma OthersTell(s: System, t: System, l: nat)
    requires Inv(s) && Tells(s, l) && Left(s, t, l) && !s.loops[l].loop.pc.Unlocking?
    ensures Tells(t, l)
  {
    hide Inv, RunInv, Told, Untampered, LeftAlone;
    LiveFacts(s, l);
    InStep(s.store[s.loops[l].run], s.loops[l].loop);
    LeftTells(s.store[s.loops[l].run], s.loops[l].loop, t.store[s.loops[l].run], t.loops[l].loop);
  }

  lemma InStep(job: Job, loop: Loop)
    requires RunInv(job, Some(loop))
    ensures ExecutingStep(loop.pc).Some? ==> ExecutingStep(loop.pc).value < |job.row.steps|
    ensures loop.struck.Some? ==> loop.canceled
  {
    hide History, Ending, Shaped;
  }

  lemma ExecTells(s: System, a: Action, l: nat)
    requires Inv(s) && Tells(s, l) && Inv(Exec(s, a))
    ensures Tells(Exec(s, a), l)
  {
    hide Inv, Exec, Told;
    var t := Exec(s, a);
    if l !in s.loops {
      if l in t.loops {
        Newborn(s, a, l);
        LoopBound(t, l);
        NewbornTells(t.store[t.loops[l].run]);
      }
    } else if a.LoopMove? && a.loop == l {
      OwnMoveTells(s, l, a.answer);
      ItMoves(s, a);
    } else if l in t.loops {
      NotCrashed(s, a, l);
      if s.loops[l].loop.pc.Unlocking? {
        StaysUnlocking(s, a, l);
      } else {
        OthersLeave(s, a, l);
        OthersTell(s, t, l);
      }
    }
  }

  lemma StaysUnlocking(s: System, a: Action, l: nat)
    requires Inv(s) && l in s.loops && s.loops[l].loop.pc.Unlocking? && l in Exec(s, a).loops
    ensures Exec(s, a).loops[l].loop.pc.Unlocking?
  {
    hide Inv, Exec, Later;
    ExecLater(s, a);
    LoopBound(s, l);
    LaterOf(s, Exec(s, a), l);
  }

  lemma NewbornTells(job: Job)
    ensures Told(job, Loop(false, 0, None, Born))
  {
  }

  lemma {:induction false} PlayTells(actions: seq<Action>, l: nat)
    ensures Tells(Play(Boot(), actions), l)
  {
    hide Inv, Exec, Told;
    if actions != [] {
      var before, a := actions[..|actions| - 1], actions[|actions| - 1];
      PlayTells(before, l);
      ReachableInv(before);
      ReachableInv(actions);
      hide Tells;
      ExecTells(Play(Boot(), before), a, l);
    }
  }

  /**
    A run whose context was canceled while step k was executed fails exactly if the row of that step
    says that its workflow was started and ended without success; otherwise, whether the step was
    completed, was canceled or ended in an error, the run is canceled. When the verdict is written,
    that is the status; only a Cancel may have written "canceled" over it.
   */
  lemma StruckVerdict(actions: seq<Action>, l: nat)
    requires l in Play(Boot(), actions).loops && Play(Boot(), actions).loops[l].loop.struck.Some?
    ensures var s := Play(Boot(), actions);
            var Driver(id, loop) := s.loops[l];
            var k := loop.struck.value;
            !loop.pc.Unlocking? ==>
              && id in s.store && k < |s.store[id].row.steps|
              && var job := s.store[id];
                 var failed := job.row.steps[k].status.Failed? && job.row.steps[k].instance.Some?;
                 && (loop.pc.Close? ==> loop.pc.verdict == if failed then RunFailed else RunCanceled)
                 && (loop.pc.Leave? || loop.pc.Deleting? ==>
                       && (job.orphaned ==> failed)
                       && (!job.orphaned && !failed ==> job.row.status.RunCanceled?)
                       && (!job.orphaned && failed ==>
                             job.row.status.RunFailed? || (job.row.status.RunCanceled? && job.raced)))
  {
    hide Play;
    PlayTells(actions, l);
  }

  // ----- the instance of a step -----

  /** The goroutine is about to store the instance of step k, or has stored it. */
  ghost predicate Stores(job: Job, pc: Pc, k: nat, instance: string) {
    && UnderWay(job.row, k, !(pc.Record? && pc.step == k))
    && (if pc.Record? && pc.step == k then pc.instance == instance
        else job.row.steps[k].instance == Some(instance))
    && !((pc.Mark? || pc.Position? || pc.Handoff? || pc.Launch?) && pc.step == k)
  }

  ghost predicate Storing(s: System, l: nat, k: nat, instance: string) {
    && l < s.nextLoop
    && (l in s.loops && !s.loops[l].loop.pc.Unlocking? ==>
          s.loops[l].run in s.store && Stores(s.store[s.loops[l].run], s.loops[l].loop.pc, k, instance))
  }

  lemma LoopStores(job: Job, loop: Loop, answer: Answer, k: nat, instance: string)
    requires RunInv(job, Some(loop)) && Stores(job, loop.pc, k, instance) && !Locking(loop.pc)
    requires StepTold(job.row, loop.pc)
    ensures var (job', loop') := LoopNext(job, loop, answer); Stores(job', loop'.pc, k, instance)
  {
    hide RunInv, LoopNext, Known, Stores, StepTold;
    KnownLoop(job, loop);
    Phases(loop.pc);
    if loop.pc.Mark? || loop.pc.Position? || loop.pc.Handoff? || loop.pc.Launch? {
      BeginStores(job, loop, answer, k, instance);
    } else if loop.pc.Record? || loop.pc.Poll? || loop.pc.Settle? {
      WatchStores(job, loop, answer, k, instance);
    } else if loop.pc.Sweep? {
      SweepStores(job, loop, answer, k, instance);
    } else {
      LookStores(job, loop, answer, k, instance);
    }
  }

  lemma BeginStores(job: Job, loop: Loop, answer: Answer, k: nat, instance: string)
    requires Stores(job, loop.pc, k, instance)
    requires loop.pc.Mark? || loop.pc.Position? || loop.pc.Handoff? || loop.pc.Launch?
    ensures var (job', loop') := LoopNext(job, loop, answer); Stores(job', loop'.pc, k, instance)
  {
    hide RequestFor, MissingHandoff;
  }

  lemma WatchStores(job: Job, loop: Loop, answer: Answer, k: nat, instance: string)
    requires Known(job, loop) && Stores(job, loop.pc, k, instance)
    requires loop.pc.Record? || loop.pc.Poll? || loop.pc.Settle?
    ensures var (job', loop') := LoopNext(job, loop, answer); Stores(job', loop'.pc, k, instance)
  {
    hide Placed, Serves;
  }

  lemma SweepStores(job: Job, loop: Loop, answer: Answer, k: nat, instance: string)
    requires Known(job, loop) && Stores(job, loop.pc, k, instance) && loop.pc.Sweep?
    ensures var (job', loop') := LoopNext(job, loop, answer); Stores(job', loop'.pc, k, instance)
  {
    SweepMoves(job, loop, answer);
    if loop.pc.at < |loop.pc.listed| {
      DiscardKeeps(job, loop.pc.verdict, loop.pc.listed, loop.pc.at, k);
    }
    hide LoopNext, LeftOut, SweepStep, PcInv;
  }

  lemma DiscardKeeps(job: Job, verdict: RunStatus, listed: seq<Step>, j: nat, k: nat)
    requires j < |listed| && k < |job.row.steps| && !job.row.steps[k].status.Pending?
    ensures var steps := SweepStep(job, verdict, listed, j).row.steps;
            |steps| == |job.row.steps| && !steps[k].status.Pending? && steps[k].instance == job.row.steps[k].instance
  {
    CanceledKeeps(job.row, j, k);
    hide WithStatus;
  }

  lemma CanceledKeeps(row: Run, j: nat, k: nat)
    requires k < |row.steps| && !row.steps[k].status.Pending?
    ensures var steps := WithStatus(row, j, Canceled).steps;
            |steps| == |row.steps| && !steps[k].status.Pending? && steps[k].instance == row.steps[k].instance
  {
  }

  lemma LookStores(job: Job, loop: Loop, answer: Answer, k: nat, instance: string)
    requires Stores(job, loop.pc, k, instance)
    requires || loop.pc.Open? || loop.pc.Top? || loop.pc.Next? || loop.pc.Errored? || loop.pc.FailOpen?
             || loop.pc.ListSteps? || loop.pc.Close?
    ensures var (job', loop') := LoopNext(job, loop, answer); Stores(job', loop'.pc, k, instance)
  {
    hide LeftOut, RowsRead;
  }

  lemma ExecStores(s: System, a: Action, l: nat, k: nat, instance: string)
    requires Inv(s) && Storing(s, l, k, instance) && Tells(s, l)
    ensures Storing(Exec(s, a), l, k, instance)
  {
    hide Inv, Exec, StepTold, StruckTold, RunInv, Later, LoopNext, Untampered, LeftAlone, Stores;
    var t := Exec(s, a);
    ExecLater(s, a);
    LaterOf(s, t, l);
    if l in t.loops && !t.loops[l].loop.pc.Unlocking? {
      if l !in s.loops {
        Newborn(s, a, l);
      } else if a.LoopMove? && a.loop == l {
        var loop := s.loops[l].loop;
        LiveFacts(s, l);
        ItMoves(s, a);
        if Locking(loop.pc) {
          LockingStores(s.store[s.loops[l].run], loop.pc, k, instance);
        } else {
          LoopStores(s.store[s.loops[l].run], loop, a.answer, k, instance);
        }
      } else {
        NotCrashed(s, a, l);
        OthersLeave(s, a, l);
        LeftStores(s, t, l, k, instance);
      }
    }
  }

  lemma LockingStores(job: Job, pc: Pc, k: nat, instance: string)
    requires Stores(job, pc, k, instance) && Locking(pc)
    ensures Stores(job, Deleting, k, instance)
  {
  }

  lemma LeftStores(s: System, t: System, l: nat, k: nat, instance: string)
    requires Left(s, t, l) && Stores(s.store[s.loops[l].run], s.loops[l].loop.pc, k, instance)
    ensures Stores(t.store[s.loops[l].run], t.loops[l].loop.pc, k, instance)
  {
  }

  lemma {:induction false} PlayStores(a: seq<Action>, b: seq<Action>, l: nat, k: nat, instance: string)
    requires Storing(Play(Boot(), a), l, k, instance)
    ensures Storing(Play(Boot(), a + b), l, k, instance)
  {
    hide Inv, Exec, Storing, Play, Tells;
    if b == [] {
      assert a + b == a;
    } else {
      var before, last := b[..|b| - 1], b[|b| - 1];
      PlayStores(a, before, l, k, instance);
      ReachableInv(a + before);
      PlayTells(a + before, l);
      ExecStores(Play(Boot(), a + before), last, l, k, instance);
      PlayedOn(a + before, last);
      assert a + b == a + before + [last];
    }
  }

  /** The instance that orch.Start returned is the one the step's row holds while it is watched and ever after. */
  lemma ReplyIsStored(a: seq<Action>, instance: string, b: seq<Action>, l: nat)
    requires l in Play(Boot(), a).loops && Play(Boot(), a).loops[l].loop.pc.Launch?
    ensures var k, t := Play(Boot(), a).loops[l].loop.pc.step, Play(Boot(), a + [LoopMove(l, Yes(instance))] + b);
            l in t.loops && !t.loops[l].loop.pc.Unlocking? ==>
              var Driver(id, loop) := t.loops[l];
              && id in t.store && k < |t.store[id].row.steps|
              && (if loop.pc.Record? && loop.pc.step == k then loop.pc.instance == instance
                  else t.store[id].row.steps[k].instance == Some(instance))
  {
    hide Inv, Play;
    var s, reply := Play(Boot(), a), LoopMove(l, Yes(instance));
    ReachableInv(a);
    LiveFacts(s, l);
    PlayTells(a, l);
    PlayedOn(a, reply);
    LoopBound(s, l);
    Replies(s, l, instance);
    PlayStores(a + [reply], b, l, s.loops[l].loop.pc.step, instance);
  }

  lemma Replies(s: System, l: nat, instance: string)
    requires l in s.loops && s.loops[l].loop.pc.Launch? && s.loops[l].run in s.store && Tells(s, l) && l < s.nextLoop
    ensures Storing(Exec(s, LoopMove(l, Yes(instance))), l, s.loops[l].loop.pc.step, instance)
  {
    hide StruckTold;
  }

  // ----- what a Cancel does to a goroutine -----

  /**
    When a Cancel has called the cancel function of a goroutine, its context is canceled, and stays so;
    the first time it also settles which step, if any, the verdict will be told from.
   */
  lemma CancelReaches(a: seq<Action>, c: nat, answer: Answer, b: seq<Action>, l: nat)
    requires c in Play(Boot(), a).callers && Play(Boot(), a).callers[c] == CancelFire(l) && l in Play(Boot(), a).loops
    ensures var s, t := Play(Boot(), a), Play(Boot(), a + [CallerMove(c, answer)] + b);
            l in t.loops ==>
              && t.loops[l].loop.canceled
              && (!s.loops[l].loop.canceled ==> t.loops[l].loop.struck == ExecutingStep(s.loops[l].loop.pc))
              && (s.loops[l].loop.canceled ==> t.loops[l].loop.struck == s.loops[l].loop.struck)
  {
    hide Inv, Play, Later;
    var s, fire := Play(Boot(), a), CallerMove(c, answer);
    ReachableInv(a);
    PlayedOn(a, fire);
    LoopBound(s, l);
    Fires(s, c, answer, l);
    ReachableLater(a + [fire], b);
    StillCanceled(Play(Boot(), a + [fire]), Play(Boot(), a + [fire] + b), l);
  }

  lemma Fires(s: System, c: nat, answer: Answer, l: nat)
    requires c in s.callers && s.callers[c] == CancelFire(l) && l in s.loops && s.loops[l].run in s.store
    ensures var t := Exec(s, CallerMove(c, answer));
            && l in t.loops && t.loops[l].loop.canceled && t.nextLoop == s.nextLoop
            && t.loops[l].loop.struck == if s.loops[l].loop.canceled then s.loops[l].loop.struck
                                         else ExecutingStep(s.loops[l].loop.pc)
  {
    hide Launches;
  }

  lemma StillCanceled(s: System, t: System, l: nat)
    requires Later(s, t) && l in s.loops && l < s.nextLoop && s.loops[l].loop.canceled
    ensures l in t.loops ==> t.loops[l].loop.canceled && t.loops[l].loop.struck == s.loops[l].loop.struck
  {
  }
}
