/** Capture keys outlive whoever took them.  Two questions over every interleaving: where does a key
    that is present come from, and when does the key set follow from the order of the releases?
    Whether a key protects the capture the agent runs is the subject of `Running`. */
module Captures {
  import opened Prelude
  import opened Locks
  import opened Pools
  import opened Protocol

  predicate About(e: Event, target: string, key: CapKey) {
    e.target == target && e.key == key
  }

  /** Whose insertion of the key is the last word on it, if no release came after. */
  function LastTaken(log: seq<Event>, target: string, key: CapKey): Option<TaskId> {
    if log == [] then None
    else
      var e := log[|log| - 1];
      if !About(e, target, key) || e.StartKept? then LastTaken(log[..|log| - 1], target, key)
      else if e.Taken? then Some(e.task)
      else None
  }

  /** A start has kept the key at its end and no stop that obtained a connection has released it since. */
  predicate Kept(log: seq<Event>, target: string, key: CapKey) {
    if log == [] then false
    else
      var e := log[|log| - 1];
      if !About(e, target, key) || e.Taken? || e.StartFreed? then Kept(log[..|log| - 1], target, key)
      else e.StartKept?
  }

  predicate StartOf(t: Task, target: string, key: CapKey) {
    t.target == target && t.kind == Batch(CAPTURE, key)
  }

  predicate StopOf(t: Task, target: string, key: CapKey) {
    t.target == target && t.kind == CaptureStop(key)
  }

  lemma LogGrows(log: seq<Event>, es: seq<Event>, target: string, key: CapKey)
    requires |es| <= 1
    ensures es == [] || !About(es[0], target, key) ==>
              LastTaken(log + es, target, key) == LastTaken(log, target, key)
              && Kept(log + es, target, key) == Kept(log, target, key)
    ensures es != [] && About(es[0], target, key) ==>
              && LastTaken(log + es, target, key) ==
                 (if es[0].Taken? then Some(es[0].task) else if es[0].StartKept? then LastTaken(log, target, key) else None)
              && Kept(log + es, target, key) ==
                 (if es[0].StartKept? then true else if es[0].StopFreed? then false else Kept(log, target, key))
  {
    if es == [] {
      assert log + es == log;
    } else {
      assert (log + es)[..|log|] == log;
    }
  }

  // ---------------------------------------------------------------- origin

  /** A key is present iff the last event that took or freed it took it, and that event's
      task is a start on this target and key that is still in flight or has succeeded. */
  ghost predicate Traced(l: LockState, tasks: map<TaskId, Task>, log: seq<Event>, target: string, key: CapKey) {
    && (key in l.captures <==> LastTaken(log, target, key).Some?)
    && (LastTaken(log, target, key).Some? ==>
          var i := LastTaken(log, target, key).value;
          && i in tasks && StartOf(tasks[i], target, key)
          && (InFlight(tasks[i]) || tasks[i].pc == Done(true)))
  }

  ghost predicate OriginInv(s: Sys) {
    forall target, key :: Traced(LockAt(s, target), s.tasks, s.log, target, key)
  }

  /** A move that keeps the key, the log about it, and what `Traced` asks of the moved task. */
  lemma TracedAfterMove(l: LockState, l': LockState, tasks: map<TaskId, Task>, log: seq<Event>, log': seq<Event>,
                        target: string, key: CapKey, id: TaskId, t': Task)
    requires Traced(l, tasks, log, target, key)
    requires key in l'.captures <==> key in l.captures
    requires LastTaken(log', target, key) == LastTaken(log, target, key)
    requires id in tasks && StartOf(tasks[id], target, key) && (InFlight(tasks[id]) || tasks[id].pc == Done(true)) ==>
               StartOf(t', target, key) && (InFlight(t') || t'.pc == Done(true))
    ensures Traced(l', tasks[id := t'], log', target, key)
  {
  }

  lemma LockGrantKeepsOrigin(l: LockState, tasks: map<TaskId, Task>, log: seq<Event>, target: string, key: CapKey, id: TaskId)
    requires Traced(l, tasks, log, target, key)
    requires id in tasks && tasks[id].pc == Start && tasks[id].kind.Batch? && tasks[id].target == target
    requires Grantable(l, tasks[id].kind.cls, tasks[id].kind.key)
    ensures Traced(Acquired(l, tasks[id].kind.cls, tasks[id].kind.key), tasks[id := tasks[id].(pc := Borrowing)],
                   log + LockEvents(tasks[id], id), target, key)
  {
    LogGrows(log, LockEvents(tasks[id], id), target, key);
  }

  lemma TryLockKeepsOrigin(s: Sys, id: TaskId, target: string, key: CapKey)
    requires OriginInv(s) && Enabled(s, TryLock(id))
    ensures var s' := AfterTryLock(s, id);
            Traced(LockAt(s', target), s'.tasks, s'.log, target, key)
  {
    var t := s.tasks[id];
    var s' := AfterTryLock(s, id);
    var l := LockAt(s, target);
    assert Traced(l, s.tasks, s.log, target, key);
    LogGrows(s.log, LockEvents(t, id), target, key);
    if t.kind.Batch? && t.target == target && Grantable(l, t.kind.cls, t.kind.key) {
      LockGrantKeepsOrigin(l, s.tasks, s.log, target, key, id);
    } else {
      TracedAfterMove(l, l, s.tasks, s.log, s'.log, target, key, id, s'.tasks[id]);
    }
  }

  lemma LockLeftKeepsOrigin(l: LockState, tasks: map<TaskId, Task>, log: seq<Event>, target: string, key: CapKey,
                            id: TaskId, ok: bool)
    requires Traced(l, tasks, log, target, key)
    requires id in tasks && tasks[id].pc == Unlocking(ok) && tasks[id].target == target
    ensures Traced(LockLeft(l, tasks[id].kind, ok), tasks[id := tasks[id].(pc := Done(ok))],
                   log + UnlockEvents(tasks[id], id, ok), target, key)
  {
    LogGrows(log, UnlockEvents(tasks[id], id, ok), target, key);
  }

  lemma UnlockKeepsOrigin(s: Sys, id: TaskId, target: string, key: CapKey)
    requires OriginInv(s) && Enabled(s, Unlock(id))
    ensures var s' := AfterUnlock(s, id);
            Traced(LockAt(s', target), s'.tasks, s'.log, target, key)
  {
    var t := s.tasks[id];
    var l := LockAt(s, target);
    assert Traced(l, s.tasks, s.log, target, key);
    if t.target == target {
      LockLeftKeepsOrigin(l, s.tasks, s.log, target, key, id, t.pc.ok);
    } else {
      LogGrows(s.log, UnlockEvents(t, id, t.pc.ok), target, key);
      TracedAfterMove(l, l, s.tasks, s.log, AfterUnlock(s, id).log, target, key, id, t.(pc := Done(t.pc.ok)));
    }
  }

  lemma OtherStepKeepsOrigin(s: Sys, step: Step, target: string, key: CapKey)
    requires OriginInv(s) && Enabled(s, step) && !step.TryLock? && !step.Unlock?
    ensures var s' := Next(s, step);
            Traced(LockAt(s', target), s'.tasks, s'.log, target, key)
  {
    var l := LockAt(s, target);
    assert Traced(l, s.tasks, s.log, target, key);
    if !step.Lapse? && !step.Tick? && !step.CloseAll? {
      TracedAfterMove(l, l, s.tasks, s.log, s.log, target, key, step.id, Next(s, step).tasks[step.id]);
    }
  }

  lemma NextKeepsOrigin(s: Sys, step: Step)
    requires OriginInv(s) && Enabled(s, step)
    ensures OriginInv(Next(s, step))
  {
    forall target, key
      ensures Traced(LockAt(Next(s, step), target), Next(s, step).tasks, Next(s, step).log, target, key)
    {
      match step
      case TryLock(id) => TryLockKeepsOrigin(s, id, target, key);
      case Unlock(id) => UnlockKeepsOrigin(s, id, target, key);
      case _ => OtherStepKeepsOrigin(s, step, target, key);
    }
  }

  lemma {:induction false} RunsKeepOrigin(steps: seq<Step>)
    requires Exec(steps).Some?
    ensures OriginInv(Exec(steps).value)
  {
    if steps != [] {
      RunsKeepOrigin(steps[..|steps| - 1]);
      NextKeepsOrigin(Exec(steps[..|steps| - 1]).value, steps[|steps| - 1]);
    }
  }

  /** In every reachable state a capture key is present exactly when the last task that took or freed
      it took it; that task is a start of this very target and key, in flight or successful. */
  lemma KeysHaveTrueOrigin(s: Sys, target: string, key: CapKey)
    requires Reachable(s)
    ensures key in LockAt(s, target).captures <==> LastTaken(s.log, target, key).Some?
    ensures key in LockAt(s, target).captures ==>
              exists i :: i in s.tasks && LastTaken(s.log, target, key) == Some(i)
                          && StartOf(s.tasks[i], target, key) && (InFlight(s.tasks[i]) || s.tasks[i].pc == Done(true))
  {
    var steps :| Exec(steps) == Some(s);
    RunsKeepOrigin(steps);
    assert Traced(LockAt(s, target), s.tasks, s.log, target, key);
  }

  // ---------------------------------------------------------------- who moves a key

  /** A key appears only when a start of it is granted its lock, and disappears only when a failed start
      or a stop of it releases. */
  lemma KeysMoveOnlyByOwners(s: Sys, step: Step, target: string, key: CapKey)
    requires Enabled(s, step)
    requires (key in LockAt(s, target).captures) != (key in LockAt(Next(s, step), target).captures)
    ensures step.TryLock? || step.Unlock?
    ensures key in LockAt(Next(s, step), target).captures ==> step.TryLock? && StartOf(s.tasks[step.id], target, key)
    ensures key in LockAt(s, target).captures ==>
              && step.Unlock? && s.tasks[step.id].target == target
              && (s.tasks[step.id].kind == CaptureStop(key)
                  || (s.tasks[step.id].kind == Batch(CAPTURE, key) && !s.tasks[step.id].pc.ok))
  {
  }

  /** A stop gets to its release only by giving back a connection it held. */
  lemma StopReleasesAfterConnection(s: Sys, step: Step, id: TaskId)
    requires Enabled(s, step) && id in s.tasks && s.tasks[id].kind.CaptureStop?
    requires !s.tasks[id].pc.Unlocking? && Next(s, step).tasks[id].pc.Unlocking?
    ensures step == Return(id) && Lent(s.tasks[id], s.tasks[id].pc.client)
  {
  }

  // ---------------------------------------------------------------- the order of the releases

  predicate Starting(t: Task, target: string, key: CapKey) {
    StartOf(t, target, key) && InFlight(t)
  }

  ghost predicate SomeStarting(tasks: map<TaskId, Task>, target: string, key: CapKey) {
    exists i :: i in tasks && Starting(tasks[i], target, key)
  }

  /** The key follows the releases: present iff a start is in flight, or a start has kept it and no stop released since. */
  ghost predicate Follows(s: Sys, target: string, key: CapKey) {
    key in LockAt(s, target).captures <==> SomeStarting(s.tasks, target, key) || Kept(s.log, target, key)
  }

  /** A stop releases the key while a start of the same target and key is in flight. */
  ghost predicate CutsStart(s: Sys, step: Step, target: string, key: CapKey) {
    && step.Unlock? && Enabled(s, step)
    && StopOf(s.tasks[step.id], target, key)
    && SomeStarting(s.tasks, target, key)
  }

  /** `Follows`, with what makes it inductive: at most one start in flight, and none while the key is kept. */
  ghost predicate InStep(l: LockState, tasks: map<TaskId, Task>, log: seq<Event>, target: string, key: CapKey) {
    && (key in l.captures <==> SomeStarting(tasks, target, key) || Kept(log, target, key))
    && (forall i, j :: i in tasks && j in tasks && Starting(tasks[i], target, key) && Starting(tasks[j], target, key) ==> i == j)
    && (SomeStarting(tasks, target, key) ==> !Kept(log, target, key))
  }

  lemma InStepAfterMove(l: LockState, l': LockState, tasks: map<TaskId, Task>, log: seq<Event>, log': seq<Event>,
                        target: string, key: CapKey, id: TaskId, t': Task)
    requires InStep(l, tasks, log, target, key)
    requires key in l'.captures <==> key in l.captures
    requires Kept(log', target, key) == Kept(log, target, key)
    requires Starting(t', target, key) == (id in tasks && Starting(tasks[id], target, key))
    ensures InStep(l', tasks[id := t'], log', target, key)
  {
    if i :| i in tasks && Starting(tasks[i], target, key) {
      assert Starting(tasks[id := t'][i], target, key);
    }
  }

  /** A start is granted: the key was free, so none was in flight and none had kept it. */
  lemma StartInStep(l: LockState, tasks: map<TaskId, Task>, log: seq<Event>, target: string, key: CapKey, id: TaskId)
    requires InStep(l, tasks, log, target, key) && key !in l.captures
    requires id in tasks && StartOf(tasks[id], target, key)
    ensures InStep(Acquired(l, CAPTURE, key), tasks[id := tasks[id].(pc := Borrowing)], log + [Taken(target, key, id)], target, key)
  {
    LogGrows(log, [Taken(target, key, id)], target, key);
    var tasks' := tasks[id := tasks[id].(pc := Borrowing)];
    assert Starting(tasks'[id], target, key);
  }

  lemma LockGrantInStep(l: LockState, tasks: map<TaskId, Task>, log: seq<Event>, target: string, key: CapKey, id: TaskId)
    requires InStep(l, tasks, log, target, key)
    requires id in tasks && tasks[id].pc == Start && tasks[id].kind.Batch? && tasks[id].target == target
    requires Grantable(l, tasks[id].kind.cls, tasks[id].kind.key)
    ensures InStep(Acquired(l, tasks[id].kind.cls, tasks[id].kind.key), tasks[id := tasks[id].(pc := Borrowing)],
                   log + LockEvents(tasks[id], id), target, key)
  {
    var t := tasks[id];
    if StartOf(t, target, key) {
      StartInStep(l, tasks, log, target, key, id);
    } else {
      LogGrows(log, LockEvents(t, id), target, key);
      InStepAfterMove(l, Acquired(l, t.kind.cls, t.kind.key), tasks, log, log + LockEvents(t, id), target, key, id, t.(pc := Borrowing));
    }
  }

  lemma NoGrantMoves(s: Sys, id: TaskId, target: string, key: CapKey)
    requires Enabled(s, TryLock(id))
    requires var t := s.tasks[id];
             t.kind.Batch? && t.target == target ==> !Grantable(LockAt(s, target), t.kind.cls, t.kind.key)
    ensures var s' := AfterTryLock(s, id);
            && LockAt(s', target) == LockAt(s, target)
            && s'.tasks == s.tasks[id := s'.tasks[id]] && !Starting(s'.tasks[id], target, key)
            && (s'.log == s.log || (s'.log == s.log + LockEvents(s.tasks[id], id) && s.tasks[id].target != target))
  {
  }

  /** A lock step that takes nothing on the target. */
  lemma NoGrantInStep(s: Sys, id: TaskId, target: string, key: CapKey)
    requires InStep(LockAt(s, target), s.tasks, s.log, target, key) && Enabled(s, TryLock(id))
    requires var t := s.tasks[id];
             t.kind.Batch? && t.target == target ==> !Grantable(LockAt(s, target), t.kind.cls, t.kind.key)
    ensures var s' := AfterTryLock(s, id);
            InStep(LockAt(s', target), s'.tasks, s'.log, target, key)
  {
    var l, s' := LockAt(s, target), AfterTryLock(s, id);
    NoGrantMoves(s, id, target, key);
    LogGrows(s.log, LockEvents(s.tasks[id], id), target, key);
    InStepAfterMove(l, l, s.tasks, s.log, s'.log, target, key, id, s'.tasks[id]);
  }

  lemma TryLockInStep(s: Sys, id: TaskId, target: string, key: CapKey)
    requires InStep(LockAt(s, target), s.tasks, s.log, target, key) && Enabled(s, TryLock(id))
    ensures var s' := AfterTryLock(s, id);
            InStep(LockAt(s', target), s'.tasks, s'.log, target, key)
  {
    var t := s.tasks[id];
    if t.kind.Batch? && t.target == target && Grantable(LockAt(s, target), t.kind.cls, t.kind.key) {
      LockGrantInStep(LockAt(s, target), s.tasks, s.log, target, key, id);
    } else {
      NoGrantInStep(s, id, target, key);
    }
  }

  /** The end of a task, unless it is a stop that cuts a start. */
  lemma LockLeftInStep(l: LockState, tasks: map<TaskId, Task>, log: seq<Event>, target: string, key: CapKey,
                       id: TaskId, ok: bool)
    requires InStep(l, tasks, log, target, key)
    requires id in tasks && tasks[id].pc == Unlocking(ok) && tasks[id].target == target
    requires tasks[id].kind == CaptureStop(key) ==> !SomeStarting(tasks, target, key)
    ensures InStep(LockLeft(l, tasks[id].kind, ok), tasks[id := tasks[id].(pc := Done(ok))],
                   log + UnlockEvents(tasks[id], id, ok), target, key)
  {
    var t := tasks[id];
    var t' := t.(pc := Done(ok));
    LogGrows(log, UnlockEvents(t, id, ok), target, key);
    if StartOf(t, target, key) {
      assert Starting(tasks[id], target, key);
      assert !SomeStarting(tasks[id := t'], target, key);
    } else if t.kind == CaptureStop(key) {
      assert !SomeStarting(tasks[id := t'], target, key);
    } else {
      InStepAfterMove(l, LockLeft(l, t.kind, ok), tasks, log, log + UnlockEvents(t, id, ok), target, key, id, t');
    }
  }

  lemma UnlockInStep(s: Sys, id: TaskId, target: string, key: CapKey)
    requires InStep(LockAt(s, target), s.tasks, s.log, target, key)
    requires Enabled(s, Unlock(id)) && !CutsStart(s, Unlock(id), target, key)
    ensures var s' := AfterUnlock(s, id);
            InStep(LockAt(s', target), s'.tasks, s'.log, target, key)
  {
    var t := s.tasks[id];
    var l := LockAt(s, target);
    if t.target == target {
      LockLeftInStep(l, s.tasks, s.log, target, key, id, t.pc.ok);
    } else {
      LogGrows(s.log, UnlockEvents(t, id, t.pc.ok), target, key);
      InStepAfterMove(l, l, s.tasks, s.log, AfterUnlock(s, id).log, target, key, id, t.(pc := Done(t.pc.ok)));
    }
  }

  lemma NextInStep(s: Sys, step: Step, target: string, key: CapKey)
    requires InStep(LockAt(s, target), s.tasks, s.log, target, key)
    requires Enabled(s, step) && !CutsStart(s, step, target, key)
    ensures var s' := Next(s, step);
            InStep(LockAt(s', target), s'.tasks, s'.log, target, key)
  {
    match step
    case TryLock(id) => TryLockInStep(s, id, target, key);
    case Unlock(id) => UnlockInStep(s, id, target, key);
    case Lapse(_, _, _) =>
    case Tick(_) =>
    case CloseAll(_) =>
    case _ =>
      InStepAfterMove(LockAt(s, target), LockAt(s, target), s.tasks, s.log, s.log, target, key, step.id, Next(s, step).tasks[step.id]);
  }

  /** No step of the run cuts a start of (target, key). */
  ghost predicate Uncut(steps: seq<Step>, target: string, key: CapKey)
    requires Exec(steps).Some?
  {
    steps == [] ||
    var init := steps[..|steps| - 1];
    Uncut(init, target, key) && !CutsStart(Exec(init).value, steps[|steps| - 1], target, key)
  }

  /** Every state the run passes through, the last included, follows the releases of (target, key). */
  ghost predicate FollowsThroughout(steps: seq<Step>, target: string, key: CapKey)
    requires Exec(steps).Some?
  {
    Follows(Exec(steps).value, target, key) && (steps == [] || FollowsThroughout(steps[..|steps| - 1], target, key))
  }

  lemma {:induction false} UncutInStep(steps: seq<Step>, target: string, key: CapKey)
    requires Exec(steps).Some? && Uncut(steps, target, key)
    ensures var s := Exec(steps).value;
            InStep(LockAt(s, target), s.tasks, s.log, target, key)
  {
    if steps != [] {
      UncutInStep(steps[..|steps| - 1], target, key);
      NextInStep(Exec(steps[..|steps| - 1]).value, steps[|steps| - 1], target, key);
    }
  }

  lemma CutDisagrees(s: Sys, step: Step, target: string, key: CapKey)
    requires CutsStart(s, step, target, key)
    ensures !Follows(Next(s, step), target, key)
  {
    var i :| i in s.tasks && Starting(s.tasks[i], target, key);
    var s' := Next(s, step);
    assert Starting(s'.tasks[i], target, key);
    assert key !in LockAt(s', target).captures;
  }

  /** The key follows the releases in every state of a run exactly when no stop of that target and key
      ever releases while a start of it is in flight. */
  lemma {:induction false} KeysFollowReleasesIff(steps: seq<Step>, target: string, key: CapKey)
    requires Exec(steps).Some?
    ensures FollowsThroughout(steps, target, key) <==> Uncut(steps, target, key)
  {
    if steps == [] {
      assert !SomeStarting(INITIAL.tasks, target, key);
    } else {
      var init, last := steps[..|steps| - 1], steps[|steps| - 1];
      KeysFollowReleasesIff(init, target, key);
      if Uncut(steps, target, key) {
        UncutInStep(steps, target, key);
      } else if Uncut(init, target, key) {
        CutDisagrees(Exec(init).value, last, target, key);
      }
    }
  }

  /** No start and stop of the key are in flight together. */
  ghost predicate Apart(s: Sys, target: string, key: CapKey) {
    forall i, j :: i in s.tasks && j in s.tasks && Starting(s.tasks[i], target, key) && StopOf(s.tasks[j], target, key) ==>
      !InFlight(s.tasks[j])
  }

  ghost predicate NeverOverlap(steps: seq<Step>, target: string, key: CapKey)
    requires Exec(steps).Some?
  {
    Apart(Exec(steps).value, target, key) && (steps == [] || NeverOverlap(steps[..|steps| - 1], target, key))
  }

  lemma {:induction false} ApartIsUncut(steps: seq<Step>, target: string, key: CapKey)
    requires Exec(steps).Some? && NeverOverlap(steps, target, key)
    ensures Uncut(steps, target, key)
  {
    if steps != [] {
      ApartIsUncut(steps[..|steps| - 1], target, key);
    }
  }

  /** When starts and stops of the key never overlap, and none is in flight, the key is present iff the
      last successful start has not been followed by a stop that obtained a connection. */
  lemma KeysAreUnstoppedStarts(steps: seq<Step>, target: string, key: CapKey)
    requires Exec(steps).Some? && NeverOverlap(steps, target, key)
    requires !SomeStarting(Exec(steps).value.tasks, target, key)
    ensures key in LockAt(Exec(steps).value, target).captures <==> Kept(Exec(steps).value.log, target, key)
  {
    ApartIsUncut(steps, target, key);
    UncutInStep(steps, target, key);
  }
}
