/** Mutual exclusion: in every interleaving the lock of a target tells exactly which task owns it. */
module Exclusion {
  import opened Prelude
  import opened Locks
  import opened Pools
  import opened Protocol

  predicate Exclusively(t: Task, target: string) {
    t.target == target && t.kind.Batch? && Exclusive(t.kind.cls) && InFlight(t)
  }

  /** `i` is the one task exclusively in flight on `target`, and the lock says so. */
  ghost predicate SoleOwner(l: LockState, tasks: map<TaskId, Task>, target: string, i: TaskId) {
    && i in tasks
    && Exclusively(tasks[i], target)
    && l.holder == Some(tasks[i].kind.cls)
    && forall j :: j in tasks && Exclusively(tasks[j], target) ==> j == i
  }

  /** The lock of `target` is held iff some task is past its lock step with an exclusive class;
      that task is the only one, and the stored class is its class. */
  ghost predicate Arbitrated(l: LockState, tasks: map<TaskId, Task>, target: string) {
    && WellFormed(l)
    && (l.holder == None ==> forall i :: i in tasks ==> !Exclusively(tasks[i], target))
    && (l.holder != None ==> exists i :: SoleOwner(l, tasks, target, i))
  }

  ghost predicate LockInv(s: Sys) {
    forall target :: Arbitrated(LockAt(s, target), s.tasks, target)
  }

  /** Moves that keep the holder and keep who is exclusively in flight. */
  lemma SameOwner(l: LockState, l': LockState, tasks: map<TaskId, Task>, id: TaskId, t': Task, target: string)
    requires Arbitrated(l, tasks, target)
    requires WellFormed(l') && l'.holder == l.holder
    requires id in tasks ==> tasks[id].kind == t'.kind
    requires Exclusively(t', target) == (id in tasks && Exclusively(tasks[id], target))
    ensures Arbitrated(l', tasks[id := t'], target)
  {
    if l.holder != None {
      var i :| SoleOwner(l, tasks, target, i);
      assert SoleOwner(l', tasks[id := t'], target, i);
    }
  }

  /** The lock step: granted exclusive, granted otherwise, or refused. */
  lemma TryLockKeeps(l: LockState, tasks: map<TaskId, Task>, id: TaskId, cls: LockClass, key: CapKey, target: string)
    requires Arbitrated(l, tasks, target)
    requires id in tasks && tasks[id].pc == Start && tasks[id].kind == Batch(cls, key) && tasks[id].target == target
    requires Grantable(l, cls, key)
    ensures Arbitrated(Acquired(l, cls, key), tasks[id := tasks[id].(pc := Borrowing)], target)
  {
    var t' := tasks[id].(pc := Borrowing);
    OperationsKeepWellFormed(l, cls, key);
    if Exclusive(cls) {
      assert SoleOwner(Acquired(l, cls, key), tasks[id := t'], target, id);
    } else {
      SameOwner(l, Acquired(l, cls, key), tasks, id, t', target);
    }
  }

  /** The release step frees the lock only when the releasing task owns it. */
  lemma UnlockKeeps(l: LockState, tasks: map<TaskId, Task>, id: TaskId, ok: bool, target: string)
    requires Arbitrated(l, tasks, target)
    requires id in tasks && tasks[id].pc == Unlocking(ok) && tasks[id].target == target
    ensures Arbitrated(LockLeft(l, tasks[id].kind, ok), tasks[id := tasks[id].(pc := Done(ok))], target)
  {
    var t := tasks[id];
    var t' := t.(pc := Done(ok));
    if t.kind.Batch? && Exclusive(t.kind.cls) {
      var i :| SoleOwner(l, tasks, target, i);
      assert i == id;
      OperationsKeepWellFormed(l, t.kind.cls, t.kind.key);
    } else {
      if !t.kind.Read? {
        OperationsKeepWellFormed(l, if t.kind.Batch? then t.kind.cls else CAPTURE, t.kind.key);
      }
      SameOwner(l, LockLeft(l, t.kind, ok), tasks, id, t', target);
    }
  }

  lemma AfterTryLockKeeps(s: Sys, id: TaskId, target: string)
    requires LockInv(s) && Enabled(s, TryLock(id))
    ensures Arbitrated(LockAt(AfterTryLock(s, id), target), AfterTryLock(s, id).tasks, target)
  {
    var t := s.tasks[id];
    var s' := AfterTryLock(s, id);
    var l := LockAt(s, target);
    assert Arbitrated(l, s.tasks, target);
    if t.target == target && t.kind.Batch? && Grantable(l, t.kind.cls, t.kind.key) {
      TryLockKeeps(l, s.tasks, id, t.kind.cls, t.kind.key, target);
    } else {
      assert LockAt(s', target) == l;
      SameOwner(l, l, s.tasks, id, s'.tasks[id], target);
    }
  }

  lemma AfterUnlockKeeps(s: Sys, id: TaskId, target: string)
    requires LockInv(s) && Enabled(s, Unlock(id))
    ensures Arbitrated(LockAt(AfterUnlock(s, id), target), AfterUnlock(s, id).tasks, target)
  {
    var t := s.tasks[id];
    var l := LockAt(s, target);
    assert Arbitrated(l, s.tasks, target);
    if t.target != target {
      SameOwner(l, l, s.tasks, id, t.(pc := Done(t.pc.ok)), target);
    } else {
      UnlockKeeps(l, s.tasks, id, t.pc.ok, target);
    }
  }

  /** Every other step leaves the locks alone and moves at most one task, staying on its side. */
  lemma OtherStepKeeps(s: Sys, step: Step, target: string)
    requires LockInv(s) && Enabled(s, step) && !step.TryLock? && !step.Unlock?
    ensures Arbitrated(LockAt(Next(s, step), target), Next(s, step).tasks, target)
  {
    var l := LockAt(s, target);
    assert Arbitrated(l, s.tasks, target);
    if !step.Lapse? && !step.Tick? && !step.CloseAll? {
      SameOwner(l, l, s.tasks, step.id, Next(s, step).tasks[step.id], target);
    }
  }

  lemma NextKeepsLockInv(s: Sys, step: Step)
    requires LockInv(s) && Enabled(s, step)
    ensures LockInv(Next(s, step))
  {
    forall target
      ensures Arbitrated(LockAt(Next(s, step), target), Next(s, step).tasks, target)
    {
      match step
      case TryLock(id) => AfterTryLockKeeps(s, id, target);
      case Unlock(id) => AfterUnlockKeeps(s, id, target);
      case _ => OtherStepKeeps(s, step, target);
    }
  }

  lemma {:induction false} RunsKeepLockInv(steps: seq<Step>)
    requires Exec(steps).Some?
    ensures LockInv(Exec(steps).value)
  {
    if steps != [] {
      RunsKeepLockInv(steps[..|steps| - 1]);
      NextKeepsLockInv(Exec(steps[..|steps| - 1]).value, steps[|steps| - 1]);
    }
  }

  /** The main theorem: in every reachable state two tasks past their lock step on one target are
      never both exclusive; the lock stores the class of the one there is, with count 1, and no
      capture key is present meanwhile.  With no such task the lock is free. */
  lemma MutualExclusion(s: Sys, target: string)
    requires Reachable(s)
    ensures forall i, j :: i in s.tasks && j in s.tasks && Exclusively(s.tasks[i], target) && Exclusively(s.tasks[j], target)
              ==> i == j
    ensures forall i :: i in s.tasks && Exclusively(s.tasks[i], target)
              ==> LockAt(s, target) == LockState(map[], Some(s.tasks[i].kind.cls), 1)
    ensures (forall i :: i in s.tasks ==> !Exclusively(s.tasks[i], target))
              ==> LockAt(s, target).holder == None && LockAt(s, target).count == 0
  {
    var steps :| Exec(steps) == Some(s);
    RunsKeepLockInv(steps);
    assert Arbitrated(LockAt(s, target), s.tasks, target);
  }

  /** Who gets past the lock step, in every reachable state: a batch without a lock always; a capture iff no
      task is exclusively in flight on its target and its key is not held; any other class iff no task is
      exclusively in flight there and no key is held.  Whoever does not is finished. */
  lemma LockStepIff(s: Sys, id: TaskId)
    requires Reachable(s) && Enabled(s, TryLock(id)) && s.tasks[id].kind.Batch?
    ensures var t := s.tasks[id];
            var pc := Next(s, TryLock(id)).tasks[id].pc;
            && (pc == Borrowing || pc == Done(false))
            && (pc == Borrowing <==>
                || t.kind.cls == NONE
                || ((forall i :: i in s.tasks ==> !Exclusively(s.tasks[i], t.target))
                    && forall key :: key in LockAt(s, t.target).captures ==> t.kind.cls == CAPTURE && key != t.kind.key))
  {
    var t := s.tasks[id];
    MutualExclusion(s, t.target);
    if t.kind.cls != NONE && t.kind.cls != CAPTURE {
      assert LockAt(s, t.target).captures == map[] <==> forall key :: key !in LockAt(s, t.target).captures;
    }
  }
}
