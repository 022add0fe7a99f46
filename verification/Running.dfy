/** What a capture key is for: while an agent starts or runs a capture of a path, its target should hold
    the key of that path.  The agents act at their own time, which may be long after the call that asked has
    timed out, and an answer that does not report success says nothing about what the agent did or will do.
    When, over every interleaving, does the key protect the capture, and when does it outlast the capture? */
module Running {
  import opened Prelude
  import opened Locks
  import opened Pools
  import opened Protocol
  import opened Exclusion
  import opened Captures

  /** Some agent at the target, on whatever port, runs a capture of the key. */
  ghost predicate Runs(running: set<(string, int, CapKey)>, target: string, key: CapKey) {
    exists port :: (target, port, key) in running
  }

  // ---------------------------------------------------------------- protection

  /** The key is held while a start of it is in flight or a capture of it runs. */
  ghost predicate Protected(s: Sys, target: string, key: CapKey) {
    SomeStarting(s.tasks, target, key) || Runs(s.running, target, key) ==> key in LockAt(s, target).captures
  }

  /** A stop releases the key while a start of it is in flight or a capture of it runs; or a start that
      was not successful releases the key while a capture of it runs; or a start is carried out when
      its call has ended and the key is not held. */
  ghost predicate Interrupts(s: Sys, step: Step, target: string, key: CapKey) {
    && (step.Unlock? || step.Act?) && Enabled(s, step)
    && var t := s.tasks[step.id];
       if step.Act? then StartOf(t, target, key) && t.called && key !in LockAt(s, target).captures
       else
         || (StopOf(t, target, key) && (SomeStarting(s.tasks, target, key) || Runs(s.running, target, key)))
         || (StartOf(t, target, key) && !t.pc.ok && Runs(s.running, target, key))
  }

  /** `Protected`, with what makes it inductive: no two starts are in flight. */
  ghost predicate Guarded(s: Sys, target: string, key: CapKey) {
    && Protected(s, target, key)
    && (forall i, j :: i in s.tasks && j in s.tasks && Starting(s.tasks[i], target, key) && Starting(s.tasks[j], target, key) ==> i == j)
  }

  lemma StartingBeginsByLock(s: Sys, step: Step, i: TaskId, target: string, key: CapKey)
    requires Enabled(s, step) && i in Next(s, step).tasks && Starting(Next(s, step).tasks[i], target, key)
    requires i in s.tasks ==> !Starting(s.tasks[i], target, key)
    ensures step == TryLock(i)
  {
  }

  /** A start gets in flight only by a grant, which finds no key and leaves one. */
  lemma StartingBegins(s: Sys, step: Step, i: TaskId, target: string, key: CapKey)
    requires Enabled(s, step) && i in Next(s, step).tasks && Starting(Next(s, step).tasks[i], target, key)
    requires i in s.tasks ==> !Starting(s.tasks[i], target, key)
    ensures step == TryLock(i)
    ensures key !in LockAt(s, target).captures && key in LockAt(Next(s, step), target).captures
  {
    StartingBeginsByLock(s, step, i, target, key);
  }

  /** A capture begins to run only when the agent carries out a start of it, during the call or after. */
  lemma RunsBegins(s: Sys, step: Step, target: string, key: CapKey)
    requires Enabled(s, step) && Runs(Next(s, step).running, target, key) && !Runs(s.running, target, key)
    ensures step.Act? && StartOf(s.tasks[step.id], target, key)
    ensures s.tasks[step.id].called || Starting(s.tasks[step.id], target, key)
  {
    var port :| (target, port, key) in Next(s, step).running;
    assert (target, port, key) !in s.running;
  }

  lemma NextKeepsProtected(s: Sys, step: Step, target: string, key: CapKey)
    requires Guarded(s, target, key) && Enabled(s, step) && !Interrupts(s, step, target, key)
    ensures Protected(Next(s, step), target, key)
  {
    var s' := Next(s, step);
    if SomeStarting(s'.tasks, target, key) {
      var i :| i in s'.tasks && Starting(s'.tasks[i], target, key);
      if i !in s.tasks || !Starting(s.tasks[i], target, key) {
        StartingBegins(s, step, i, target, key);
      } else {
        KeyStays(s, step, i, target, key);
      }
    } else if Runs(s'.running, target, key) {
      if !Runs(s.running, target, key) {
        RunsBegins(s, step, target, key);
      }
      if key !in LockAt(s', target).captures {
        KeysMoveOnlyByOwners(s, step, target, key);
      }
    }
  }

  /** Only the end of the one start in flight, or an interruption, could take its key. */
  lemma KeyStays(s: Sys, step: Step, i: TaskId, target: string, key: CapKey)
    requires Guarded(s, target, key) && Enabled(s, step) && !Interrupts(s, step, target, key)
    requires i in s.tasks && Starting(s.tasks[i], target, key)
    requires i in Next(s, step).tasks && Starting(Next(s, step).tasks[i], target, key)
    ensures key in LockAt(Next(s, step), target).captures
  {
    if key !in LockAt(Next(s, step), target).captures {
      KeysMoveOnlyByOwners(s, step, target, key);
    }
  }

  lemma NextKeepsGuarded(s: Sys, step: Step, target: string, key: CapKey)
    requires Guarded(s, target, key) && Enabled(s, step) && !Interrupts(s, step, target, key)
    ensures Guarded(Next(s, step), target, key)
  {
    var s' := Next(s, step);
    NextKeepsProtected(s, step, target, key);
    forall i, j | i in s'.tasks && j in s'.tasks && Starting(s'.tasks[i], target, key) && Starting(s'.tasks[j], target, key)
      ensures i == j
    {
      OneStarting(s, step, i, j, target, key);
    }
  }

  lemma OneStarting(s: Sys, step: Step, i: TaskId, j: TaskId, target: string, key: CapKey)
    requires Guarded(s, target, key) && Enabled(s, step)
    requires i in Next(s, step).tasks && Starting(Next(s, step).tasks[i], target, key)
    requires j in Next(s, step).tasks && Starting(Next(s, step).tasks[j], target, key)
    ensures i == j
  {
    if i !in s.tasks || !Starting(s.tasks[i], target, key) {
      StartingBegins(s, step, i, target, key);
    }
    if j !in s.tasks || !Starting(s.tasks[j], target, key) {
      StartingBegins(s, step, j, target, key);
    }
  }

  /** No step of the run interrupts (target, key). */
  ghost predicate Uninterrupted(steps: seq<Step>, target: string, key: CapKey)
    requires Exec(steps).Some?
  {
    steps == [] ||
    var init := steps[..|steps| - 1];
    Uninterrupted(init, target, key) && !Interrupts(Exec(init).value, steps[|steps| - 1], target, key)
  }

  /** Every state the run passes through, the last included, protects (target, key). */
  ghost predicate ProtectedThroughout(steps: seq<Step>, target: string, key: CapKey)
    requires Exec(steps).Some?
  {
    Protected(Exec(steps).value, target, key) && (steps == [] || ProtectedThroughout(steps[..|steps| - 1], target, key))
  }

  lemma {:induction false} UninterruptedIsGuarded(steps: seq<Step>, target: string, key: CapKey)
    requires Exec(steps).Some? && Uninterrupted(steps, target, key)
    ensures Guarded(Exec(steps).value, target, key)
  {
    if steps != [] {
      UninterruptedIsGuarded(steps[..|steps| - 1], target, key);
      NextKeepsGuarded(Exec(steps[..|steps| - 1]).value, steps[|steps| - 1], target, key);
    }
  }

  lemma InterruptionUncovers(s: Sys, step: Step, target: string, key: CapKey)
    requires Interrupts(s, step, target, key)
    ensures !Protected(Next(s, step), target, key)
  {
    var s' := Next(s, step);
    assert key !in LockAt(s', target).captures;
    if step.Act? {
      assert (target, s.tasks[step.id].port, key) in s'.running;
    } else if !Runs(s.running, target, key) {
      var i :| i in s.tasks && Starting(s.tasks[i], target, key);
      assert Starting(s'.tasks[i], target, key);
    }
  }

  /** The exact condition: the key protects every start and every running capture, in every state of a
      run, iff nothing in the run interrupts it. */
  lemma {:induction false} ProtectedIffUninterrupted(steps: seq<Step>, target: string, key: CapKey)
    requires Exec(steps).Some?
    ensures ProtectedThroughout(steps, target, key) <==> Uninterrupted(steps, target, key)
  {
    if steps != [] {
      var init, last := steps[..|steps| - 1], steps[|steps| - 1];
      ProtectedIffUninterrupted(init, target, key);
      if Uninterrupted(steps, target, key) {
        UninterruptedIsGuarded(steps, target, key);
      } else if Uninterrupted(init, target, key) {
        InterruptionUncovers(Exec(init).value, last, target, key);
      }
    }
  }

  /** Captures and exclusive work on one target exclude each other, in every run that does not interrupt
      the capture. */
  lemma NoExclusiveWorkDuringCapture(steps: seq<Step>, i: TaskId, target: string, key: CapKey)
    requires Exec(steps).Some? && Uninterrupted(steps, target, key)
    requires i in Exec(steps).value.tasks && Exclusively(Exec(steps).value.tasks[i], target)
    ensures var s := Exec(steps).value;
            !SomeStarting(s.tasks, target, key) && !Runs(s.running, target, key)
  {
    MutualExclusion(Exec(steps).value, target);
    UninterruptedIsGuarded(steps, target, key);
  }

  // ---------------------------------------------------------------- when a key outlasts its capture

  /** A stop the agent has carried out and that has not released yet. */
  ghost predicate SomeStopping(tasks: map<TaskId, Task>, target: string, key: CapKey) {
    exists i :: i in tasks && StopOf(tasks[i], target, key) && InFlight(tasks[i]) && tasks[i].acted
  }

  /** The start that took the key last, and no release came after, has been carried out. */
  predicate Carried(s: Sys, target: string, key: CapKey) {
    && LastTaken(s.log, target, key).Some?
    && LastTaken(s.log, target, key).value in s.tasks
    && s.tasks[LastTaken(s.log, target, key).value].acted
  }

  /** A key whose start has been carried out belongs to a capture that runs, or that a stop in flight has ended. */
  ghost predicate Warranted(s: Sys, target: string, key: CapKey) {
    Carried(s, target, key) ==> Runs(s.running, target, key) || SomeStopping(s.tasks, target, key)
  }

  /** The last capture of the key ends by itself, or by a stop that is no longer in flight, while the key
      is held for it and no stop in flight has been carried out. */
  ghost predicate Strands(s: Sys, step: Step, target: string, key: CapKey) {
    && Enabled(s, step)
    && (step.Lapse? || (step.Act? && !InFlight(s.tasks[step.id])))
    && Runs(s.running, target, key) && !Runs(Next(s, step).running, target, key)
    && Carried(s, target, key) && !SomeStopping(s.tasks, target, key)
  }

  /** A task acts only on a borrowed connection, and one that reports success has acted. */
  predicate ActsOnce(t: Task) {
    && (t.acted || t.called ==> !t.pc.Start? && !t.pc.Borrowing? && !t.pc.Connecting?)
    && (t.called ==> !t.pc.Using?)
    && (t.kind.Batch? && (t.pc.Returning? || t.pc.Unlocking? || t.pc.Done?) && t.pc.ok ==> t.acted)
  }

  ghost predicate AllActOnce(s: Sys) {
    forall i :: i in s.tasks ==> ActsOnce(s.tasks[i])
  }

  lemma NextKeepsActs(s: Sys, step: Step)
    requires Enabled(s, step) && AllActOnce(s)
    ensures AllActOnce(Next(s, step))
  {
    forall i | i in Next(s, step).tasks
      ensures ActsOnce(Next(s, step).tasks[i])
    {
      assert i in s.tasks ==> ActsOnce(s.tasks[i]);
    }
  }

  /** The last word on a key is a new grant, or is what it was and no stop has released since. */
  lemma LastTakenMoves(s: Sys, step: Step, i: TaskId, target: string, key: CapKey)
    requires Enabled(s, step) && LastTaken(Next(s, step).log, target, key) == Some(i)
    ensures step == TryLock(i) || LastTaken(s.log, target, key) == Some(i)
    ensures step.Unlock? ==> !StopOf(s.tasks[step.id], target, key)
  {
    if step.TryLock? {
      LogGrows(s.log, LockEvents(s.tasks[step.id], step.id), target, key);
    } else if step.Unlock? {
      LogGrows(s.log, UnlockEvents(s.tasks[step.id], step.id, s.tasks[step.id].pc.ok), target, key);
    }
  }

  /** A capture stops running only by itself or when the agent carries out a stop of it. */
  lemma RunsEnds(s: Sys, step: Step, target: string, key: CapKey)
    requires Enabled(s, step) && Runs(s.running, target, key) && !Runs(Next(s, step).running, target, key)
    ensures step.Lapse? || step.Act?
    ensures step.Act? && InFlight(s.tasks[step.id]) ==> SomeStopping(Next(s, step).tasks, target, key)
  {
    var port :| (target, port, key) in s.running;
    assert (target, port, key) !in Next(s, step).running;
    if step.Act? {
      assert StopOf(Next(s, step).tasks[step.id], target, key);
    }
  }

  lemma StoppingGoesOn(s: Sys, step: Step, target: string, key: CapKey)
    requires Enabled(s, step) && SomeStopping(s.tasks, target, key) && AllActOnce(s)
    requires step.Unlock? ==> !StopOf(s.tasks[step.id], target, key)
    ensures SomeStopping(Next(s, step).tasks, target, key)
  {
    var j :| j in s.tasks && StopOf(s.tasks[j], target, key) && InFlight(s.tasks[j]) && s.tasks[j].acted;
    var t := Next(s, step).tasks[j];
    assert StopOf(t, target, key) && InFlight(t) && t.acted;
  }

  lemma ActsByStep(s: Sys, step: Step, i: TaskId)
    requires Enabled(s, step) && i in Next(s, step).tasks && Next(s, step).tasks[i].acted
    ensures i in s.tasks && (s.tasks[i].acted || step == Act(i))
  {
  }

  /** A start that took the key last has been carried out before, or is by this step. */
  lemma CarriedMoves(s: Sys, step: Step, target: string, key: CapKey)
    requires OriginInv(s) && AllActOnce(s) && Enabled(s, step) && Carried(Next(s, step), target, key)
    ensures Carried(s, target, key) || Runs(Next(s, step).running, target, key)
    ensures step.Unlock? ==> !StopOf(s.tasks[step.id], target, key)
  {
    var i := LastTaken(Next(s, step).log, target, key).value;
    LastTakenMoves(s, step, i, target, key);
    assert Traced(LockAt(s, target), s.tasks, s.log, target, key);
    ActsByStep(s, step, i);
    if !s.tasks[i].acted {
      assert (target, s.tasks[i].port, key) in AfterAct(s, i).running;
    }
  }

  lemma NextKeepsWarranted(s: Sys, step: Step, target: string, key: CapKey)
    requires OriginInv(s) && AllActOnce(s) && Warranted(s, target, key)
    requires Enabled(s, step) && !Strands(s, step, target, key)
    ensures Warranted(Next(s, step), target, key)
  {
    if Carried(Next(s, step), target, key) && !Runs(Next(s, step).running, target, key) {
      CarriedMoves(s, step, target, key);
      if SomeStopping(s.tasks, target, key) {
        StoppingGoesOn(s, step, target, key);
      } else {
        RunsEnds(s, step, target, key);
      }
    }
  }

  lemma StrandedIsUnwarranted(s: Sys, step: Step, target: string, key: CapKey)
    requires Strands(s, step, target, key)
    ensures !Warranted(Next(s, step), target, key)
  {
  }

  /** No step of the run strands (target, key). */
  ghost predicate Unstranded(steps: seq<Step>, target: string, key: CapKey)
    requires Exec(steps).Some?
  {
    steps == [] ||
    var init := steps[..|steps| - 1];
    Unstranded(init, target, key) && !Strands(Exec(init).value, steps[|steps| - 1], target, key)
  }

  ghost predicate WarrantedThroughout(steps: seq<Step>, target: string, key: CapKey)
    requires Exec(steps).Some?
  {
    Warranted(Exec(steps).value, target, key) && (steps == [] || WarrantedThroughout(steps[..|steps| - 1], target, key))
  }

  lemma {:induction false} RunsKeepActs(steps: seq<Step>)
    requires Exec(steps).Some?
    ensures AllActOnce(Exec(steps).value)
  {
    if steps != [] {
      RunsKeepActs(steps[..|steps| - 1]);
      NextKeepsActs(Exec(steps[..|steps| - 1]).value, steps[|steps| - 1]);
    }
  }

  lemma {:induction false} UnstrandedIsWarranted(steps: seq<Step>, target: string, key: CapKey)
    requires Exec(steps).Some? && Unstranded(steps, target, key)
    ensures Warranted(Exec(steps).value, target, key)
  {
    if steps != [] {
      var init := steps[..|steps| - 1];
      RunsKeepOrigin(init);
      RunsKeepActs(init);
      UnstrandedIsWarranted(init, target, key);
      NextKeepsWarranted(Exec(init).value, steps[|steps| - 1], target, key);
    }
  }

  /** The exact condition: every key whose start has been carried out has its capture, in every state of
      a run, iff nothing in the run strands it.  Overlap cannot, nor can a call that is carried out before it ends. */
  lemma {:induction false} WarrantedIffUnstranded(steps: seq<Step>, target: string, key: CapKey)
    requires Exec(steps).Some?
    ensures WarrantedThroughout(steps, target, key) <==> Unstranded(steps, target, key)
  {
    if steps != [] {
      var init, last := steps[..|steps| - 1], steps[|steps| - 1];
      WarrantedIffUnstranded(init, target, key);
      if Unstranded(steps, target, key) {
        UnstrandedIsWarranted(steps, target, key);
      } else if Unstranded(init, target, key) {
        StrandedIsUnwarranted(Exec(init).value, last, target, key);
      }
    }
  }

  /** In such a run a key is held only while a start of it is in flight, a capture of it runs, or a stop
      that has ended the capture is about to release. */
  lemma NoKeyLeaks(steps: seq<Step>, target: string, key: CapKey)
    requires Exec(steps).Some? && Unstranded(steps, target, key)
    requires key in LockAt(Exec(steps).value, target).captures
    ensures var s := Exec(steps).value;
            SomeStarting(s.tasks, target, key) || Runs(s.running, target, key) || SomeStopping(s.tasks, target, key)
  {
    var s := Exec(steps).value;
    UnstrandedIsWarranted(steps, target, key);
    RunsKeepActs(steps);
    KeysHaveTrueOrigin(s, target, key);
    var i := LastTaken(s.log, target, key).value;
    assert Starting(s.tasks[i], target, key) || s.tasks[i].acted;
  }

  /** So, in a run that neither interrupts nor strands the key, with no call about it in flight, the key
      is held iff a capture of it runs. */
  lemma KeysAreRunningCaptures(steps: seq<Step>, target: string, key: CapKey)
    requires Exec(steps).Some? && Uninterrupted(steps, target, key) && Unstranded(steps, target, key)
    requires !SomeStarting(Exec(steps).value.tasks, target, key) && !SomeStopping(Exec(steps).value.tasks, target, key)
    ensures key in LockAt(Exec(steps).value, target).captures <==> Runs(Exec(steps).value.running, target, key)
  {
    UninterruptedIsGuarded(steps, target, key);
    if key in LockAt(Exec(steps).value, target).captures {
      NoKeyLeaks(steps, target, key);
    }
  }

  // ---------------------------------------------------------------- what callers can do

  /** Starts and stops of the key go to one port. */
  ghost predicate OnePort(s: Sys, target: string, port: int, key: CapKey) {
    forall i :: i in s.tasks && (StartOf(s.tasks[i], target, key) || StopOf(s.tasks[i], target, key)) ==> s.tasks[i].port == port
  }

  /** A start reports success iff the agent has started, a stop does not end without the agent having
      stopped, and no start or stop is carried out when its call has ended. */
  predicate EndsTruly(s: Sys, step: Step, target: string, key: CapKey) {
    (step.FnEnd? || step.Act?) && Enabled(s, step) ==>
      var t := s.tasks[step.id];
      if step.Act? then StartOf(t, target, key) || StopOf(t, target, key) ==> !t.called
      else
        && (StartOf(t, target, key) && t.acted ==> step.ending == ReturnedValue)
        && (StopOf(t, target, key) ==> t.acted)
  }

  /** Starts and stops of the key, on one port, never overlap and end truly. */
  ghost predicate Orderly(steps: seq<Step>, target: string, port: int, key: CapKey)
    requires Exec(steps).Some?
  {
    var s := Exec(steps).value;
    && Apart(s, target, key) && OnePort(s, target, port, key)
    && (steps == [] ||
        var init := steps[..|steps| - 1];
        Orderly(init, target, port, key) && EndsTruly(Exec(init).value, steps[|steps| - 1], target, key))
  }

  /** Past its call, a start that failed has not acted, and a stop has. */
  predicate EndedTruly(t: Task, target: string, key: CapKey) {
    t.pc.Returning? || t.pc.Unlocking? ==>
      && (StartOf(t, target, key) && !t.pc.ok ==> !t.acted)
      && (StopOf(t, target, key) ==> t.acted)
  }

  /** What an orderly run keeps: while a start has not acted, or a stop has, no capture runs. */
  ghost predicate Ordered(s: Sys, target: string, port: int, key: CapKey) {
    && (forall p :: (target, p, key) in s.running ==> p == port)
    && (forall i :: i in s.tasks ==> EndedTruly(s.tasks[i], target, key))
    && (forall i :: i in s.tasks && Starting(s.tasks[i], target, key) && !s.tasks[i].acted ==> !Runs(s.running, target, key))
    && (forall i :: i in s.tasks && StopOf(s.tasks[i], target, key) && InFlight(s.tasks[i]) && s.tasks[i].acted ==>
          !Runs(s.running, target, key))
  }

  lemma OrderedDoesNotInterrupt(s: Sys, step: Step, target: string, port: int, key: CapKey)
    requires Guarded(s, target, key) && Ordered(s, target, port, key) && Apart(s, target, key)
    requires EndsTruly(s, step, target, key)
    ensures !Interrupts(s, step, target, key)
  {
  }

  /** A start that has not acted, after the step. */
  lemma StartKeepsOrdered(s: Sys, step: Step, i: TaskId, target: string, port: int, key: CapKey)
    requires Guarded(s, target, key) && Ordered(s, target, port, key) && Enabled(s, step)
    requires EndsTruly(s, step, target, key)
    requires i in Next(s, step).tasks && Starting(Next(s, step).tasks[i], target, key) && !Next(s, step).tasks[i].acted
    ensures !Runs(Next(s, step).running, target, key)
  {
    if i !in s.tasks || !Starting(s.tasks[i], target, key) {
      StartingBegins(s, step, i, target, key);
    } else if Runs(Next(s, step).running, target, key) {
      RunsBegins(s, step, target, key);
    }
  }

  /** The act of a stop ends the one capture there can be. */
  lemma StopActs(s: Sys, i: TaskId, target: string, port: int, key: CapKey)
    requires i in s.tasks && StopOf(s.tasks[i], target, key) && s.tasks[i].port == port
    requires forall p :: (target, p, key) in s.running ==> p == port
    ensures !Runs(AfterAct(s, i).running, target, key)
  {
  }

  lemma StopHadActed(s: Sys, step: Step, i: TaskId, target: string, key: CapKey)
    requires Enabled(s, step) && AllActOnce(s) && step != Act(i)
    requires i in Next(s, step).tasks && StopOf(Next(s, step).tasks[i], target, key) && InFlight(Next(s, step).tasks[i])
    requires Next(s, step).tasks[i].acted
    ensures i in s.tasks && StopOf(s.tasks[i], target, key) && InFlight(s.tasks[i]) && s.tasks[i].acted
  {
    ActsByStep(s, step, i);
    if !Moves(step, i) {
      OthersStay(s, step, i);
    }
  }

  /** A stop that has acted, after the step. */
  lemma StopKeepsOrdered(s: Sys, step: Step, i: TaskId, target: string, port: int, key: CapKey)
    requires Ordered(s, target, port, key) && Enabled(s, step) && Apart(s, target, key) && OnePort(s, target, port, key)
    requires EndsTruly(s, step, target, key)
    requires i in Next(s, step).tasks && StopOf(Next(s, step).tasks[i], target, key) && InFlight(Next(s, step).tasks[i])
    requires Next(s, step).tasks[i].acted && AllActOnce(s)
    ensures !Runs(Next(s, step).running, target, key)
  {
    if step == Act(i) {
      StopActs(s, i, target, port, key);
    } else {
      StopHadActed(s, step, i, target, key);
      if Runs(Next(s, step).running, target, key) {
        RunsBegins(s, step, target, key);
      }
    }
  }

  lemma NextKeepsPort(s: Sys, step: Step, target: string, port: int, key: CapKey)
    requires Enabled(s, step) && OnePort(s, target, port, key)
    requires forall p :: (target, p, key) in s.running ==> p == port
    ensures forall p :: (target, p, key) in Next(s, step).running ==> p == port
  {
  }

  lemma NextKeepsTrue(s: Sys, step: Step, target: string, key: CapKey)
    requires Enabled(s, step) && EndsTruly(s, step, target, key)
    requires AllActOnce(s) && forall i :: i in s.tasks ==> EndedTruly(s.tasks[i], target, key)
    ensures forall i :: i in Next(s, step).tasks ==> EndedTruly(Next(s, step).tasks[i], target, key)
  {
  }

  lemma NextKeepsOrdered(s: Sys, step: Step, target: string, port: int, key: CapKey)
    requires Guarded(s, target, key) && Ordered(s, target, port, key) && Enabled(s, step)
    requires AllActOnce(s)
    requires Apart(s, target, key) && OnePort(s, target, port, key) && EndsTruly(s, step, target, key)
    ensures Ordered(Next(s, step), target, port, key)
  {
    var s' := Next(s, step);
    NextKeepsPort(s, step, target, port, key);
    NextKeepsTrue(s, step, target, key);
    forall i | i in s'.tasks && Starting(s'.tasks[i], target, key) && !s'.tasks[i].acted
      ensures !Runs(s'.running, target, key)
    {
      StartKeepsOrdered(s, step, i, target, port, key);
    }
    forall i | i in s'.tasks && StopOf(s'.tasks[i], target, key) && InFlight(s'.tasks[i]) && s'.tasks[i].acted
      ensures !Runs(s'.running, target, key)
    {
      StopKeepsOrdered(s, step, i, target, port, key);
    }
  }

  lemma {:induction false} OrderlyIsOrdered(steps: seq<Step>, target: string, port: int, key: CapKey)
    requires Exec(steps).Some? && Orderly(steps, target, port, key)
    ensures Uninterrupted(steps, target, key) && Ordered(Exec(steps).value, target, port, key)
  {
    if steps != [] {
      var init, last := steps[..|steps| - 1], steps[|steps| - 1];
      var s := Exec(init).value;
      OrderlyIsOrdered(init, target, port, key);
      UninterruptedIsGuarded(init, target, key);
      RunsKeepActs(init);
      OrderedDoesNotInterrupt(s, last, target, port, key);
      NextKeepsOrdered(s, last, target, port, key);
    }
  }

  lemma {:induction false} OrderlyIsUnstranded(steps: seq<Step>, target: string, port: int, key: CapKey)
    requires Exec(steps).Some? && Orderly(steps, target, port, key)
    requires forall p :: Lapse(target, p, key) !in steps
    ensures Unstranded(steps, target, key)
  {
    if steps != [] {
      var init, last := steps[..|steps| - 1], steps[|steps| - 1];
      OrderlyIsUnstranded(init, target, port, key);
      RunsKeepActs(init);
      assert last in steps;
      EndsByStop(Exec(init).value, last, target, key);
    }
  }

  lemma EndsByStop(s: Sys, step: Step, target: string, key: CapKey)
    requires AllActOnce(s) && EndsTruly(s, step, target, key) && forall p :: step != Lapse(target, p, key)
    ensures !Strands(s, step, target, key)
  {
  }

  /** What a caller can see to: when starts and stops of a path do not overlap, go to one port and end
      truly, the key protects the capture throughout; and when no call about it is in flight, and the
      capture does not end by itself, the key is held iff the capture runs.  `LostKeys` shows that none of
      the conditions can be dropped. */
  lemma OrderlyIsProtected(steps: seq<Step>, target: string, port: int, key: CapKey)
    requires Exec(steps).Some? && Orderly(steps, target, port, key)
    ensures ProtectedThroughout(steps, target, key)
    ensures var s := Exec(steps).value;
            !SomeStarting(s.tasks, target, key) && !SomeStopping(s.tasks, target, key)
            && (forall p :: Lapse(target, p, key) !in steps) ==>
              (key in LockAt(s, target).captures <==> (target, port, key) in s.running)
  {
    OrderlyIsOrdered(steps, target, port, key);
    ProtectedIffUninterrupted(steps, target, key);
    var s := Exec(steps).value;
    if !SomeStarting(s.tasks, target, key) && !SomeStopping(s.tasks, target, key) && forall p :: Lapse(target, p, key) !in steps {
      OrderlyIsUnstranded(steps, target, port, key);
      KeysAreRunningCaptures(steps, target, key);
    }
  }
}
