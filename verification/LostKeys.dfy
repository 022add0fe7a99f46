/** Runs in which a running capture loses its key, or a key outlasts its capture: one for each condition of
    `Running.OrderlyIsProtected`.  They end with every call finished; where the key is lost, the capture
    runs and a shell command would be let through. */
module LostKeys {
  import opened Prelude
  import opened Locks
  import opened Pools
  import opened Protocol
  import opened Captures
  import opened Running
  import opened Progress

  /** The capture runs, no call is left that could protect it, and exclusive work would be granted. */
  ghost predicate Lost(s: Sys, target: string, key: CapKey) {
    && AllDone(s)
    && Runs(s.running, target, key) && !Protected(s, target, key)
    && Grantable(LockAt(s, target), SHELL, [])
  }

  /** The key is held, no capture of it runs, and no call is left that could release it. */
  ghost predicate Leaked(s: Sys, target: string, key: CapKey) {
    AllDone(s) && key in LockAt(s, target).captures && !Runs(s.running, target, key)
  }

  /** Reached; and, if `apart`, without a start and a stop of the key ever in flight together. */
  ghost predicate Reached(s: Sys, target: string, key: CapKey, apart: bool) {
    exists steps :: Exec(steps) == Some(s) && (apart ==> NeverOverlap(steps, target, key))
  }

  /** Only a lock step gets a task in flight. */
  lemma ApartLasts(s: Sys, step: Step, target: string, key: CapKey)
    requires Apart(s, target, key) && Enabled(s, step) && !step.TryLock?
    ensures Apart(Next(s, step), target, key)
  {
  }

  lemma Then(s: Sys, step: Step, target: string, key: CapKey, apart: bool)
    requires Reached(s, target, key, apart) && Enabled(s, step)
    requires apart && step.TryLock? ==> Apart(Next(s, step), target, key)
    ensures Reached(Next(s, step), target, key, apart)
  {
    var steps :| Exec(steps) == Some(s) && (apart ==> NeverOverlap(steps, target, key));
    ExecSnoc(steps, step);
    assert (steps + [step])[..|steps|] == steps;
    if apart && !step.TryLock? {
      ApartLasts(s, step, target, key);
    }
    assert Exec(steps + [step]) == Some(Next(s, step));
  }

  // ---------------------------------------------------------------- parts of a call

  /** A new task up to its lock step. */
  lemma Begins(s: Sys, id: TaskId, port: int, kind: Kind, target: string, key: CapKey, apart: bool) returns (s': Sys)
    requires Reached(s, target, key, apart) && id !in s.tasks
    requires kind.Batch? ==> Grantable(LockAt(s, target), kind.cls, kind.key)
    requires apart ==> AllDone(s)
    ensures Reached(s', target, key, apart)
    ensures s'.tasks == s.tasks[id := Task(target, port, kind, Borrowing, false, false)]
    ensures LockAt(s', target) == if kind.Batch? then Acquired(LockAt(s, target), kind.cls, kind.key) else LockAt(s, target)
    ensures s'.pools == s.pools && s'.home == s.home && s'.running == s.running
  {
    var spawn := Spawn(id, target, port, kind);
    Then(s, spawn, target, key, apart);
    s' := Next(s, spawn);
    ghost var mid := s';
    s' := Next(mid, TryLock(id));
    assert s'.tasks == s.tasks[id := Task(target, port, kind, Borrowing, false, false)];
    Then(mid, TryLock(id), target, key, apart);
  }

  /** A connection for a task whose pool has a slot, idle or new. */
  lemma Borrows(s: Sys, id: TaskId, spare: Client, target: string, key: CapKey, apart: bool) returns (s': Sys)
    requires Reached(s, target, key, apart)
    requires id in s.tasks && s.tasks[id].pc == Borrowing && spare !in s.home
    requires !Full(PoolAt(s, s.tasks[id].PoolKey()))
    ensures Reached(s', target, key, apart)
    ensures id in s'.tasks && s'.tasks[id].pc.Using?
    ensures s'.tasks == s.tasks[id := s.tasks[id].(pc := s'.tasks[id].pc)]
    ensures PoolAt(s', s.tasks[id].PoolKey()).inuse == PoolAt(s, s.tasks[id].PoolKey()).inuse + 1
    ensures s'.locks == s.locks && s'.home.Keys <= s.home.Keys + {spare} && s'.running == s.running
  {
    Then(s, Grant(id), target, key, apart);
    s' := Next(s, Grant(id));
    if s'.tasks[id].pc.Connecting? {
      Then(s', ConnectOk(id, spare), target, key, apart);
      s' := Next(s', ConnectOk(id, spare));
    }
  }

  /** The agent acts, or not, and the call ends. */
  lemma Answers(s: Sys, id: TaskId, acts: bool, ending: FnEnding, target: string, key: CapKey, apart: bool) returns (s': Sys)
    requires Reached(s, target, key, apart)
    requires id in s.tasks && s.tasks[id].pc.Using? && !s.tasks[id].acted && (ending == ReturnedValue ==> acts)
    ensures Reached(s', target, key, apart)
    ensures var t := s.tasks[id];
            s' == s.(tasks := s.tasks[id := t.(pc := Returning(t.pc.client, ending != Raised, FnOk(t.kind, ending)), acted := acts, called := true)],
                     running := if acts then RunningAfter(s.running, t) else s.running)
  {
    s' := s;
    if acts {
      Then(s', Act(id), target, key, apart);
      s' := Next(s', Act(id));
    }
    Then(s', FnEnd(id, ending), target, key, apart);
    s' := Next(s', FnEnd(id, ending));
  }

  /** The connection and then the lock go back. */
  lemma Ends(s: Sys, id: TaskId, target: string, key: CapKey, apart: bool) returns (s': Sys)
    requires Reached(s, target, key, apart)
    requires id in s.tasks && s.tasks[id].pc.Returning? && !s.tasks[id].kind.Read? && s.tasks[id].target == target
    ensures Reached(s', target, key, apart)
    ensures var t := s.tasks[id];
            && s'.tasks == s.tasks[id := t.(pc := Done(t.pc.ok))]
            && LockAt(s', target) == LockLeft(LockAt(s, target), t.kind, t.pc.ok)
    ensures s'.home == s.home && s'.running == s.running
  {
    Then(s, Return(id), target, key, apart);
    var mid := Next(s, Return(id));
    Then(mid, Unlock(id), target, key, apart);
    s' := Next(mid, Unlock(id));
  }

  /** A call up to its connection, while nothing else is in flight. */
  lemma Asks(s: Sys, id: TaskId, spare: Client, port: int, kind: Kind, target: string, key: CapKey) returns (s': Sys)
    requires Reached(s, target, key, true) && AllDone(s) && id !in s.tasks && spare !in s.home
    requires kind.Batch? ==> Grantable(LockAt(s, target), kind.cls, kind.key)
    ensures Reached(s', target, key, true)
    ensures id in s'.tasks && s'.tasks[id].pc.Using?
    ensures s'.tasks == s.tasks[id := Task(target, port, kind, s'.tasks[id].pc, false, false)]
    ensures LockAt(s', target) == if kind.Batch? then Acquired(LockAt(s, target), kind.cls, kind.key) else LockAt(s, target)
    ensures s'.running == s.running && s'.home.Keys <= s.home.Keys + {spare}
  {
    Quiescence(s, target, PoolKey(target, port));
    s' := Begins(s, id, port, kind, target, key, true);
    s' := Borrows(s', id, spare, target, key, true);
  }

  /** The rest of the call. */
  lemma Concludes(s: Sys, id: TaskId, acts: bool, ending: FnEnding, target: string, key: CapKey, apart: bool) returns (s': Sys)
    requires Reached(s, target, key, apart) && id in s.tasks && (ending == ReturnedValue ==> acts)
    requires var t := s.tasks[id];
             t.pc.Using? && !t.acted && !t.kind.Read? && t.target == target
    ensures Reached(s', target, key, apart)
    ensures var t := s.tasks[id];
            && s'.tasks == s.tasks[id := t.(pc := Done(FnOk(t.kind, ending)), acted := acts, called := true)]
            && LockAt(s', target) == LockLeft(LockAt(s, target), t.kind, FnOk(t.kind, ending))
            && s'.running == if acts then RunningAfter(s.running, t) else s.running
    ensures s'.home == s.home
  {
    s' := Answers(s, id, acts, ending, target, key, apart);
    s' := Ends(s', id, target, key, apart);
  }

  /** A whole call while nothing else is in flight. */
  lemma Calls(s: Sys, id: TaskId, spare: Client, port: int, kind: Kind, acts: bool, ending: FnEnding, target: string, key: CapKey)
    returns (s': Sys)
    requires Reached(s, target, key, true) && AllDone(s)
    requires id !in s.tasks && spare !in s.home && !kind.Read? && (ending == ReturnedValue ==> acts)
    requires kind.Batch? ==> Grantable(LockAt(s, target), kind.cls, kind.key)
    ensures Reached(s', target, key, true) && AllDone(s')
    ensures s'.tasks == s.tasks[id := Task(target, port, kind, Done(FnOk(kind, ending)), acts, true)]
    ensures var l := LockAt(s, target);
            LockAt(s', target) == LockLeft(if kind.Batch? then Acquired(l, kind.cls, kind.key) else l, kind, FnOk(kind, ending))
    ensures s'.running == if acts then RunningAfter(s.running, s'.tasks[id]) else s.running
    ensures s'.home.Keys <= s.home.Keys + {spare}
  {
    var mid := Asks(s, id, spare, port, kind, target, key);
    s' := Concludes(mid, id, acts, ending, target, key, true);
  }

  // ---------------------------------------------------------------- a key that is lost

  lemma Nothing(target: string, key: CapKey, apart: bool)
    ensures Reached(INITIAL, target, key, apart) && AllDone(INITIAL)
  {
    assert Exec([]) == Some(INITIAL) && NeverOverlap([], target, key);
  }

  /** The agent starts the capture but the answer is lost: the failed start frees the key.  It makes no
      difference if the agent gets to it only when the call has timed out. */
  lemma LostAnswerLosesKey(target: string, key: CapKey, late: bool) returns (s: Sys)
    ensures Reached(s, target, key, true) && Lost(s, target, key)
    ensures forall i :: i in s.tasks ==> s.tasks[i].kind == Batch(CAPTURE, key)
  {
    Nothing(target, key, true);
    s := Calls(INITIAL, 0, 0, 9000, Batch(CAPTURE, key), !late, Raised, target, key);
    if late {
      Then(s, Act(0), target, key, true);
      s := Next(s, Act(0));
    }
    assert (target, 9000, key) in s.running;
  }

  lemma StartSucceeds(target: string, key: CapKey) returns (s: Sys)
    ensures Reached(s, target, key, true) && AllDone(s)
    ensures s.tasks == map[0 := Task(target, 9000, Batch(CAPTURE, key), Done(true), true, true)]
    ensures LockAt(s, target) == Acquired(UNLOCKED, CAPTURE, key)
    ensures s.home.Keys <= {0} && s.running == {(target, 9000, key)}
  {
    Nothing(target, key, true);
    s := Calls(INITIAL, 0, 0, 9000, Batch(CAPTURE, key), true, ReturnedValue, target, key);
  }

  /** A stop that the agent does not carry out, for instance one it answers with an error and a request to
      try again, frees the key all the same. */
  lemma FailedStopLosesKey(target: string, key: CapKey, ending: FnEnding) returns (s: Sys)
    requires ending != ReturnedValue
    ensures Reached(s, target, key, true) && Lost(s, target, key)
    ensures forall i :: i in s.tasks ==> s.tasks[i].port == 9000
  {
    s := StartSucceeds(target, key);
    s := Calls(s, 1, 1, 9000, CaptureStop(key), false, ending, target, key);
    assert (target, 9000, key) in s.running;
  }

  /** A stop that another port of the same target carries out. */
  lemma OtherPortLosesKey(target: string, port: int, key: CapKey) returns (s: Sys)
    requires port != 9000
    ensures Reached(s, target, key, true) && Lost(s, target, key)
    ensures forall i :: i in s.tasks ==> s.tasks[i].pc == Done(true) && s.tasks[i].acted
  {
    s := StartSucceeds(target, key);
    s := Calls(s, 1, 1, port, CaptureStop(key), true, ReturnedValue, target, key);
    assert (target, 9000, key) in s.running;
  }

  lemma BothBorrow(target: string, key: CapKey) returns (s: Sys)
    ensures Reached(s, target, key, false)
    ensures s.tasks.Keys == {0, 1} && s.tasks[0].pc.Using? && s.tasks[1].pc.Using?
    ensures s.tasks[0] == Task(target, 9000, Batch(CAPTURE, key), s.tasks[0].pc, false, false)
    ensures s.tasks[1] == Task(target, 9000, CaptureStop(key), s.tasks[1].pc, false, false)
    ensures LockAt(s, target) == Acquired(UNLOCKED, CAPTURE, key)
    ensures s.running == {}
  {
    Nothing(target, key, false);
    s := Begins(INITIAL, 0, 9000, Batch(CAPTURE, key), target, key, false);
    s := Borrows(s, 0, 0, target, key, false);
    s := Begins(s, 1, 9000, CaptureStop(key), target, key, false);
    s := Borrows(s, 1, 1, target, key, false);
  }

  lemma BothAnswered(target: string, key: CapKey) returns (s: Sys)
    ensures Reached(s, target, key, false)
    ensures s.tasks.Keys == {0, 1} && s.tasks[0].pc.Returning? && s.tasks[1].pc.Returning?
    ensures s.tasks[0] == Task(target, 9000, Batch(CAPTURE, key), s.tasks[0].pc, true, true) && s.tasks[0].pc.ok
    ensures s.tasks[1] == Task(target, 9000, CaptureStop(key), s.tasks[1].pc, true, true) && s.tasks[1].pc.ok
    ensures LockAt(s, target) == Acquired(UNLOCKED, CAPTURE, key)
    ensures (target, 9000, key) in s.running
  {
    s := BothBorrow(target, key);
    s := Answers(s, 1, true, ReturnedValue, target, key, false);
    s := Answers(s, 0, true, ReturnedValue, target, key, false);
  }

  /** Overlap: on one port, with every answer a success, the agent is asked to stop and then to start.
      The key is lost whichever of the two calls releases last. */
  lemma OverlapLosesKey(target: string, key: CapKey, stopLast: bool) returns (s: Sys)
    ensures Reachable(s) && Lost(s, target, key)
    ensures forall i :: i in s.tasks ==> s.tasks[i].pc == Done(true) && s.tasks[i].acted && s.tasks[i].port == 9000
  {
    s := BothAnswered(target, key);
    s := Ends(s, if stopLast then 0 else 1, target, key, false);
    s := Ends(s, if stopLast then 1 else 0, target, key, false);
    assert (target, 9000, key) in s.running;
  }

  // ---------------------------------------------------------------- a key that outlasts its capture

  /** The capture ends by itself and nobody stops it. */
  lemma LapseLeaksKey(target: string, key: CapKey) returns (s: Sys)
    ensures Reached(s, target, key, true) && Leaked(s, target, key)
  {
    s := StartSucceeds(target, key);
    Then(s, Lapse(target, 9000, key), target, key, true);
    s := Next(s, Lapse(target, 9000, key));
  }

  /** A stop times out, a later start succeeds; then the agent carries out the old stop, and nobody
      releases the key. */
  lemma LateStopLeaksKey(target: string, key: CapKey) returns (s: Sys)
    ensures Reached(s, target, key, true) && Leaked(s, target, key)
    ensures forall i :: i in s.tasks ==> s.tasks[i].acted && s.tasks[i].port == 9000
  {
    Nothing(target, key, true);
    s := Calls(INITIAL, 1, 1, 9000, CaptureStop(key), false, Raised, target, key);
    assert LockAt(s, target) == UNLOCKED;
    s := Calls(s, 0, 0, 9000, Batch(CAPTURE, key), true, ReturnedValue, target, key);
    Then(s, Act(1), target, key, true);
    s := Next(s, Act(1));
  }
}
