/** One task in the code's own form (server.py `_run_batch.run_one` and `capture_stop.run_one`):
    lock, borrow, call, return, release, run from start to end with no other task in between. */
module RunOne {
  import opened Prelude
  import opened Locks
  import opened Pools
  import opened Results
  import Protocol

  /** What a task meets: its socket timeout, the clock at the borrow and at the return, whether the endpoint accepts a
      new connection, how the call ends, and the texts of the two exceptions. */
  datatype Surroundings = Surroundings(
    timeout: int,
    borrowedAt: real,
    returnedAt: real,
    reachable: bool,
    call: FnResult,
    conflictText: LockConflict -> string,
    acquireText: AcquireError -> string)

  /** A connection can be had: a free slot, and a fresh idle connection or a reachable endpoint. */
  predicate Connects<C>(p: PoolState<C>, now: real, reachable: bool) {
    !Full(p) && (PopFresh(p.idle, now).reuse.Some? || reachable)
  }

  /** The exception of a borrow that cannot be had. */
  function BorrowError<C>(p: PoolState<C>): AcquireError {
    if Full(p) then PoolFull else Unreachable
  }

  ghost function PoolStateAt(sched: Scheduler, key: string): PoolState<SocketServerClient>
    reads sched, sched.pools.Values
  {
    if key in sched.pools then sched.pools[key].State() else PoolState([], 0)
  }

  ghost function AllIdle(sched: Scheduler): set<SocketServerClient>
    reads sched, sched.pools.Values
  {
    set p <- sched.pools.Values, conn <- p.idle :: conn.client
  }

  /** The end of the call on a borrowed connection: None when no connection could be had. */
  datatype Used = NotConnected(error: AcquireError) | Answered

  function UsedOf<C>(p: PoolState<C>, w: Surroundings): Used {
    if Connects(p, w.borrowedAt, w.reachable) then Answered else NotConnected(BorrowError(p))
  }

  /** What one borrow and return leaves of a pool: the connection lent comes back as the newest idle one, or
      not at all when its call raised; without a connection the slot goes back. */
  ghost predicate LentAndReturned<C>(before: PoolState<C>, after: PoolState<C>, w: Surroundings) {
    var granted := Granted(before, w.borrowedAt);
    if Full(before) then after == before
    else if !Connects(before, w.borrowedAt, w.reachable) || w.call.Raised? then after == granted.(inuse := Clamp(granted.inuse - 1))
    else
      && after.idle != []
      && var c := after.idle[|after.idle| - 1].client;
         && after == Pools.Returned(granted, c, true, w.returnedAt)
         && PopFresh(before.idle, w.borrowedAt).reuse in {None, Some(c)}
  }

  /** Borrow, call and return on one pool: whatever happens the slot is given back, a connection whose
      call did not raise is the newest idle one afterwards, and no other is closed unless it had expired. */
  method UsePool(pool: TargetPool, w: Surroundings) returns (used: Used)
    requires pool.Valid()
    modifies pool, pool.IdleClients()
    ensures pool.Valid()
    ensures used == UsedOf(old(pool.State()), w)
    ensures pool.inuse == old(pool.inuse)
    ensures LentAndReturned(old(pool.State()), pool.State(), w)
    ensures forall c <- old(pool.IdleClients()) ::
              c.connected == old(c.connected) || c in PopFresh(old(pool.idle), w.borrowedAt).expired
              || (w.call.Raised? && PopFresh(old(pool.idle), w.borrowedAt).reuse == Some(c))
  {
    ghost var before := pool.State();
    var borrowed := pool.Acquire(w.borrowedAt, w.timeout, w.reachable);
    if borrowed.Err? {
      return NotConnected(borrowed.error);
    }
    if PopFresh(before.idle, w.borrowedAt).reuse.Some? {
      ReusedWasIdle(before.idle, w.borrowedAt);
      assert borrowed.value in old(pool.IdleClients());
    }
    pool.Release(borrowed.value, w.call.Returned?, w.returnedAt);
    assert pool.State() == Pools.Returned(Granted(before, w.borrowedAt), borrowed.value, w.call.Returned?, w.returnedAt);
    return Answered;
  }

  /** The same on the pool of an endpoint, which is opened if there is none yet. */
  method Borrow(sched: Scheduler, target: string, port: int, w: Surroundings) returns (used: Used)
    requires sched.Valid()
    modifies sched, sched.pools.Values, AllIdle(sched)
    ensures sched.Valid()
    ensures used == UsedOf(old(PoolStateAt(sched, PoolKey(target, port))), w)
    ensures PoolStateAt(sched, PoolKey(target, port)).inuse == old(PoolStateAt(sched, PoolKey(target, port)).inuse)
    ensures LentAndReturned(old(PoolStateAt(sched, PoolKey(target, port))), PoolStateAt(sched, PoolKey(target, port)), w)
    ensures forall k :: k != PoolKey(target, port) ==> PoolStateAt(sched, k) == old(PoolStateAt(sched, k))
    ensures forall c <- old(AllIdle(sched)) ::
              c.connected == old(c.connected) || c in PopFresh(old(PoolStateAt(sched, PoolKey(target, port))).idle, w.borrowedAt).expired
              || (w.call.Raised? && PopFresh(old(PoolStateAt(sched, PoolKey(target, port))).idle, w.borrowedAt).reuse == Some(c))
  {
    ghost var before := PoolStateAt(sched, PoolKey(target, port));
    var pool := sched.GetPool(target, port);
    assert pool.State() == before;
    used := UsePool(pool, w);
    assert PoolStateAt(sched, PoolKey(target, port)) == pool.State();
  }

  /** How a task past its lock step ends. */
  function EndingWith(used: Used, w: Surroundings): Ending {
    match used
    case NotConnected(error) => NoConnection(w.acquireText(error))
    case Answered => Called(w.call)
  }

  /** How a whole task ends, seen from the lock and the pool it finds. */
  function TaskEnding<C>(l: LockState, p: PoolState<C>, target: string, cls: LockClass, key: CapKey, w: Surroundings): Ending {
    if !Grantable(l, cls, key) then Refused(w.conflictText(LockConflict(target, cls, Blamed(l, cls, key))))
    else EndingWith(UsedOf(p, w), w)
  }

  /** The lock step; no pool takes part. */
  method Lock(locks: LockManager, target: string, cls: LockClass, key: CapKey, ghost sched: Scheduler)
    returns (r: Result<(), LockConflict>)
    requires locks.Valid() && sched.Valid()
    modifies locks, locks.locks.Values
    ensures locks.Valid() && sched.Valid()
    ensures fresh(locks.locks.Values - old(locks.locks.Values))
    ensures r.Ok? <==> old(Grantable(locks.At(target), cls, key))
    ensures r.Err? ==> r.error == LockConflict(target, cls, Blamed(old(locks.At(target)), cls, key))
    ensures locks.At(target) == if r.Ok? then Acquired(old(locks.At(target)), cls, key) else old(locks.At(target))
    ensures forall t :: t != target ==> locks.At(t) == old(locks.At(t))
    ensures WellFormed(old(locks.At(target)))
    ensures forall k :: PoolStateAt(sched, k) == old(PoolStateAt(sched, k))
  {
    assert WellFormed(locks.At(target));
    r := locks.Acquire(target, cls, Some(key));
  }

  /** The release of a lock; no pool takes part. */
  method Unlock(locks: LockManager, target: string, cls: LockClass, key: CapKey, ghost sched: Scheduler)
    requires locks.Valid() && sched.Valid()
    modifies locks.locks.Values
    ensures locks.Valid() && sched.Valid()
    ensures locks.At(target) == Released(old(locks.At(target)), cls, key)
    ensures forall t :: t != target ==> locks.At(t) == old(locks.At(t))
    ensures forall k :: PoolStateAt(sched, k) == old(PoolStateAt(sched, k))
  {
    locks.Release(target, cls, Some(key));
  }

  /** A task is ok exactly when its lock, its connection and its call all were. */
  lemma TaskSucceedsIff<C>(l: LockState, p: PoolState<C>, target: string, cls: LockClass, key: CapKey, w: Surroundings)
    ensures ResultOf(target, TaskEnding(l, p, target, cls, key, w)).ok <==>
              Grantable(l, cls, key) && Connects(p, w.borrowedAt, w.reachable) && Succeeds(w.call)
  {
  }

  /** A task past its lock step, from the borrow to the end; the `finally` keeps the key of a capture
      that started and releases in every other case. */
  method RunHolding(locks: LockManager, sched: Scheduler, target: string, port: int,
                    cls: LockClass, key: CapKey, w: Surroundings)
    returns (r: TargetResult)
    requires locks.Valid() && sched.Valid()
    modifies locks.locks.Values, sched, sched.pools.Values, AllIdle(sched)
    ensures locks.Valid() && sched.Valid()
    ensures r == ResultOf(target, EndingWith(UsedOf(old(PoolStateAt(sched, PoolKey(target, port))), w), w))
    ensures locks.At(target) ==
            if r.ok && cls == CAPTURE then old(locks.At(target)) else Released(old(locks.At(target)), cls, key)
    ensures forall t :: t != target ==> locks.At(t) == old(locks.At(t))
    ensures PoolStateAt(sched, PoolKey(target, port)).inuse == old(PoolStateAt(sched, PoolKey(target, port)).inuse)
    ensures LentAndReturned(old(PoolStateAt(sched, PoolKey(target, port))), PoolStateAt(sched, PoolKey(target, port)), w)
    ensures forall k :: k != PoolKey(target, port) ==> PoolStateAt(sched, k) == old(PoolStateAt(sched, k))
  {
    var used := Borrow(sched, target, port, w);
    r := ResultOf(target, EndingWith(used, w));
    assert forall t :: locks.At(t) == old(locks.At(t));
    if cls != CAPTURE || !r.ok {
      Unlock(locks, target, cls, key, sched);
    }
  }

  /** A whole task: the result is ok exactly when lock, connection and call all were, and says what the
      task ran into; the lock is as before, except that a capture that started keeps its key; and the
      slot is given back. */
  method RunLocked(locks: LockManager, sched: Scheduler, target: string, port: int,
                   cls: LockClass, key: CapKey, w: Surroundings)
    returns (r: TargetResult)
    requires locks.Valid() && sched.Valid()
    modifies locks, locks.locks.Values, sched, sched.pools.Values, AllIdle(sched)
    ensures locks.Valid() && sched.Valid()
    ensures r == ResultOf(target, TaskEnding(old(locks.At(target)), old(PoolStateAt(sched, PoolKey(target, port))), target, cls, key, w))
    ensures locks.At(target) == if r.ok && cls == CAPTURE then Acquired(old(locks.At(target)), cls, key) else old(locks.At(target))
    ensures forall t :: t != target ==> locks.At(t) == old(locks.At(t))
    ensures PoolStateAt(sched, PoolKey(target, port)).inuse == old(PoolStateAt(sched, PoolKey(target, port)).inuse)
    ensures if old(Grantable(locks.At(target), cls, key))
            then LentAndReturned(old(PoolStateAt(sched, PoolKey(target, port))), PoolStateAt(sched, PoolKey(target, port)), w)
            else PoolStateAt(sched, PoolKey(target, port)) == old(PoolStateAt(sched, PoolKey(target, port)))
    ensures forall k :: k != PoolKey(target, port) ==> PoolStateAt(sched, k) == old(PoolStateAt(sched, k))
  {
    ghost var before := locks.At(target);
    var locked := Lock(locks, target, cls, key, sched);
    if locked.Err? {
      return ResultOf(target, Refused(w.conflictText(locked.error)));
    }
    ReleaseUndoesAcquire(before, cls, key);
    r := RunHolding(locks, sched, target, port, cls, key, w);
  }

  const INCOMPLETE := "pcap 可能不完整/未排序"

  /** The answer of a stop is a failure when the capture file is known to be incomplete, or when the
      capture was not stopped and a reason is given; both keep the answer for the caller. */
  function JudgeStop(target: string, call: FnResult): TargetResult {
    match call
    case Raised(message) => Failure(target, Text(message))
    case Returned(Obj(d)) =>
      if TruthyField(d, "stopped") && "pcap_complete" in d && d["pcap_complete"] == Bool(false) then
        TargetResult(target, false, Obj(d["warning" := Str(INCOMPLETE)]),
                     Some(Around(INCOMPLETE + "(exitcode=", if "exitcode" in d then d["exitcode"] else Null, ")")))
      else if "stopped" in d && d["stopped"] == Bool(false) && TruthyField(d, "error") then
        TargetResult(target, false, Obj(d), Some(OfValue(d["error"])))
      else TargetResult(target, true, Obj(d), None)
    case Returned(_) => Failure(target, Text("not a dict"))
  }

  /** Which answers are failures.  A dict is one iff it says that the capture was stopped and its file is
      not complete, or that it was not stopped and why; anything else than a dict is one, too. */
  lemma StopVerdict(target: string, call: FnResult)
    ensures JudgeStop(target, call).target == target
    ensures JudgeStop(target, call).ok <==>
              && call.Returned? && call.data.Obj?
              && var d := call.data.fields;
                 && (TruthyField(d, "stopped") && "pcap_complete" in d ==> d["pcap_complete"] != Bool(false))
                 && (TruthyField(d, "error") && "stopped" in d ==> d["stopped"] != Bool(false))
    ensures JudgeStop(target, call).ok <==> JudgeStop(target, call).error == None
  {
  }

  /** What a failed or successful stop tells: all the agent sent, with a warning exactly when the file is
      incomplete, and as its reason the exit code, the agent's own error, or the exception. */
  lemma StopTells(target: string, call: FnResult)
    ensures var r := JudgeStop(target, call);
            match call
            case Raised(message) => r.error == Some(Text(message)) && r.data == Null
            case Returned(data) =>
              data.Obj? ==>
                && r.data.Obj?
                && r.data.fields == (if !r.ok && TruthyField(data.fields, "stopped") then data.fields["warning" := Str(INCOMPLETE)] else data.fields)
                && (!r.ok && !TruthyField(data.fields, "stopped") ==> r.error == Some(OfValue(data.fields["error"])))
                && (!r.ok && TruthyField(data.fields, "stopped") && "exitcode" in data.fields ==>
                      r.error.value.Around? && r.error.value.v == data.fields["exitcode"])
  {
  }

  /** A whole stop: without a connection the borrow's exception ends it and the key stays; with one the
      key goes, whatever the agent answers; and the slot is given back. */
  method RunStop(locks: LockManager, sched: Scheduler, target: string, port: int, key: CapKey, w: Surroundings)
    returns (r: TargetResult, ghost connected: bool)
    requires locks.Valid() && sched.Valid()
    modifies locks.locks.Values, sched, sched.pools.Values, AllIdle(sched)
    ensures locks.Valid() && sched.Valid()
    ensures connected == old(Connects(PoolStateAt(sched, PoolKey(target, port)), w.borrowedAt, w.reachable))
    ensures r == if connected then JudgeStop(target, w.call)
                 else Failure(target, Text(w.acquireText(BorrowError(old(PoolStateAt(sched, PoolKey(target, port)))))))
    ensures r.ok <==> connected && JudgeStop(target, w.call).ok
    ensures locks.At(target) == if connected then Released(old(locks.At(target)), CAPTURE, key) else old(locks.At(target))
    ensures forall t :: t != target ==> locks.At(t) == old(locks.At(t))
    ensures PoolStateAt(sched, PoolKey(target, port)).inuse == old(PoolStateAt(sched, PoolKey(target, port)).inuse)
    ensures LentAndReturned(old(PoolStateAt(sched, PoolKey(target, port))), PoolStateAt(sched, PoolKey(target, port)), w)
    ensures forall k :: k != PoolKey(target, port) ==> PoolStateAt(sched, k) == old(PoolStateAt(sched, k))
  {
    var used := Borrow(sched, target, port, w);
    connected := used.Answered?;
    assert forall t :: locks.At(t) == old(locks.At(t));
    if used.NotConnected? {
      return Failure(target, Text(w.acquireText(used.error))), false;
    }
    r := JudgeStop(target, w.call);
    Unlock(locks, target, CAPTURE, key, sched);
  }

  // ---------------------------------------------------------------- the flag of the step machine

  /** A call as the step machine sees it. */
  function EndingOf(call: FnResult): Protocol.FnEnding {
    match call
    case Raised(_) => Protocol.Raised
    case Returned(data) =>
      if CarriesError(data) then Protocol.ErrorDict
      else if data == Bool(false) then Protocol.ReturnedFalse
      else Protocol.ReturnedValue
  }

  /** The flag the step machine computes from a call is the success a task reports for it, for a locked
      batch and for a read; and it takes the connection for unhealthy exactly when the call raised. */
  lemma FlagIsSuccess(target: string, cls: LockClass, key: CapKey, call: FnResult)
    ensures Protocol.FnOk(Protocol.Batch(cls, key), EndingOf(call)) <==> JudgeCall(target, call).ok
    ensures Protocol.FnOk(Protocol.Read, EndingOf(call)) <==> ReadResult(target, call).ok
    ensures EndingOf(call) == Protocol.Raised <==> call.Raised?
  {
  }

  /** The answer to a stop as the step machine sees it: an error in it, or no answer, leaves open whether
      the capture ended. */
  function EndingOfStop(call: FnResult): Protocol.FnEnding {
    match call
    case Raised(_) => Protocol.Raised
    case Returned(Obj(d)) =>
      if "stopped" in d && d["stopped"] == Bool(false) && TruthyField(d, "error") then Protocol.ErrorDict
      else Protocol.ReturnedValue
    case Returned(_) => Protocol.Raised
  }

  /** A stop that reports success has ended the capture; and so has one that fails because of the file. */
  lemma StopFailsForTwoReasons(target: string, call: FnResult)
    ensures EndingOfStop(call) == Protocol.ReturnedValue <==>
              || JudgeStop(target, call).ok
              || (call.Returned? && call.data.Obj?
                  && var d := call.data.fields;
                     TruthyField(d, "stopped") && "pcap_complete" in d && d["pcap_complete"] == Bool(false))
  {
  }
}
