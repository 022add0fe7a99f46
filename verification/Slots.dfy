/** Connection accounting: in every interleaving the pool's counter, its idle stack and the
    connections lent to tasks agree. */
module Slots {
  import opened Prelude
  import opened Locks
  import opened Pools
  import opened Protocol

  // ---------------------------------------------------------------- the counter

  ghost function Holders(tasks: map<TaskId, Task>, key: string): set<TaskId> {
    set i <- tasks | HoldsSlot(tasks[i]) && tasks[i].PoolKey() == key
  }

  /** The counter is the number of tasks holding a slot, the total never exceeds the maximum,
      and the idle stack is sorted by a time that has passed. */
  ghost predicate Counted(p: PoolState<Client>, tasks: map<TaskId, Task>, clock: real, key: string) {
    && p.inuse == |Holders(tasks, key)|
    && |p.idle| + p.inuse <= MAX_CONN_PER_TARGET
    && Sorted(p.idle)
    && forall conn <- p.idle :: conn.lastUsed <= clock
  }

  ghost predicate CountInv(s: Sys) {
    forall key :: Counted(PoolAt(s, key), s.tasks, s.clock, key)
  }

  lemma HoldersAfterMove(tasks: map<TaskId, Task>, id: TaskId, t': Task, key: string)
    ensures var before := id in tasks && HoldsSlot(tasks[id]) && tasks[id].PoolKey() == key;
            var after := HoldsSlot(t') && t'.PoolKey() == key;
            |Holders(tasks[id := t'], key)| ==
            |Holders(tasks, key)| + (if after then 1 else 0) - (if before then 1 else 0)
  {
    OneMemberChanges(Holders(tasks, key), Holders(tasks[id := t'], key), id);
  }

  lemma OneMemberChanges(before: set<TaskId>, after: set<TaskId>, id: TaskId)
    requires forall i :: i != id ==> (i in after <==> i in before)
    ensures |after| == |before| + (if id in after then 1 else 0) - (if id in before then 1 else 0)
  {
    assert after - {id} == before - {id};
    assert id !in before ==> before - {id} == before;
    assert id !in after ==> after - {id} == after;
  }

  /** The three ways a step can use one pool: leave it, take a slot, give a slot back. */
  lemma CountSame(p: PoolState<Client>, tasks: map<TaskId, Task>, clock: real, key: string, id: TaskId, t': Task)
    requires Counted(p, tasks, clock, key)
    requires (HoldsSlot(t') && t'.PoolKey() == key) == (id in tasks && HoldsSlot(tasks[id]) && tasks[id].PoolKey() == key)
    ensures Counted(p, tasks[id := t'], clock, key)
  {
    HoldersAfterMove(tasks, id, t', key);
  }

  lemma CountGrant(p: PoolState<Client>, tasks: map<TaskId, Task>, clock: real, key: string, id: TaskId, t': Task)
    requires Counted(p, tasks, clock, key) && !Full(p)
    requires id in tasks && !HoldsSlot(tasks[id]) && HoldsSlot(t') && t'.PoolKey() == key
    ensures Counted(Granted(p, clock), tasks[id := t'], clock, key)
  {
    HoldersAfterMove(tasks, id, t', key);
    var rest := PopFresh(p.idle, clock).rest;
    assert forall k :: 0 <= k < |rest| ==> rest[k] == p.idle[k];
  }

  lemma CountGiveBack(p: PoolState<Client>, p': PoolState<Client>, tasks: map<TaskId, Task>, clock: real, key: string,
                      id: TaskId, t': Task)
    requires Counted(p, tasks, clock, key)
    requires id in tasks && HoldsSlot(tasks[id]) && tasks[id].PoolKey() == key && !HoldsSlot(t')
    requires p' == ConnectFailed(p) || exists c, healthy :: p' == Returned(p, c, healthy, clock)
    ensures p'.inuse == p.inuse - 1
    ensures Counted(p', tasks[id := t'], clock, key)
  {
    HoldersAfterMove(tasks, id, t', key);
    assert id in Holders(tasks, key);
    assert p.inuse > 0;
  }

  lemma PoolStepKeepsCount(s: Sys, step: Step, key: string)
    requires CountInv(s) && Enabled(s, step)
    requires step.Grant? || step.ConnectFail? || step.Return?
    ensures Counted(PoolAt(Next(s, step), key), Next(s, step).tasks, Next(s, step).clock, key)
  {
    var t := s.tasks[step.id];
    var p := PoolAt(s, key);
    var t' := Next(s, step).tasks[step.id];
    assert Counted(p, s.tasks, s.clock, key);
    if t.PoolKey() != key {
      CountSame(p, s.tasks, s.clock, key, step.id, t');
    } else if step.Grant? {
      CountGrant(p, s.tasks, s.clock, key, step.id, t');
    } else {
      CountGiveBack(p, PoolAt(Next(s, step), key), s.tasks, s.clock, key, step.id, t');
    }
  }

  lemma TryLockKeepsCount(s: Sys, id: TaskId, key: string)
    requires CountInv(s) && Enabled(s, TryLock(id))
    ensures var s' := AfterTryLock(s, id);
            Counted(PoolAt(s', key), s'.tasks, s'.clock, key)
  {
    var p := PoolAt(s, key);
    assert PoolAt(AfterTryLock(s, id), key) == p;
    assert Counted(p, s.tasks, s.clock, key);
    CountSame(p, s.tasks, s.clock, key, id, AfterTryLock(s, id).tasks[id]);
  }

  lemma UnlockKeepsCount(s: Sys, id: TaskId, key: string)
    requires CountInv(s) && Enabled(s, Unlock(id))
    ensures var s' := AfterUnlock(s, id);
            Counted(PoolAt(s', key), s'.tasks, s'.clock, key)
  {
    assert Counted(PoolAt(s, key), s.tasks, s.clock, key);
    CountSame(PoolAt(s, key), s.tasks, s.clock, key, id, AfterUnlock(s, id).tasks[id]);
  }

  lemma OtherMoveKeepsCount(s: Sys, step: Step, key: string)
    requires CountInv(s) && Enabled(s, step)
    requires step.Spawn? || step.BorrowTimeout? || step.ConnectOk? || step.Act? || step.FnEnd?
    ensures Counted(PoolAt(Next(s, step), key), Next(s, step).tasks, Next(s, step).clock, key)
  {
    assert Counted(PoolAt(s, key), s.tasks, s.clock, key);
    CountSame(PoolAt(s, key), s.tasks, s.clock, key, step.id, Next(s, step).tasks[step.id]);
  }

  lemma TickKeepsCount(s: Sys, delta: real, key: string)
    requires CountInv(s) && delta >= 0.0
    ensures Counted(PoolAt(Next(s, Tick(delta)), key), s.tasks, s.clock + delta, key)
  {
    assert Counted(PoolAt(s, key), s.tasks, s.clock, key);
  }

  lemma CloseAllKeepsCount(s: Sys, closed: string, key: string)
    requires CountInv(s)
    ensures Counted(PoolAt(Next(s, CloseAll(closed)), key), s.tasks, s.clock, key)
  {
    assert Counted(PoolAt(s, key), s.tasks, s.clock, key);
  }

  lemma NextKeepsCount(s: Sys, step: Step)
    requires CountInv(s) && Enabled(s, step)
    ensures CountInv(Next(s, step))
  {
    forall key
      ensures Counted(PoolAt(Next(s, step), key), Next(s, step).tasks, Next(s, step).clock, key)
    {
      match step
      case Grant(_) => PoolStepKeepsCount(s, step, key);
      case ConnectFail(_) => PoolStepKeepsCount(s, step, key);
      case Return(_) => PoolStepKeepsCount(s, step, key);
      case Lapse(_, _, _) => assert Counted(PoolAt(s, key), s.tasks, s.clock, key);
      case Tick(delta) => TickKeepsCount(s, delta, key);
      case CloseAll(closed) => CloseAllKeepsCount(s, closed, key);
      case TryLock(id) => TryLockKeepsCount(s, id, key);
      case Unlock(id) => UnlockKeepsCount(s, id, key);
      case _ => OtherMoveKeepsCount(s, step, key);
    }
  }

  // ---------------------------------------------------------------- the connections

  /** Idle connections of a pool are distinct and lead to the endpoint of the pool. */
  ghost predicate IdleAtHome(p: PoolState<Client>, home: map<Client, (string, int)>, key: string) {
    && (forall k :: 0 <= k < |p.idle| ==>
          var c := p.idle[k].client;
          c in home && PoolKey(home[c].0, home[c].1) == key)
    && (forall j, k :: 0 <= j < k < |p.idle| ==> p.idle[j].client != p.idle[k].client)
  }

  /** Lent connections are distinct and lead to the endpoint of their borrower. */
  ghost predicate LentAtHome(tasks: map<TaskId, Task>, home: map<Client, (string, int)>) {
    && (forall i, c :: i in tasks && Lent(tasks[i], c) ==> c in home && home[c] == (tasks[i].target, tasks[i].port))
    && (forall i, j, c :: i in tasks && j in tasks && Lent(tasks[i], c) && Lent(tasks[j], c) ==> i == j)
  }

  ghost predicate NotLent(p: PoolState<Client>, tasks: map<TaskId, Task>) {
    forall i, k :: i in tasks && 0 <= k < |p.idle| ==> !Lent(tasks[i], p.idle[k].client)
  }

  ghost predicate ClientInv(s: Sys) {
    && LentAtHome(s.tasks, s.home)
    && forall key :: IdleAtHome(PoolAt(s, key), s.home, key) && NotLent(PoolAt(s, key), s.tasks)
  }

  /** A task moves, nothing is added to the stack, and what that task now holds is not on it. */
  lemma StackAfterMove(p: PoolState<Client>, p': PoolState<Client>, tasks: map<TaskId, Task>,
                       home: map<Client, (string, int)>, key: string, id: TaskId, t': Task)
    requires IdleAtHome(p, home, key) && NotLent(p, tasks)
    requires p'.idle <= p.idle
    requires forall k :: 0 <= k < |p'.idle| ==> !Lent(t', p'.idle[k].client)
    ensures IdleAtHome(p', home, key) && NotLent(p', tasks[id := t'])
  {
  }

  /** A healthy connection goes back on the stack of its endpoint. */
  lemma StackAfterReturn(p: PoolState<Client>, tasks: map<TaskId, Task>, home: map<Client, (string, int)>,
                         key: string, id: TaskId, t': Task, c: Client, now: real, healthy: bool)
    requires IdleAtHome(p, home, key) && NotLent(p, tasks) && LentAtHome(tasks, home)
    requires id in tasks && Lent(tasks[id], c) && tasks[id].PoolKey() == key
    requires forall d :: !Lent(t', d)
    ensures IdleAtHome(Returned(p, c, healthy, now), home, key)
    ensures NotLent(Returned(p, c, healthy, now), tasks[id := t'])
  {
    var idle := Returned(p, c, healthy, now).idle;
    forall k | 0 <= k < |idle|
      ensures idle[k].client == c || (k < |p.idle| && idle[k] == p.idle[k])
    {
    }
    forall k | 0 <= k < |p.idle|
      ensures p.idle[k].client != c
    {
      assert !Lent(tasks[id], p.idle[k].client);
    }
  }

  lemma LentAfterMove(tasks: map<TaskId, Task>, home: map<Client, (string, int)>, id: TaskId, t': Task)
    requires LentAtHome(tasks, home)
    requires forall c :: Lent(t', c) ==>
               && c in home && home[c] == (t'.target, t'.port)
               && forall j :: j in tasks && j != id ==> !Lent(tasks[j], c)
    ensures LentAtHome(tasks[id := t'], home)
  {
  }

  lemma GrantKeepsStack(s: Sys, id: TaskId, key: string)
    requires ClientInv(s) && Enabled(s, Grant(id))
    ensures var s' := AfterGrant(s, id);
            IdleAtHome(PoolAt(s', key), s'.home, key) && NotLent(PoolAt(s', key), s'.tasks)
  {
    var mine := s.tasks[id].PoolKey();
    var p := PoolAt(s, key);
    var t' := AfterGrant(s, id).tasks[id];
    assert IdleAtHome(p, s.home, key) && NotLent(p, s.tasks);
    assert IdleAtHome(PoolAt(s, mine), s.home, mine);
    if t'.pc.Using? {
      ReuseIsFresh(PoolAt(s, mine).idle, s.clock);
    }
    StackAfterMove(p, PoolAt(AfterGrant(s, id), key), s.tasks, s.home, key, id, t');
  }

  lemma GrantKeepsLent(s: Sys, id: TaskId)
    requires ClientInv(s) && Enabled(s, Grant(id))
    ensures LentAtHome(AfterGrant(s, id).tasks, s.home)
  {
    var t := s.tasks[id];
    var p := PoolAt(s, t.PoolKey());
    var t' := AfterGrant(s, id).tasks[id];
    assert IdleAtHome(p, s.home, t.PoolKey()) && NotLent(p, s.tasks);
    if t'.pc.Using? {
      ReuseIsFresh(p.idle, s.clock);
      var (host, port) := s.home[t'.pc.client];
      PoolKeyRoundTrip(host, port);
      PoolKeyRoundTrip(t.target, t.port);
    }
    LentAfterMove(s.tasks, s.home, id, t');
  }

  lemma ConnectOkKeepsClients(s: Sys, id: TaskId, client: Client)
    requires ClientInv(s) && Enabled(s, ConnectOk(id, client))
    ensures ClientInv(Next(s, ConnectOk(id, client)))
  {
    var s' := Next(s, ConnectOk(id, client));
    LentAfterMove(s.tasks, s'.home, id, s'.tasks[id]);
    forall key
      ensures IdleAtHome(PoolAt(s', key), s'.home, key) && NotLent(PoolAt(s', key), s'.tasks)
    {
      assert IdleAtHome(PoolAt(s, key), s.home, key) && NotLent(PoolAt(s, key), s.tasks);
      StackAfterMove(PoolAt(s, key), PoolAt(s', key), s.tasks, s'.home, key, id, s'.tasks[id]);
    }
  }

  lemma ReturnKeepsClients(s: Sys, id: TaskId)
    requires ClientInv(s) && Enabled(s, Return(id))
    ensures ClientInv(AfterReturn(s, id))
  {
    var t := s.tasks[id];
    var s' := AfterReturn(s, id);
    LentAfterMove(s.tasks, s.home, id, s'.tasks[id]);
    forall key
      ensures IdleAtHome(PoolAt(s', key), s'.home, key) && NotLent(PoolAt(s', key), s'.tasks)
    {
      assert IdleAtHome(PoolAt(s, key), s.home, key) && NotLent(PoolAt(s, key), s.tasks);
      if key == t.PoolKey() {
        StackAfterReturn(PoolAt(s, key), s.tasks, s.home, key, id, s'.tasks[id], t.pc.client, s.clock, t.pc.healthy);
      } else {
        StackAfterMove(PoolAt(s, key), PoolAt(s', key), s.tasks, s.home, key, id, s'.tasks[id]);
      }
    }
  }

  lemma TryLockKeepsStack(s: Sys, id: TaskId, key: string)
    requires ClientInv(s) && Enabled(s, TryLock(id))
    ensures var s' := AfterTryLock(s, id);
            IdleAtHome(PoolAt(s', key), s'.home, key) && NotLent(PoolAt(s', key), s'.tasks)
  {
    var p := PoolAt(s, key);
    assert IdleAtHome(p, s.home, key) && NotLent(p, s.tasks);
    StackAfterMove(p, p, s.tasks, s.home, key, id, AfterTryLock(s, id).tasks[id]);
  }

  lemma UnlockKeepsStack(s: Sys, id: TaskId, key: string)
    requires ClientInv(s) && Enabled(s, Unlock(id))
    ensures var s' := AfterUnlock(s, id);
            IdleAtHome(PoolAt(s', key), s'.home, key) && NotLent(PoolAt(s', key), s'.tasks)
  {
    var p := PoolAt(s, key);
    assert IdleAtHome(p, s.home, key) && NotLent(p, s.tasks);
    StackAfterMove(p, p, s.tasks, s.home, key, id, AfterUnlock(s, id).tasks[id]);
  }

  /** The remaining moves of a task: it holds no connection it did not hold before. */
  lemma PlainMoveKeepsStack(s: Sys, step: Step, key: string)
    requires ClientInv(s) && Enabled(s, step)
    requires step.Spawn? || step.BorrowTimeout? || step.ConnectFail? || step.Act? || step.FnEnd?
    ensures IdleAtHome(PoolAt(Next(s, step), key), Next(s, step).home, key)
    ensures NotLent(PoolAt(Next(s, step), key), Next(s, step).tasks)
  {
    assert IdleAtHome(PoolAt(s, key), s.home, key) && NotLent(PoolAt(s, key), s.tasks);
    var t' := Next(s, step).tasks[step.id];
    assert forall c :: Lent(t', c) ==> step.id in s.tasks && Lent(s.tasks[step.id], c);
    StackAfterMove(PoolAt(s, key), PoolAt(Next(s, step), key), s.tasks, s.home, key, step.id, t');
  }

  /** Only a grant and a connect lend. */
  lemma LendsNothing(s: Sys, step: Step, i: TaskId, c: Client)
    requires Enabled(s, step) && Moves(step, i) && !step.Grant? && !step.ConnectOk?
    requires Lent(Next(s, step).tasks[i], c)
    ensures i in s.tasks && Lent(s.tasks[i], c)
    ensures Next(s, step).tasks[i].target == s.tasks[i].target && Next(s, step).tasks[i].port == s.tasks[i].port
  {
  }

  lemma PlainMoveKeepsLent(s: Sys, step: Step)
    requires ClientInv(s) && Enabled(s, step)
    requires !step.Grant? && !step.ConnectOk? && !step.Return? && !step.Lapse? && !step.Tick? && !step.CloseAll?
    ensures LentAtHome(Next(s, step).tasks, Next(s, step).home)
  {
    var t' := Next(s, step).tasks[step.id];
    forall c | Lent(t', c)
      ensures step.id in s.tasks && Lent(s.tasks[step.id], c) && t'.target == s.tasks[step.id].target && t'.port == s.tasks[step.id].port
    {
      LendsNothing(s, step, step.id, c);
    }
    LentAfterMove(s.tasks, s.home, step.id, t');
  }

  lemma CloseAllKeepsClients(s: Sys, closed: string)
    requires ClientInv(s)
    ensures ClientInv(Next(s, CloseAll(closed)))
  {
    var s' := Next(s, CloseAll(closed));
    forall key
      ensures IdleAtHome(PoolAt(s', key), s'.home, key) && NotLent(PoolAt(s', key), s'.tasks)
    {
      assert IdleAtHome(PoolAt(s, key), s.home, key) && NotLent(PoolAt(s, key), s.tasks);
    }
  }

  lemma TickKeepsClients(s: Sys, delta: real)
    requires ClientInv(s) && delta >= 0.0
    ensures ClientInv(Next(s, Tick(delta)))
  {
    var s' := Next(s, Tick(delta));
    assert forall key :: PoolAt(s', key) == PoolAt(s, key);
  }

  lemma LapseKeepsClients(s: Sys, step: Step)
    requires ClientInv(s) && step.Lapse?
    ensures ClientInv(Next(s, step))
  {
    assert forall key :: PoolAt(Next(s, step), key) == PoolAt(s, key);
  }

  lemma GrantKeepsClients(s: Sys, id: TaskId)
    requires ClientInv(s) && Enabled(s, Grant(id))
    ensures ClientInv(AfterGrant(s, id))
  {
    GrantKeepsLent(s, id);
    forall key {
      GrantKeepsStack(s, id, key);
    }
  }

  lemma TryLockKeepsClients(s: Sys, id: TaskId)
    requires ClientInv(s) && Enabled(s, TryLock(id))
    ensures ClientInv(AfterTryLock(s, id))
  {
    PlainMoveKeepsLent(s, TryLock(id));
    forall key {
      TryLockKeepsStack(s, id, key);
    }
  }

  lemma UnlockKeepsClients(s: Sys, id: TaskId)
    requires ClientInv(s) && Enabled(s, Unlock(id))
    ensures ClientInv(AfterUnlock(s, id))
  {
    PlainMoveKeepsLent(s, Unlock(id));
    forall key {
      UnlockKeepsStack(s, id, key);
    }
  }

  lemma PlainMoveKeepsClients(s: Sys, step: Step)
    requires ClientInv(s) && Enabled(s, step)
    requires step.Spawn? || step.BorrowTimeout? || step.ConnectFail? || step.Act? || step.FnEnd?
    ensures ClientInv(Next(s, step))
  {
    PlainMoveKeepsLent(s, step);
    forall key {
      PlainMoveKeepsStack(s, step, key);
    }
  }

  lemma NextKeepsClients(s: Sys, step: Step)
    requires ClientInv(s) && Enabled(s, step)
    ensures ClientInv(Next(s, step))
  {
    match step
    case Grant(id) => GrantKeepsClients(s, id);
    case ConnectOk(id, client) => ConnectOkKeepsClients(s, id, client);
    case Return(id) => ReturnKeepsClients(s, id);
    case Lapse(_, _, _) => LapseKeepsClients(s, step);
    case Tick(delta) => TickKeepsClients(s, delta);
    case CloseAll(key) => CloseAllKeepsClients(s, key);
    case TryLock(id) => TryLockKeepsClients(s, id);
    case Unlock(id) => UnlockKeepsClients(s, id);
    case _ => PlainMoveKeepsClients(s, step);
  }

  // ---------------------------------------------------------------- every run

  lemma {:induction false} RunsKeepPools(steps: seq<Step>)
    requires Exec(steps).Some?
    ensures CountInv(Exec(steps).value) && ClientInv(Exec(steps).value)
  {
    if steps == [] {
      assert forall key :: Holders(INITIAL.tasks, key) == {};
    } else {
      var s := Exec(steps[..|steps| - 1]).value;
      RunsKeepPools(steps[..|steps| - 1]);
      NextKeepsCount(s, steps[|steps| - 1]);
      NextKeepsClients(s, steps[|steps| - 1]);
    }
  }

  /** In every reachable state a pool has at most MAX_CONN_PER_TARGET connections, counting the
      idle ones, the lent ones and those still being opened, and its counter is exactly the
      number of tasks between a slot grant and the return of the slot. */
  lemma PoolBound(s: Sys, key: string)
    requires Reachable(s)
    ensures PoolAt(s, key).inuse == |Holders(s.tasks, key)|
    ensures |PoolAt(s, key).idle| + PoolAt(s, key).inuse <= MAX_CONN_PER_TARGET
  {
    var steps :| Exec(steps) == Some(s);
    RunsKeepPools(steps);
    assert Counted(PoolAt(s, key), s.tasks, s.clock, key);
  }

  /** In every reachable state no connection is lent twice, or lent and idle, or idle twice, even
      across pools; and a borrower's connection leads to the borrower's own target and port. */
  lemma NoConnectionShared(s: Sys)
    requires Reachable(s)
    ensures forall i, j, c :: i in s.tasks && j in s.tasks && Lent(s.tasks[i], c) && Lent(s.tasks[j], c) ==> i == j
    ensures forall i, c :: i in s.tasks && Lent(s.tasks[i], c) ==>
              c in s.home && s.home[c] == (s.tasks[i].target, s.tasks[i].port)
    ensures forall i, key, k :: i in s.tasks && 0 <= k < |PoolAt(s, key).idle| ==> !Lent(s.tasks[i], PoolAt(s, key).idle[k].client)
    ensures forall key1, key2, j, k ::
              0 <= j < |PoolAt(s, key1).idle| && 0 <= k < |PoolAt(s, key2).idle|
              && PoolAt(s, key1).idle[j].client == PoolAt(s, key2).idle[k].client
              ==> key1 == key2 && j == k
  {
    var steps :| Exec(steps) == Some(s);
    RunsKeepPools(steps);
    forall key
      ensures IdleAtHome(PoolAt(s, key), s.home, key) && NotLent(PoolAt(s, key), s.tasks)
    {
    }
  }

  /** In every reachable state the clamps at zero change nothing: a slot given back was counted. */
  lemma ClampsNeverBite(s: Sys, step: Step)
    requires Reachable(s) && Enabled(s, step) && (step.Return? || step.ConnectFail?)
    ensures var key := s.tasks[step.id].PoolKey();
            PoolAt(Next(s, step), key).inuse == PoolAt(s, key).inuse - 1 >= 0
  {
    var steps :| Exec(steps) == Some(s);
    RunsKeepPools(steps);
    var key := s.tasks[step.id].PoolKey();
    assert Counted(PoolAt(s, key), s.tasks, s.clock, key);
    CountGiveBack(PoolAt(s, key), PoolAt(Next(s, step), key), s.tasks, s.clock, key, step.id, Next(s, step).tasks[step.id]);
  }

  /** In every reachable state a slot grant either reuses the newest idle connection and expires
      none, or finds the stack empty or wholly stale, leaves it empty and opens a new connection. */
  lemma GrantIsAllOrNothing(s: Sys, id: TaskId)
    requires Reachable(s) && Enabled(s, Grant(id))
    ensures var key := s.tasks[id].PoolKey();
            var before, after := PoolAt(s, key), PoolAt(Next(s, Grant(id)), key);
            var n := |before.idle|;
            var pc := Next(s, Grant(id)).tasks[id].pc;
            if n > 0 && s.clock - before.idle[n - 1].lastUsed <= 600.0
            then pc == Using(before.idle[n - 1].client) && after.idle == before.idle[..n - 1]
            else pc == Connecting && after.idle == []
  {
    var steps :| Exec(steps) == Some(s);
    RunsKeepPools(steps);
    var p := PoolAt(s, s.tasks[id].PoolKey());
    assert Counted(p, s.tasks, s.clock, s.tasks[id].PoolKey());
    SortedPopIsAllOrNothing(p.idle, s.clock);
  }

  /** In every reachable state a task that waits for a slot can have one iff fewer than five tasks hold one
      of its pool; otherwise, and only then, its borrow may time out. */
  lemma SlotGrantedIff(s: Sys, id: TaskId)
    requires Reachable(s) && id in s.tasks && s.tasks[id].pc == Borrowing
    ensures Enabled(s, Grant(id)) <==> |Holders(s.tasks, s.tasks[id].PoolKey())| < 5
    ensures Enabled(s, BorrowTimeout(id)) <==> |Holders(s.tasks, s.tasks[id].PoolKey())| == 5
  {
    PoolBound(s, s.tasks[id].PoolKey());
  }

  // ---------------------------------------------------------------- discarded connections

  /** A connection that was opened and is neither lent nor idle. */
  ghost predicate Gone(s: Sys, c: Client) {
    && c in s.home
    && (forall i :: i in s.tasks ==> !Lent(s.tasks[i], c))
    && (forall key, k :: 0 <= k < |PoolAt(s, key).idle| ==> PoolAt(s, key).idle[k].client != c)
  }

  lemma UnhealthyReturn(s: Sys, id: TaskId)
    requires ClientInv(s) && Enabled(s, Return(id)) && !s.tasks[id].pc.healthy
    ensures Gone(AfterReturn(s, id), s.tasks[id].pc.client)
  {
    var c := s.tasks[id].pc.client;
    var s' := AfterReturn(s, id);
    assert Lent(s.tasks[id], c);
    forall key, k | 0 <= k < |PoolAt(s', key).idle|
      ensures PoolAt(s', key).idle[k].client != c
    {
      assert PoolAt(s', key).idle == PoolAt(s, key).idle;
      assert NotLent(PoolAt(s, key), s.tasks);
    }
  }

  /** A connection whose call raised leaves the pool for good: it is given back unhealthy... */
  lemma RaisedIsDiscarded(s: Sys, id: TaskId)
    requires Reachable(s) && Enabled(s, FnEnd(id, Raised))
    ensures var s1 := Next(s, FnEnd(id, Raised));
            Enabled(s1, Return(id)) && Gone(Next(s1, Return(id)), s.tasks[id].pc.client)
  {
    var steps :| Exec(steps) == Some(s);
    RunsKeepPools(steps);
    NextKeepsClients(s, FnEnd(id, Raised));
    UnhealthyReturn(Next(s, FnEnd(id, Raised)), id);
  }

  lemma GrantLendsIdle(s: Sys, id: TaskId, c: Client)
    requires Gone(s, c) && Enabled(s, Grant(id))
    ensures !Lent(AfterGrant(s, id).tasks[id], c)
  {
    ReuseIsFresh(PoolAt(s, s.tasks[id].PoolKey()).idle, s.clock);
  }

  lemma GoneTaskSide(s: Sys, step: Step, c: Client)
    requires Gone(s, c) && Enabled(s, step)
    ensures forall i :: i in Next(s, step).tasks ==> !Lent(Next(s, step).tasks[i], c)
  {
    forall i | i in Next(s, step).tasks
      ensures !Lent(Next(s, step).tasks[i], c)
    {
      if !Moves(step, i) {
        OthersStay(s, step, i);
      } else if step.Grant? {
        GrantLendsIdle(s, i, c);
      } else if !step.ConnectOk? && Lent(Next(s, step).tasks[i], c) {
        LendsNothing(s, step, i, c);
      }
    }
  }

  lemma HomeGrows(s: Sys, step: Step, c: Client)
    requires Enabled(s, step) && c in s.home
    ensures c in Next(s, step).home
  {
  }

  /** A step leaves a beginning of the stack, or adds the connection a task gives back. */
  lemma StackGrowsByReturn(s: Sys, step: Step, key: string)
    requires Enabled(s, step)
    ensures var before, after := PoolAt(s, key).idle, PoolAt(Next(s, step), key).idle;
            after <= before ||
            (step.Return? && after == before + [PooledConn(s.tasks[step.id].pc.client, s.clock)])
  {
  }

  lemma GonePoolSide(s: Sys, step: Step, c: Client, key: string, k: nat)
    requires Gone(s, c) && Enabled(s, step) && k < |PoolAt(Next(s, step), key).idle|
    ensures PoolAt(Next(s, step), key).idle[k].client != c
  {
    StackGrowsByReturn(s, step, key);
    var before := PoolAt(s, key).idle;
    if k < |before| {
      assert PoolAt(Next(s, step), key).idle[k] == before[k];
    } else {
      assert Lent(s.tasks[step.id], s.tasks[step.id].pc.client);
    }
  }

  /** ...and what is gone stays gone, along every continuation. */
  lemma {:induction false} GoneForGood(steps: seq<Step>, more: seq<Step>, c: Client)
    requires Exec(steps).Some? && Gone(Exec(steps).value, c)
    requires Exec(steps + more).Some?
    ensures Gone(Exec(steps + more).value, c)
  {
    if more == [] {
      assert steps + more == steps;
    } else {
      var init, last := more[..|more| - 1], more[|more| - 1];
      assert (steps + more)[..|steps + more| - 1] == steps + init;
      GoneForGood(steps, init, c);
      var s := Exec(steps + init).value;
      GoneTaskSide(s, last, c);
      HomeGrows(s, last, c);
      forall key, k | 0 <= k < |PoolAt(Next(s, last), key).idle|
        ensures PoolAt(Next(s, last), key).idle[k].client != c
      {
        GonePoolSide(s, last, c, key, k);
      }
    }
  }

  // ---------------------------------------------------------------- kept connections

  /** A connection whose call did not raise, whatever it returned, is kept: given back it is the newest idle
      one of its pool. */
  lemma AnsweredIsKept(s: Sys, id: TaskId, ending: FnEnding)
    requires Enabled(s, FnEnd(id, ending)) && ending != Raised
    ensures var s1 := Next(s, FnEnd(id, ending));
            && Enabled(s1, Return(id))
            && PoolAt(Next(s1, Return(id)), s.tasks[id].PoolKey()).idle ==
               PoolAt(s, s.tasks[id].PoolKey()).idle + [PooledConn(s.tasks[id].pc.client, s.clock)]
  {
  }

  /** Where each connection of a stack goes when a slot is granted: it stays, is lent, or had expired. */
  lemma GrantSorts(s: Sys, id: TaskId, k: nat)
    requires Enabled(s, Grant(id)) && k < |PoolAt(s, s.tasks[id].PoolKey()).idle|
    ensures var before, after := PoolAt(s, s.tasks[id].PoolKey()).idle, PoolAt(AfterGrant(s, id), s.tasks[id].PoolKey()).idle;
            || (k < |after| && after[k] == before[k])
            || Lent(AfterGrant(s, id).tasks[id], before[k].client)
            || Stale(before[k], s.clock)
  {
    ReuseIsFresh(PoolAt(s, s.tasks[id].PoolKey()).idle, s.clock);
  }

  /** A step that drops an idle connection closed its pool, or took a slot and found it expired. */
  lemma IdleStays(s: Sys, step: Step, key: string, k: nat)
    requires Enabled(s, step) && k < |PoolAt(s, key).idle|
    ensures var conn := PoolAt(s, key).idle[k];
            || (k < |PoolAt(Next(s, step), key).idle| && PoolAt(Next(s, step), key).idle[k] == conn)
            || step == CloseAll(key)
            || (step.Grant? && s.tasks[step.id].PoolKey() == key
                && (Lent(Next(s, step).tasks[step.id], conn.client) || Stale(conn, s.clock)))
  {
    if step.Grant? && s.tasks[step.id].PoolKey() == key {
      GrantSorts(s, step.id, k);
    }
  }

  /** A step that takes a lent connection from its task is its return. */
  lemma LentStays(s: Sys, step: Step, i: TaskId, c: Client)
    requires Enabled(s, step) && i in s.tasks && Lent(s.tasks[i], c) && step != Return(i)
    ensures i in Next(s, step).tasks && Lent(Next(s, step).tasks[i], c)
  {
  }

  /** Connections are conserved: one that is lent or idle leaves its pool only given back after a call that
      raised, by closing the pool, or because it had expired when a slot was taken. */
  lemma LeavesOnlyBy(s: Sys, step: Step, c: Client)
    requires Enabled(s, step) && c in s.home && !Gone(s, c) && Gone(Next(s, step), c)
    ensures || (step.Return? && s.tasks[step.id].pc.client == c && !s.tasks[step.id].pc.healthy)
            || (step.CloseAll? && exists conn <- PoolAt(s, step.poolKey).idle :: conn.client == c)
            || (step.Grant? && exists conn <- PoolAt(s, s.tasks[step.id].PoolKey()).idle :: conn.client == c && Stale(conn, s.clock))
  {
    var s' := Next(s, step);
    if i :| i in s.tasks && Lent(s.tasks[i], c) {
      if step != Return(i) {
        LentStays(s, step, i, c);
      } else if s.tasks[i].pc.healthy {
        HealthyReturnKeeps(s, i);
      }
    } else {
      var key, k :| 0 <= k < |PoolAt(s, key).idle| && PoolAt(s, key).idle[k].client == c;
      assert PoolAt(s, key).idle[k] in PoolAt(s, key).idle;
      IdleStays(s, step, key, k);
    }
  }

  lemma HealthyReturnKeeps(s: Sys, id: TaskId)
    requires Enabled(s, Return(id)) && s.tasks[id].pc.healthy
    ensures !Gone(AfterReturn(s, id), s.tasks[id].pc.client)
  {
    var key := s.tasks[id].PoolKey();
    assert PoolAt(AfterReturn(s, id), key).idle[|PoolAt(s, key).idle|].client == s.tasks[id].pc.client;
  }
}
