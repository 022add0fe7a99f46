/** The protocol of tasks (server.py `_run_batch.run_one` and `capture_stop.run_one`, pool.py
    `Scheduler._run_one` and `session`) as an interleaved step machine.

    A system has any number of tasks on any number of targets.  One step is one critical section
    of the code, or one event outside the locks, among them an agent carrying out a request and a capture
    ending by itself; any task may take the next step.  `Next` says what a step does, and `Exec` runs a
    list of steps from the empty system, so a theorem about every list of steps is a theorem about every
    interleaving. */
module Protocol {
  import opened Prelude
  import opened Locks
  import opened Pools

  type TaskId = nat
  type Client = nat

  /** What a task runs: a locked batch call, a `capture_stop`, or a lock-free read or session. */
  datatype Kind =
    | Batch(cls: LockClass, key: CapKey)
    | CaptureStop(key: CapKey)
    | Read

  /** Where a task stands; `ok` is the flag the `finally` block looks at. */
  datatype Pc =
    | Start
    | Borrowing
    | Connecting
    | Using(client: Client)
    | Returning(client: Client, healthy: bool, ok: bool)
    | Unlocking(ok: bool)
    | Done(ok: bool)

  /** `acted`: the agent has carried out what the task asked for, answered or not; `called`: the call on
      the connection has ended, with or without an answer. */
  datatype Task = Task(target: string, port: int, kind: Kind, pc: Pc, acted: bool, called: bool) {
    function PoolKey(): string {
      Pools.PoolKey(target, port)
    }
  }

  /** How the call on the borrowed connection ends. */
  datatype FnEnding = Raised | ErrorDict | ReturnedFalse | ReturnedValue

  /** What happened to a capture key, oldest event first. */
  datatype Event =
    | Taken(target: string, key: CapKey, task: TaskId)
    | StartKept(target: string, key: CapKey, task: TaskId)
    | StartFreed(target: string, key: CapKey, task: TaskId)
    | StopFreed(target: string, key: CapKey, task: TaskId)

  /** `home` remembers the endpoint each connection was opened to; `log` is the history of the keys;
      `running` are the captures the agents run, by target, port and key. */
  datatype Sys = Sys(
    locks: map<string, LockState>,
    pools: map<string, PoolState<Client>>,
    tasks: map<TaskId, Task>,
    home: map<Client, (string, int)>,
    clock: real,
    log: seq<Event>,
    running: set<(string, int, CapKey)>)

  const INITIAL := Sys(map[], map[], map[], map[], 0.0, [], {})

  datatype Step =
    | Spawn(id: TaskId, target: string, port: int, kind: Kind)
    | TryLock(id: TaskId)
    | BorrowTimeout(id: TaskId)
    | Grant(id: TaskId)
    | ConnectOk(id: TaskId, client: Client)
    | ConnectFail(id: TaskId)
    | Act(id: TaskId)
    | FnEnd(id: TaskId, ending: FnEnding)
    | Return(id: TaskId)
    | Unlock(id: TaskId)
    | Lapse(target: string, port: int, key: CapKey)
    | Tick(delta: real)
    | CloseAll(poolKey: string)

  function LockAt(s: Sys, target: string): LockState {
    if target in s.locks then s.locks[target] else UNLOCKED
  }

  function PoolAt(s: Sys, key: string): PoolState<Client> {
    if key in s.pools then s.pools[key] else PoolState([], 0)
  }

  function Move(s: Sys, id: TaskId, pc: Pc): Sys
    requires id in s.tasks
  {
    s.(tasks := s.tasks[id := s.tasks[id].(pc := pc)])
  }

  function SetLock(s: Sys, target: string, l: LockState): Sys {
    s.(locks := s.locks[target := l])
  }

  function SetPool(s: Sys, key: string, p: PoolState<Client>): Sys {
    s.(pools := s.pools[key := p])
  }

  /** A step's own task must exist and stand where the step starts.  The agent acts at most once on a
      request, during the call or any time after it: a call that times out leaves its request behind.  An
      answer that reports success is true, any other answer says nothing.  A capture may end by itself. */
  predicate Enabled(s: Sys, step: Step) {
    match step
    case Spawn(id, _, _, _) => id !in s.tasks
    case TryLock(id) => id in s.tasks && s.tasks[id].pc == Start
    case BorrowTimeout(id) => id in s.tasks && s.tasks[id].pc == Borrowing && Full(PoolAt(s, s.tasks[id].PoolKey()))
    case Grant(id) => id in s.tasks && s.tasks[id].pc == Borrowing && !Full(PoolAt(s, s.tasks[id].PoolKey()))
    case ConnectOk(id, client) => id in s.tasks && s.tasks[id].pc == Connecting && client !in s.home
    case ConnectFail(id) => id in s.tasks && s.tasks[id].pc == Connecting
    case Act(id) => id in s.tasks && (s.tasks[id].pc.Using? || s.tasks[id].called) && !s.tasks[id].acted
    case FnEnd(id, ending) => id in s.tasks && s.tasks[id].pc.Using? && (ending == ReturnedValue ==> s.tasks[id].acted)
    case Return(id) => id in s.tasks && s.tasks[id].pc.Returning?
    case Unlock(id) => id in s.tasks && s.tasks[id].pc.Unlocking?
    case Lapse(_, _, _) => true
    case Tick(delta) => delta >= 0.0
    case CloseAll(_) => true
  }

  function Next(s: Sys, step: Step): Sys
    requires Enabled(s, step)
  {
    match step
    case Spawn(id, target, port, kind) => s.(tasks := s.tasks[id := Task(target, port, kind, Start, false, false)])
    case TryLock(id) => AfterTryLock(s, id)
    case BorrowTimeout(id) => Move(s, id, AfterNoConnection(s.tasks[id].kind))
    case Grant(id) => AfterGrant(s, id)
    case ConnectOk(id, client) =>
      Move(s, id, Using(client)).(home := s.home[client := (s.tasks[id].target, s.tasks[id].port)])
    case ConnectFail(id) =>
      var key := s.tasks[id].PoolKey();
      SetPool(Move(s, id, AfterNoConnection(s.tasks[id].kind)), key, ConnectFailed(PoolAt(s, key)))
    case Act(id) => AfterAct(s, id)
    case FnEnd(id, ending) =>
      var t := s.tasks[id];
      s.(tasks := s.tasks[id := t.(pc := Returning(t.pc.client, ending != Raised, FnOk(t.kind, ending)), called := true)])
    case Return(id) => AfterReturn(s, id)
    case Unlock(id) => AfterUnlock(s, id)
    case Lapse(target, port, key) => s.(running := s.running - {(target, port, key)})
    case Tick(delta) => s.(clock := s.clock + delta)
    case CloseAll(key) => SetPool(s, key, Drained(PoolAt(s, key)))
  }

  function LockEvents(t: Task, id: TaskId): seq<Event> {
    if t.kind.Batch? && t.kind.cls == CAPTURE then [Taken(t.target, t.kind.key, id)] else []
  }

  /** Only a locked batch asks for a lock; a refused task is finished and never reaches the release. */
  function AfterTryLock(s: Sys, id: TaskId): Sys
    requires id in s.tasks
  {
    var t := s.tasks[id];
    match t.kind
    case Batch(cls, key) =>
      var l := LockAt(s, t.target);
      if !Grantable(l, cls, key) then Move(s, id, Done(false))
      else
        SetLock(Move(s, id, Borrowing), t.target, Acquired(l, cls, key)).(log := s.log + LockEvents(t, id))
    case _ => Move(s, id, Borrowing)
  }

  /** `pool.acquire` raised: a batch still has its lock to release, the others just end. */
  function AfterNoConnection(kind: Kind): Pc {
    if kind.Batch? then Unlocking(false) else Done(false)
  }

  function AfterGrant(s: Sys, id: TaskId): Sys
    requires id in s.tasks
  {
    var key := s.tasks[id].PoolKey();
    var p := PoolAt(s, key);
    var pc := match PopFresh(p.idle, s.clock).reuse
              case Some(client) => Using(client)
              case None => Connecting;
    SetPool(Move(s, id, pc), key, Granted(p, s.clock))
  }

  /** What the agents run after they have carried out the request of `t`. */
  function RunningAfter(running: set<(string, int, CapKey)>, t: Task): set<(string, int, CapKey)> {
    match t.kind
    case Batch(cls, key) => if cls == CAPTURE then running + {(t.target, t.port, key)} else running
    case CaptureStop(key) => running - {(t.target, t.port, key)}
    case Read => running
  }

  function AfterAct(s: Sys, id: TaskId): Sys
    requires id in s.tasks
  {
    s.(tasks := s.tasks[id := s.tasks[id].(acted := true)], running := RunningAfter(s.running, s.tasks[id]))
  }

  /** A read keeps whatever the call returned; the others look at the value. */
  function FnOk(kind: Kind, ending: FnEnding): bool {
    if kind.Read? then ending != Raised else ending == ReturnedValue
  }

  function AfterReturn(s: Sys, id: TaskId): Sys
    requires id in s.tasks && s.tasks[id].pc.Returning?
  {
    var t := s.tasks[id];
    var p := PoolAt(s, t.PoolKey());
    SetPool(Move(s, id, if t.kind.Read? then Done(t.pc.ok) else Unlocking(t.pc.ok)),
            t.PoolKey(), Returned(p, t.pc.client, t.pc.healthy, s.clock))
  }

  /** What the `finally` block leaves of the lock: a capture that started keeps its key,
      and a stop frees the key whatever the agent answered. */
  function LockLeft(l: LockState, kind: Kind, ok: bool): LockState {
    match kind
    case Batch(cls, key) => if cls == CAPTURE && ok then l else Released(l, cls, key)
    case CaptureStop(key) => Released(l, CAPTURE, key)
    case Read => l
  }

  function UnlockEvents(t: Task, id: TaskId, ok: bool): seq<Event> {
    match t.kind
    case Batch(cls, key) =>
      if cls != CAPTURE then []
      else if ok then [StartKept(t.target, key, id)]
      else [StartFreed(t.target, key, id)]
    case CaptureStop(key) => [StopFreed(t.target, key, id)]
    case Read => []
  }

  function AfterUnlock(s: Sys, id: TaskId): Sys
    requires id in s.tasks && s.tasks[id].pc.Unlocking?
  {
    var t := s.tasks[id];
    SetLock(Move(s, id, Done(t.pc.ok)), t.target, LockLeft(LockAt(s, t.target), t.kind, t.pc.ok))
      .(log := s.log + UnlockEvents(t, id, t.pc.ok))
  }

  /** The state after a list of steps from the empty system, or None when a step was not enabled. */
  function Exec(steps: seq<Step>): Option<Sys> {
    if steps == [] then Some(INITIAL)
    else
      match Exec(steps[..|steps| - 1])
      case None => None
      case Some(s) =>
        var step := steps[|steps| - 1];
        if Enabled(s, step) then Some(Next(s, step)) else None
  }

  ghost predicate Reachable(s: Sys) {
    exists steps :: Exec(steps) == Some(s)
  }

  /** Past the lock attempt and not finished. */
  predicate InFlight(t: Task) {
    !t.pc.Start? && !t.pc.Done?
  }

  /** Between the slot grant and the return of the slot, connecting or not. */
  predicate HoldsSlot(t: Task) {
    t.pc.Connecting? || t.pc.Using? || t.pc.Returning?
  }

  predicate Lent(t: Task, c: Client) {
    (t.pc.Using? || t.pc.Returning?) && t.pc.client == c
  }

  /** The step names this task. */
  predicate Moves(step: Step, i: TaskId) {
    !step.Lapse? && !step.Tick? && !step.CloseAll? && step.id == i
  }

  lemma OthersStay(s: Sys, step: Step, i: TaskId)
    requires Enabled(s, step) && !Moves(step, i) && i in Next(s, step).tasks
    ensures i in s.tasks && Next(s, step).tasks[i] == s.tasks[i]
  {
  }

  lemma ExecSnoc(steps: seq<Step>, step: Step)
    ensures Exec(steps + [step]) ==
            match Exec(steps)
            case None => None
            case Some(s) => if Enabled(s, step) then Some(Next(s, step)) else None
  {
    assert (steps + [step])[..|steps|] == steps;
  }
}
