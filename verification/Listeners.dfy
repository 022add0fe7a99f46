/** Listeners and removal (server.py `socket_listen` start and stop, `add_target`, `remove_target`): the
    registry beside the step machine.  A listen call is a task like any other, so its acknowledgement and
    its update of the flag may have anything in between; adding and removing a target are single steps. */
module Listeners {
  import opened Prelude
  import opened Locks
  import opened Registry
  import opened Exclusion
  import opened Captures
  import opened Running
  import Protocol

  /** What the version probe after a start tells: an agent that can stop a listener, one that
      cannot, or no answer. */
  datatype Probe = CanStop | TooOld | ProbeFailed

  datatype Action = Started | Stopped

  /** A listen call is a task of class SYSTEM.  `Ack` is the agent's acknowledgement of its action, and
      `Settle` what the task then does about the flag before its call ends; `Work` is any step of any task. */
  datatype Call =
    | Add(host: string, port: int, tags: seq<string>, note: string)
    | Remove(host: string, port: int)
    | Ack(id: Protocol.TaskId, action: Action)
    | Settle(id: Protocol.TaskId, probe: Probe)
    | Work(step: Protocol.Step)

  /** `last` is the last listen action each endpoint acknowledged; `unsettled` are the tasks whose action
      has been acknowledged and whose flag is still to be updated. */
  datatype World = World(
    rows: seq<Row>,
    last: map<(string, int), Action>,
    unsettled: map<Protocol.TaskId, Action>,
    sys: Protocol.Sys)

  predicate Listening(rows: seq<Row>, host: string, port: int) {
    exists row <- rows :: RowAt(row, host, port) && row.listening
  }

  /** What becomes of the flag after an acknowledged action. */
  function Settled(rows: seq<Row>, host: string, port: int, action: Action, probe: Probe): seq<Row> {
    match action
    case Started => if probe == CanStop then Marked(rows, host, port, true) else rows
    case Stopped => Marked(rows, host, port, false)
  }

  /** On its connection, in the middle of a call. */
  predicate InListenCall(w: World, id: Protocol.TaskId) {
    && id in w.sys.tasks
    && w.sys.tasks[id].kind.Batch? && w.sys.tasks[id].kind.cls == SYSTEM && w.sys.tasks[id].pc.Using?
  }

  /** A call does not end between its acknowledgement and the update of the flag. */
  predicate Steps(w: World, c: Call) {
    c.Work? && Protocol.Enabled(w.sys, c.step) && !(c.step.FnEnd? && c.step.id in w.unsettled)
  }

  function Effect(w: World, c: Call): World {
    match c
    case Add(host, port, tags, note) => w.(rows := Inserted(w.rows, Row(host, port, tags, note, false)))
    case Remove(host, port) =>
      if HasActive(Protocol.LockAt(w.sys, host)) || Listening(w.rows, host, port) then w else w.(rows := Deleted(w.rows, host, port))
    case Ack(id, action) =>
      if !InListenCall(w, id) || id in w.unsettled then w
      else
        var t := w.sys.tasks[id];
        w.(last := w.last[(t.target, t.port) := action], unsettled := w.unsettled[id := action])
    case Settle(id, probe) =>
      if !InListenCall(w, id) || id !in w.unsettled then w
      else
        var t := w.sys.tasks[id];
        w.(rows := Settled(w.rows, t.target, t.port, w.unsettled[id], probe), unsettled := w.unsettled - {id})
    case Work(step) => if Steps(w, c) then w.(sys := Protocol.Next(w.sys, step)) else w
  }

  function RunCalls(calls: seq<Call>): World {
    if calls == [] then World([], map[], map[], Protocol.INITIAL)
    else Effect(RunCalls(calls[..|calls| - 1]), calls[|calls| - 1])
  }

  // ---------------------------------------------------------------- the flag

  /** The endpoint's listener was acknowledged as started, and no stop since. */
  predicate LastStarted(w: World, host: string, port: int) {
    (host, port) in w.last && w.last[(host, port)] == Started
  }

  /** A stop of the endpoint has been acknowledged and is about to clear the flag. */
  ghost predicate BeingCleared(w: World, host: string, port: int) {
    exists i :: i in w.unsettled && i in w.sys.tasks && w.unsettled[i] == Stopped
                && w.sys.tasks[i].target == host && w.sys.tasks[i].port == port
  }

  ghost predicate FlagsTrue(w: World) {
    && UniqueRows(w.rows)
    && forall row <- w.rows :: row.listening ==> LastStarted(w, row.host, row.port) || BeingCleared(w, row.host, row.port)
  }

  /** An unsettled task is in its call, and nothing about its endpoint was acknowledged after its action. */
  ghost predicate UnsettledLast(w: World) {
    forall i :: i in w.unsettled ==>
      && InListenCall(w, i)
      && var endpoint := (w.sys.tasks[i].target, w.sys.tasks[i].port);
         endpoint in w.last && w.last[endpoint] == w.unsettled[i]
  }

  /** An acknowledgement: the SYSTEM lock makes its task the only one of the host in a listen call. */
  lemma AckKeepsUnsettled(w: World, id: Protocol.TaskId, action: Action)
    requires UnsettledLast(w) && Protocol.Reachable(w.sys)
    ensures UnsettledLast(Effect(w, Ack(id, action)))
  {
    if InListenCall(w, id) && id !in w.unsettled {
      MutualExclusion(w.sys, w.sys.tasks[id].target);
      forall i | i in w.unsettled
        ensures w.sys.tasks[i].target != w.sys.tasks[id].target
      {
        assert Exclusively(w.sys.tasks[i], w.sys.tasks[i].target);
        assert Exclusively(w.sys.tasks[id], w.sys.tasks[id].target);
      }
    }
  }

  lemma AckKeepsFlags(w: World, id: Protocol.TaskId, action: Action)
    requires FlagsTrue(w)
    ensures FlagsTrue(Effect(w, Ack(id, action)))
  {
    var w' := Effect(w, Ack(id, action));
    forall row | row in w.rows && row.listening
      ensures LastStarted(w', row.host, row.port) || BeingCleared(w', row.host, row.port)
    {
      if BeingCleared(w, row.host, row.port) {
        var i :| i in w.unsettled && i in w.sys.tasks && w.unsettled[i] == Stopped
                 && w.sys.tasks[i].target == row.host && w.sys.tasks[i].port == row.port;
        assert i in w'.unsettled && w'.unsettled[i] == Stopped;
      } else if !LastStarted(w', row.host, row.port) {
        assert w'.unsettled[id] == Stopped;
      }
    }
  }

  lemma SettleKeepsFlags(w: World, id: Protocol.TaskId, probe: Probe)
    requires FlagsTrue(w) && UnsettledLast(w)
    ensures FlagsTrue(Effect(w, Settle(id, probe)))
  {
    var w' := Effect(w, Settle(id, probe));
    forall row | row in w'.rows && row.listening
      ensures LastStarted(w', row.host, row.port) || BeingCleared(w', row.host, row.port)
    {
      if row in w.rows && BeingCleared(w, row.host, row.port) {
        var i :| i in w.unsettled && i in w.sys.tasks && w.unsettled[i] == Stopped
                 && w.sys.tasks[i].target == row.host && w.sys.tasks[i].port == row.port;
        assert i != id ==> i in w'.unsettled && w'.unsettled[i] == Stopped;
      }
    }
  }

  lemma WorkKeepsFlags(w: World, step: Protocol.Step)
    requires FlagsTrue(w) && UnsettledLast(w)
    ensures FlagsTrue(Effect(w, Work(step))) && UnsettledLast(Effect(w, Work(step)))
  {
    if Steps(w, Work(step)) {
      forall i | i in w.unsettled {
        CallGoesOn(w.sys, step, i);
      }
      var w' := Effect(w, Work(step));
      forall row | row in w.rows && row.listening
        ensures LastStarted(w', row.host, row.port) || BeingCleared(w', row.host, row.port)
      {
        if BeingCleared(w, row.host, row.port) {
          var i :| i in w.unsettled && i in w.sys.tasks && w.unsettled[i] == Stopped
                   && w.sys.tasks[i].target == row.host && w.sys.tasks[i].port == row.port;
          assert i in w'.unsettled && w'.sys.tasks[i].port == row.port;
        }
      }
    }
  }

  /** A call ends only by its own step. */
  lemma CallGoesOn(sys: Protocol.Sys, step: Protocol.Step, i: Protocol.TaskId)
    requires Protocol.Enabled(sys, step) && i in sys.tasks && sys.tasks[i].pc.Using?
    requires step.FnEnd? ==> step.id != i
    ensures i in Protocol.Next(sys, step).tasks
    ensures var t, t' := sys.tasks[i], Protocol.Next(sys, step).tasks[i];
            t'.target == t.target && t'.port == t.port && t'.kind == t.kind && t'.pc == t.pc
  {
  }

  lemma RowsKeepFlags(w: World, rows: seq<Row>)
    requires FlagsTrue(w) && UniqueRows(rows)
    requires forall row <- rows :: row in w.rows || !row.listening
    ensures FlagsTrue(w.(rows := rows))
  {
    forall row | row in rows && row.listening
      ensures LastStarted(w, row.host, row.port) || BeingCleared(w.(rows := rows), row.host, row.port)
    {
      assert BeingCleared(w, row.host, row.port) ==> BeingCleared(w.(rows := rows), row.host, row.port);
    }
  }

  lemma EffectKeepsFlags(w: World, c: Call)
    requires FlagsTrue(w) && UnsettledLast(w) && Protocol.Reachable(w.sys)
    ensures FlagsTrue(Effect(w, c)) && UnsettledLast(Effect(w, c))
  {
    match c
    case Add(host, port, tags, note) =>
      InsertedKeepsUnique(w.rows, Row(host, port, tags, note, false));
      RowsKeepFlags(w, Effect(w, c).rows);
    case Remove(host, port) =>
      DeletedKeepsUnique(w.rows, host, port);
      RowsKeepFlags(w, Effect(w, c).rows);
    case Ack(id, action) =>
      AckKeepsUnsettled(w, id, action);
      AckKeepsFlags(w, id, action);
    case Settle(id, probe) => SettleKeepsFlags(w, id, probe);
    case Work(step) => WorkKeepsFlags(w, step);
  }

  lemma {:induction false} RunsKeepFlags(calls: seq<Call>)
    ensures FlagsTrue(RunCalls(calls)) && UnsettledLast(RunCalls(calls))
  {
    if calls != [] {
      var init := calls[..|calls| - 1];
      RunsKeepFlags(init);
      WorksRun(init);
      EffectKeepsFlags(RunCalls(init), calls[|calls| - 1]);
    }
  }

  /** Over every interleaving of listen calls with each other and with all other work: an endpoint marked
      as listening was last acknowledged as started, unless a stop is just about to clear the mark. */
  lemma FlagMeansStarted(calls: seq<Call>, host: string, port: int)
    requires Listening(RunCalls(calls).rows, host, port)
    ensures LastStarted(RunCalls(calls), host, port) || BeingCleared(RunCalls(calls), host, port)
  {
    RunsKeepFlags(calls);
  }

  /** The flag of an endpoint after an acknowledged action: set by a start if the agent can stop again and
      the endpoint is registered, cleared by a stop, and otherwise what it was; registrations, and the
      flags of all other endpoints, stay. */
  lemma SettlesOne(rows: seq<Row>, host: string, port: int, action: Action, probe: Probe, h: string, p: int)
    ensures Registered(Settled(rows, host, port, action, probe), h, p) <==> Registered(rows, h, p)
    ensures Listening(Settled(rows, host, port, action, probe), h, p) <==>
            if (h, p) != (host, port) || (action == Started && probe != CanStop) then Listening(rows, h, p)
            else action == Started && Registered(rows, h, p)
  {
    if action == Stopped || probe == CanStop {
      MarkedFlag(rows, host, port, action == Started, h, p);
    }
  }

  lemma MarkedFlag(rows: seq<Row>, host: string, port: int, alive: bool, h: string, p: int)
    ensures var marked := Marked(rows, host, port, alive);
            && (Registered(marked, h, p) <==> Registered(rows, h, p))
            && (Listening(marked, h, p) <==>
                if (h, p) == (host, port) then alive && Registered(rows, h, p) else Listening(rows, h, p))
  {
    var marked := Marked(rows, host, port, alive);
    AtSomeIndex(rows, h, p);
    AtSomeIndex(marked, h, p);
  }

  lemma AtSomeIndex(rows: seq<Row>, h: string, p: int)
    ensures Registered(rows, h, p) <==> exists i :: 0 <= i < |rows| && RowAt(rows[i], h, p)
    ensures Listening(rows, h, p) <==> exists i :: 0 <= i < |rows| && RowAt(rows[i], h, p) && rows[i].listening
  {
  }

  /** A listen call that the agent acknowledges takes effect: it is the last action of its endpoint, and the
      flag follows it. */
  lemma ListenTakesEffect(w: World, id: Protocol.TaskId, action: Action, probe: Probe)
    requires InListenCall(w, id) && id !in w.unsettled
    ensures var t := w.sys.tasks[id];
            var w' := Effect(Effect(w, Ack(id, action)), Settle(id, probe));
            && w'.last == w.last[(t.target, t.port) := action]
            && w'.rows == Settled(w.rows, t.target, t.port, action, probe)
            && w'.unsettled == w.unsettled && w'.sys == w.sys
  {
  }

  lemma Then(calls: seq<Call>, c: Call) returns (calls': seq<Call>)
    ensures RunCalls(calls') == Effect(RunCalls(calls), c)
  {
    calls' := calls + [c];
    assert calls'[..|calls|] == calls;
  }

  /** A listen call of a registered target, up to its lock... */
  lemma ListenCallLocks(host: string, port: int, tags: seq<string>, note: string) returns (calls: seq<Call>)
    ensures var w := RunCalls(calls);
            && w.unsettled == map[] && Registered(w.rows, host, port)
            && w.sys.tasks == map[0 := Protocol.Task(host, port, Protocol.Batch(SYSTEM, []), Protocol.Borrowing, false, false)]
            && w.sys.pools == map[] && w.sys.home == map[]
  {
    calls := Then([], Add(host, port, tags, note));
    InsertedKeepsUnique([], Row(host, port, tags, note, false));
    calls := Then(calls, Work(Protocol.Spawn(0, host, port, Protocol.Batch(SYSTEM, []))));
    FreeLockGrants(SYSTEM, []);
    calls := Then(calls, Work(Protocol.TryLock(0)));
  }

  /** ...its slot... */
  lemma ListenCallBorrows(host: string, port: int, tags: seq<string>, note: string) returns (calls: seq<Call>)
    ensures var w := RunCalls(calls);
            && w.unsettled == map[] && Registered(w.rows, host, port)
            && w.sys.tasks == map[0 := Protocol.Task(host, port, Protocol.Batch(SYSTEM, []), Protocol.Connecting, false, false)]
            && w.sys.home == map[]
  {
    calls := ListenCallLocks(host, port, tags, note);
    calls := Then(calls, Work(Protocol.Grant(0)));
  }

  /** ...and its connection. */
  lemma ListenCallStarts(host: string, port: int, tags: seq<string>, note: string) returns (calls: seq<Call>)
    ensures var w := RunCalls(calls);
            && InListenCall(w, 0) && w.unsettled == map[] && Registered(w.rows, host, port)
            && w.sys.tasks[0].target == host && w.sys.tasks[0].port == port
  {
    calls := ListenCallBorrows(host, port, tags, note);
    calls := Then(calls, Work(Protocol.ConnectOk(0, 0)));
  }

  /** It does happen: a registered target whose listener is started, by an agent that can stop it again, is
      marked as listening. */
  lemma ListenFlagGetsSet(host: string, port: int, tags: seq<string>, note: string) returns (calls: seq<Call>)
    ensures Listening(RunCalls(calls).rows, host, port) && LastStarted(RunCalls(calls), host, port)
  {
    calls := ListenCallStarts(host, port, tags, note);
    ghost var w := RunCalls(calls);
    ListenTakesEffect(w, 0, Started, CanStop);
    SettlesOne(w.rows, host, port, Started, CanStop, host, port);
    calls := Then(calls, Ack(0, Started));
    calls := Then(calls, Settle(0, CanStop));
  }

  /** An endpoint gets registered only by adding it, and then without a flag. */
  lemma OnlyAddRegisters(w: World, c: Call, host: string, port: int)
    requires !Registered(w.rows, host, port)
    ensures Registered(Effect(w, c).rows, host, port) <==> c.Add? && (c.host, c.port) == (host, port)
    ensures !Listening(Effect(w, c).rows, host, port)
  {
    match c
    case Add(h, p, tags, note) =>
      var row := Row(h, p, tags, note, false);
      AddedOrKept(w.rows, row);
      assert row in w.rows + [row];
    case Settle(id, probe) =>
      if InListenCall(w, id) && id in w.unsettled {
        var t := w.sys.tasks[id];
        SettlesOne(w.rows, t.target, t.port, w.unsettled[id], probe, host, port);
      }
    case _ =>
  }

  // ---------------------------------------------------------------- removal

  /** The steps of the tasks in a run of calls. */
  function Works(calls: seq<Call>): seq<Protocol.Step> {
    if calls == [] then []
    else
      var init, last := calls[..|calls| - 1], calls[|calls| - 1];
      Works(init) + (if Steps(RunCalls(init), last) then [last.step] else [])
  }

  lemma OnlyWorkMovesTasks(w: World, c: Call)
    ensures Effect(w, c).sys ==
            if Steps(w, c) then Protocol.Next(w.sys, c.step) else w.sys
  {
  }

  /** The locks of the world are those the step machine reaches by the steps of the tasks alone. */
  lemma {:induction false} WorksRun(calls: seq<Call>)
    ensures Protocol.Exec(Works(calls)) == Some(RunCalls(calls).sys)
  {
    if calls != [] {
      var init, last := calls[..|calls| - 1], calls[|calls| - 1];
      WorksRun(init);
      OnlyWorkMovesTasks(RunCalls(init), last);
      if Steps(RunCalls(init), last) {
        Protocol.ExecSnoc(Works(init), last.step);
        assert Works(calls) == Works(init) + [last.step];
      } else {
        assert Works(calls) == Works(init);
      }
    }
  }

  /** Over every run: a call makes a registered endpoint disappear iff it is a removal of that endpoint
      at a time when no task is exclusively in flight on its host, no capture key of it is held, and it
      is not marked as listening. */
  lemma OnlySafeRemoval(calls: seq<Call>, c: Call, host: string, port: int)
    requires Registered(RunCalls(calls).rows, host, port)
    ensures var w := RunCalls(calls);
            !Registered(Effect(w, c).rows, host, port) <==>
            && c == Remove(host, port) && !Listening(w.rows, host, port)
            && Protocol.LockAt(w.sys, host).captures == map[]
            && forall i :: i in w.sys.tasks ==> !Exclusively(w.sys.tasks[i], host)
  {
    var w := RunCalls(calls);
    WorksRun(calls);
    MutualExclusion(w.sys, host);
    DisappearsByRemoval(w, c, host, port);
  }

  /** So nothing the keys protect is cut off: unless a release interrupted it, no capture of the host
      is starting or running when its row goes. */
  lemma RemovalLeavesNoCapture(calls: seq<Call>, c: Call, host: string, port: int, key: CapKey)
    requires Registered(RunCalls(calls).rows, host, port) && !Registered(Effect(RunCalls(calls), c).rows, host, port)
    requires Protocol.Exec(Works(calls)).Some? && Uninterrupted(Works(calls), host, key)
    ensures var sys := RunCalls(calls).sys;
            !SomeStarting(sys.tasks, host, key) && !Runs(sys.running, host, key)
  {
    OnlySafeRemoval(calls, c, host, port);
    WorksRun(calls);
    UninterruptedIsGuarded(Works(calls), host, key);
  }

  lemma DisappearsByRemoval(w: World, c: Call, host: string, port: int)
    requires Registered(w.rows, host, port)
    ensures !Registered(Effect(w, c).rows, host, port) <==>
            c == Remove(host, port) && !Listening(w.rows, host, port) && !HasActive(Protocol.LockAt(w.sys, host))
  {
    var row :| row in w.rows && RowAt(row, host, port);
    match c
    case Add(_, _, _, _) => assert row in Effect(w, c).rows;
    case Remove(h, p) =>
      if (h, p) != (host, port) {
        assert row in Effect(w, c).rows;
      }
    case Ack(_, _) =>
    case Settle(id, _) =>
      if InListenCall(w, id) && id in w.unsettled {
        var t := w.sys.tasks[id];
        MarkedKeepsRow(w.rows, row, t.target, t.port, w.unsettled[id] == Started);
      }
    case Work(_) =>
  }

  lemma MarkedKeepsRow(rows: seq<Row>, row: Row, host: string, port: int, alive: bool)
    requires row in rows
    ensures Registered(Marked(rows, host, port, alive), row.host, row.port)
  {
    var i :| 0 <= i < |rows| && rows[i] == row;
    var marked := Marked(rows, host, port, alive)[i];
    assert marked in Marked(rows, host, port, alive) && RowAt(marked, row.host, row.port);
  }

  /** The tool `remove_target`: locks first, then the listen flag, then the row. */
  method RemoveTargetTool(table: Table, locks: LockManager, host: string, port: int) returns (r: RemoveOutcome)
    requires UniqueRows(table.rows) && locks.Valid()
    modifies table
    ensures UniqueRows(table.rows)
    ensures forall w: World :: w.rows == old(table.rows) && Protocol.LockAt(w.sys, host) == old(locks.At(host)) ==>
              Effect(w, Remove(host, port)) == w.(rows := table.rows)
    ensures r == Removed <==> Registered(old(table.rows), host, port) && table.rows != old(table.rows)
    ensures r == HasActiveLock <==> old(HasActive(locks.At(host)))
  {
    var active := locks.CheckActive(host);
    if active {
      return HasActiveLock;
    }
    var listening := table.GetListenLiveness(host, port);
    if listening {
      return HasActiveListener;
    }
    DeletedKeepsUnique(table.rows, host, port);
    r := table.RemoveTarget(host, port);
  }

  /** The start branch of `socket_listen`: the flag is set only after the agent acknowledged and
      the probe found an agent that can stop again. */
  method ListenStartTool(table: Table, host: string, port: int, answered: bool, probe: Probe)
    requires UniqueRows(table.rows)
    modifies table
    ensures UniqueRows(table.rows)
    ensures table.rows == if answered then Settled(old(table.rows), host, port, Started, probe) else old(table.rows)
  {
    if !answered {
      return;
    }
    if probe == CanStop {
      table.SetListenLiveness(host, true, port);
    }
  }

  /** The stop branch: the flag is cleared only after the agent acknowledged. */
  method ListenStopTool(table: Table, host: string, port: int, answered: bool)
    requires UniqueRows(table.rows)
    modifies table
    ensures UniqueRows(table.rows)
    ensures forall probe ::
              table.rows == if answered then Settled(old(table.rows), host, port, Stopped, probe) else old(table.rows)
  {
    if !answered {
      return;
    }
    table.SetListenLiveness(host, false, port);
  }
}
