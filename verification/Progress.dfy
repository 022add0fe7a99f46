/** What is left when tasks finish, and that they always can. */
module Progress {
  import opened Prelude
  import opened Locks
  import opened Pools
  import opened Protocol
  import opened Exclusion
  import opened Slots
  import opened Captures

  ghost predicate AllDone(s: Sys) {
    forall i :: i in s.tasks ==> s.tasks[i].pc.Done?
  }

  /** Quiescence: once every task has ended, by whatever path, no exclusive lock is held anywhere and
      no pool counts a borrower; a capture key that remains belongs to a start that succeeded. */
  lemma Quiescence(s: Sys, target: string, poolKey: string)
    requires Reachable(s) && AllDone(s)
    ensures LockAt(s, target).holder == None && LockAt(s, target).count == 0
    ensures PoolAt(s, poolKey).inuse == 0
    ensures forall key :: key in LockAt(s, target).captures ==>
              exists i :: i in s.tasks && LastTaken(s.log, target, key) == Some(i)
                          && StartOf(s.tasks[i], target, key) && s.tasks[i].pc == Done(true)
  {
    MutualExclusion(s, target);
    PoolBound(s, poolKey);
    assert Holders(s.tasks, poolKey) == {};
    forall key | key in LockAt(s, target).captures
      ensures exists i :: i in s.tasks && LastTaken(s.log, target, key) == Some(i)
                          && StartOf(s.tasks[i], target, key) && s.tasks[i].pc == Done(true)
    {
      KeysHaveTrueOrigin(s, target, key);
    }
  }

  /** With no capture ever started, every lock is free at quiescence. */
  lemma QuiescenceWithoutCaptures(s: Sys, target: string)
    requires Reachable(s) && AllDone(s)
    requires forall i :: i in s.tasks ==> !(s.tasks[i].kind.Batch? && s.tasks[i].kind.cls == CAPTURE)
    ensures !HasActive(LockAt(s, target))
  {
    Quiescence(s, target, "");
    if key :| key in LockAt(s, target).captures {
      KeysHaveTrueOrigin(s, target, key);
    }
  }

  // ---------------------------------------------------------------- termination

  /** How many steps a task can still take. */
  function Rank(pc: Pc): nat {
    match pc
    case Start => 6
    case Borrowing => 5
    case Connecting => 4
    case Using(_) => 3
    case Returning(_, _, _) => 2
    case Unlocking(_) => 1
    case Done(_) => 0
  }

  predicate TaskStep(step: Step) {
    !step.Spawn? && !step.Act? && !step.Lapse? && !step.Tick? && !step.CloseAll?
  }

  /** A step of a task moves no other task... */
  lemma OwnStepMovesOne(s: Sys, step: Step)
    requires Enabled(s, step) && TaskStep(step)
    ensures step.id in s.tasks && Next(s, step).tasks == s.tasks[step.id := Next(s, step).tasks[step.id]]
  {
  }

  /** ...and brings its own nearer to the end. */
  lemma OwnStepLowersRank(s: Sys, step: Step)
    requires Enabled(s, step) && TaskStep(step)
    ensures step.id in s.tasks && Rank(Next(s, step).tasks[step.id].pc) < Rank(s.tasks[step.id].pc)
  {
  }

  /** The step an unfinished task can take now; a full pool lets the borrow time out. */
  function Advance(s: Sys, id: TaskId): Step
    requires id in s.tasks && !s.tasks[id].pc.Done?
  {
    match s.tasks[id].pc
    case Start => TryLock(id)
    case Borrowing => if Full(PoolAt(s, s.tasks[id].PoolKey())) then BorrowTimeout(id) else Grant(id)
    case Connecting => ConnectFail(id)
    case Using(_) => FnEnd(id, Raised)
    case Returning(_, _, _) => Return(id)
    case Unlocking(_) => Unlock(id)
  }

  /** No deadlock: in every state, reachable or not, every unfinished task has an enabled step. */
  lemma NeverStuck(s: Sys, id: TaskId)
    requires id in s.tasks && !s.tasks[id].pc.Done?
    ensures Enabled(s, Advance(s, id)) && TaskStep(Advance(s, id)) && Advance(s, id).id == id
  {
  }

  /** Nothing outside the tasks is held up: new calls come in at any time, time passes, pools are closed and
      captures end; a connect succeeds or fails, the agent acts on a request it has not acted on, and a call
      ends as it likes, with success once the agent has acted. */
  lemma AnythingMayHappen(s: Sys, id: TaskId, target: string, port: int, kind: Kind, key: CapKey, delta: real)
    ensures id !in s.tasks ==> Enabled(s, Spawn(id, target, port, kind))
    ensures delta >= 0.0 ==> Enabled(s, Tick(delta)) && Next(s, Tick(delta)).clock == s.clock + delta
    ensures Enabled(s, Lapse(target, port, key)) && (target, port, key) !in Next(s, Lapse(target, port, key)).running
    ensures Enabled(s, CloseAll(PoolKey(target, port))) && PoolAt(Next(s, CloseAll(PoolKey(target, port))), PoolKey(target, port)).idle == []
    ensures id in s.tasks && s.tasks[id].pc.Connecting? ==>
              Enabled(s, ConnectFail(id)) && forall c :: c !in s.home ==> Enabled(s, ConnectOk(id, c))
    ensures id in s.tasks && (s.tasks[id].pc.Using? || s.tasks[id].called) && !s.tasks[id].acted ==> Enabled(s, Act(id))
    ensures id in s.tasks && s.tasks[id].pc.Using? ==>
              forall ending :: ending != ReturnedValue || s.tasks[id].acted ==> Enabled(s, FnEnd(id, ending))
  {
  }

  /** A task ends with the flag of its call, whatever it is. */
  lemma EndsAsAnswered(s: Sys, id: TaskId, ending: FnEnding)
    requires Enabled(s, FnEnd(id, ending))
    ensures var s1 := Next(s, FnEnd(id, ending));
            && Enabled(s1, Return(id))
            && var s2 := Next(s1, Return(id));
               var ok := FnOk(s.tasks[id].kind, ending);
               if s.tasks[id].kind.Read? then s2.tasks[id].pc == Done(ok)
               else Enabled(s2, Unlock(id)) && Next(s2, Unlock(id)).tasks[id].pc == Done(ok)
  {
    var s1 := Next(s, FnEnd(id, ending));
    assert s1.tasks[id].pc.ok == FnOk(s.tasks[id].kind, ending);
    var s2 := AfterReturn(s1, id);
    assert !s.tasks[id].kind.Read? ==> s2.tasks[id].pc == Unlocking(s1.tasks[id].pc.ok);
  }

  ghost function Unfinished(s: Sys): set<TaskId> {
    set i <- s.tasks | !s.tasks[i].pc.Done?
  }

  /** One task can run to its end while all others stand still. */
  lemma {:induction false} FinishOne(steps: seq<Step>, s: Sys, id: TaskId) returns (steps': seq<Step>, s': Sys)
    requires Exec(steps) == Some(s) && id in s.tasks
    ensures Exec(steps') == Some(s') && steps <= steps'
    ensures s'.tasks.Keys == s.tasks.Keys && s'.tasks[id].pc.Done?
    ensures forall i :: i in s.tasks && i != id ==> s'.tasks[i] == s.tasks[i]
    decreases Rank(s.tasks[id].pc)
  {
    if s.tasks[id].pc.Done? {
      return steps, s;
    }
    var step := Advance(s, id);
    NeverStuck(s, id);
    OwnStepMovesOne(s, step);
    OwnStepLowersRank(s, step);
    ExecSnoc(steps, step);
    steps', s' := FinishOne(steps + [step], Next(s, step), id);
  }

  /** From every reachable state the system can be driven to quiescence. */
  lemma {:induction false} CanAlwaysFinish(steps: seq<Step>, s: Sys) returns (steps': seq<Step>, s': Sys)
    requires Exec(steps) == Some(s)
    ensures Exec(steps') == Some(s') && steps <= steps'
    ensures AllDone(s') && s'.tasks.Keys == s.tasks.Keys
    decreases |Unfinished(s)|
  {
    if i :| i in Unfinished(s) {
      var mid, m := FinishOne(steps, s, i);
      assert Unfinished(m) == Unfinished(s) - {i};
      steps', s' := CanAlwaysFinish(mid, m);
    } else {
      assert forall i :: i in s.tasks ==> i in Unfinished(s) || s.tasks[i].pc.Done?;
      steps', s' := steps, s;
    }
  }

  /** The number of steps of a list that belong to a task. */
  function StepsOf(steps: seq<Step>, id: TaskId): nat {
    if steps == [] then 0
    else StepsOf(steps[..|steps| - 1], id)
         + (if TaskStep(steps[|steps| - 1]) && steps[|steps| - 1].id == id then 1 else 0)
  }

  /** In every run a task takes at most six steps: what it has taken and its rank make up six. */
  lemma {:induction false} AtMostSixSteps(steps: seq<Step>, id: TaskId)
    requires Exec(steps).Some?
    ensures id in Exec(steps).value.tasks ==> StepsOf(steps, id) + Rank(Exec(steps).value.tasks[id].pc) <= 6
    ensures id !in Exec(steps).value.tasks ==> StepsOf(steps, id) == 0
  {
    if steps != [] {
      var init, last := steps[..|steps| - 1], steps[|steps| - 1];
      AtMostSixSteps(init, id);
      if TaskStep(last) {
        OwnStepMovesOne(Exec(init).value, last);
        OwnStepLowersRank(Exec(init).value, last);
      }
    }
  }
}
