/** State locks (locks.py): one `TargetLock` per target, arbitrated fail-fast.

    `LockState` is the value of one target's lock.  `Grantable`, `Acquired` and
    `Released` say what a lock operation does to that value; the classes below are
    proved against them, and the protocol of tasks is built from them. */
module Locks {
  import opened Prelude

  datatype LockClass = NONE | CAPTURE | FILE_IO | SHELL | BROWSER | SYSTEM | REPLAY

  /** A capture key is a tuple of strings, in practice `(path,)`. */
  type CapKey = seq<string>

  /** The exception of a refused acquisition: who asked for what, and the keys named in the message. */
  datatype LockConflict = LockConflict(target: string, lockClass: LockClass, keys: set<CapKey>)

  datatype LockState = LockState(captures: map<CapKey, int>, holder: Option<LockClass>, count: int)

  const UNLOCKED := LockState(map[], None, 0)

  predicate Exclusive(cls: LockClass) {
    cls != NONE && cls != CAPTURE
  }

  /** `key or ()`: an absent key is the empty tuple. */
  function KeyOf(key: Option<CapKey>): CapKey {
    match key
    case None => []
    case Some(k) => k
  }

  predicate Grantable(s: LockState, cls: LockClass, key: CapKey) {
    match cls
    case NONE => true
    case CAPTURE => s.holder == None && key !in s.captures
    case _ => s.holder == None && s.captures == map[]
  }

  function Acquired(s: LockState, cls: LockClass, key: CapKey): LockState {
    match cls
    case NONE => s
    case CAPTURE => s.(captures := s.captures[key := 1])
    case _ => s.(holder := Some(cls), count := s.count + 1)
  }

  /** An exclusive release frees by class: nothing records who the holder is. */
  function Released(s: LockState, cls: LockClass, key: CapKey): LockState {
    match cls
    case NONE => s
    case CAPTURE => s.(captures := s.captures - {key})
    case _ =>
      if s.holder != Some(cls) then s
      else if s.count - 1 <= 0 then s.(holder := None, count := s.count - 1)
      else s.(count := s.count - 1)
  }

  /** The keys a refusal names: the one asked for, or those that keep an exclusive class out. */
  function Blamed(s: LockState, cls: LockClass, key: CapKey): set<CapKey> {
    if cls == CAPTURE then {key} else if s.holder != None then {} else s.captures.Keys
  }

  predicate HasActive(s: LockState) {
    s.captures != map[] || s.holder != None
  }

  /** What every sequence of lock operations keeps. */
  predicate WellFormed(s: LockState) {
    && (forall k <- s.captures :: s.captures[k] == 1)
    && (s.holder == None ==> s.count == 0)
    && (s.holder != None ==> s.count == 1 && Exclusive(s.holder.value) && s.captures == map[])
  }

  lemma OperationsKeepWellFormed(s: LockState, cls: LockClass, key: CapKey)
    requires WellFormed(s)
    ensures Grantable(s, cls, key) ==> WellFormed(Acquired(s, cls, key))
    ensures WellFormed(Released(s, cls, key))
  {
  }

  /** A release undoes the acquisition of the same class and key, whatever else is held. */
  lemma ReleaseUndoesAcquire(s: LockState, cls: LockClass, key: CapKey)
    requires WellFormed(s) && Grantable(s, cls, key)
    ensures Released(Acquired(s, cls, key), cls, key) == s
  {
  }

  lemma AbsentKeyIsEmpty(k: CapKey)
    ensures KeyOf(None) == [] && KeyOf(Some(k)) == k
  {
  }

  /** A free lock refuses nothing, whatever the class. */
  lemma FreeLockGrants(cls: LockClass, key: CapKey)
    ensures Grantable(UNLOCKED, cls, key)
  {
  }

  /** A refusal of an exclusive class blames some key unless a holder is there, and a refusal of a capture
      blames its own key. */
  lemma RefusalBlames(s: LockState, cls: LockClass, key: CapKey)
    requires !Grantable(s, cls, key)
    ensures s.holder == None ==> exists k :: k in Blamed(s, cls, key) && k in s.captures
    ensures cls == CAPTURE ==> Blamed(s, cls, key) == {key}
  {
    if cls == CAPTURE {
      assert key in Blamed(s, cls, key);
    } else if s.holder == None {
      var k :| k in s.captures;
      assert k in Blamed(s, cls, key);
    }
  }

  /** A release takes away its own key or its own class and nothing else; one of something not held
      changes nothing. */
  lemma ReleaseTakesItsOwn(s: LockState, cls: LockClass, key: CapKey)
    requires WellFormed(s)
    ensures Released(s, cls, key).captures.Keys == s.captures.Keys - (if cls == CAPTURE then {key} else {})
    ensures Released(s, cls, key).holder == if s.holder == Some(cls) then None else s.holder
    ensures (if cls == CAPTURE then key !in s.captures else s.holder != Some(cls)) ==> Released(s, cls, key) == s
  {
    if cls == CAPTURE && key !in s.captures {
      assert s.captures - {key} == s.captures;
    }
  }

  /** The arbitration matrix: two operations fit on one target iff one is lock-free,
      or both are captures with different keys. */
  predicate Compatible(c1: LockClass, k1: CapKey, c2: LockClass, k2: CapKey) {
    c1 == NONE || c2 == NONE || (c1 == CAPTURE && c2 == CAPTURE && k1 != k2)
  }

  lemma ArbitrationMatrix(s: LockState, c1: LockClass, k1: CapKey, c2: LockClass, k2: CapKey)
    requires Grantable(s, c1, k1)
    ensures Grantable(Acquired(s, c1, k1), c2, k2) <==> Grantable(s, c2, k2) && Compatible(c1, k1, c2, k2)
  {
  }

  /** locks.py `TargetLock`; each method body is one `with self._lock` block. */
  class TargetLock {
    var captures: map<CapKey, int>
    var exclusiveHolder: Option<LockClass>
    var exclusiveCount: int

    ghost function State(): LockState
      reads this
    {
      LockState(captures, exclusiveHolder, exclusiveCount)
    }

    constructor ()
      ensures State() == UNLOCKED
    {
      captures := map[];
      exclusiveHolder := None;
      exclusiveCount := 0;
    }

    method Acquire(cls: LockClass, key: Option<CapKey>) returns (r: Result<bool, LockConflict>)
      modifies this
      ensures r.Ok? <==> old(Grantable(State(), cls, KeyOf(key)))
      ensures r.Ok? ==> State() == Acquired(old(State()), cls, KeyOf(key))
      ensures r.Err? ==> State() == old(State())
      ensures r.Err? ==> r.error == LockConflict("?", cls, Blamed(old(State()), cls, KeyOf(key)))
    {
      if cls == NONE {
        return Ok(true);
      }
      if cls == CAPTURE {
        r := AcquireCapture(key);
      } else {
        r := AcquireExclusive(cls);
      }
    }

    method Release(cls: LockClass, key: Option<CapKey>)
      modifies this
      ensures State() == Released(old(State()), cls, KeyOf(key))
    {
      if cls == NONE {
        return;
      }
      if cls == CAPTURE {
        ReleaseCapture(key);
      } else {
        ReleaseExclusive(cls);
      }
    }

    method AcquireCapture(key: Option<CapKey>) returns (r: Result<bool, LockConflict>)
      modifies this
      ensures r.Ok? <==> old(Grantable(State(), CAPTURE, KeyOf(key)))
      ensures r.Ok? ==> State() == Acquired(old(State()), CAPTURE, KeyOf(key))
      ensures r.Err? ==> State() == old(State())
      ensures r.Err? ==> r.error == LockConflict("?", CAPTURE, {KeyOf(key)})
    {
      var capKey := KeyOf(key);
      if exclusiveHolder != None {
        return Err(LockConflict("?", CAPTURE, {capKey}));
      }
      if capKey in captures {
        return Err(LockConflict("?", CAPTURE, {capKey}));
      }
      captures := captures[capKey := 1];
      return Ok(true);
    }

    method ReleaseCapture(key: Option<CapKey>)
      modifies this
      ensures State() == Released(old(State()), CAPTURE, KeyOf(key))
    {
      captures := captures - {KeyOf(key)};
    }

    method AcquireExclusive(cls: LockClass) returns (r: Result<bool, LockConflict>)
      requires Exclusive(cls)
      modifies this
      ensures r.Ok? <==> old(Grantable(State(), cls, []))
      ensures r.Ok? ==> State() == Acquired(old(State()), cls, [])
      ensures r.Err? ==> State() == old(State())
      ensures r.Err? ==> r.error == LockConflict("?", cls, if exclusiveHolder != None then {} else captures.Keys)
    {
      if exclusiveHolder != None {
        return Err(LockConflict("?", cls, {}));
      }
      if captures != map[] {
        return Err(LockConflict("?", cls, captures.Keys));
      }
      exclusiveHolder := Some(cls);
      exclusiveCount := exclusiveCount + 1;
      return Ok(true);
    }

    method ReleaseExclusive(cls: LockClass)
      requires Exclusive(cls)
      modifies this
      ensures State() == Released(old(State()), cls, [])
    {
      if exclusiveHolder == Some(cls) {
        exclusiveCount := exclusiveCount - 1;
        if exclusiveCount <= 0 {
          exclusiveHolder := None;
        }
      }
    }

    method CheckActive() returns (active: bool)
      ensures active <==> HasActive(State())
    {
      active := captures != map[] || exclusiveHolder != None;
    }
  }

  /** locks.py `LockManager`: a map of target locks filled on demand. */
  class LockManager {
    var locks: map<string, TargetLock>

    /** No two targets share a lock object. */
    ghost predicate Valid()
      reads this, locks.Values
    {
      && (forall s, t :: s in locks && t in locks && s != t ==> locks[s] != locks[t])
      && (forall t :: t in locks ==> WellFormed(locks[t].State()))
    }

    /** The lock value of any target; one never touched is unlocked. */
    ghost function At(target: string): LockState
      reads this, locks.Values
    {
      if target in locks then locks[target].State() else UNLOCKED
    }

    constructor ()
      ensures Valid()
      ensures forall t :: At(t) == UNLOCKED
    {
      locks := map[];
    }

    method GetTargetLock(target: string) returns (tl: TargetLock)
      requires Valid()
      modifies this
      ensures Valid() && target in locks && locks[target] == tl
      ensures forall t :: t in old(locks) ==> t in locks && locks[t] == old(locks[t])
      ensures tl in old(locks.Values) || fresh(tl)
      ensures locks.Values <= old(locks.Values) + {tl}
      ensures forall t :: At(t) == old(At(t))
    {
      if target in locks {
        return locks[target];
      }
      tl := new TargetLock();
      locks := locks[target := tl];
    }

    /** A conflict names the real target, not the placeholder of the inner lock. */
    method Acquire(target: string, cls: LockClass, key: Option<CapKey>) returns (r: Result<(), LockConflict>)
      requires Valid()
      modifies this, locks.Values
      ensures Valid()
      ensures fresh(locks.Values - old(locks.Values))
      ensures r.Ok? <==> old(Grantable(At(target), cls, KeyOf(key)))
      ensures At(target) == if r.Ok? then Acquired(old(At(target)), cls, KeyOf(key)) else old(At(target))
      ensures forall t :: t != target ==> At(t) == old(At(t))
      ensures r.Err? ==> r.error == LockConflict(target, cls, Blamed(old(At(target)), cls, KeyOf(key)))
    {
      if cls == NONE {
        return Ok(());
      }
      var tl := GetTargetLock(target);
      OperationsKeepWellFormed(tl.State(), cls, KeyOf(key));
      var got := tl.Acquire(cls, key);
      match got
      case Ok(_) => r := Ok(());
      case Err(e) => r := Err(e.(target := target));
    }

    method Release(target: string, cls: LockClass, key: Option<CapKey>)
      requires Valid()
      modifies locks.Values
      ensures Valid()
      ensures At(target) == Released(old(At(target)), cls, KeyOf(key))
      ensures forall t :: t != target ==> At(t) == old(At(t))
    {
      if cls == NONE {
        return;
      }
      if target !in locks {
        return;
      }
      var tl := locks[target];
      OperationsKeepWellFormed(tl.State(), cls, KeyOf(key));
      tl.Release(cls, key);
    }

    method CheckActive(target: string) returns (active: bool)
      requires Valid()
      ensures active <==> HasActive(At(target))
    {
      if target !in locks {
        return false;
      }
      active := locks[target].CheckActive();
    }
  }
}
