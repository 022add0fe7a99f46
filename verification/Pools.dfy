/** Connection pools (pool.py): one `TargetPool` per endpoint, and the scheduler's map of pools.

    `PoolState` is the value a pool's condition variable guards.  Each function on it is one
    `with self._cond` block; the classes below are proved against these functions, and the protocol of
    tasks is built from them.  Time is a `real` read from the clock by the caller. */
module Pools {
  import opened Prelude

  const MAX_CONN_PER_TARGET := 5
  const IDLE_TIMEOUT := 600.0

  /** An idle connection and the time it was returned. */
  datatype PooledConn<C> = PooledConn(client: C, lastUsed: real)

  /** `idle` is a stack: the last element is the next one to be reused. */
  datatype PoolState<C> = PoolState(idle: seq<PooledConn<C>>, inuse: int)

  /** What the expiry loop finds: the connection to reuse, what stays idle, and what has expired. */
  datatype Popped<C> = Popped(reuse: Option<C>, rest: seq<PooledConn<C>>, expired: seq<C>)

  predicate Stale<C>(conn: PooledConn<C>, now: real) {
    now - conn.lastUsed > IDLE_TIMEOUT
  }

  function PopFresh<C>(idle: seq<PooledConn<C>>, now: real): (p: Popped<C>)
    ensures |p.rest| + |p.expired| + (if p.reuse.Some? then 1 else 0) == |idle|
    ensures p.rest <= idle
    ensures p.reuse == None ==> p.rest == []
  {
    if idle == [] then Popped(None, [], [])
    else
      var n := |idle| - 1;
      if Stale(idle[n], now) then
        var p := PopFresh(idle[..n], now);
        p.(expired := [idle[n].client] + p.expired)
      else Popped(Some(idle[n].client), idle[..n], [])
  }

  predicate Full<C>(p: PoolState<C>) {
    p.inuse >= MAX_CONN_PER_TARGET
  }

  /** A slot is taken and the idle stack is searched, under the lock. */
  function Granted<C>(p: PoolState<C>, now: real): PoolState<C> {
    PoolState(PopFresh(p.idle, now).rest, p.inuse + 1)
  }

  function Clamp(n: int): int {
    if n < 0 then 0 else n
  }

  /** The slot of a failed connect goes back. */
  function ConnectFailed<C>(p: PoolState<C>): PoolState<C> {
    p.(inuse := Clamp(p.inuse - 1))
  }

  function Returned<C>(p: PoolState<C>, client: C, healthy: bool, now: real): PoolState<C> {
    PoolState(if healthy then p.idle + [PooledConn(client, now)] else p.idle, Clamp(p.inuse - 1))
  }

  function Drained<C>(p: PoolState<C>): PoolState<C> {
    p.(idle := [])
  }

  predicate Sorted<C>(idle: seq<PooledConn<C>>) {
    forall i, j :: 0 <= i < j < |idle| ==> idle[i].lastUsed <= idle[j].lastUsed
  }

  function Clients<C>(idle: seq<PooledConn<C>>): (s: seq<C>)
    ensures |s| == |idle|
    ensures forall i :: 0 <= i < |idle| ==> s[i] == idle[i].client
  {
    seq(|idle|, i requires 0 <= i < |idle| => idle[i].client)
  }

  function Reverse<T>(s: seq<T>): (r: seq<T>)
    ensures |r| == |s|
  {
    if s == [] then [] else [s[|s| - 1]] + Reverse(s[..|s| - 1])
  }

  lemma ClientsLast<C>(idle: seq<PooledConn<C>>)
    requires idle != []
    ensures Clients(idle) == Clients(idle[..|idle| - 1]) + [idle[|idle| - 1].client]
  {
  }

  /** Nothing is lost or invented by the search: the stack is split into what stays,
      the reused connection and the expired ones, in order. */
  lemma {:induction false} PopSplitsStack<C>(idle: seq<PooledConn<C>>, now: real)
    ensures var p := PopFresh(idle, now);
            Clients(idle) == Clients(p.rest) + (if p.reuse.Some? then [p.reuse.value] else []) + Reverse(p.expired)
  {
    if idle != [] {
      var init, c := idle[..|idle| - 1], idle[|idle| - 1].client;
      ClientsLast(idle);
      if Stale(idle[|idle| - 1], now) {
        PopSplitsStack(init, now);
        var p := PopFresh(init, now);
        ReverseCons(c, p.expired);
        AppendAssoc(Clients(p.rest) + (if p.reuse.Some? then [p.reuse.value] else []), Reverse(p.expired), [c]);
      } else {
        assert Reverse<C>([]) == [];
      }
    }
  }

  lemma {:induction false} ReverseCons<T>(x: T, s: seq<T>)
    ensures Reverse([x] + s) == Reverse(s) + [x]
  {
    if s != [] {
      var n := |s|;
      assert ([x] + s)[..n] == [x] + s[..n - 1];
      ReverseCons(x, s[..n - 1]);
      assert Reverse([x] + s) == [s[n - 1]] + Reverse([x] + s[..n - 1]);
    }
  }

  /** The reused connection has been idle for at most IDLE_TIMEOUT, and everything above it is stale. */
  lemma {:induction false} ReuseIsFresh<C>(idle: seq<PooledConn<C>>, now: real)
    ensures var p := PopFresh(idle, now);
            && (p.reuse.Some? ==>
                  var k := |p.rest|;
                  k < |idle| && idle[k].client == p.reuse.value && !Stale(idle[k], now))
            && (forall i :: |idle| - |p.expired| <= i < |idle| ==> Stale(idle[i], now))
  {
    if idle != [] && Stale(idle[|idle| - 1], now) {
      ReuseIsFresh(idle[..|idle| - 1], now);
    }
  }

  /** On a stack sorted by time the loop is all or nothing: either the newest connection is reused
      and none expires, or every connection is stale and the stack is drained. */
  lemma {:induction false} SortedPopIsAllOrNothing<C>(idle: seq<PooledConn<C>>, now: real)
    requires Sorted(idle)
    ensures var p := PopFresh(idle, now);
            if idle != [] && !Stale(idle[|idle| - 1], now)
            then p == Popped(Some(idle[|idle| - 1].client), idle[..|idle| - 1], [])
            else p.reuse == None && p.rest == [] && |p.expired| == |idle|
  {
    if idle != [] && Stale(idle[|idle| - 1], now) {
      var init := idle[..|idle| - 1];
      SortedPopIsAllOrNothing(init, now);
      if init != [] {
        assert idle[|init| - 1].lastUsed <= idle[|idle| - 1].lastUsed;
      }
    }
  }

  // ---------------------------------------------------------------- keys

  function Digit(n: nat): char
    requires n < 10
  {
    "0123456789"[n]
  }

  function ShowNat(n: nat): (s: string)
    ensures s != [] && ':' !in s && '-' !in s
  {
    if n < 10 then [Digit(n)] else ShowNat(n / 10) + [Digit(n % 10)]
  }

  function ShowInt(n: int): (s: string)
    ensures ':' !in s
  {
    if n < 0 then "-" + ShowNat(-n) else ShowNat(n)
  }

  /** `f"{host}:{port}"`. */
  function PoolKey(host: string, port: int): string {
    host + ":" + ShowInt(port)
  }

  /** The endpoint a key was made from: the text before the last colon, and the number after it. */
  function EndpointOf(key: string): (string, int) {
    var (host, port) := SplitLastColon(key);
    (host, ParseInt(port))
  }

  function SplitLastColon(s: string): (string, string) {
    if s == [] then ([], [])
    else if s[|s| - 1] == ':' then (s[..|s| - 1], [])
    else
      var (before, after) := SplitLastColon(s[..|s| - 1]);
      (before, after + [s[|s| - 1]])
  }

  function ParseNat(s: string): nat {
    if s == [] then 0 else 10 * ParseNat(s[..|s| - 1]) + DigitValue(s[|s| - 1])
  }

  function ParseInt(s: string): int {
    if s != [] && s[0] == '-' then -1 * ParseNat(s[1..]) else ParseNat(s)
  }

  function DigitValue(c: char): nat {
    if '0' <= c <= '9' then c as int - '0' as int else 0
  }

  lemma {:induction false} ParseShownNat(n: nat)
    ensures ParseNat(ShowNat(n)) == n
  {
    var s := ShowNat(n);
    assert DigitValue(Digit(n % 10)) == n % 10;
    if n < 10 {
      assert s[..0] == [];
    } else {
      assert s[..|s| - 1] == ShowNat(n / 10);
      ParseShownNat(n / 10);
    }
  }

  lemma {:induction false} SplitAfterColon(host: string, port: string)
    requires ':' !in port
    ensures SplitLastColon(host + ":" + port) == (host, port)
  {
    var s := host + ":" + port;
    if port == [] {
      assert s[..|s| - 1] == host;
    } else {
      var init := port[..|port| - 1];
      assert s[..|s| - 1] == host + ":" + init;
      SplitAfterColon(host, init);
      assert port == init + [port[|port| - 1]];
    }
  }

  /** Keys are injective: every endpoint is recovered from its key, whatever colons the host holds. */
  lemma PoolKeyRoundTrip(host: string, port: int)
    ensures EndpointOf(PoolKey(host, port)) == (host, port)
  {
    SplitAfterColon(host, ShowInt(port));
    ParseShownNat(if port < 0 then -port else port);
    if port < 0 {
      assert ShowInt(port)[1..] == ShowNat(-port);
    } else {
      assert ShowInt(port)[0] != '-';
    }
  }

  // ---------------------------------------------------------------- classes

  /** What a pool sees of a client (socket_client.py): the endpoint, the socket timeout
      and whether a socket is held. */
  class SocketServerClient {
    const host: string
    const port: int
    var timeout: int
    var connected: bool

    constructor (host: string, port: int, timeout: int)
      ensures this.host == host && this.port == port && this.timeout == timeout && !connected
    {
      this.host := host;
      this.port := port;
      this.timeout := timeout;
      connected := false;
    }

    /** `reachable` is the answer of the network. */
    method Connect(reachable: bool) returns (ok: bool)
      modifies this`connected
      ensures ok == (old(connected) || reachable)
      ensures connected == ok
    {
      if connected {
        return true;
      }
      connected := reachable;
      return reachable;
    }

    method Close()
      modifies this`connected
      ensures !connected
    {
      connected := false;
    }
  }

  datatype AcquireError = PoolFull | Unreachable

  class TargetPool {
    const host: string
    const port: int
    var idle: seq<PooledConn<SocketServerClient>>
    var inuse: int

    /** The counter never leaves its range. */
    ghost predicate Valid()
      reads this
    {
      0 <= inuse <= MAX_CONN_PER_TARGET
    }

    ghost function State(): PoolState<SocketServerClient>
      reads this
    {
      PoolState(idle, inuse)
    }

    ghost function IdleClients(): set<SocketServerClient>
      reads this
    {
      set conn <- idle :: conn.client
    }

    constructor (host: string, port: int)
      ensures Valid() && State() == PoolState([], 0)
      ensures this.host == host && this.port == port
    {
      this.host := host;
      this.port := port;
      idle := [];
      inuse := 0;
    }

    /** The expiry loop of `acquire`, under the lock. */
    method Grant(now: real) returns (reuse: Option<SocketServerClient>, expired: seq<SocketServerClient>)
      requires Valid() && !Full(State())
      modifies this
      ensures Valid()
      ensures State() == Granted(old(State()), now)
      ensures PopFresh(old(idle), now) == Popped(reuse, idle, expired)
    {
      reuse, expired := None, [];
      while idle != []
        invariant inuse == old(inuse)
        invariant reuse == None
        invariant var p := PopFresh(idle, now);
                  PopFresh(old(idle), now) == p.(expired := expired + p.expired)
        decreases |idle|
      {
        var n := |idle| - 1;
        var pc := idle[n];
        idle := idle[..n];
        if now - pc.lastUsed > IDLE_TIMEOUT {
          expired := expired + [pc.client];
          continue;
        }
        reuse := Some(pc.client);
        break;
      }
      inuse := inuse + 1;
    }

    /** One whole `acquire` with no other thread at work: the wait for a slot can then only time out. */
    method Acquire(now: real, socketTimeout: int, reachable: bool)
      returns (r: Result<SocketServerClient, AcquireError>)
      requires Valid()
      modifies this, IdleClients()
      ensures Valid()
      ensures var before := old(State());
              if Full(before) then r == Err(PoolFull) && State() == before
              else
                var p := PopFresh(before.idle, now);
                && (forall c <- p.expired :: !c.connected)
                && (p.reuse.Some? ==> r == Ok(p.reuse.value) && State() == Granted(before, now))
                && (p.reuse == None && !reachable ==> r == Err(Unreachable) && State() == ConnectFailed(Granted(before, now)))
                && (p.reuse == None && reachable ==>
                      && r.Ok? && fresh(r.value) && r.value.connected && State() == Granted(before, now)
                      && r.value.host == host && r.value.port == port)
      ensures r.Ok? ==> r.value.timeout == socketTimeout
      ensures forall c <- old(IdleClients()) ::
                && (Full(old(State())) || c !in PopFresh(old(idle), now).expired ==> c.connected == old(c.connected))
                && (r == Ok(c) || c.timeout == old(c.timeout))
    {
      if inuse >= MAX_CONN_PER_TARGET {
        return Err(PoolFull);
      }
      ghost var lendable := IdleClients();
      var reuse, expired := Grant(now);
      forall c | c in expired
        ensures c in lendable
      {
        ExpiredWereIdle(old(idle), now, c);
      }
      CloseEach(expired);
      if reuse.Some? {
        ReusedWasIdle(old(idle), now);
        reuse.value.timeout := socketTimeout;
        return Ok(reuse.value);
      }
      var client := new SocketServerClient(host, port, socketTimeout);
      var connected := client.Connect(reachable);
      if !connected {
        inuse := Clamp(inuse - 1);
        return Err(Unreachable);
      }
      return Ok(client);
    }

    static method CloseEach(clients: seq<SocketServerClient>)
      modifies (set c <- clients)`connected
      ensures forall c <- clients :: !c.connected
    {
      for i := 0 to |clients|
        invariant forall k :: 0 <= k < i ==> !clients[k].connected
        modifies (set c <- clients)`connected
      {
        clients[i].Close();
      }
    }

    method Release(client: SocketServerClient, healthy: bool, now: real)
      requires Valid()
      modifies this, client`connected
      ensures Valid()
      ensures State() == Returned(old(State()), client, healthy, now)
      ensures client.connected == (healthy && old(client.connected))
    {
      inuse := Clamp(inuse - 1);
      if healthy {
        idle := idle + [PooledConn(client, now)];
      }
      if !healthy {
        client.Close();
      }
    }

    method CloseAll()
      requires Valid()
      modifies this, IdleClients()
      ensures Valid()
      ensures State() == Drained(old(State())) && idle == [] && inuse == old(inuse)
      ensures forall c <- old(IdleClients()) :: !c.connected && c.timeout == old(c.timeout)
    {
      var conns := idle;
      idle := [];
      CloseEach(Clients(conns));
    }
  }

  lemma {:induction false} ExpiredWereIdle<C>(idle: seq<PooledConn<C>>, now: real, c: C)
    requires c in PopFresh(idle, now).expired
    ensures exists conn <- idle :: conn.client == c
  {
    var n := |idle| - 1;
    if c != idle[n].client {
      ExpiredWereIdle(idle[..n], now, c);
    }
  }

  lemma {:induction false} ReusedWasIdle<C>(idle: seq<PooledConn<C>>, now: real)
    requires PopFresh(idle, now).reuse.Some?
    ensures exists conn <- idle :: conn.client == PopFresh(idle, now).reuse.value
  {
    ReuseIsFresh(idle, now);
  }

  /** pool.py `Scheduler`, the map of pools filled on demand. */
  class Scheduler {
    var pools: map<string, TargetPool>

    /** Every pool is filed under its own endpoint. */
    ghost predicate Valid()
      reads this, pools.Values
    {
      forall k :: k in pools ==> k == PoolKey(pools[k].host, pools[k].port) && pools[k].Valid()
    }

    constructor ()
      ensures Valid() && pools == map[]
    {
      pools := map[];
    }

    /** A key names one pool for ever, and that pool connects to the endpoint asked for. */
    method GetPool(host: string, port: int) returns (p: TargetPool)
      requires Valid()
      modifies this
      ensures Valid()
      ensures p.host == host && p.port == port
      ensures PoolKey(host, port) in pools && pools[PoolKey(host, port)] == p
      ensures pools == old(pools)[PoolKey(host, port) := p]
      ensures PoolKey(host, port) in old(pools) ==> p == old(pools)[PoolKey(host, port)]
      ensures PoolKey(host, port) !in old(pools) ==> fresh(p) && p.State() == PoolState([], 0)
    {
      var key := PoolKey(host, port);
      if key in pools {
        p := pools[key];
        PoolKeyRoundTrip(host, port);
        PoolKeyRoundTrip(p.host, p.port);
        return;
      }
      p := new TargetPool(host, port);
      pools := pools[key := p];
    }
  }
}
