/** The target registry (registry.py): rows unique on (host, port), and the resolution of target lists.

    Rows are kept in insertion order, which is the order a table scan returns them in.  `digit` stands
    for the per-character test of `str.isdigit`; every result holds for any such test. */
module Registry {
  import opened Prelude

  datatype Row = Row(host: string, port: int, tags: seq<string>, note: string, listening: bool)

  predicate RowAt(row: Row, host: string, port: int) {
    row.host == host && row.port == port
  }

  predicate Registered(rows: seq<Row>, host: string, port: int) {
    exists row <- rows :: RowAt(row, host, port)
  }

  predicate UniqueRows(rows: seq<Row>) {
    forall i, j :: 0 <= i < j < |rows| ==> !RowAt(rows[j], rows[i].host, rows[i].port)
  }

  /** INSERT OR IGNORE. */
  function Inserted(rows: seq<Row>, row: Row): seq<Row> {
    if Registered(rows, row.host, row.port) then rows else rows + [row]
  }

  /** DELETE ... WHERE host=? AND port=?. */
  function Deleted(rows: seq<Row>, host: string, port: int): (r: seq<Row>)
    ensures forall row :: row in r <==> row in rows && !RowAt(row, host, port)
  {
    if rows == [] then []
    else if RowAt(rows[0], host, port) then Deleted(rows[1..], host, port)
    else [rows[0]] + Deleted(rows[1..], host, port)
  }

  /** UPDATE ... SET listen_liveness=?: an unregistered endpoint is left unregistered. */
  function Marked(rows: seq<Row>, host: string, port: int, alive: bool): (r: seq<Row>)
    ensures |r| == |rows|
    ensures forall i :: 0 <= i < |rows| ==>
              r[i] == if RowAt(rows[i], host, port) then rows[i].(listening := alive) else rows[i]
  {
    seq(|rows|, i requires 0 <= i < |rows| =>
      if RowAt(rows[i], host, port) then rows[i].(listening := alive) else rows[i])
  }

  lemma InsertedKeepsUnique(rows: seq<Row>, row: Row)
    requires UniqueRows(rows)
    ensures UniqueRows(Inserted(rows, row))
    ensures Registered(Inserted(rows, row), row.host, row.port)
  {
    if !Registered(rows, row.host, row.port) {
      assert row in rows + [row] && RowAt(row, row.host, row.port);
      forall i | 0 <= i < |rows|
        ensures !RowAt(row, rows[i].host, rows[i].port)
      {
        assert !RowAt(rows[i], row.host, row.port);
      }
    }
  }

  /** A new endpoint gets a row with what it was added with, after all others; a registered one keeps the
      row it has, tags and flag included. */
  lemma AddedOrKept(rows: seq<Row>, row: Row)
    ensures rows <= Inserted(rows, row)
    ensures Registered(rows, row.host, row.port) ==> Inserted(rows, row) == rows
    ensures !Registered(rows, row.host, row.port) ==> |Inserted(rows, row)| == |rows| + 1 && Inserted(rows, row)[|rows|] == row
  {
  }

  /** A deletion leaves the other rows in their order. */
  lemma {:induction false} DeletedKeepsOrder(a: seq<Row>, b: seq<Row>, host: string, port: int)
    ensures Deleted(a + b, host, port) == Deleted(a, host, port) + Deleted(b, host, port)
    decreases |a|
  {
    if a == [] {
      assert a + b == b;
    } else {
      assert (a + b)[1..] == a[1..] + b;
      DeletedKeepsOrder(a[1..], b, host, port);
    }
  }

  lemma HeadIsOnlyRow(rows: seq<Row>)
    requires UniqueRows(rows) && rows != []
    ensures !Registered(rows[1..], rows[0].host, rows[0].port)
  {
  }

  lemma OneRowEach(rows: seq<Row>, i: nat, k: nat, host: string, port: int)
    requires UniqueRows(rows) && i < |rows| && k < |rows|
    requires RowAt(rows[i], host, port) && RowAt(rows[k], host, port)
    ensures i == k
  {
  }

  lemma {:induction false} DeletedKeepsUnique(rows: seq<Row>, host: string, port: int)
    requires UniqueRows(rows)
    ensures UniqueRows(Deleted(rows, host, port))
    ensures |Deleted(rows, host, port)| == |rows| - (if Registered(rows, host, port) then 1 else 0)
  {
    if rows != [] {
      var rest := rows[1..];
      DeletedKeepsUnique(rest, host, port);
      assert Registered(rows, host, port) <==> RowAt(rows[0], host, port) || Registered(rest, host, port);
      var kept := Deleted(rest, host, port);
      forall j | 0 <= j < |kept|
        ensures !RowAt(kept[j], rows[0].host, rows[0].port)
      {
        assert kept[j] in rest;
        var k :| 0 <= k < |rest| && rest[k] == kept[j];
        assert !RowAt(rows[k + 1], rows[0].host, rows[0].port);
      }
      HeadIsOnlyRow(rows);
    }
  }

  // ---------------------------------------------------------------- resolution

  /** One occurrence of `host` for each occurrence of `tag`. */
  function OnRow(host: string, tags: seq<string>, tag: string): seq<string> {
    if tags == [] then []
    else OnRow(host, tags[..|tags| - 1], tag) + (if tags[|tags| - 1] == tag then [host] else [])
  }

  /** The plain scan: hosts of the rows carrying `tag`, in row order, once per occurrence. */
  function Scan(rows: seq<Row>, tag: string): seq<string> {
    if rows == [] then []
    else
      var row := rows[|rows| - 1];
      Scan(rows[..|rows| - 1], tag) + OnRow(row.host, row.tags, tag)
  }

  predicate StartsWithAt(item: string) {
    item != [] && item[0] == '@'
  }

  /** The text after the first colon, if there is a colon. */
  function AfterColon(item: string): Option<string> {
    if item == [] then None
    else if item[0] == ':' then Some(item[1..])
    else AfterColon(item[1..])
  }

  /** The text before the first colon, or all of it. */
  function BeforeColon(item: string): (r: string)
    ensures ':' !in r
    ensures r <= item
    ensures AfterColon(item).Some? ==> |r| < |item|
    ensures AfterColon(item) == None ==> r == item
  {
    if item == [] || item[0] == ':' then [] else [item[0]] + BeforeColon(item[1..])
  }

  /** A text is what comes before its first colon, the colon, and what comes after it. */
  lemma {:induction false} SplitsAtColon(item: string)
    ensures AfterColon(item).Some? ==> item == BeforeColon(item) + ":" + AfterColon(item).value
    ensures AfterColon(item) == None <==> ':' !in item
  {
    if item != [] && item[0] != ':' {
      SplitsAtColon(item[1..]);
      assert item == [item[0]] + item[1..];
    }
  }

  lemma {:induction false} SplitOfJoin(host: string, rest: string)
    requires ':' !in host
    ensures BeforeColon(host + ":" + rest) == host && AfterColon(host + ":" + rest) == Some(rest)
  {
    var item := host + ":" + rest;
    if host == [] {
      assert item[1..] == rest;
    } else {
      assert item[1..] == host[1..] + ":" + rest;
      SplitOfJoin(host[1..], rest);
    }
  }

  /** A colon, and nothing but at least one digit after the first one. */
  predicate HostPort(item: string, digit: char -> bool) {
    match AfterColon(item)
    case None => false
    case Some(p) => p != [] && forall c <- p :: digit(c)
  }

  function Expand(rows: seq<Row>, item: string, digit: char -> bool): seq<string> {
    if StartsWithAt(item) then Scan(rows, item[1..])
    else if HostPort(item, digit) then [BeforeColon(item)]
    else [item]
  }

  function Resolve(rows: seq<Row>, targets: seq<string>, digit: char -> bool): seq<string> {
    if targets == [] then []
    else Resolve(rows, targets[..|targets| - 1], digit) + Expand(rows, targets[|targets| - 1], digit)
  }

  /** Resolution works item by item. */
  lemma {:induction false} ResolveDistributes(rows: seq<Row>, a: seq<string>, b: seq<string>, digit: char -> bool)
    ensures Resolve(rows, a + b, digit) == Resolve(rows, a, digit) + Resolve(rows, b, digit)
  {
    if b == [] {
      assert a + b == a;
    } else {
      var init := b[..|b| - 1];
      assert (a + b)[..|a + b| - 1] == a + init;
      ResolveDistributes(rows, a, init, digit);
      var ra, ri, x := Resolve(rows, a, digit), Resolve(rows, init, digit), Expand(rows, b[|b| - 1], digit);
      assert Resolve(rows, a + b, digit) == ra + ri + x;
      assert ra + ri + x == ra + (ri + x);
    }
  }

  lemma {:induction false} OnRowCounts(host: string, tags: seq<string>, tag: string)
    ensures |OnRow(host, tags, tag)| == multiset(tags)[tag]
    ensures forall h <- OnRow(host, tags, tag) :: h == host
  {
    if tags != [] {
      var init, last := tags[..|tags| - 1], tags[|tags| - 1];
      OnRowCounts(host, init, tag);
      assert tags == init + [last];
      assert multiset(tags)[tag] == multiset(init)[tag] + (if last == tag then 1 else 0);
    }
  }

  /** A tag yields exactly the hosts of the rows that carry it; only an unknown tag yields nothing. */
  lemma {:induction false} ScanFindsTagged(rows: seq<Row>, tag: string)
    ensures forall h :: h in Scan(rows, tag) <==> exists row <- rows :: row.host == h && tag in row.tags
    ensures Scan(rows, tag) == [] <==> forall row <- rows :: tag !in row.tags
  {
    if rows != [] {
      var init, row := rows[..|rows| - 1], rows[|rows| - 1];
      ScanFindsTagged(init, tag);
      OnRowCounts(row.host, row.tags, tag);
      assert rows == init + [row];
      var last := OnRow(row.host, row.tags, tag);
      assert tag in row.tags <==> multiset(row.tags)[tag] > 0;
      assert row.host in last <==> tag in row.tags by {
        assert last != [] ==> last[0] in last;
      }
    }
  }

  /** The scan goes through the rows in order. */
  lemma {:induction false} ScanDistributes(a: seq<Row>, b: seq<Row>, tag: string)
    ensures Scan(a + b, tag) == Scan(a, tag) + Scan(b, tag)
  {
    if b == [] {
      assert a + b == a;
    } else {
      var init, row := b[..|b| - 1], b[|b| - 1];
      assert (a + b)[..|a + b| - 1] == a + init;
      ScanDistributes(a, init, tag);
      AppendAssoc(Scan(a, tag), Scan(init, tag), OnRow(row.host, row.tags, tag));
    }
  }

  lemma ScanOfOne(row: Row, tag: string)
    ensures Scan([row], tag) == OnRow(row.host, row.tags, tag)
  {
    assert [row][..0] == [];
  }

  /** What one item resolves to: a tag reference to the hosts of the tag... */
  lemma TagResolves(rows: seq<Row>, tag: string, digit: char -> bool)
    ensures Resolve(rows, ["@" + tag], digit) == Scan(rows, tag)
  {
    ResolveOne(rows, "@" + tag, digit);
    assert ("@" + tag)[1..] == tag;
  }

  /** ...host:digits to the host... */
  lemma EndpointResolves(rows: seq<Row>, host: string, digits: string, digit: char -> bool)
    requires ':' !in host && !StartsWithAt(host + ":" + digits)
    requires digits != [] && forall c <- digits :: digit(c)
    ensures Resolve(rows, [host + ":" + digits], digit) == [host]
  {
    ResolveOne(rows, host + ":" + digits, digit);
    SplitOfJoin(host, digits);
  }

  /** ...and anything else to itself: no colon, or something else than digits after the first one. */
  lemma OtherResolves(rows: seq<Row>, item: string, digit: char -> bool)
    requires !StartsWithAt(item)
    requires forall host, rest :: item == host + ":" + rest && ':' !in host ==> rest == [] || exists c <- rest :: !digit(c)
    ensures Resolve(rows, [item], digit) == [item]
  {
    ResolveOne(rows, item, digit);
    SplitsAtColon(item);
  }

  // ---------------------------------------------------------------- resolving twice

  /** What `resolve` returns unchanged. */
  predicate Plain(item: string, digit: char -> bool) {
    !StartsWithAt(item) && !HostPort(item, digit)
  }

  lemma {:induction false} NoColonIsNoPort(item: string, digit: char -> bool)
    requires ':' !in item
    ensures AfterColon(item) == None && !HostPort(item, digit)
  {
    if item != [] {
      NoColonIsNoPort(item[1..], digit);
    }
  }

  lemma {:induction false} PlainIsFixed(rows: seq<Row>, items: seq<string>, digit: char -> bool)
    requires forall item <- items :: Plain(item, digit)
    ensures Resolve(rows, items, digit) == items
  {
    if items != [] {
      PlainIsFixed(rows, items[..|items| - 1], digit);
      assert Plain(items[|items| - 1], digit);
      assert items == items[..|items| - 1] + [items[|items| - 1]];
    }
  }

  predicate TaggedHostsPlain(rows: seq<Row>, digit: char -> bool) {
    forall row <- rows :: row.tags != [] ==> Plain(row.host, digit)
  }

  lemma {:induction false} ResolvedIsPlain(rows: seq<Row>, targets: seq<string>, digit: char -> bool)
    requires TaggedHostsPlain(rows, digit)
    ensures forall h <- Resolve(rows, targets, digit) :: Plain(h, digit)
  {
    if targets != [] {
      ResolvedIsPlain(rows, targets[..|targets| - 1], digit);
      var item := targets[|targets| - 1];
      if StartsWithAt(item) {
        ScanFindsTagged(rows, item[1..]);
      } else if HostPort(item, digit) {
        NoColonIsNoPort(BeforeColon(item), digit);
      }
    }
  }

  /** Resolving twice is resolving once, for every list, when no tagged host is itself a tag reference
      or has the form host:digits. */
  lemma ResolveTwice(rows: seq<Row>, targets: seq<string>, digit: char -> bool)
    requires TaggedHostsPlain(rows, digit)
    ensures Resolve(rows, Resolve(rows, targets, digit), digit) == Resolve(rows, targets, digit)
  {
    ResolvedIsPlain(rows, targets, digit);
    PlainIsFixed(rows, Resolve(rows, targets, digit), digit);
  }

  lemma {:induction false} ResolveItemwise(rows: seq<Row>, items: seq<string>, k: nat, digit: char -> bool)
    requires k < |items| && forall item <- items :: !StartsWithAt(item)
    ensures |Resolve(rows, items, digit)| == |items|
    ensures [Resolve(rows, items, digit)[k]] == Expand(rows, items[k], digit)
  {
    var init, last := items[..|items| - 1], items[|items| - 1];
    assert |Expand(rows, last, digit)| == 1;
    if init != [] {
      ResolveItemwise(rows, init, if k < |init| then k else 0, digit);
    }
    var before := Resolve(rows, init, digit);
    assert |before| == |init|;
    if k < |init| {
      assert (before + Expand(rows, last, digit))[k] == before[k];
    } else {
      assert [(before + Expand(rows, last, digit))[k]] == Expand(rows, last, digit);
    }
  }

  /** The hosts of every tag in use resolve to themselves. */
  predicate TagsStable(rows: seq<Row>, digit: char -> bool) {
    forall row <- rows, tag <- row.tags :: Resolve(rows, Scan(rows, tag), digit) == Scan(rows, tag)
  }

  /** One item resolves to items that resolve to themselves. */
  lemma ExpandIsStable(rows: seq<Row>, item: string, digit: char -> bool)
    requires TagsStable(rows, digit)
    ensures Resolve(rows, Expand(rows, item, digit), digit) == Expand(rows, item, digit)
  {
    if StartsWithAt(item) {
      ScanFindsTagged(rows, item[1..]);
    } else {
      var name := if HostPort(item, digit) then BeforeColon(item) else item;
      if HostPort(item, digit) {
        NoColonIsNoPort(name, digit);
      }
      PlainIsFixed(rows, [name], digit);
    }
  }

  lemma {:induction false} ResolvedIsStable(rows: seq<Row>, targets: seq<string>, digit: char -> bool)
    requires TagsStable(rows, digit)
    ensures Resolve(rows, Resolve(rows, targets, digit), digit) == Resolve(rows, targets, digit)
  {
    if targets != [] {
      var init, item := targets[..|targets| - 1], targets[|targets| - 1];
      ResolvedIsStable(rows, init, digit);
      ExpandIsStable(rows, item, digit);
      ResolveDistributes(rows, Resolve(rows, init, digit), Expand(rows, item, digit), digit);
    }
  }

  predicate StableAt(rows: seq<Row>, targets: seq<string>, digit: char -> bool) {
    Resolve(rows, Resolve(rows, targets, digit), digit) == Resolve(rows, targets, digit)
  }

  /** The exact condition, for every registry: resolving twice is harmless for every list iff the hosts
      of each tag in use resolve to themselves. */
  lemma ResolveTwiceIff(rows: seq<Row>, digit: char -> bool)
    ensures (forall targets :: StableAt(rows, targets, digit)) <==> TagsStable(rows, digit)
  {
    if TagsStable(rows, digit) {
      forall targets
        ensures StableAt(rows, targets, digit)
      {
        ResolvedIsStable(rows, targets, digit);
      }
    } else {
      var targets := UnstableTag(rows, digit);
      assert !StableAt(rows, targets, digit);
    }
  }

  lemma UnstableTag(rows: seq<Row>, digit: char -> bool) returns (targets: seq<string>)
    requires !TagsStable(rows, digit)
    ensures !StableAt(rows, targets, digit)
  {
    var row, tag :| row in rows && tag in row.tags && Resolve(rows, Scan(rows, tag), digit) != Scan(rows, tag);
    TagResolves(rows, tag, digit);
    targets := ["@" + tag];
  }

  /** Where no tagged host starts with '@', that is so iff no tagged host has the form host:digits. */
  lemma ResolveTwiceHosts(rows: seq<Row>, digit: char -> bool)
    requires forall row <- rows :: row.tags != [] ==> !StartsWithAt(row.host)
    ensures (forall targets :: StableAt(rows, targets, digit))
            <==> forall row <- rows :: row.tags != [] ==> !HostPort(row.host, digit)
  {
    if TaggedHostsPlain(rows, digit) {
      forall targets
        ensures StableAt(rows, targets, digit)
      {
        ResolveTwice(rows, targets, digit);
      }
    } else {
      var row :| row in rows && row.tags != [] && HostPort(row.host, digit);
      HostPortResolvesOn(rows, row, digit);
      assert !StableAt(rows, ["@" + row.tags[0]], digit);
    }
  }

  lemma HostPortResolvesOn(rows: seq<Row>, row: Row, digit: char -> bool)
    requires forall r <- rows :: r.tags != [] ==> !StartsWithAt(r.host)
    requires row in rows && row.tags != [] && HostPort(row.host, digit)
    ensures var targets := ["@" + row.tags[0]];
            Resolve(rows, Resolve(rows, targets, digit), digit) != Resolve(rows, targets, digit)
  {
    var targets := ["@" + row.tags[0]];
    assert targets[0][1..] == row.tags[0];
    assert targets[..0] == [];
    var hosts := Scan(rows, row.tags[0]);
    assert Resolve(rows, targets, digit) == hosts;
    ScanFindsTagged(rows, row.tags[0]);
    assert row.tags[0] in row.tags;
    assert row.host in hosts;
    var k :| 0 <= k < |hosts| && hosts[k] == row.host;
    ResolveItemwise(rows, hosts, k, digit);
    assert Resolve(rows, hosts, digit)[k] == BeforeColon(row.host);
  }

  /** Why it matters: the locked tools resolve twice, `capture_stop` resolves once.  With a single
      target registered as host:digits, the start locks the host alone and the stop releases the
      registered name, which is another. */
  lemma StopMissesStart(registered: string, tag: string, digit: char -> bool)
    requires HostPort(registered, digit) && !StartsWithAt(registered)
    ensures var rows := [Row(registered, 9000, [tag], "", false)];
            && Resolve(rows, ["@" + tag], digit) == [registered]
            && Resolve(rows, Resolve(rows, ["@" + tag], digit), digit) == [BeforeColon(registered)]
            && BeforeColon(registered) != registered
  {
    var row := Row(registered, 9000, [tag], "", false);
    assert row.tags[..0] == [] && [row][..0] == [];
    assert OnRow(registered, [], tag) == [] && OnRow(registered, row.tags, tag) == [registered];
    assert Scan([row], tag) == [registered];
    ResolveOne([row], "@" + tag, digit);
    assert ("@" + tag)[1..] == tag;
    ResolveOne([row], registered, digit);
  }

  lemma ResolveOne(rows: seq<Row>, item: string, digit: char -> bool)
    ensures Resolve(rows, [item], digit) == Expand(rows, item, digit)
  {
    assert [item][..0] == [];
  }

  // ---------------------------------------------------------------- the class

  datatype RemoveOutcome = Removed | NoSuchTarget | HasActiveLock | HasActiveListener

  class Table {
    const digit: char -> bool
    var rows: seq<Row>

    constructor (digit: char -> bool)
      ensures rows == [] && this.digit == digit
    {
      this.digit := digit;
      rows := [];
    }

    method AddTarget(host: string, port: int, tags: seq<string>, note: string)
      requires UniqueRows(rows)
      modifies this
      ensures rows == Inserted(old(rows), Row(host, port, tags, note, false))
      ensures UniqueRows(rows) && Registered(rows, host, port)
    {
      InsertedKeepsUnique(rows, Row(host, port, tags, note, false));
      if !Registered(rows, host, port) {
        rows := rows + [Row(host, port, tags, note, false)];
      }
    }

    method RemoveTarget(host: string, port: int) returns (r: RemoveOutcome)
      requires UniqueRows(rows)
      modifies this
      ensures rows == Deleted(old(rows), host, port)
      ensures UniqueRows(rows)
      ensures r == if Registered(old(rows), host, port) then Removed else NoSuchTarget
    {
      var kept := Deleted(rows, host, port);
      DeletedKeepsUnique(rows, host, port);
      var rowcount := |rows| - |kept|;
      rows := kept;
      r := if rowcount == 0 then NoSuchTarget else Removed;
    }

    method SetListenLiveness(host: string, alive: bool, port: int)
      requires UniqueRows(rows)
      modifies this
      ensures rows == Marked(old(rows), host, port, alive)
      ensures UniqueRows(rows)
    {
      rows := Marked(rows, host, port, alive);
    }

    method GetListenLiveness(host: string, port: int) returns (alive: bool)
      requires UniqueRows(rows)
      ensures alive <==> exists row <- rows :: RowAt(row, host, port) && row.listening
    {
      for i := 0 to |rows|
        invariant forall k :: 0 <= k < i ==> !RowAt(rows[k], host, port)
      {
        if RowAt(rows[i], host, port) {
          forall k | 0 <= k < |rows| && RowAt(rows[k], host, port)
            ensures k == i
          {
            OneRowEach(rows, i, k, host, port);
          }
          return rows[i].listening;
        }
      }
      return false;
    }

    /** The inner loop of the index: one append per tag of the row. */
    static method IndexRow(tagMap0: map<string, seq<string>>, row: Row) returns (tagMap: map<string, seq<string>>)
      ensures forall t :: Hosts(tagMap, t) == Hosts(tagMap0, t) + OnRow(row.host, row.tags, t)
    {
      tagMap := tagMap0;
      for j := 0 to |row.tags|
        invariant forall t :: Hosts(tagMap, t) == Hosts(tagMap0, t) + OnRow(row.host, row.tags[..j], t)
      {
        var tag := row.tags[j];
        ghost var before := tagMap;
        tagMap := tagMap[tag := Hosts(tagMap, tag) + [row.host]];
        forall t
          ensures Hosts(tagMap, t) == Hosts(tagMap0, t) + OnRow(row.host, row.tags[..j + 1], t)
        {
          OneTagMore(row, j, t, Hosts(tagMap0, t), Hosts(before, t), Hosts(tagMap, t));
        }
      }
      assert row.tags[..|row.tags|] == row.tags;
    }

    /** The outer loop over the rows. */
    method BuildTagMap() returns (tagMap: map<string, seq<string>>)
      ensures forall t :: Hosts(tagMap, t) == Scan(rows, t)
    {
      tagMap := map[];
      for i := 0 to |rows|
        invariant forall t :: Hosts(tagMap, t) == Scan(rows[..i], t)
      {
        assert rows[..i + 1][..i] == rows[..i];
        tagMap := IndexRow(tagMap, rows[i]);
      }
      assert rows[..|rows|] == rows;
    }

    /** Tag references go through the index; the result is what a plain scan per tag gives. */
    method ResolveTargets(targets: seq<string>) returns (resolved: seq<string>)
      ensures resolved == Resolve(rows, targets, digit)
    {
      var tagMap := BuildTagMap();
      resolved := [];
      for k := 0 to |targets|
        invariant resolved == Resolve(rows, targets[..k], digit)
      {
        var item := targets[k];
        assert targets[..k + 1][..k] == targets[..k];
        if item != [] && item[0] == '@' {
          resolved := resolved + Hosts(tagMap, item[1..]);
        } else if HostPort(item, digit) {
          resolved := resolved + [BeforeColon(item)];
        } else {
          resolved := resolved + [item];
        }
      }
      assert targets[..|targets|] == targets;
    }
  }

  lemma OneTagMore(row: Row, j: nat, t: string, start: seq<string>, before: seq<string>, after: seq<string>)
    requires j < |row.tags|
    requires before == start + OnRow(row.host, row.tags[..j], t)
    requires after == if t == row.tags[j] then before + [row.host] else before
    ensures after == start + OnRow(row.host, row.tags[..j + 1], t)
  {
    assert row.tags[..j + 1][..j] == row.tags[..j];
  }

  /** `tag_map.get(tag, [])`. */
  function Hosts(tagMap: map<string, seq<string>>, tag: string): seq<string> {
    if tag in tagMap then tagMap[tag] else []
  }
}
