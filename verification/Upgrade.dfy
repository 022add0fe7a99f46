/** The upgrade of a batch of targets (server.py `upgrade_run`, from the batch to the summary):
    push and apply on every target, poll until the wanted version answers, report each target once. */
module Upgrade {
  import opened Prelude
  import opened Results

  /** How far the call on one target got. */
  datatype Attempt =
    | ProbeRaised(message: string)
    | BadVersion(current: string)
    | TooOld(current: string)
    | PushRefused(reason: Value)
    | ApplyRaised(message: string)
    | ApplyAnswered(current: string, answer: map<string, Value>)

  datatype UpgradeEnding = Locked(message: string) | NoPool(message: string) | Crashed(message: string) | Tried(attempt: Attempt)

  predicate Accepted(e: UpgradeEnding) {
    && e.Tried? && e.attempt.ApplyAnswered?
    && !TruthyField(e.attempt.answer, "error")
    && TruthyField(e.attempt.answer, "ok")
  }

  function ErrorDict(reason: Value): FnResult {
    Returned(Obj(map["_error" := reason]))
  }

  function CallOf(a: Attempt): FnResult {
    match a
    case ProbeRaised(message) => Raised(message)
    case BadVersion(current) => ErrorDict(Str("靶机版本号异常: " + current))
    case TooOld(current) => ErrorDict(Str("靶机 v" + current + " 过旧，请先用 install.sh 安装 1.8.0+"))
    case PushRefused(reason) => ErrorDict(reason)
    case ApplyRaised(message) => Raised(message)
    case ApplyAnswered(current, answer) =>
      if TruthyField(answer, "error") then ErrorDict(answer["error"])
      else if !TruthyField(answer, "ok") then ErrorDict(Str("无法解析的 dt20 响应"))
      else Returned(Obj(map["pushed" := Bool(true), "from_version" := Str(current)]))
  }

  function EndingOf(e: UpgradeEnding): Ending {
    match e
    case Locked(message) => Refused(message)
    case NoPool(message) => NoConnection(message)
    case Crashed(message) => Escaped(message)
    case Tried(a) => Called(CallOf(a))
  }

  function EndingsOf(es: seq<UpgradeEnding>): (r: seq<Ending>)
    ensures |r| == |es|
    ensures forall i :: 0 <= i < |es| ==> r[i] == EndingOf(es[i])
  {
    seq(|es|, i requires 0 <= i < |es| => EndingOf(es[i]))
  }

  /** A target succeeds in the batch iff the upgrade was accepted there; its entry then names
      the target and is marked pushed. */
  lemma AcceptedIffPushed(target: string, e: UpgradeEnding)
    ensures var r := ResultOf(target, EndingOf(e));
            && r.target == target
            && (r.ok <==> Accepted(e))
            && (r.ok ==> Named(Wrap(r), target) && TruthyField(Wrap(r), "pushed"))
            && (r.ok ==> "from_version" in Wrap(r) && Wrap(r)["from_version"] == Str(e.attempt.current))
  {
  }

  /** Why a target was not upgraded: the agent's own error, the reason of the refused push, or the exception. */
  lemma RefusedTells(target: string, e: UpgradeEnding)
    requires e.Tried?
    ensures var r := ResultOf(target, EndingOf(e));
            match e.attempt
            case ProbeRaised(message) => r.error == Some(Text(message))
            case ApplyRaised(message) => r.error == Some(Text(message))
            case PushRefused(reason) => r.error == Some(OfValue(reason))
            case ApplyAnswered(_, answer) => TruthyField(answer, "error") ==> r.error == Some(OfValue(answer["error"]))
            case _ => !r.ok
  {
  }

  predicate Named(entry: Entry, target: string) {
    "target" in entry && entry["target"] == Str(target)
  }

  function Pushed(es: seq<Entry>): seq<Entry> {
    if es == [] then []
    else if TruthyField(es[0], "pushed") then [es[0]] + Pushed(es[1..])
    else Pushed(es[1..])
  }

  lemma {:induction false} AllPushed(es: seq<Entry>)
    requires forall e <- es :: TruthyField(e, "pushed")
    ensures Pushed(es) == es
  {
    if es != [] {
      AllPushed(es[1..]);
    }
  }

  // ---------------------------------------------------------------- polling

  /** A pushed target and where to ask it for its version. */
  datatype Item = Item(target: string, host: string, port: int)

  datatype Answer = Silent | Read(version: Value)

  datatype Poll = Poll(item: Item, answer: Answer)

  predicate Confirms(p: Poll, ver: string) {
    p.answer == Read(Str(ver))
  }

  /** `list.remove`: the first equal element goes. */
  function RemoveFirst<T(==)>(xs: seq<T>, x: T): seq<T>
    requires x in xs
    ensures multiset(RemoveFirst(xs, x)) == multiset(xs) - multiset{x}
  {
    if xs[0] == x then
      assert xs == [x] + xs[1..];
      xs[1..]
    else
      assert xs == [xs[0]] + xs[1..];
      [xs[0]] + RemoveFirst(xs[1..], x)
  }

  /** It is the first of equal elements that goes. */
  lemma {:induction false} RemovesFirst<T>(xs: seq<T>, x: T, k: nat)
    requires k < |xs| && xs[k] == x && x !in xs[..k]
    ensures RemoveFirst(xs, x) == xs[..k] + xs[k + 1..]
  {
    if k > 0 {
      var rest := xs[1..];
      assert xs[0] != x && rest[..k - 1] == xs[1..k] && rest[k..] == xs[k + 1..];
      assert xs[..k] == [xs[0]] + xs[1..k];
      RemovesFirst(rest, x, k - 1);
      AppendAssoc([xs[0]], rest[..k - 1], rest[k..]);
    }
  }

  ghost predicate ConfirmedBy(polls: seq<Poll>, target: string, ver: string) {
    exists p <- polls :: p.item.target == target && Confirms(p, ver)
  }

  /** What the loop keeps: an item is pending or removed, a removed one is confirmed, and the
      confirmed targets are those some poll read the wanted version from. */
  ghost predicate Tracking(items: seq<Item>, pending: seq<Item>, removed: seq<Item>, confirmed: set<string>,
                           polls: seq<Poll>, ver: string)
  {
    && multiset(pending) + multiset(removed) == multiset(items)
    && (forall item <- removed :: item.target in confirmed)
    && (forall p <- polls :: p.item in items)
    && (forall t :: t in confirmed <==> ConfirmedBy(polls, t, ver))
  }

  lemma OnePollMore(polls: seq<Poll>, p: Poll, t: string, ver: string)
    ensures ConfirmedBy(polls + [p], t, ver) <==> ConfirmedBy(polls, t, ver) || (p.item.target == t && Confirms(p, ver))
  {
    assert p in polls + [p];
    if q :| q in polls && q.item.target == t && Confirms(q, ver) {
      assert q in polls + [p];
    }
  }

  /** One poll of one pending item. */
  lemma TrackPoll(items: seq<Item>, pending: seq<Item>, removed: seq<Item>, confirmed: set<string>,
                  polls: seq<Poll>, ver: string, p: Poll)
    requires Tracking(items, pending, removed, confirmed, polls, ver) && p.item in pending
    ensures if Confirms(p, ver)
            then Tracking(items, RemoveFirst(pending, p.item), removed + [p.item], confirmed + {p.item.target}, polls + [p], ver)
            else Tracking(items, pending, removed, confirmed, polls + [p], ver)
  {
    assert p.item in multiset(pending) && p.item in multiset(items);
    forall t
      ensures ConfirmedBy(polls + [p], t, ver) <==> ConfirmedBy(polls, t, ver) || (p.item.target == t && Confirms(p, ver))
    {
      OnePollMore(polls, p, t, ver);
    }
  }

  lemma StillThere(walked: seq<Item>, k: nat, pending: seq<Item>)
    requires k < |walked| && multiset(walked[k..]) <= multiset(pending)
    ensures walked[k] in pending
    ensures multiset(walked[k + 1..]) <= multiset(pending)
    ensures multiset(walked[k + 1..]) <= multiset(RemoveFirst(pending, walked[k]))
  {
    assert walked[k..] == [walked[k]] + walked[k + 1..];
    assert walked[k] in multiset(walked[k..]) && walked[k] in multiset(pending);
  }

  /** Every item of the copy walked in round r is polled once, in order. */
  ghost function PollsOf(walked: seq<Item>, r: nat, answers: (nat, nat) -> Answer): (ps: seq<Poll>)
    ensures |ps| == |walked|
    ensures forall k :: 0 <= k < |walked| ==> ps[k] == Poll(walked[k], answers(r, k))
  {
    seq(|walked|, k requires 0 <= k < |walked| => Poll(walked[k], answers(r, k)))
  }

  /** The polls of all rounds, `walks[r]` being the copy walked in round r. */
  ghost function AllPolls(walks: seq<seq<Item>>, answers: (nat, nat) -> Answer): seq<Poll> {
    if walks == [] then []
    else AllPolls(walks[..|walks| - 1], answers) + PollsOf(walks[|walks| - 1], |walks| - 1, answers)
  }

  lemma PollsGrow(polls: seq<Poll>, walked: seq<Item>, k: nat, r: nat, answers: (nat, nat) -> Answer)
    requires k < |walked|
    ensures polls + PollsOf(walked[..k + 1], r, answers) ==
            polls + PollsOf(walked[..k], r, answers) + [Poll(walked[k], answers(r, k))]
  {
  }

  /** One round: a copy of `pending` is walked while confirmed items are removed from `pending`.
      Whatever the answers and the duplicates, each item to be removed is still there. */
  method PollRound(ghost items: seq<Item>, pending0: seq<Item>, confirmed0: set<string>, ver: string,
                   r: nat, answers: (nat, nat) -> Answer, ghost polls0: seq<Poll>, ghost removed0: seq<Item>)
    returns (pending: seq<Item>, confirmed: set<string>, ghost polls: seq<Poll>, ghost removed: seq<Item>)
    requires Tracking(items, pending0, removed0, confirmed0, polls0, ver)
    ensures Tracking(items, pending, removed, confirmed, polls, ver)
    ensures polls == polls0 + PollsOf(pending0, r, answers)
    ensures multiset(pending) <= multiset(pending0)
  {
    pending, confirmed, polls, removed := pending0, confirmed0, polls0, removed0;
    var walked := pending;
    for k := 0 to |walked|
      invariant multiset(walked[k..]) <= multiset(pending) <= multiset(pending0)
      invariant Tracking(items, pending, removed, confirmed, polls, ver)
      invariant polls == polls0 + PollsOf(walked[..k], r, answers)
    {
      var item := walked[k];
      StillThere(walked, k, pending);
      var answer := answers(r, k);
      TrackPoll(items, pending, removed, confirmed, polls, ver, Poll(item, answer));
      PollsGrow(polls0, walked, k, r, answers);
      polls := polls + [Poll(item, answer)];
      if answer != Silent && answer.version == Str(ver) {
        confirmed := confirmed + {item.target};
        pending := RemoveFirst(pending, item);
        removed := removed + [item];
      }
    }
    assert walked[..|walked|] == walked;
  }

  /** The polling loop: `rounds` rounds fit before the deadline, and `answers(r, k)` is what the k-th
      item walked in round r answers.  An item still pending has been polled in every round. */
  method PollUntil(items: seq<Item>, ver: string, answers: (nat, nat) -> Answer, rounds: nat)
    returns (pending: seq<Item>, confirmed: set<string>, ghost walks: seq<seq<Item>>)
    ensures forall item <- items :: item in pending || item.target in confirmed
    ensures forall item <- pending :: item in items
    ensures forall w <- walks, item <- w :: item in items
    ensures forall t :: t in confirmed <==> ConfirmedBy(AllPolls(walks, answers), t, ver)
    ensures pending != [] ==> |walks| == rounds
    ensures forall w <- walks, item <- pending :: item in w
  {
    pending, confirmed, walks := items, {}, [];
    ghost var removed: seq<Item> := [];
    ghost var polls: seq<Poll> := [];
    var round := 0;
    while pending != [] && round < rounds
      invariant |walks| == round <= rounds
      invariant Tracking(items, pending, removed, confirmed, polls, ver)
      invariant polls == AllPolls(walks, answers)
      invariant forall w <- walks, item <- pending :: item in w
      invariant forall w <- walks, item <- w :: item in items
      decreases rounds - round
    {
      forall item | item in pending
        ensures item in items
      {
        assert item in multiset(pending) && item in multiset(items);
      }
      ghost var walked := pending;
      pending, confirmed, polls, removed := PollRound(items, pending, confirmed, ver, round, answers, polls, removed);
      forall item | item in pending
        ensures item in walked
      {
        assert item in multiset(pending) && item in multiset(walked);
      }
      assert (walks + [walked])[..|walks|] == walks;
      walks := walks + [walked];
      round := round + 1;
    }
    forall item | item in items
      ensures item in pending || item.target in confirmed
    {
      assert item in multiset(items);
      assert item in multiset(pending) || item in multiset(removed);
    }
    forall item | item in pending
      ensures item in items
    {
      assert item in multiset(pending) && item in multiset(items);
    }
  }

  // ---------------------------------------------------------------- the whole tool

  const UNCONFIRMED := "推送已受理但 180 秒内未确认到新版本（端口未释放/重启异常），请查靶机日志 /var/log/socket_server.log"

  datatype Upgraded = Upgraded(target: string, version: string, fromVersion: Value)

  function UpgradedTargets(us: seq<Upgraded>): (ts: seq<string>)
    ensures |ts| == |us|
    ensures forall i :: 0 <= i < |us| ==> ts[i] == us[i].target
  {
    seq(|us|, i requires 0 <= i < |us| => us[i].target)
  }

  ghost predicate AcceptedSomewhere(resolved: seq<string>, attempts: seq<UpgradeEnding>, target: string)
    requires |attempts| == |resolved|
  {
    exists i :: 0 <= i < |resolved| && resolved[i] == target && Accepted(attempts[i])
  }

  /** The upgrade was accepted at some position of this target, which ran the version `from` before. */
  ghost predicate AcceptedFrom(resolved: seq<string>, attempts: seq<UpgradeEnding>, target: string, from: Value)
    requires |attempts| == |resolved|
  {
    exists i :: 0 <= i < |resolved| && resolved[i] == target && Accepted(attempts[i]) && from == Str(attempts[i].attempt.current)
  }

  /** The failure is that of some position of its target that did not accept, with its own reason. */
  ghost predicate RefusedAs(resolved: seq<string>, attempts: seq<UpgradeEnding>, f: Refusal)
    requires |attempts| == |resolved|
  {
    exists i :: 0 <= i < |resolved| && resolved[i] == f.target && !Accepted(attempts[i])
                && f.reason == ResultOf(f.target, EndingOf(attempts[i])).error
  }

  lemma FailuresAreRefused(resolved: seq<string>, attempts: seq<UpgradeEnding>, rs: seq<TargetResult>, failed: seq<Refusal>)
    requires |attempts| == |resolved|
    requires multiset(rs) == multiset(ResultsOf(resolved, EndingsOf(attempts)))
    requires forall f :: f in failed <==> exists r <- rs :: !r.ok && f == Refusal(r.target, r.error)
    ensures forall f <- failed :: RefusedAs(resolved, attempts, f)
  {
    var all := ResultsOf(resolved, EndingsOf(attempts));
    forall f | f in failed
      ensures RefusedAs(resolved, attempts, f)
    {
      var r :| r in rs && !r.ok && f == Refusal(r.target, r.error);
      assert r in multiset(rs) && r in multiset(all);
      var i :| 0 <= i < |all| && all[i] == r;
      AcceptedIffPushed(resolved[i], attempts[i]);
    }
  }

  /** What the batch hands to the polling stage: every entry is a pushed target that accepted. */
  lemma BatchEntriesAccepted(resolved: seq<string>, attempts: seq<UpgradeEnding>, rs: seq<TargetResult>)
    requires |attempts| == |resolved|
    requires multiset(rs) == multiset(ResultsOf(resolved, EndingsOf(attempts)))
    ensures var es := WrapAll(Succeeded(rs));
            && Pushed(es) == es
            && forall i :: 0 <= i < |es| ==> Named(es[i], Succeeded(rs)[i].target)
                                             && AcceptedSomewhere(resolved, attempts, Succeeded(rs)[i].target)
                                             && "from_version" in es[i]
                                             && AcceptedFrom(resolved, attempts, Succeeded(rs)[i].target, es[i]["from_version"])
    ensures forall i :: 0 <= i < |resolved| && Accepted(attempts[i]) ==> resolved[i] in Targets(Succeeded(rs))
  {
    var all := ResultsOf(resolved, EndingsOf(attempts));
    var ss := Succeeded(rs);
    var es := WrapAll(ss);
    SucceededAreOk(rs);
    forall i | 0 <= i < |ss|
      ensures Named(es[i], ss[i].target) && TruthyField(es[i], "pushed")
      ensures AcceptedSomewhere(resolved, attempts, ss[i].target)
      ensures "from_version" in es[i] && AcceptedFrom(resolved, attempts, ss[i].target, es[i]["from_version"])
    {
      assert ss[i] in multiset(rs) && ss[i] in multiset(all);
      var j :| 0 <= j < |all| && all[j] == ss[i];
      AcceptedIffPushed(resolved[j], attempts[j]);
    }
    AllPushed(es);
    forall i | 0 <= i < |resolved| && Accepted(attempts[i])
      ensures resolved[i] in Targets(ss)
    {
      AcceptedIffPushed(resolved[i], attempts[i]);
      assert all[i] in multiset(all) && all[i] in multiset(rs);
      var k :| 0 <= k < |ss| && ss[k] == all[i];
      assert Targets(ss)[k] == resolved[i];
    }
  }

  /** The pushed targets, each with the endpoint to poll. */
  method MakeItems(pushed: seq<Entry>, ghost names: seq<string>, endpoint: string -> (string, int)) returns (items: seq<Item>)
    requires |names| == |pushed| && forall i :: 0 <= i < |pushed| ==> Named(pushed[i], names[i])
    ensures |items| == |pushed|
    ensures forall k :: 0 <= k < |items| ==> items[k] == Item(names[k], endpoint(names[k]).0, endpoint(names[k]).1)
  {
    items := [];
    for i := 0 to |pushed|
      invariant |items| == i
      invariant forall k :: 0 <= k < i ==> items[k] == Item(names[k], endpoint(names[k]).0, endpoint(names[k]).1)
    {
      assert Named(pushed[i], names[i]);
      var target := pushed[i]["target"].s;
      var (host, port) := endpoint(target);
      items := items + [Item(target, host, port)];
    }
  }

  function EntryOf(pushed: Entry, target: string, ver: string): Upgraded {
    Upgraded(target, ver, if "from_version" in pushed then pushed["from_version"] else Null)
  }

  ghost predicate EntryAmong(u: Upgraded, pushed: seq<Entry>, names: seq<string>, ver: string)
    requires |names| == |pushed|
  {
    exists i :: 0 <= i < |names| && u == EntryOf(pushed[i], names[i], ver)
  }

  /** The pushed targets that were confirmed, and the ones that were not. */
  ghost function ConfirmedOf(pushed: seq<Entry>, names: seq<string>, confirmed: set<string>, ver: string): seq<Upgraded>
    requires |names| == |pushed|
  {
    if pushed == [] then []
    else
      var n := |pushed| - 1;
      ConfirmedOf(pushed[..n], names[..n], confirmed, ver)
      + (if names[n] in confirmed then [EntryOf(pushed[n], names[n], ver)] else [])
  }

  ghost function UnconfirmedOf(names: seq<string>, confirmed: set<string>): seq<Refusal> {
    if names == [] then []
    else
      var n := |names| - 1;
      UnconfirmedOf(names[..n], confirmed)
      + (if names[n] in confirmed then [] else [Refusal(names[n], Some(Text(UNCONFIRMED)))])
  }

  lemma {:induction false} SummaryConserves(pushed: seq<Entry>, names: seq<string>, confirmed: set<string>, ver: string)
    requires |names| == |pushed|
    ensures var us := ConfirmedOf(pushed, names, confirmed, ver);
            var fs := UnconfirmedOf(names, confirmed);
            && multiset(UpgradedTargets(us)) + multiset(RefusedTargets(fs)) == multiset(names)
            && (forall t :: t in UpgradedTargets(us) <==> t in names && t in confirmed)
  {
    if pushed != [] {
      var n := |pushed| - 1;
      var us, fs := ConfirmedOf(pushed[..n], names[..n], confirmed, ver), UnconfirmedOf(names[..n], confirmed);
      SummaryConserves(pushed[..n], names[..n], confirmed, ver);
      assert names == names[..n] + [names[n]];
      if names[n] in confirmed {
        assert UpgradedTargets(us + [EntryOf(pushed[n], names[n], ver)]) == UpgradedTargets(us) + [names[n]];
        assert fs + [] == fs;
      } else {
        assert RefusedTargets(fs + [Refusal(names[n], Some(Text(UNCONFIRMED)))]) == RefusedTargets(fs) + [names[n]];
        assert us + [] == us;
      }
    }
  }

  /** A result is the entry of some pushed target, and a failure is that of one that was not confirmed. */
  lemma {:induction false} SummaryTells(pushed: seq<Entry>, names: seq<string>, confirmed: set<string>, ver: string)
    requires |names| == |pushed|
    ensures forall u <- ConfirmedOf(pushed, names, confirmed, ver) :: EntryAmong(u, pushed, names, ver)
    ensures forall f <- UnconfirmedOf(names, confirmed) :: f.target in names && f.reason == Some(Text(UNCONFIRMED))
  {
    if pushed != [] {
      SummaryTells(pushed[..|pushed| - 1], names[..|names| - 1], confirmed, ver);
      EntryStays(pushed, names, ver);
    }
  }

  lemma EntryStays(pushed: seq<Entry>, names: seq<string>, ver: string)
    requires |names| == |pushed| > 0
    ensures var n := |pushed| - 1;
            forall u :: EntryAmong(u, pushed, names, ver) <==>
              EntryAmong(u, pushed[..n], names[..n], ver) || u == EntryOf(pushed[n], names[n], ver)
  {
    var n := |pushed| - 1;
    forall u | EntryAmong(u, pushed[..n], names[..n], ver)
      ensures EntryAmong(u, pushed, names, ver)
    {
      var i :| 0 <= i < n && u == EntryOf(pushed[..n][i], names[..n][i], ver);
      assert u == EntryOf(pushed[i], names[i], ver);
    }
    forall u | EntryAmong(u, pushed, names, ver) && u != EntryOf(pushed[n], names[n], ver)
      ensures EntryAmong(u, pushed[..n], names[..n], ver)
    {
      var i :| 0 <= i <= n && u == EntryOf(pushed[i], names[i], ver);
      assert u == EntryOf(pushed[..n][i], names[..n][i], ver);
    }
  }

  /** The summary: a pushed target goes to the results if confirmed, and to the failures otherwise. */
  method Summarize(pushed: seq<Entry>, ghost names: seq<string>, refused: seq<Refusal>, confirmed: set<string>, ver: string)
    returns (results: seq<Upgraded>, failed: seq<Refusal>)
    requires |names| == |pushed| && forall i :: 0 <= i < |pushed| ==> Named(pushed[i], names[i])
    ensures results == ConfirmedOf(pushed, names, confirmed, ver)
    ensures failed == refused + UnconfirmedOf(names, confirmed)
  {
    results, failed := [], refused;
    for i := 0 to |pushed|
      invariant results == ConfirmedOf(pushed[..i], names[..i], confirmed, ver)
      invariant failed == refused + UnconfirmedOf(names[..i], confirmed)
    {
      assert Named(pushed[i], names[i]);
      assert pushed[..i + 1][..i] == pushed[..i] && names[..i + 1][..i] == names[..i];
      var target := pushed[i]["target"].s;
      if target in confirmed {
        results := results + [EntryOf(pushed[i], target, ver)];
      } else {
        failed := failed + [Refusal(target, Some(Text(UNCONFIRMED)))];
      }
    }
    assert pushed[..|pushed|] == pushed && names[..|names|] == names;
  }

  lemma RefusedConcat(a: seq<Refusal>, b: seq<Refusal>)
    ensures multiset(RefusedTargets(a + b)) == multiset(RefusedTargets(a)) + multiset(RefusedTargets(b))
  {
    assert RefusedTargets(a + b) == RefusedTargets(a) + RefusedTargets(b);
  }

  /** Every target is reported exactly as often as it was asked for.  A target is reported upgraded
      iff the upgrade was accepted there and some poll of it read exactly the wanted version; one that
      accepted and is not reported upgraded has been polled in every round.  Results carry the version the
      target came from, and failures the reason of the refusal or that the version never answered. */
  method UpgradeRun(resolved: seq<string>, attempts: seq<UpgradeEnding>, order: seq<nat>, ver: string,
                    endpoint: string -> (string, int), answers: (nat, nat) -> Answer, rounds: nat)
    returns (results: seq<Upgraded>, failed: seq<Refusal>, ghost walks: seq<seq<Item>>)
    requires |attempts| == |resolved| && CompletionOrder(order, |resolved|)
    ensures |results| + |failed| == |resolved|
    ensures multiset(UpgradedTargets(results)) + multiset(RefusedTargets(failed)) == multiset(resolved)
    ensures forall t :: t in UpgradedTargets(results) <==>
              AcceptedSomewhere(resolved, attempts, t)
              && exists p <- AllPolls(walks, answers) :: p.item.target == t && p.answer == Read(Str(ver))
    ensures forall w <- walks, item <- w ::
              AcceptedSomewhere(resolved, attempts, item.target) && (item.host, item.port) == endpoint(item.target)
    ensures forall t :: AcceptedSomewhere(resolved, attempts, t) && t !in UpgradedTargets(results) ==>
              |walks| == rounds && forall w <- walks :: exists item <- w :: item.target == t
    ensures forall u <- results :: u.version == ver && AcceptedFrom(resolved, attempts, u.target, u.fromVersion)
    ensures forall f <- failed ::
              || RefusedAs(resolved, attempts, f)
              || (AcceptedSomewhere(resolved, attempts, f.target) && f.reason == Some(Text(UNCONFIRMED)))
  {
    var pushed, refused, names := PushAll(resolved, attempts, order);
    results, failed, walks := PollAndSummarize(pushed, names, refused, ver, endpoint, answers, rounds);
    forall u | u in results
      ensures u.version == ver && AcceptedFrom(resolved, attempts, u.target, u.fromVersion)
    {
      var i :| 0 <= i < |names| && u == EntryOf(pushed[i], names[i], ver);
    }
    assert |multiset(UpgradedTargets(results)) + multiset(RefusedTargets(failed))| == |multiset(resolved)|;
  }

  /** The first stage: the batch, and its entries marked pushed. */
  method PushAll(resolved: seq<string>, attempts: seq<UpgradeEnding>, order: seq<nat>)
    returns (pushed: seq<Entry>, refused: seq<Refusal>, ghost names: seq<string>)
    requires |attempts| == |resolved| && CompletionOrder(order, |resolved|)
    ensures |names| == |pushed| && forall i :: 0 <= i < |pushed| ==> Named(pushed[i], names[i])
    ensures multiset(names) + multiset(RefusedTargets(refused)) == multiset(resolved)
    ensures forall t :: t in names <==> AcceptedSomewhere(resolved, attempts, t)
    ensures forall i :: 0 <= i < |pushed| ==>
              "from_version" in pushed[i] && AcceptedFrom(resolved, attempts, names[i], pushed[i]["from_version"])
    ensures forall f <- refused :: RefusedAs(resolved, attempts, f)
  {
    var report, _, _, rs := RunBatch(resolved, EndingsOf(attempts), order);
    BatchEntriesAccepted(resolved, attempts, rs);
    NamesAreAccepted(resolved, attempts, rs);
    FailuresAreRefused(resolved, attempts, rs, report.failed);
    names := Targets(Succeeded(rs));
    pushed, refused := Pushed(report.results), report.failed;
  }

  lemma ItemsNameTargets(items: seq<Item>, names: seq<string>, endpoint: string -> (string, int))
    requires |items| == |names|
    requires forall k :: 0 <= k < |items| ==> items[k] == Item(names[k], endpoint(names[k]).0, endpoint(names[k]).1)
    ensures forall item <- items :: item.target in names && (item.host, item.port) == endpoint(item.target)
    ensures forall t <- names :: exists item <- items :: item.target == t
  {
    forall t | t in names
      ensures exists item <- items :: item.target == t
    {
      var k :| 0 <= k < |names| && names[k] == t;
      assert items[k] in items && items[k].target == t;
    }
  }

  /** From the pushed entries to the end. */
  method PollAndSummarize(pushed: seq<Entry>, ghost names: seq<string>, refused: seq<Refusal>, ver: string,
                          endpoint: string -> (string, int), answers: (nat, nat) -> Answer, rounds: nat)
    returns (results: seq<Upgraded>, failed: seq<Refusal>, ghost walks: seq<seq<Item>>)
    requires |names| == |pushed| && forall i :: 0 <= i < |pushed| ==> Named(pushed[i], names[i])
    ensures multiset(UpgradedTargets(results)) + multiset(RefusedTargets(failed)) ==
            multiset(names) + multiset(RefusedTargets(refused))
    ensures forall t :: t in UpgradedTargets(results) <==> t in names && ConfirmedBy(AllPolls(walks, answers), t, ver)
    ensures forall w <- walks, item <- w :: item.target in names && (item.host, item.port) == endpoint(item.target)
    ensures forall t :: t in names && t !in UpgradedTargets(results) ==>
              |walks| == rounds && forall w <- walks :: exists item <- w :: item.target == t
    ensures forall u <- results :: EntryAmong(u, pushed, names, ver)
    ensures forall f <- failed :: f in refused || (f.target in names && f.reason == Some(Text(UNCONFIRMED)))
  {
    var items := MakeItems(pushed, names, endpoint);
    var pending: seq<Item>, confirmed: set<string>;
    pending, confirmed, walks := PollUntil(items, ver, answers, rounds);
    results, failed := Summarize(pushed, names, refused, confirmed, ver);
    SummaryConserves(pushed, names, confirmed, ver);
    SummaryTells(pushed, names, confirmed, ver);
    RefusedConcat(refused, UnconfirmedOf(names, confirmed));
    ItemsNameTargets(items, names, endpoint);
    forall t | t in names && t !in confirmed
      ensures |walks| == rounds && forall w <- walks :: exists item <- w :: item.target == t
    {
      var item :| item in items && item.target == t;
      assert item in pending;
    }
  }

  lemma NamesAreAccepted(resolved: seq<string>, attempts: seq<UpgradeEnding>, rs: seq<TargetResult>)
    requires |attempts| == |resolved|
    requires multiset(rs) == multiset(ResultsOf(resolved, EndingsOf(attempts)))
    ensures forall t :: t in Targets(Succeeded(rs)) <==> AcceptedSomewhere(resolved, attempts, t)
  {
    BatchEntriesAccepted(resolved, attempts, rs);
    var names := Targets(Succeeded(rs));
    forall t | t in names
      ensures AcceptedSomewhere(resolved, attempts, t)
    {
      var k :| 0 <= k < |names| && names[k] == t;
      assert Named(WrapAll(Succeeded(rs))[k], Succeeded(rs)[k].target);
    }
  }
}
