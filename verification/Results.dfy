/** What a task reports and how a batch adds it up (server.py `run_one`, `_failed`, `_wrap`,
    `_run_batch`; pool.py `Scheduler.batch`). */
module Results {
  import opened Prelude

  /** A JSON value returned by an agent. */
  datatype Value =
    | Null
    | Bool(b: bool)
    | Num(n: int)
    | Str(s: string)
    | Arr(items: seq<Value>)
    | Obj(fields: map<string, Value>)

  /** Python truth of a JSON value. */
  predicate Truthy(v: Value) {
    match v
    case Null => false
    case Bool(b) => b
    case Num(n) => n != 0
    case Str(s) => s != ""
    case Arr(items) => items != []
    case Obj(fields) => fields != map[]
  }

  /** The values that count as false are null, false, zero and everything empty. */
  lemma FalsyValues(v: Value)
    ensures !Truthy(v) <==> v in {Null, Bool(false), Num(0), Str(""), Arr([]), Obj(map[])}
  {
  }

  predicate TruthyField(fields: map<string, Value>, name: string) {
    name in fields && Truthy(fields[name])
  }

  /** An error text: the text of an exception, or a JSON value turned into text, alone or between texts. */
  datatype ErrorText = Text(s: string) | OfValue(v: Value) | Around(before: string, v: Value, after: string)

  datatype TargetResult = TargetResult(target: string, ok: bool, data: Value, error: Option<ErrorText>)

  /** How the call on the borrowed connection ends. */
  datatype FnResult = Raised(message: string) | Returned(data: Value)

  /** How a task ends: refused by the lock, without a connection, after its call,
      or by an exception that leaves `run_one` itself. */
  datatype Ending =
    | Refused(message: string)
    | NoConnection(message: string)
    | Called(result: FnResult)
    | Escaped(message: string)

  const WAIT_NOTE := Obj(map["note" := Str("wait=false 为异步执行不返回回显;需要 stdout 请 wait=true")])
  const FALSE_REASON := "agent 返回 False（业务失败）"

  predicate CarriesError(data: Value) {
    data.Obj? && "_error" in data.fields
  }

  /** A call succeeds unless it raised, returned a dict with `_error`, or returned exactly False. */
  predicate Succeeds(r: FnResult) {
    r.Returned? && !CarriesError(r.data) && r.data != Bool(false)
  }

  function Failure(target: string, error: ErrorText): TargetResult {
    TargetResult(target, false, Null, Some(error))
  }

  function JudgeCall(target: string, r: FnResult): TargetResult {
    match r
    case Raised(message) => Failure(target, Text(message))
    case Returned(data) =>
      if CarriesError(data) then Failure(target, OfValue(data.fields["_error"]))
      else if data == Null then TargetResult(target, true, WAIT_NOTE, None)
      else if data == Bool(false) then Failure(target, Text(FALSE_REASON))
      else TargetResult(target, true, data, None)
  }

  function ResultOf(target: string, e: Ending): TargetResult {
    match e
    case Refused(message) => Failure(target, Text(message))
    case NoConnection(message) => Failure(target, Text("pool: " + message))
    case Called(r) => JudgeCall(target, r)
    case Escaped(message) => Failure(target, Text(message))
  }

  /** A result is of its target, is ok exactly when the call was made and succeeded, and
      otherwise carries a reason. */
  lemma ResultIsFaithful(target: string, e: Ending)
    ensures var r := ResultOf(target, e);
            && r.target == target
            && (r.ok <==> e.Called? && Succeeds(e.result))
            && (r.ok <==> r.error == None)
  {
  }

  /** A success carries the value the call returned, or the note when it returned None; a failure carries
      no data and the reason: the text of the exception, the agent's `_error`, the text for False, the
      conflict, or what kept the pool from lending. */
  lemma ResultTells(target: string, e: Ending)
    ensures var r := ResultOf(target, e);
            if r.ok then
              && e.Called? && e.result.Returned?
              && r.data == if e.result.data == Null then WAIT_NOTE else e.result.data
            else
              && r.data == Null
              && (e.Refused? || e.Escaped? ==> r.error == Some(Text(e.message)))
              && (e.NoConnection? ==> r.error == Some(Text("pool: " + e.message)))
              && (e.Called? && e.result.Raised? ==> r.error == Some(Text(e.result.message)))
              && (e.Called? && e.result.Returned? ==>
                    if e.result.data.Obj? then "_error" in e.result.data.fields && r.error == Some(OfValue(e.result.data.fields["_error"]))
                    else e.result.data == Bool(false) && r.error == Some(Text(FALSE_REASON)))
    ensures e.Called? && e.result.Returned? && ResultOf(target, e).ok ==>
              e.result.data != Bool(false) && !(e.result.data.Obj? && "_error" in e.result.data.fields)
  {
  }

  // ---------------------------------------------------------------- the report

  datatype Refusal = Refusal(target: string, reason: Option<ErrorText>)

  type Entry = map<string, Value>

  datatype Report = Report(ok: nat, failed: seq<Refusal>, results: seq<Entry>)

  function Failed(rs: seq<TargetResult>): seq<Refusal> {
    if rs == [] then []
    else if rs[0].ok then Failed(rs[1..])
    else [Refusal(rs[0].target, rs[0].error)] + Failed(rs[1..])
  }

  function Succeeded(rs: seq<TargetResult>): seq<TargetResult> {
    if rs == [] then []
    else if rs[0].ok then [rs[0]] + Succeeded(rs[1..])
    else Succeeded(rs[1..])
  }

  /** `{"target": r.target, **r.data}`: a later key wins, the agent's own "target" included. */
  function Wrap(r: TargetResult): Entry {
    match r.data
    case Obj(fields) => map["target" := Str(r.target)] + fields
    case _ => map["target" := Str(r.target), "result" := r.data]
  }

  function WrapAll(rs: seq<TargetResult>): (es: seq<Entry>)
    ensures |es| == |rs|
    ensures forall i :: 0 <= i < |rs| ==> es[i] == Wrap(rs[i])
  {
    seq(|rs|, i requires 0 <= i < |rs| => Wrap(rs[i]))
  }

  function CountOk(rs: seq<TargetResult>): nat {
    if rs == [] then 0 else (if rs[0].ok then 1 else 0) + CountOk(rs[1..])
  }

  function MakeReport(rs: seq<TargetResult>): Report {
    Report(CountOk(rs), Failed(rs), WrapAll(Succeeded(rs)))
  }

  function Targets(rs: seq<TargetResult>): (ts: seq<string>)
    ensures |ts| == |rs|
    ensures forall i :: 0 <= i < |rs| ==> ts[i] == rs[i].target
  {
    seq(|rs|, i requires 0 <= i < |rs| => rs[i].target)
  }

  function RefusedTargets(fs: seq<Refusal>): (ts: seq<string>)
    ensures |ts| == |fs|
    ensures forall i :: 0 <= i < |fs| ==> ts[i] == fs[i].target
  {
    seq(|fs|, i requires 0 <= i < |fs| => fs[i].target)
  }

  lemma TargetsCons(r: TargetResult, rs: seq<TargetResult>)
    ensures multiset(Targets([r] + rs)) == multiset{r.target} + multiset(Targets(rs))
  {
    assert Targets([r] + rs) == [r.target] + Targets(rs);
  }

  lemma RefusedCons(f: Refusal, fs: seq<Refusal>)
    ensures multiset(RefusedTargets([f] + fs)) == multiset{f.target} + multiset(RefusedTargets(fs))
  {
    assert RefusedTargets([f] + fs) == [f.target] + RefusedTargets(fs);
  }

  lemma {:induction false} TargetsConserved(rs: seq<TargetResult>)
    ensures multiset(Targets(Succeeded(rs))) + multiset(RefusedTargets(Failed(rs))) == multiset(Targets(rs))
  {
    if rs != [] {
      var r, rest := rs[0], rs[1..];
      TargetsConserved(rest);
      assert rs == [r] + rest;
      TargetsCons(r, rest);
      if r.ok {
        TargetsCons(r, Succeeded(rest));
      } else {
        RefusedCons(Refusal(r.target, r.error), Failed(rest));
      }
    }
  }

  lemma {:induction false} CountsConserved(rs: seq<TargetResult>)
    ensures CountOk(rs) == |Succeeded(rs)|
    ensures CountOk(rs) + |Failed(rs)| == |rs|
  {
    if rs != [] {
      CountsConserved(rs[1..]);
    }
  }

  /** The failures are those of the results that are not ok, each with its own reason. */
  lemma {:induction false} FailuresTellReasons(rs: seq<TargetResult>)
    ensures forall f :: f in Failed(rs) <==> exists r <- rs :: !r.ok && f == Refusal(r.target, r.error)
  {
    if rs != [] {
      FailuresTellReasons(rs[1..]);
      assert rs == [rs[0]] + rs[1..];
    }
  }

  lemma {:induction false} SucceededAreOk(rs: seq<TargetResult>)
    ensures forall r :: r in Succeeded(rs) <==> r in rs && r.ok
  {
    if rs != [] {
      SucceededAreOk(rs[1..]);
    }
  }

  /** A report of one result after another is the reports one after another, so both lists are in the
      order of the results... */
  lemma {:induction false} ReportDistributes(a: seq<TargetResult>, b: seq<TargetResult>)
    ensures Failed(a + b) == Failed(a) + Failed(b)
    ensures Succeeded(a + b) == Succeeded(a) + Succeeded(b)
    ensures CountOk(a + b) == CountOk(a) + CountOk(b)
  {
    if a == [] {
      assert a + b == b;
    } else {
      var r, rest := a[0], a[1..];
      assert (a + b)[0] == r && (a + b)[1..] == rest + b;
      ReportDistributes(rest, b);
      AppendAssoc([r], Succeeded(rest), Succeeded(b));
      AppendAssoc([Refusal(r.target, r.error)], Failed(rest), Failed(b));
    }
  }

  /** ...and the report of one result is one entry. */
  lemma ReportOfOne(r: TargetResult)
    ensures MakeReport([r]) == if r.ok then Report(1, [], [Wrap(r)]) else Report(0, [Refusal(r.target, r.error)], [])
  {
    var rs, none := [r], [];
    assert rs[1..] == none;
    CountsConserved(rs);
    if r.ok {
      assert Succeeded(rs) == [r] + Succeeded(none);
      assert WrapAll(Succeeded(rs)) == [Wrap(r)];
    } else {
      assert Failed(rs) == [Refusal(r.target, r.error)] + Failed(none);
      assert WrapAll(Succeeded(rs)) == [];
    }
  }

  /** An entry keeps all the agent sent: the fields of a dict, or the value under `result`. */
  lemma WrapKeepsData(r: TargetResult)
    ensures r.data.Obj? ==>
              Wrap(r).Keys == r.data.fields.Keys + {"target"} && forall k <- r.data.fields :: Wrap(r)[k] == r.data.fields[k]
    ensures !r.data.Obj? ==> Wrap(r).Keys == {"target", "result"} && Wrap(r)["result"] == r.data
  {
  }

  /** Every target is reported once for each time it was asked, as a success or as a failure,
      and `ok` is the number of results. */
  lemma ReportConserves(rs: seq<TargetResult>)
    ensures var r := MakeReport(rs);
            && multiset(Targets(Succeeded(rs))) + multiset(RefusedTargets(r.failed)) == multiset(Targets(rs))
            && r.ok == |r.results|
            && r.ok + |r.failed| == |rs|
  {
    TargetsConserved(rs);
    CountsConserved(rs);
  }

  /** The agent sent a field named "target" that says something else. */
  predicate Misnamed(r: TargetResult) {
    r.data.Obj? && "target" in r.data.fields && r.data.fields["target"] != Str(r.target)
  }

  /** A result entry names its target, unless the agent's own "target" field overrides it. */
  lemma WrapNamesTarget(r: TargetResult)
    ensures "target" in Wrap(r)
    ensures Wrap(r)["target"] == Str(r.target) <==> !Misnamed(r)
  {
  }

  function EntryTargets(es: seq<Entry>): (vs: seq<Value>)
    requires forall i :: 0 <= i < |es| ==> "target" in es[i]
    ensures |vs| == |es|
    ensures forall i :: 0 <= i < |es| ==> vs[i] == es[i]["target"]
  {
    seq(|es|, i requires 0 <= i < |es| => es[i]["target"])
  }

  function Names(ts: seq<string>): (vs: seq<Value>)
    ensures |vs| == |ts|
    ensures forall i :: 0 <= i < |ts| ==> vs[i] == Str(ts[i])
  {
    seq(|ts|, i requires 0 <= i < |ts| => Str(ts[i]))
  }

  /** The visible entries name, in order, exactly the successful targets iff no agent misnames itself. */
  lemma EntriesNameTargets(rs: seq<TargetResult>)
    ensures var es := WrapAll(Succeeded(rs));
            && (forall i :: 0 <= i < |es| ==> "target" in es[i])
            && (EntryTargets(es) == Names(Targets(Succeeded(rs)))
                <==> forall i :: 0 <= i < |Succeeded(rs)| ==> !Misnamed(Succeeded(rs)[i]))
  {
    var ss := Succeeded(rs);
    var es := WrapAll(ss);
    forall i | 0 <= i < |ss|
      ensures "target" in es[i] && (es[i]["target"] == Str(ss[i].target) <==> !Misnamed(ss[i]))
    {
      WrapNamesTarget(ss[i]);
    }
    var vs, ns := EntryTargets(es), Names(Targets(ss));
    assert forall i :: 0 <= i < |ss| ==> (vs[i] == ns[i] <==> !Misnamed(ss[i]));
  }

  /** It does happen: an agent that answers `{"target": "other"}` is reported under that name. */
  lemma MisnamedEntry()
    ensures var r := TargetResult("10.0.0.1", true, Obj(map["target" := Str("other")]), None);
            Wrap(r)["target"] == Str("other")
  {
  }

  // ---------------------------------------------------------------- completion order

  /** A completion order of n futures: each index once. */
  ghost predicate CompletionOrder(order: seq<nat>, n: nat) {
    && |order| == n
    && (forall k :: 0 <= k < n ==> order[k] < n)
    && (forall j, k :: 0 <= j < k < n ==> order[j] != order[k])
  }

  function Pick<T>(xs: seq<T>, order: seq<nat>): (ys: seq<T>)
    requires forall k :: 0 <= k < |order| ==> order[k] < |xs|
    ensures |ys| == |order|
    ensures forall k :: 0 <= k < |order| ==> ys[k] == xs[order[k]]
  {
    seq(|order|, k requires 0 <= k < |order| => xs[order[k]])
  }

  lemma {:induction false} DistinctBelowCoversAll(order: seq<nat>, n: nat)
    requires CompletionOrder(order, n)
    ensures n > 0 ==> exists k :: 0 <= k < n && order[k] == n - 1
  {
    if n > 0 && forall k :: 0 <= k < n ==> order[k] != n - 1 {
      DistinctFit(order, n - 1);
    }
  }

  lemma {:induction false} DistinctFit(order: seq<nat>, n: nat)
    requires forall k :: 0 <= k < |order| ==> order[k] < n
    requires forall j, k :: 0 <= j < k < |order| ==> order[j] != order[k]
    ensures |order| <= n
  {
    if order != [] {
      assert order[0] < n;
      if k :| 0 <= k < |order| && order[k] == n - 1 {
        DistinctFit(order[..k] + order[k + 1..], n - 1);
      } else {
        DistinctFit(order, n - 1);
      }
    }
  }

  lemma OrderWithout(order: seq<nat>, n: nat, k: nat)
    requires CompletionOrder(order, n + 1) && k <= n && order[k] == n
    ensures CompletionOrder(order[..k] + order[k + 1..], n)
  {
  }

  /** Reading a list in completion order rearranges it. */
  lemma {:induction false} PickIsPermutation<T>(xs: seq<T>, order: seq<nat>)
    requires CompletionOrder(order, |xs|)
    ensures multiset(Pick(xs, order)) == multiset(xs)
  {
    if xs != [] {
      var n := |xs| - 1;
      DistinctBelowCoversAll(order, n + 1);
      var k :| 0 <= k <= n && order[k] == n;
      OrderWithout(order, n, k);
      PickIsPermutation(xs[..n], order[..k] + order[k + 1..]);
      PickWithout(xs, order, k);
      assert xs == xs[..n] + [xs[n]];
    }
  }

  lemma PickWithout<T>(xs: seq<T>, order: seq<nat>, k: nat)
    requires xs != [] && CompletionOrder(order, |xs|) && k < |order| && order[k] == |xs| - 1
    requires CompletionOrder(order[..k] + order[k + 1..], |xs| - 1)
    ensures multiset(Pick(xs, order)) ==
            multiset(Pick(xs[..|xs| - 1], order[..k] + order[k + 1..])) + multiset{xs[|xs| - 1]}
  {
    PickLeaves(xs, order, k);
    TakeOut(Pick(xs, order), k);
  }

  lemma PickLeaves<T>(xs: seq<T>, order: seq<nat>, k: nat)
    requires xs != [] && |order| == |xs| && k < |order|
    requires forall j :: 0 <= j < |order| ==> order[j] < |xs|
    requires CompletionOrder(order[..k] + order[k + 1..], |xs| - 1)
    ensures Pick(xs[..|xs| - 1], order[..k] + order[k + 1..]) == Pick(xs, order)[..k] + Pick(xs, order)[k + 1..]
  {
  }

  lemma TakeOut<T>(ys: seq<T>, k: nat)
    requires k < |ys|
    ensures multiset(ys) == multiset(ys[..k] + ys[k + 1..]) + multiset{ys[k]}
  {
    assert ys == ys[..k] + [ys[k]] + ys[k + 1..];
  }

  function ResultsOf(targets: seq<string>, endings: seq<Ending>): (rs: seq<TargetResult>)
    requires |endings| == |targets|
    ensures |rs| == |targets|
    ensures forall i :: 0 <= i < |rs| ==> rs[i] == ResultOf(targets[i], endings[i])
  {
    seq(|targets|, i requires 0 <= i < |targets| => ResultOf(targets[i], endings[i]))
  }

  /** The `as_completed` loop of `_run_batch` and `capture_stop`: futures are per list position, so
      duplicate targets are distinct tasks. */
  method Collect(targets: seq<string>, endings: seq<Ending>, order: seq<nat>) returns (results: seq<TargetResult>)
    requires |endings| == |targets| && CompletionOrder(order, |targets|)
    ensures results == Pick(ResultsOf(targets, endings), order)
    ensures multiset(results) == multiset(ResultsOf(targets, endings))
    ensures multiset(Targets(results)) == multiset(targets)
  {
    results := [];
    for n := 0 to |order|
      invariant results == Pick(ResultsOf(targets, endings), order[..n])
    {
      var i := order[n];
      match endings[i]
      case Escaped(message) => results := results + [Failure(targets[i], Text(message))];
      case _ => results := results + [ResultOf(targets[i], endings[i])];
    }
    assert order[..|order|] == order;
    PickIsPermutation(ResultsOf(targets, endings), order);
    PickIsPermutation(targets, order);
    assert Targets(results) == Pick(targets, order);
  }

  /** The body of `_run_batch` after submission: the report and the audit counts. */
  method RunBatch(resolved: seq<string>, endings: seq<Ending>, order: seq<nat>)
    returns (report: Report, auditOk: nat, auditFailed: nat, ghost rs: seq<TargetResult>)
    requires |endings| == |resolved| && CompletionOrder(order, |resolved|)
    ensures report.ok == |report.results| == auditOk
    ensures auditFailed == |report.failed|
    ensures auditOk + auditFailed == |resolved|
    ensures rs == Pick(ResultsOf(resolved, endings), order)
    ensures multiset(rs) == multiset(ResultsOf(resolved, endings))
    ensures report == MakeReport(rs)
    ensures forall f :: f in report.failed <==> exists r <- rs :: !r.ok && f == Refusal(r.target, r.error)
    ensures multiset(Targets(Succeeded(rs))) + multiset(RefusedTargets(report.failed)) == multiset(resolved)
  {
    var results := Collect(resolved, endings, order);
    rs := results;
    report := MakeReport(results);
    ReportConserves(results);
    FailuresTellReasons(results);
    auditOk := 0;
    auditFailed := 0;
    for n := 0 to |results|
      invariant auditOk + auditFailed == n
      invariant auditOk + CountOk(results[n..]) == CountOk(results)
    {
      assert results[n..][1..] == results[n + 1..];
      if results[n].ok {
        auditOk := auditOk + 1;
      } else {
        auditFailed := auditFailed + 1;
      }
    }
    assert |multiset(Targets(results))| == |results|;
  }

  /** The end of a lock-free read: the data, whatever it is, or an exception. */
  function ReadResult(target: string, r: FnResult): TargetResult {
    match r
    case Returned(data) => TargetResult(target, true, data, None)
    case Raised(message) => Failure(target, Text(message))
  }

  /** A read succeeds iff its call did not raise, False and error dicts included. */
  lemma ReadTells(target: string, r: FnResult)
    ensures ReadResult(target, r).target == target && (ReadResult(target, r).ok <==> r.Returned?)
    ensures r.Returned? ==> ReadResult(target, r).data == r.data && ReadResult(target, r).error == None
    ensures r.Raised? ==> ReadResult(target, r).error == Some(Text(r.message))
  {
  }

  function ReadResults(targets: seq<string>, futures: seq<FnResult>): (rs: seq<TargetResult>)
    requires |futures| == |targets|
    ensures |rs| == |targets|
    ensures forall i :: 0 <= i < |rs| ==> rs[i] == ReadResult(targets[i], futures[i])
  {
    seq(|targets|, i requires 0 <= i < |targets| => ReadResult(targets[i], futures[i]))
  }

  /** `Scheduler.batch`: one result per requested target, in completion order, ok iff nothing was raised. */
  method SchedulerBatch(targets: seq<string>, futures: seq<FnResult>, order: seq<nat>) returns (results: seq<TargetResult>)
    requires |futures| == |targets| && CompletionOrder(order, |targets|)
    ensures results == Pick(ReadResults(targets, futures), order)
    ensures multiset(results) == multiset(ReadResults(targets, futures))
    ensures multiset(Targets(results)) == multiset(targets)
  {
    results := [];
    for n := 0 to |order|
      invariant results == Pick(ReadResults(targets, futures), order[..n])
    {
      var i := order[n];
      match futures[i]
      case Returned(data) => results := results + [TargetResult(targets[i], true, data, None)];
      case Raised(message) => results := results + [TargetResult(targets[i], false, Null, Some(Text(message)))];
    }
    assert order[..|order|] == order;
    PickIsPermutation(ReadResults(targets, futures), order);
    PickIsPermutation(targets, order);
    assert Targets(results) == Pick(targets, order);
  }
}
