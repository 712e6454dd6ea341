/**
 Two figures `audit.ts` collects while scanning a session file: the largest tool results, kept
 in a buffer that is pruned as it grows, and the context residency of every tool, computed from
 a log once the scan is over.
 */
module SessionAudit {
  import opened StableSort

  datatype ToolCall = ToolCall(id: string, name: string, summary: string)

  /** The entries that matter here; every other kind of line is `Other`. */
  datatype Entry =
    | Assistant(calls: seq<ToolCall>)
    | ToolResult(callId: string, toolName: string, toks: nat, bareSummary: string)
    | Other

  datatype Big = Big(tool: string, summary: string, toks: nat)

  /** The comparator of the buffer: more tokens first. */
  const LARGER: (Big, Big) -> bool := (x: Big, y: Big) => x.toks > y.toks

  function SortStable(xs: seq<Big>): seq<Big> {
    Sort(xs, LARGER)
  }

  lemma {:induction false} SortStableMeaning(xs: seq<Big>)
    ensures WeakOrder(LARGER) && IsStableSort(SortStable(xs), xs, LARGER)
  {
    SortMeaning(xs, LARGER);
  }

  // ----- The pruned buffer

  const KEEP: nat := 12
  const ROOM: nat := 24
  const BIG: nat := 2000

  function Take(s: seq<Big>, k: nat): seq<Big> {
    if |s| <= k then s else s[..k]
  }

  /** Only the first `k` of a sorted list decide the first `k` after one more insertion. */
  lemma {:induction false} InsertIntoTop(s: seq<Big>, x: Big, k: nat)
    ensures Take(Insert(s, x, LARGER), k) == Take(Insert(Take(s, k), x, LARGER), k)
  {
    if s != [] && k > 0 && !LARGER(x, s[0]) {
      InsertIntoTop(s[1..], x, k - 1);
      assert Take(s, k)[1..] == Take(s[1..], k - 1);
      var rest, top := Insert(s[1..], x, LARGER), Insert(Take(s[1..], k - 1), x, LARGER);
      assert Take([s[0]] + rest, k) == [s[0]] + Take(rest, k - 1);
      assert Take([s[0]] + top, k) == [s[0]] + Take(top, k - 1);
    }
  }

  /** One push: sort and cut when the buffer has outgrown its room. */
  function Push(buffer: seq<Big>, x: Big): seq<Big> {
    var grown := buffer + [x];
    if |grown| > ROOM then Take(SortStable(grown), KEEP) else grown
  }

  function TopOf(buffer: seq<Big>): seq<Big> {
    Take(SortStable(buffer), KEEP)
  }

  lemma {:induction false} PushKeepsTop(buffer: seq<Big>, all: seq<Big>, x: Big)
    requires TopOf(buffer) == TopOf(all)
    ensures TopOf(Push(buffer, x)) == TopOf(all + [x])
  {
    var grown := buffer + [x];
    assert grown[..|grown| - 1] == buffer && (all + [x])[..|all + [x]| - 1] == all;
    InsertIntoTop(SortStable(buffer), x, KEEP);
    InsertIntoTop(SortStable(all), x, KEEP);
    assert TopOf(grown) == TopOf(all + [x]);
    if |grown| > ROOM {
      SortStableMeaning(grown);
      SortOfOrdered(TopOf(grown), LARGER);
    }
  }

  // ----- The scan

  datatype Pending = Pending(name: string, summary: string, request: nat)
  datatype Logged = Logged(tool: string, toks: nat, request: nat)
  datatype Agg = Agg(calls: nat, resultToks: nat, residency: nat)

  datatype Scan = Scan(
    requests: nat, pending: map<string, Pending>, log: seq<Logged>,
    tools: map<string, Agg>, top: seq<Big>)

  const EMPTY := Scan(0, map[], [], map[], [])

  function ToolOf(tools: map<string, Agg>, name: string): Agg {
    if name in tools then tools[name] else Agg(0, 0, 0)
  }

  function OpenCalls(s: Scan, calls: seq<ToolCall>): Scan {
    if calls == [] then s
    else
      var before, c := OpenCalls(s, calls[..|calls| - 1]), calls[|calls| - 1];
      var agg := ToolOf(before.tools, c.name);
      before.(pending := before.pending[c.id := Pending(c.name, c.summary, before.requests)],
              tools := before.tools[c.name := agg.(calls := agg.calls + 1)])
  }

  /** The tool a result is booked on, and the request it is dated to. */
  function Attribute(s: Scan, e: Entry): Pending
    requires e.ToolResult?
  {
    if e.callId in s.pending then s.pending[e.callId] else Pending(e.toolName, e.bareSummary, s.requests)
  }

  function Feed(s: Scan, e: Entry): Scan {
    match e
    case Assistant(calls) => OpenCalls(s.(requests := s.requests + 1), calls)
    case ToolResult(callId, _, toks, _) =>
      var call := Attribute(s, e);
      var agg := ToolOf(s.tools, call.name);
      Scan(s.requests, s.pending - {callId}, s.log + [Logged(call.name, toks, call.request)],
           s.tools[call.name := agg.(resultToks := agg.resultToks + toks)],
           if toks > BIG then Push(s.top, Big(call.name, call.summary, toks)) else s.top)
    case Other => s
  }

  function FeedAll(entries: seq<Entry>): Scan {
    if entries == [] then EMPTY else Feed(FeedAll(entries[..|entries| - 1]), entries[|entries| - 1])
  }

  /** Every result over the threshold, in file order. */
  function BigResults(entries: seq<Entry>): seq<Big> {
    if entries == [] then []
    else
      var front, e := entries[..|entries| - 1], entries[|entries| - 1];
      if e.ToolResult? && e.toks > BIG
      then var call := Attribute(FeedAll(front), e);
           BigResults(front) + [Big(call.name, call.summary, e.toks)]
      else BigResults(front)
  }

  lemma {:induction false} OpenCallsKeeps(s: Scan, calls: seq<ToolCall>)
    ensures var s' := OpenCalls(s, calls);
            && s'.top == s.top && s'.log == s.log && s'.requests == s.requests
            && (forall t :: t in s.tools ==> t in s'.tools)
            && (forall t :: t in s'.tools ==> s'.tools[t].residency == ToolOf(s.tools, t).residency)
            && ((forall id :: id in s.pending ==> s.pending[id].request <= s.requests) ==>
                (forall id :: id in s'.pending ==> s'.pending[id].request <= s.requests))
  {
    if calls != [] {
      OpenCallsKeeps(s, calls[..|calls| - 1]);
    }
  }

  /** Pruning is invisible: at any moment the sorted, cut buffer is what sorting everything seen so
      far and taking twelve would give, ties included, and it never holds more than 24. */
  lemma {:induction false} PrunedBufferIsExact(entries: seq<Entry>)
    ensures TopOf(FeedAll(entries).top) == TopOf(BigResults(entries))
    ensures |FeedAll(entries).top| <= ROOM
  {
    if entries != [] {
      var n := |entries| - 1;
      PrunedBufferIsExact(entries[..n]);
      var s, e := FeedAll(entries[..n]), entries[n];
      match e
      case Assistant(calls) =>
        OpenCallsKeeps(s.(requests := s.requests + 1), calls);
      case ToolResult(_, _, _, _) =>
        ResultKeepsTop(s, e, BigResults(entries[..n]));
      case Other =>
    }
  }

  /** One result is pushed exactly if it is large. */
  lemma {:induction false} ResultKeepsTop(s: Scan, e: Entry, all: seq<Big>)
    requires e.ToolResult? && TopOf(s.top) == TopOf(all) && |s.top| <= ROOM
    ensures var big := Big(Attribute(s, e).name, Attribute(s, e).summary, e.toks);
            TopOf(Feed(s, e).top) == TopOf(if e.toks > BIG then all + [big] else all) && |Feed(s, e).top| <= ROOM
  {
    if e.toks > BIG {
      PushKeepsTop(s.top, all, Big(Attribute(s, e).name, Attribute(s, e).summary, e.toks));
    }
  }

  // ----- Residency

  /** Nothing is dated to the future, and every logged tool has an aggregate still at zero. */
  ghost predicate Consistent(s: Scan) {
    && (forall id :: id in s.pending ==> s.pending[id].request <= s.requests)
    && (forall i :: 0 <= i < |s.log| ==> s.log[i].request <= s.requests && s.log[i].tool in s.tools)
    && (forall t :: t in s.tools ==> s.tools[t].residency == 0)
  }

  lemma {:induction false} FeedKeepsConsistent(s: Scan, e: Entry)
    requires Consistent(s)
    ensures Consistent(Feed(s, e))
  {
    if e.Assistant? {
      OpenCallsKeeps(s.(requests := s.requests + 1), e.calls);
    }
  }

  lemma {:induction false} ScanIsConsistent(entries: seq<Entry>)
    ensures Consistent(FeedAll(entries))
  {
    if entries != [] {
      ScanIsConsistent(entries[..|entries| - 1]);
      FeedKeepsConsistent(FeedAll(entries[..|entries| - 1]), entries[|entries| - 1]);
    }
  }

  function Later(requests: nat, r: Logged): nat {
    if requests > r.request then requests - r.request else 0
  }

  function AddResidency(tools: map<string, Agg>, log: seq<Logged>, requests: nat): map<string, Agg> {
    if log == [] then tools
    else
      var before, r := AddResidency(tools, log[..|log| - 1], requests), log[|log| - 1];
      if r.tool in before
      then before[r.tool := before[r.tool].(residency := before[r.tool].residency + r.toks * Later(requests, r))]
      else before
  }

  /** What `request` pays again: the tokens of the results of one tool called before it. */
  function Carried(log: seq<Logged>, tool: string, request: nat): nat {
    if log == [] then 0
    else
      var r := log[|log| - 1];
      Carried(log[..|log| - 1], tool, request) + if r.tool == tool && r.request < request then r.toks else 0
  }

  /** The step-by-step accrual: one request after the other, each paying what it carries. */
  function Accrued(log: seq<Logged>, tool: string, requests: nat): nat {
    if requests == 0 then 0 else Accrued(log, tool, requests - 1) + Carried(log, tool, requests)
  }

  lemma {:induction false} AccruedOneMore(log: seq<Logged>, r: Logged, tool: string, requests: nat)
    ensures Accrued(log + [r], tool, requests) ==
            Accrued(log, tool, requests) + if r.tool == tool then r.toks * Later(requests, r) else 0
  {
    if requests > 0 {
      AccruedOneMore(log, r, tool, requests - 1);
      assert (log + [r])[..|log + [r]| - 1] == log;
      assert Carried(log + [r], tool, requests) ==
             Carried(log, tool, requests) + if r.tool == tool && r.request < requests then r.toks else 0;
      if requests > r.request {
        assert Later(requests, r) == Later(requests - 1, r) + 1;
        assert r.toks * (Later(requests - 1, r) + 1) == r.toks * Later(requests - 1, r) + r.toks;
      }
    }
  }

  lemma {:induction false} AddResidencyIsAccrual(tools: map<string, Agg>, log: seq<Logged>, requests: nat, tool: string)
    requires tool in tools && forall t :: t in tools ==> tools[t].residency == 0
    ensures AddResidency(tools, log, requests).Keys == tools.Keys
    ensures AddResidency(tools, log, requests)[tool].residency == Accrued(log, tool, requests)
  {
    if log == [] {
      AccruedOfNothing(tool, requests);
    } else {
      var n := |log| - 1;
      AddResidencyIsAccrual(tools, log[..n], requests, tool);
      assert log == log[..n] + [log[n]];
      AccruedOneMore(log[..n], log[n], tool, requests);
    }
  }

  lemma {:induction false} AccruedOfNothing(tool: string, requests: nat)
    ensures Accrued([], tool, requests) == 0
  {
    if requests > 0 {
      AccruedOfNothing(tool, requests - 1);
    }
  }

  /** The residency of every tool, added up after the scan as tokens times later requests, is the
      step-by-step accrual; no logged result is lost for want of an aggregate. */
  lemma {:induction false} ResidencyIsAccrual(entries: seq<Entry>, tool: string)
    ensures var s := FeedAll(entries);
            var tools := AddResidency(s.tools, s.log, s.requests);
            && tools.Keys == s.tools.Keys
            && (tool in tools ==> tools[tool].residency == Accrued(s.log, tool, s.requests))
            && (tool !in tools ==> Accrued(s.log, tool, s.requests) == 0)
  {
    var s := FeedAll(entries);
    ScanIsConsistent(entries);
    KeysStay(s.tools, s.log, s.requests);
    if tool in s.tools {
      AddResidencyIsAccrual(s.tools, s.log, s.requests, tool);
    } else {
      UnloggedToolAccruesNothing(s.log, tool, s.requests);
    }
  }

  lemma {:induction false} KeysStay(tools: map<string, Agg>, log: seq<Logged>, requests: nat)
    ensures AddResidency(tools, log, requests).Keys == tools.Keys
  {
    if log != [] {
      KeysStay(tools, log[..|log| - 1], requests);
    }
  }

  lemma {:induction false} UnloggedToolAccruesNothing(log: seq<Logged>, tool: string, requests: nat)
    requires forall i :: 0 <= i < |log| ==> log[i].tool != tool
    ensures Accrued(log, tool, requests) == 0
  {
    if log == [] {
      AccruedOfNothing(tool, requests);
    } else {
      var n := |log| - 1;
      UnloggedToolAccruesNothing(log[..n], tool, requests);
      assert log == log[..n] + [log[n]];
      AccruedOneMore(log[..n], log[n], tool, requests);
    }
  }

  // ----- Late results

  /** An accrual made during the scan: each request pays the results logged before it. */
  function Online(entries: seq<Entry>, tool: string): nat {
    if entries == [] then 0
    else
      var front, e := entries[..|entries| - 1], entries[|entries| - 1];
      Online(front, tool) + if e.Assistant? then Booked(FeedAll(front).log, tool) else 0
  }

  function Booked(log: seq<Logged>, tool: string): nat {
    if log == [] then 0
    else Booked(log[..|log| - 1], tool) + if log[|log| - 1].tool == tool then log[|log| - 1].toks else 0
  }

  /** Tokens times the requests that had gone by between the call and the arrival of its result. */
  function Lateness(entries: seq<Entry>, tool: string): nat {
    if entries == [] then 0
    else
      var front, e := entries[..|entries| - 1], entries[|entries| - 1];
      var s := FeedAll(front);
      Lateness(front, tool) +
      if e.ToolResult? && Attribute(s, e).name == tool
      then e.toks * Later(s.requests, Logged(tool, e.toks, Attribute(s, e).request)) else 0
  }

  lemma {:induction false} NextRequestCarriesAll(log: seq<Logged>, tool: string, requests: nat)
    requires forall i :: 0 <= i < |log| ==> log[i].request <= requests
    ensures Carried(log, tool, requests + 1) == Booked(log, tool)
  {
    if log != [] {
      NextRequestCarriesAll(log[..|log| - 1], tool, requests);
    }
  }

  /** What one more entry adds to the step-by-step accrual. */
  lemma {:induction false} AccrualStep(s: Scan, e: Entry, tool: string)
    requires Consistent(s)
    ensures Accrued(Feed(s, e).log, tool, Feed(s, e).requests) ==
            Accrued(s.log, tool, s.requests) +
            (if e.Assistant? then Booked(s.log, tool) else 0) +
            (if e.ToolResult? && Attribute(s, e).name == tool
             then e.toks * Later(s.requests, Logged(tool, e.toks, Attribute(s, e).request)) else 0)
  {
    match e
    case Assistant(calls) =>
      OpenCallsKeeps(s.(requests := s.requests + 1), calls);
      NextRequestCarriesAll(s.log, tool, s.requests);
    case ToolResult(_, _, toks, _) =>
      var call := Attribute(s, e);
      AccruedOneMore(s.log, Logged(call.name, toks, call.request), tool, s.requests);
    case Other =>
  }

  /** The figure of the report exceeds the pay-as-you-go one by exactly the lateness of results
      that arrive after further requests; with prompt results the two are equal. */
  lemma {:induction false} ResidencyIsOnlinePlusLateness(entries: seq<Entry>, tool: string)
    ensures Accrued(FeedAll(entries).log, tool, FeedAll(entries).requests)
            == Online(entries, tool) + Lateness(entries, tool)
  {
    if entries != [] {
      var n := |entries| - 1;
      ResidencyIsOnlinePlusLateness(entries[..n], tool);
      ScanIsConsistent(entries[..n]);
      AccrualStep(FeedAll(entries[..n]), entries[n], tool);
    }
  }

  // ----- Calls and result tokens of a tool

  function CallsTo(calls: seq<ToolCall>, tool: string): nat {
    if calls == [] then 0
    else CallsTo(calls[..|calls| - 1], tool) + if calls[|calls| - 1].name == tool then 1 else 0
  }

  /** How often the session calls a tool. */
  function CallsNamed(entries: seq<Entry>, tool: string): nat {
    if entries == [] then 0
    else
      var e := entries[|entries| - 1];
      CallsNamed(entries[..|entries| - 1], tool) + if e.Assistant? then CallsTo(e.calls, tool) else 0
  }

  predicate IsLogged(log: seq<Logged>, tool: string) {
    exists i :: 0 <= i < |log| && log[i].tool == tool
  }

  lemma {:induction false} OpenCallsCounts(s: Scan, calls: seq<ToolCall>, tool: string)
    ensures var s' := OpenCalls(s, calls);
            && (tool in s'.tools <==> tool in s.tools || CallsTo(calls, tool) > 0)
            && ToolOf(s'.tools, tool).calls == ToolOf(s.tools, tool).calls + CallsTo(calls, tool)
            && ToolOf(s'.tools, tool).resultToks == ToolOf(s.tools, tool).resultToks
            && s'.log == s.log
  {
    if calls != [] {
      OpenCallsCounts(s, calls[..|calls| - 1], tool);
    }
  }

  lemma {:induction false} LogGrows(log: seq<Logged>, r: Logged, tool: string)
    ensures IsLogged(log + [r], tool) <==> IsLogged(log, tool) || r.tool == tool
    ensures Booked(log + [r], tool) == Booked(log, tool) + if r.tool == tool then r.toks else 0
  {
    var grown := log + [r];
    assert grown[..|log|] == log && grown[|log|] == r;
    if IsLogged(log, tool) {
      var i :| 0 <= i < |log| && log[i].tool == tool;
      assert grown[i] == log[i];
    }
  }

  /** A tool is listed when it was called or a result was booked on it, with its number of calls and the
      tokens of those results. */
  lemma {:induction false} ToolsAreCounted(entries: seq<Entry>, tool: string)
    ensures var s := FeedAll(entries);
            && (tool in s.tools <==> CallsNamed(entries, tool) > 0 || IsLogged(s.log, tool))
            && ToolOf(s.tools, tool).calls == CallsNamed(entries, tool)
            && ToolOf(s.tools, tool).resultToks == Booked(s.log, tool)
  {
    if entries != [] {
      var front, e := entries[..|entries| - 1], entries[|entries| - 1];
      var s := FeedAll(front);
      ToolsAreCounted(front, tool);
      match e
      case Assistant(calls) => OpenCallsCounts(s.(requests := s.requests + 1), calls, tool);
      case ToolResult(_, _, toks, _) =>
        var call := Attribute(s, e);
        LogGrows(s.log, Logged(call.name, toks, call.request), tool);
      case Other =>
    }
  }

  lemma {:induction false} ResidencyKeepsCounts(tools: map<string, Agg>, log: seq<Logged>, requests: nat, tool: string)
    ensures ToolOf(AddResidency(tools, log, requests), tool).calls == ToolOf(tools, tool).calls
    ensures ToolOf(AddResidency(tools, log, requests), tool).resultToks == ToolOf(tools, tool).resultToks
  {
    if log != [] {
      ResidencyKeepsCounts(tools, log[..|log| - 1], requests, tool);
    }
  }

  // ----- The scanner object

  class FileScanner {
    var requests: nat
    var pending: map<string, Pending>
    var log: seq<Logged>
    var tools: map<string, Agg>
    var top: seq<Big>

    ghost function State(): Scan
      reads this
    {
      Scan(requests, pending, log, tools, top)
    }

    constructor ()
      ensures State() == EMPTY
    {
      requests, pending, log, tools, top := 0, map[], [], map[], [];
    }

    method OnAssistant(calls: seq<ToolCall>)
      modifies this
      ensures State() == Feed(old(State()), Assistant(calls))
    {
      requests := requests + 1;
      ghost var start := State();
      for i := 0 to |calls|
        invariant State() == OpenCalls(start, calls[..i])
      {
        var c := calls[i];
        assert calls[..i + 1][..i] == calls[..i];
        var agg := ToolOf(tools, c.name);
        tools := tools[c.name := agg.(calls := agg.calls + 1)];
        pending := pending[c.id := Pending(c.name, c.summary, requests)];
      }
      assert calls[..|calls|] == calls;
    }

    method PushBig(big: Big)
      modifies this
      ensures State() == old(State()).(top := Push(old(top), big))
    {
      top := top + [big];
      if |top| > ROOM {
        top := SortStable(top);
        top := Take(top, KEEP);
      }
    }

    method OnToolResult(callId: string, toolName: string, toks: nat, bareSummary: string)
      modifies this
      ensures State() == Feed(old(State()), ToolResult(callId, toolName, toks, bareSummary))
    {
      var call := if callId in pending then pending[callId] else Pending(toolName, bareSummary, requests);
      var agg := ToolOf(tools, call.name);
      tools := tools[call.name := agg.(resultToks := agg.resultToks + toks)];
      log := log + [Logged(call.name, toks, call.request)];
      if toks > BIG {
        PushBig(Big(call.name, call.summary, toks));
      }
      pending := pending - {callId};
    }

    /** The two passes after the line loop. */
    method Finish()
      modifies this
      ensures State() == old(State()).(tools := AddResidency(old(tools), old(log), old(requests)), top := TopOf(old(top)))
    {
      for i := 0 to |log|
        invariant log == old(log)
        invariant State() == old(State()).(tools := AddResidency(old(tools), log[..i], requests))
      {
        var r := log[i];
        assert log[..i + 1][..i] == log[..i];
        var later := if requests > r.request then requests - r.request else 0;
        if r.tool in tools {
          tools := tools[r.tool := tools[r.tool].(residency := tools[r.tool].residency + r.toks * later)];
        }
      }
      assert log[..|log|] == log;
      top := SortStable(top);
      top := Take(top, KEEP);
    }
  }

  /** The aggregate of a tool after both passes. */
  ghost predicate Accounted(entries: seq<Entry>, t: string, tools: map<string, Agg>) {
    && (t in tools <==> CallsNamed(entries, t) > 0 || IsLogged(FeedAll(entries).log, t))
    && (t in tools ==>
          && tools[t].calls == CallsNamed(entries, t) && tools[t].resultToks == Booked(FeedAll(entries).log, t)
          && tools[t].residency == Online(entries, t) + Lateness(entries, t))
  }

  lemma {:induction false} ToolIsAccounted(entries: seq<Entry>, t: string)
    ensures var s := FeedAll(entries); Accounted(entries, t, AddResidency(s.tools, s.log, s.requests))
  {
    var s := FeedAll(entries);
    ToolsAreCounted(entries, t);
    ResidencyKeepsCounts(s.tools, s.log, s.requests, t);
    ResidencyIsAccrual(entries, t);
    ResidencyIsOnlinePlusLateness(entries, t);
  }

  /** `scanFile` on decoded lines. */
  method ScanFile(entries: seq<Entry>) returns (tools: map<string, Agg>, top: seq<Big>)
    ensures top == Take(SortStable(BigResults(entries)), KEEP)
    ensures forall t :: Accounted(entries, t, tools)
  {
    var scanner := new FileScanner();
    for i := 0 to |entries|
      invariant fresh(scanner) && scanner.State() == FeedAll(entries[..i])
    {
      assert entries[..i + 1][..i] == entries[..i];
      match entries[i]
      case Assistant(calls) => scanner.OnAssistant(calls);
      case ToolResult(callId, toolName, toks, bareSummary) =>
        scanner.OnToolResult(callId, toolName, toks, bareSummary);
      case Other =>
    }
    assert entries[..|entries|] == entries;
    PrunedBufferIsExact(entries);
    scanner.Finish();
    forall t ensures Accounted(entries, t, scanner.tools) {
      ToolIsAccounted(entries, t);
    }
    tools, top := scanner.tools, scanner.top;
  }
}
