/**
 On which call, tool and request `audit.ts` books a tool result, read off the lines of the session.
 */
module SessionBooking {
  import opened StableSort
  import opened SessionAudit

  /** How many assistant lines there are. */
  function Requests(entries: seq<Entry>): nat {
    if entries == [] then 0 else Requests(entries[..|entries| - 1]) + if entries[|entries| - 1].Assistant? then 1 else 0
  }

  /** What is known of the call a result answers; without one, the result's own name. */
  datatype Booking = Unknown | Call(name: string, summary: string, request: nat)

  /** The last of these calls with this id. */
  function LastWithId(calls: seq<ToolCall>, id: string, request: nat): Booking {
    if calls == [] then Unknown
    else
      var c := calls[|calls| - 1];
      if c.id == id then Call(c.name, c.summary, request) else LastWithId(calls[..|calls| - 1], id, request)
  }

  /** The last call with this id that no result has answered since, under the number of its request. */
  function OpenCall(entries: seq<Entry>, id: string): Booking {
    if entries == [] then Unknown
    else
      var front, e := entries[..|entries| - 1], entries[|entries| - 1];
      match e
      case Assistant(calls) =>
        var here := LastWithId(calls, id, Requests(entries));
        if here.Call? then here else OpenCall(front, id)
      case ToolResult(callId, _, _, _) => if callId == id then Unknown else OpenCall(front, id)
      case Other => OpenCall(front, id)
  }

  /** The line of the log for a result that comes after these entries. */
  function LogLine(entries: seq<Entry>, e: Entry): Logged
    requires e.ToolResult?
  {
    match OpenCall(entries, e.callId)
    case Call(name, _, request) => Logged(name, e.toks, request)
    case Unknown => Logged(e.toolName, e.toks, Requests(entries))
  }

  function BigLine(entries: seq<Entry>, e: Entry): Big
    requires e.ToolResult?
  {
    match OpenCall(entries, e.callId)
    case Call(name, summary, _) => Big(name, summary, e.toks)
    case Unknown => Big(e.toolName, e.bareSummary, e.toks)
  }

  /** One line per result, in order. */
  function LogOf(entries: seq<Entry>): seq<Logged> {
    if entries == [] then []
    else
      var front, e := entries[..|entries| - 1], entries[|entries| - 1];
      if e.ToolResult? then LogOf(front) + [LogLine(front, e)] else LogOf(front)
  }

  /** Results of more than 2000 tokens, in order. */
  function BigOf(entries: seq<Entry>): seq<Big> {
    if entries == [] then []
    else
      var front, e := entries[..|entries| - 1], entries[|entries| - 1];
      if e.ToolResult? && e.toks > 2000 then BigOf(front) + [BigLine(front, e)] else BigOf(front)
  }

  // ----- The scan keeps just this

  lemma {:induction false} OpensCalls(s: Scan, calls: seq<ToolCall>, id: string)
    ensures var s', here := OpenCalls(s, calls), LastWithId(calls, id, s.requests);
            && s'.requests == s.requests
            && (here.Call? ==> id in s'.pending && s'.pending[id] == Pending(here.name, here.summary, here.request))
            && (here.Unknown? ==> (id in s'.pending <==> id in s.pending) && (id in s.pending ==> s'.pending[id] == s.pending[id]))
  {
    if calls != [] {
      OpensCalls(s, calls[..|calls| - 1], id);
    }
  }

  lemma {:induction false} CountsRequests(entries: seq<Entry>)
    ensures FeedAll(entries).requests == Requests(entries)
  {
    if entries != [] {
      var front, e := entries[..|entries| - 1], entries[|entries| - 1];
      CountsRequests(front);
      if e.Assistant? {
        OpensCalls(FeedAll(front).(requests := FeedAll(front).requests + 1), e.calls, "");
      }
    }
  }

  ghost predicate Holds(pending: map<string, Pending>, id: string, call: Booking) {
    match call
    case Call(name, summary, request) => id in pending && pending[id] == Pending(name, summary, request)
    case Unknown => id !in pending
  }

  /** A call is pending exactly as long as it is open. */
  lemma {:induction false} PendingIsOpen(entries: seq<Entry>, id: string)
    ensures Holds(FeedAll(entries).pending, id, OpenCall(entries, id))
  {
    if entries != [] {
      var front, e := entries[..|entries| - 1], entries[|entries| - 1];
      PendingIsOpen(front, id);
      CountsRequests(front);
      if e.Assistant? {
        OpensCalls(FeedAll(front).(requests := FeedAll(front).requests + 1), e.calls, id);
      }
    }
  }

  lemma {:induction false} AttributesExactly(entries: seq<Entry>, e: Entry)
    requires e.ToolResult?
    ensures var call := Attribute(FeedAll(entries), e);
            && Logged(call.name, e.toks, call.request) == LogLine(entries, e)
            && Big(call.name, call.summary, e.toks) == BigLine(entries, e)
  {
    PendingIsOpen(entries, e.callId);
    CountsRequests(entries);
  }

  /** The log holds one line per result, on the tool and request of the call it answers. */
  lemma {:induction false} LogIsExact(entries: seq<Entry>)
    ensures FeedAll(entries).log == LogOf(entries)
  {
    if entries != [] {
      var front, e := entries[..|entries| - 1], entries[|entries| - 1];
      LogIsExact(front);
      match e
      case Assistant(calls) => OpenCallsKeeps(FeedAll(front).(requests := FeedAll(front).requests + 1), calls);
      case ToolResult(_, _, _, _) => AttributesExactly(front, e);
      case Other =>
    }
  }

  lemma {:induction false} BigIsExact(entries: seq<Entry>)
    ensures BigResults(entries) == BigOf(entries)
  {
    if entries != [] {
      var front, e := entries[..|entries| - 1], entries[|entries| - 1];
      BigIsExact(front);
      if e.ToolResult? {
        AttributesExactly(front, e);
      }
    }
  }

  // ----- The largest results

  function Twelve(s: seq<Big>): seq<Big> {
    if |s| <= 12 then s else s[..12]
  }

  /** These are the large results, the largest first and equal ones in the order of the file. */
  ghost predicate Ranked(s: seq<Big>, all: seq<Big>) {
    && multiset(s) == multiset(all)
    && (forall i, j :: 0 <= i < j < |s| ==> s[i].toks >= s[j].toks)
    && (forall toks: nat :: OfSize(s, toks) == OfSize(all, toks))
  }

  function OfSize(s: seq<Big>, toks: nat): seq<Big> {
    if s == [] then [] else (if s[0].toks == toks then [s[0]] else []) + OfSize(s[1..], toks)
  }

  lemma {:induction false} OfSizeIsAlike(s: seq<Big>, x: Big)
    ensures Alike(s, x, LARGER) == OfSize(s, x.toks)
  {
    if s != [] {
      OfSizeIsAlike(s[1..], x);
    }
  }

  lemma {:induction false} SortRanks(all: seq<Big>)
    ensures Ranked(SortStable(all), all)
  {
    var s := SortStable(all);
    SortStableMeaning(all);
    SortMeaning(all, LARGER);
    forall i, j | 0 <= i < j < |s| ensures s[i].toks >= s[j].toks {
      assert !LARGER(s[j], s[i]);
    }
    forall toks: nat ensures OfSize(s, toks) == OfSize(all, toks) {
      OfSizeIsAlike(s, Big("", "", toks));
      OfSizeIsAlike(all, Big("", "", toks));
    }
  }

  /** What the report shows are the twelve largest results over 2000 tokens, and the buffer never holds
      more than 24. */
  lemma {:induction false} TwelveLargest(entries: seq<Entry>)
    ensures Ranked(SortStable(BigOf(entries)), BigOf(entries))
    ensures TopOf(FeedAll(entries).top) == Twelve(SortStable(BigOf(entries)))
    ensures |FeedAll(entries).top| <= 24
  {
    PrunedBufferIsExact(entries);
    BigIsExact(entries);
    SortRanks(BigOf(entries));
  }
}
