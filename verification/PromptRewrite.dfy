/**
 The rewrite of `rewrite-system-prompt.ts`: which lines may be sent to the model, how its answers
 are accepted, and how the file is put together again.
 */
module PromptRewrite {
  import opened Wrappers
  import opened PromptText
  import WorkerPool

  // ----- Lines that are never sent

  function TrimStart(s: string): string {
    if s != "" && IsSpace(s[0]) then TrimStart(s[1..]) else s
  }

  function TrimEnd(s: string): string {
    if s != "" && IsSpace(s[|s| - 1]) then TrimEnd(s[..|s| - 1]) else s
  }

  function Trim(s: string): string {
    TrimEnd(TrimStart(s))
  }

  /** The fence character of a line that opens or closes a fenced block. */
  function Fence(line: string): Option<char> {
    var t := Trim(line);
    if StartsWith(t, "```") then Some('`') else if StartsWith(t, "~~~") then Some('~') else None
  }

  predicate IsRule(line: string) {
    Trim(line) == "---"
  }

  /** The next `---` from `j` on. */
  function ClosingRule(lines: seq<string>, j: nat): (r: Option<nat>)
    requires j <= |lines|
    ensures r.Some? ==> j <= r.value < |lines| && IsRule(lines[r.value])
    ensures r.Some? ==> forall k :: j <= k < r.value ==> !IsRule(lines[k])
    ensures r.None? ==> forall k :: j <= k < |lines| ==> !IsRule(lines[k])
    decreases |lines| - j
  {
    if j == |lines| then None else if IsRule(lines[j]) then Some(j) else ClosingRule(lines, j + 1)
  }

  /** The first line behind a closed frontmatter block at the top of the file. */
  function BodyStart(lines: seq<string>): (n: nat)
    ensures n <= |lines|
  {
    if lines == [] || !IsRule(lines[0]) then 0
    else if ClosingRule(lines, 1).Some? then ClosingRule(lines, 1).value + 1 else 0
  }

  /** The fence that is open before line `i`. */
  function OpenFence(lines: seq<string>, i: nat): Option<char>
    requires BodyStart(lines) <= i <= |lines|
    decreases i
  {
    if i == BodyStart(lines) then None
    else
      var before, f := OpenFence(lines, i - 1), Fence(lines[i - 1]);
      if before.None? then f else if f == before then None else before
  }

  /** Frontmatter, and every line of a fenced block with both of its fences. */
  predicate Skipped(lines: seq<string>, i: nat)
    requires i < |lines|
  {
    i < BodyStart(lines) || OpenFence(lines, i).Some? || Fence(lines[i]).Some?
  }

  method MarkUpTo(skip: array<bool>, n: nat)
    requires n <= skip.Length
    modifies skip
    ensures forall i :: 0 <= i < skip.Length ==> skip[i] == (i < n || old(skip[i]))
  {
    for k := 0 to n
      invariant forall i :: 0 <= i < skip.Length ==> skip[i] == (i < k || old(skip[i]))
    {
      skip[k] := true;
    }
  }

  method BlockSkipMask(lines: seq<string>) returns (skip: array<bool>)
    ensures fresh(skip) && skip.Length == |lines|
    ensures forall i :: 0 <= i < |lines| ==> skip[i] == Skipped(lines, i)
  {
    skip := new bool[|lines|](_ => false);
    var start := 0;
    if |lines| > 0 && IsRule(lines[0]) {
      var close := ClosingRule(lines, 1);
      if close.Some? {
        MarkUpTo(skip, close.value + 1);
        start := close.value + 1;
      }
    }
    MarkFences(lines, skip, start);
  }

  /** The mask is right before line `i` and empty from there on. */
  ghost predicate MarkedTo(skip: seq<bool>, lines: seq<string>, i: nat) {
    && |skip| == |lines| && i <= |lines|
    && (forall k :: 0 <= k < i ==> skip[k] == Skipped(lines, k)) && (forall k :: i <= k < |skip| ==> !skip[k])
  }

  lemma {:induction false} MarkedNext(skip: seq<bool>, lines: seq<string>, i: nat, here: bool)
    requires MarkedTo(skip, lines, i) && i < |lines| && here == Skipped(lines, i)
    ensures MarkedTo(skip[i := here], lines, i + 1)
  {
  }

  lemma {:induction false} FenceNext(lines: seq<string>, i: nat)
    requires BodyStart(lines) <= i < |lines|
    ensures var before, f := OpenFence(lines, i), Fence(lines[i]);
            && Skipped(lines, i) == (before.Some? || f.Some?)
            && OpenFence(lines, i + 1) == if before.None? then f else if f == before then None else before
  {
  }

  method MarkFences(lines: seq<string>, skip: array<bool>, start: nat)
    requires skip.Length == |lines| && start == BodyStart(lines)
    requires forall k :: 0 <= k < |lines| ==> skip[k] == (k < start)
    modifies skip
    ensures forall k :: 0 <= k < |lines| ==> skip[k] == Skipped(lines, k)
  {
    var fence: Option<char> := None;
    for i := start to |lines|
      invariant fence == OpenFence(lines, i) && MarkedTo(skip[..], lines, i)
    {
      ghost var was, fenceWas := skip[..], fence;
      var f := Fence(lines[i]);
      if fence.None? {
        if f.Some? {
          fence := f;
          skip[i] := true;
        }
      } else {
        skip[i] := true;
        if f == fence {
          fence := None;
        }
      }
      FenceNext(lines, i);
      assert skip[..] == was[i := fenceWas.Some? || f.Some?];
      MarkedNext(was, lines, i, fenceWas.Some? || f.Some?);
    }
  }

  // ----- The plan

  datatype ProseEntry = ProseEntry(lineIndex: nat, prefix: string, core: string, suffix: string, tokens: seq<string>)

  /** The two regular-expression heuristics, as given. */
  datatype Classifier = Classifier(isVerbatim: string -> bool, tokensOf: string -> seq<string>)

  function CoreOf(line: string): string {
    var s := line[..SuffixStart(line)];
    s[CoreStart(s)..]
  }

  /** A line worth sending: not protected, not verbatim, and with something left after peeling. */
  predicate IsProse(lines: seq<string>, i: nat, cl: Classifier)
    requires i < |lines|
  {
    !Skipped(lines, i) && !cl.isVerbatim(lines[i]) && Trim(CoreOf(lines[i])) != ""
  }

  function EntryAt(lines: seq<string>, i: nat, cl: Classifier): ProseEntry
    requires i < |lines|
  {
    var line := lines[i];
    var s := line[..SuffixStart(line)];
    ProseEntry(i, s[..CoreStart(s)], CoreOf(line), line[SuffixStart(line)..], cl.tokensOf(CoreOf(line)))
  }

  function PlanAt(lines: seq<string>, i: nat, cl: Classifier): seq<ProseEntry>
    requires i < |lines|
  {
    if IsProse(lines, i, cl) then [EntryAt(lines, i, cl)] else []
  }

  function Flatten<T>(groups: seq<seq<T>>): seq<T> {
    if groups == [] then [] else Flatten(groups[..|groups| - 1]) + groups[|groups| - 1]
  }

  /** What each of the first `n` lines contributes. */
  function PlanParts(lines: seq<string>, n: nat, cl: Classifier): (r: seq<seq<ProseEntry>>)
    requires n <= |lines|
    ensures |r| == n && forall i :: 0 <= i < n ==> r[i] == PlanAt(lines, i, cl)
  {
    seq(n, i requires 0 <= i < n => PlanAt(lines, i, cl))
  }

  function Plan(lines: seq<string>, n: nat, cl: Classifier): seq<ProseEntry>
    requires n <= |lines|
  {
    Flatten(PlanParts(lines, n, cl))
  }

  lemma {:induction false} FlattenNext<T>(groups: seq<seq<T>>, g: seq<T>)
    ensures Flatten(groups + [g]) == Flatten(groups) + g
  {
    assert (groups + [g])[..|groups|] == groups;
  }

  lemma {:induction false} PlanStep(lines: seq<string>, n: nat, cl: Classifier)
    requires n < |lines|
    ensures Plan(lines, n + 1, cl) == Plan(lines, n, cl) + PlanAt(lines, n, cl)
  {
    assert PlanParts(lines, n + 1, cl) == PlanParts(lines, n, cl) + [PlanAt(lines, n, cl)];
    FlattenNext(PlanParts(lines, n, cl), PlanAt(lines, n, cl));
  }

  lemma {:induction false} EntryMakesUpLine(lines: seq<string>, i: nat, cl: Classifier)
    requires i < |lines|
    ensures var e := EntryAt(lines, i, cl); e.prefix + e.core + e.suffix == lines[i]
  {
    var line := lines[i];
    var s := line[..SuffixStart(line)];
    Slices(s, 0, CoreStart(s));
    Slices(line, 0, SuffixStart(line));
  }

  ghost predicate Ascending(entries: seq<ProseEntry>) {
    forall j, k :: 0 <= j < k < |entries| ==> entries[j].lineIndex < entries[k].lineIndex
  }

  /** Every entry is that of a prose line before `n`. */
  ghost predicate AreProse(entries: seq<ProseEntry>, lines: seq<string>, n: nat, cl: Classifier)
    requires n <= |lines|
  {
    forall k :: 0 <= k < |entries| ==>
      entries[k].lineIndex < n && IsProse(lines, entries[k].lineIndex, cl) && entries[k] == EntryAt(lines, entries[k].lineIndex, cl)
  }

  /** Exactly the prose lines are planned, in order. */
  lemma {:induction false} PlanMeaning(lines: seq<string>, n: nat, cl: Classifier)
    requires n <= |lines|
    ensures Ascending(Plan(lines, n, cl)) && AreProse(Plan(lines, n, cl), lines, n, cl)
  {
    var i := 0;
    assert Plan(lines, 0, cl) == [];
    while i < n
      invariant i <= n && Ascending(Plan(lines, i, cl)) && AreProse(Plan(lines, i, cl), lines, i, cl)
    {
      PlanStep(lines, i, cl);
      PlanGrows(Plan(lines, i, cl), lines, i, cl);
      i := i + 1;
    }
  }

  lemma {:induction false} PlanGrows(entries: seq<ProseEntry>, lines: seq<string>, i: nat, cl: Classifier)
    requires i < |lines| && Ascending(entries) && AreProse(entries, lines, i, cl)
    ensures Ascending(entries + PlanAt(lines, i, cl)) && AreProse(entries + PlanAt(lines, i, cl), lines, i + 1, cl)
  {
  }

  lemma {:induction false} InFlatten<T>(groups: seq<seq<T>>, g: nat, x: T)
    requires g < |groups| && x in groups[g]
    ensures x in Flatten(groups)
  {
    if g < |groups| - 1 {
      InFlatten(groups[..|groups| - 1], g, x);
    }
  }

  /** No prose line is left out. */
  lemma {:induction false} ProseIsPlanned(lines: seq<string>, i: nat, cl: Classifier)
    requires i < |lines| && IsProse(lines, i, cl)
    ensures EntryAt(lines, i, cl) in Plan(lines, |lines|, cl)
  {
    InFlatten(PlanParts(lines, |lines|, cl), i, EntryAt(lines, i, cl));
  }

  /** One line of the plan, given whether the block mask protects it. */
  method PlanLine(lines: seq<string>, i: nat, skip: bool, cl: Classifier) returns (entries: seq<ProseEntry>)
    requires i < |lines| && skip == Skipped(lines, i)
    ensures entries == PlanAt(lines, i, cl)
  {
    if skip || cl.isVerbatim(lines[i]) {
      return [];
    }
    var prefix, core, suffix := Peel(lines[i]);
    PeelGivesCore(lines[i], prefix, core, suffix);
    if Trim(core) == "" {
      return [];
    }
    return [ProseEntry(i, prefix, core, suffix, cl.tokensOf(core))];
  }

  method PlanRewrite(lines: seq<string>, cl: Classifier) returns (prose: seq<ProseEntry>)
    ensures prose == Plan(lines, |lines|, cl)
  {
    var skip := BlockSkipMask(lines);
    prose := [];
    for i := 0 to |lines|
      invariant prose == Plan(lines, i, cl)
      invariant forall k :: 0 <= k < |lines| ==> skip[k] == Skipped(lines, k)
    {
      PlanStep(lines, i, cl);
      var entries := PlanLine(lines, i, skip[i], cl);
      prose := prose + entries;
    }
  }

  lemma {:induction false} PeelGivesCore(line: string, prefix: string, core: string, suffix: string)
    requires prefix + core + suffix == line && suffix == line[SuffixStart(line)..]
    requires prefix == line[..SuffixStart(line)][..CoreStart(line[..SuffixStart(line)])]
    ensures core == CoreOf(line)
  {
    var n := SuffixStart(line);
    assert |prefix + core| == n;
    assert prefix + core == line[..n];
    assert core == line[..n][|prefix|..];
  }

  // ----- Groups

  /** Fixed-size groups in order; the last one may be shorter. */
  method Chunk<T>(items: seq<T>, size: int) returns (groups: seq<seq<T>>)
    ensures Flatten(groups) == items
    ensures forall g :: 0 <= g < |groups| ==> 1 <= |groups[g]| <= (if size < 1 then 1 else size)
    ensures forall g :: 0 <= g < |groups| - 1 ==> |groups[g]| == if size < 1 then 1 else size
  {
    groups := [];
    var step: nat := if size < 1 then 1 else size;
    var i := 0;
    while i < |items|
      invariant Flatten(groups) == items[..if i < |items| then i else |items|]
      invariant i < |items| ==> forall g :: 0 <= g < |groups| ==> |groups[g]| == step
      invariant forall g :: 0 <= g < |groups| ==> 1 <= |groups[g]| <= step
      invariant forall g :: 0 <= g < |groups| - 1 ==> |groups[g]| == step
    {
      var end := if i + step < |items| then i + step else |items|;
      ghost var before := groups;
      groups := groups + [items[i..end]];
      assert groups[..|groups| - 1] == before;
      assert items[..i] + items[i..end] == items[..end];
      i := i + step;
    }
    assert items[..|items|] == items;
  }

  // ----- Accepting answers

  datatype Item = Item(id: nat, text: string, tokens: seq<string>)

  /** One attempt: the decoded answers by id, or nothing after a network or decoding error. */
  type Reply = Option<map<nat, string>>

  /** The answer to an item, when there is one and it keeps every fragile token. */
  ghost function Answer(item: Item, got: map<nat, string>): Option<string> {
    if item.id in got && Preserves(got[item.id], item.tokens) then Some(got[item.id]) else None
  }

  /** The first answer to this item that keeps every fragile token. */
  ghost function FirstGood(item: Item, replies: seq<Reply>): Option<string> {
    if replies == [] then None
    else
      var earlier, last := FirstGood(item, replies[..|replies| - 1]), replies[|replies| - 1];
      if earlier.Some? || last.None? then earlier else Answer(item, last.value)
  }

  ghost predicate DistinctIds(items: seq<Item>) {
    forall j, k :: 0 <= j < k < |items| ==> items[j].id != items[k].id
  }

  /** Items without a good answer so far, in order. */
  ghost function Unsettled(items: seq<Item>, replies: seq<Reply>): seq<Item> {
    if items == [] then []
    else
      var n := |items| - 1;
      Unsettled(items[..n], replies) + if FirstGood(items[n], replies).None? then [items[n]] else []
  }

  /** The first good answers so far. */
  ghost function Settled(items: seq<Item>, replies: seq<Reply>): map<nat, string> {
    if items == [] then map[]
    else
      var n := |items| - 1;
      var front, good := Settled(items[..n], replies), FirstGood(items[n], replies);
      if good.Some? then front[items[n].id := good.value] else front
  }

  // One pass over the pending items of an attempt

  ghost function Accept(result: map<nat, string>, pending: seq<Item>, got: map<nat, string>): map<nat, string> {
    if pending == [] then result
    else
      var n := |pending| - 1;
      var front, good := Accept(result, pending[..n], got), Answer(pending[n], got);
      if good.Some? then front[pending[n].id := good.value] else front
  }

  ghost function StillPending(pending: seq<Item>, got: map<nat, string>): seq<Item> {
    if pending == [] then []
    else
      var n := |pending| - 1;
      StillPending(pending[..n], got) + if Answer(pending[n], got).None? then [pending[n]] else []
  }

  lemma {:induction false} StillPendingAppend(a: seq<Item>, x: Item, got: map<nat, string>)
    ensures StillPending(a + [x], got) == StillPending(a, got) + if Answer(x, got).None? then [x] else []
  {
    assert (a + [x])[..|a|] == a;
  }

  lemma {:induction false} FirstGoodNext(item: Item, replies: seq<Reply>, got: map<nat, string>)
    ensures FirstGood(item, replies + [Some(got)]) ==
            if FirstGood(item, replies).Some? then FirstGood(item, replies) else Answer(item, got)
  {
    assert (replies + [Some(got)])[..|replies|] == replies;
  }

  lemma {:induction false} PassLeavesUnsettled(items: seq<Item>, replies: seq<Reply>, got: map<nat, string>)
    ensures StillPending(Unsettled(items, replies), got) == Unsettled(items, replies + [Some(got)])
  {
    if items != [] {
      var n := |items| - 1;
      PassLeavesUnsettled(items[..n], replies, got);
      FirstGoodNext(items[n], replies, got);
      if FirstGood(items[n], replies).None? {
        StillPendingAppend(Unsettled(items[..n], replies), items[n], got);
      } else {
        assert Unsettled(items, replies) == Unsettled(items[..n], replies);
      }
    }
  }

  lemma {:induction false} UnsettledAreItems(items: seq<Item>, replies: seq<Reply>)
    ensures forall k :: 0 <= k < |Unsettled(items, replies)| ==> Unsettled(items, replies)[k] in items
  {
    if items != [] {
      UnsettledAreItems(items[..|items| - 1], replies);
    }
  }

  lemma {:induction false} AcceptAroundOther(result: map<nat, string>, pending: seq<Item>, got: map<nat, string>, id: nat, text: string)
    requires forall k :: 0 <= k < |pending| ==> pending[k].id != id
    ensures Accept(result[id := text], pending, got) == Accept(result, pending, got)[id := text]
  {
    if pending != [] {
      AcceptAroundOther(result, pending[..|pending| - 1], got, id, text);
    }
  }

  lemma {:induction false} PassSettles(items: seq<Item>, replies: seq<Reply>, got: map<nat, string>)
    requires DistinctIds(items)
    ensures Accept(Settled(items, replies), Unsettled(items, replies), got) == Settled(items, replies + [Some(got)])
  {
    if items != [] {
      var n := |items| - 1;
      var front, x := items[..n], items[n];
      PassSettles(front, replies, got);
      FirstGoodNext(x, replies, got);
      UnsettledAreItems(front, replies);
      if FirstGood(x, replies).Some? {
        forall k | 0 <= k < |Unsettled(front, replies)| ensures Unsettled(front, replies)[k].id != x.id {
          assert Unsettled(front, replies)[k] in front;
        }
        AcceptAroundOther(Settled(front, replies), Unsettled(front, replies), got, x.id, FirstGood(x, replies).value);
        assert Unsettled(items, replies) == Unsettled(front, replies);
      } else {
        assert Unsettled(items, replies)[..|Unsettled(items, replies)| - 1] == Unsettled(front, replies);
      }
    }
  }

  lemma {:induction false} FailedAttemptChangesNothing(items: seq<Item>, replies: seq<Reply>)
    ensures Unsettled(items, replies + [None]) == Unsettled(items, replies)
    ensures Settled(items, replies + [None]) == Settled(items, replies)
  {
    if items != [] {
      FailedAttemptChangesNothing(items[..|items| - 1], replies);
      assert (replies + [None])[..|replies|] == replies;
    }
  }

  lemma {:induction false} NothingLeftToSettle(items: seq<Item>, replies: seq<Reply>, more: seq<Reply>)
    requires Unsettled(items, replies) == []
    ensures Unsettled(items, replies + more) == [] && Settled(items, replies + more) == Settled(items, replies)
  {
    if items != [] {
      var n := |items| - 1;
      assert FirstGood(items[n], replies).Some?;
      NothingLeftToSettle(items[..n], replies, more);
      FirstGoodStays(items[n], replies, more);
    }
  }

  lemma {:induction false} FirstGoodStays(item: Item, replies: seq<Reply>, more: seq<Reply>)
    requires FirstGood(item, replies).Some?
    ensures FirstGood(item, replies + more) == FirstGood(item, replies)
  {
    if more == [] {
      assert replies + more == replies;
    } else {
      assert (replies + more)[..|replies + more| - 1] == replies + more[..|more| - 1];
      FirstGoodStays(item, replies, more[..|more| - 1]);
    }
  }

  method AcceptReplies(result: map<nat, string>, pending: seq<Item>, got: map<nat, string>)
    returns (accepted: map<nat, string>, stillPending: seq<Item>)
    ensures accepted == Accept(result, pending, got) && stillPending == StillPending(pending, got)
  {
    accepted, stillPending := result, [];
    for k := 0 to |pending|
      invariant accepted == Accept(result, pending[..k], got) && stillPending == StillPending(pending[..k], got)
    {
      var p := pending[k];
      assert pending[..k + 1][..k] == pending[..k];
      var good := false;
      if p.id in got {
        good := PreservesTokens(got[p.id], p.tokens);
      }
      if good {
        accepted := accepted[p.id := got[p.id]];
      } else {
        stillPending := stillPending + [p];
      }
    }
    assert pending[..|pending|] == pending;
  }

  lemma {:induction false} OneMoreReply(replies: seq<Reply>, k: nat)
    requires k < |replies|
    ensures replies[..k + 1] == replies[..k] + [replies[k]]
  {
  }

  /** The loop ends when the attempts are used up or nothing is pending: more attempts change nothing. */
  lemma {:induction false} AttemptsEnd(items: seq<Item>, replies: seq<Reply>, k: nat)
    requires k <= |replies| && (k == |replies| || Unsettled(items, replies[..k]) == [])
    ensures Settled(items, replies[..k]) == Settled(items, replies) && Unsettled(items, replies[..k]) == Unsettled(items, replies)
  {
    if k == |replies| {
      assert replies[..k] == replies;
    } else {
      assert replies == replies[..k] + replies[k..];
      NothingLeftToSettle(items, replies[..k], replies[k..]);
    }
  }

  /** The retry loop: `replies` are what the attempts would return, one per allowed attempt.  Every
      item ends with its first good answer, or stays pending. */
  method Rewrite(items: seq<Item>, replies: seq<Reply>) returns (result: map<nat, string>, pending: seq<Item>)
    requires DistinctIds(items)
    ensures result == Settled(items, replies) && pending == Unsettled(items, replies)
  {
    result, pending := map[], items;
    NothingTriedYet(items);
    var attempt := 0;
    while attempt < |replies| && |pending| > 0
      invariant attempt <= |replies|
      invariant result == Settled(items, replies[..attempt]) && pending == Unsettled(items, replies[..attempt])
    {
      var reply := replies[attempt];
      OneMoreReply(replies, attempt);
      if reply.Some? {
        PassSettles(items, replies[..attempt], reply.value);
        PassLeavesUnsettled(items, replies[..attempt], reply.value);
        result, pending := AcceptReplies(result, pending, reply.value);
      } else {
        FailedAttemptChangesNothing(items, replies[..attempt]);
      }
      attempt := attempt + 1;
    }
    AttemptsEnd(items, replies, attempt);
  }

  lemma {:induction false} NothingTriedYet(items: seq<Item>)
    ensures Unsettled(items, []) == items && Settled(items, []) == map[]
  {
    if items != [] {
      NothingTriedYet(items[..|items| - 1]);
    }
  }

  /** Nothing gets into the result that lacks a fragile token or was not asked for. */
  lemma {:induction false} AcceptedTextKeepsTokens(items: seq<Item>, replies: seq<Reply>)
    requires DistinctIds(items)
    ensures forall id :: id in Settled(items, replies) ==>
              exists j :: 0 <= j < |items| && items[j].id == id && Preserves(Settled(items, replies)[id], items[j].tokens)
  {
    if items != [] {
      var n := |items| - 1;
      AcceptedTextKeepsTokens(items[..n], replies);
      GoodAnswerKeepsTokens(items[n], replies);
      forall id | id in Settled(items, replies)
        ensures exists j :: 0 <= j < |items| && items[j].id == id && Preserves(Settled(items, replies)[id], items[j].tokens)
      {
        if id == items[n].id && FirstGood(items[n], replies).Some? {
          assert items[n].id == id && Preserves(Settled(items, replies)[id], items[n].tokens);
        } else {
          assert id in Settled(items[..n], replies);
          var j :| 0 <= j < |items[..n]| && items[..n][j].id == id && Preserves(Settled(items[..n], replies)[id], items[..n][j].tokens);
          assert items[j] == items[..n][j];
        }
      }
    }
  }

  lemma {:induction false} GoodAnswerKeepsTokens(item: Item, replies: seq<Reply>)
    ensures FirstGood(item, replies).Some? ==> Preserves(FirstGood(item, replies).value, item.tokens)
  {
    if replies != [] {
      GoodAnswerKeepsTokens(item, replies[..|replies| - 1]);
    }
  }

  // ----- Putting the file together

  function TextOf(e: ProseEntry, got: Reply): Option<string> {
    if got.Some? && e.lineIndex in got.value then Some(got.value[e.lineIndex]) else None
  }

  function Rebuilt(e: ProseEntry, got: Reply): string {
    e.prefix + (if TextOf(e, got).Some? then TextOf(e, got).value else e.core) + e.suffix
  }

  /** The lines, how many of them changed, and how many entries got no answer. */
  datatype Output = Output(lines: seq<string>, changed: nat, fallback: nat)

  function ApplyEntry(o: Output, original: seq<string>, e: ProseEntry, got: Reply): Output
    requires e.lineIndex < |original| == |o.lines|
  {
    var text := Rebuilt(e, got);
    Output(o.lines[e.lineIndex := text],
           o.changed + (if TextOf(e, got).Some? && text != original[e.lineIndex] then 1 else 0),
           o.fallback + if TextOf(e, got).None? then 1 else 0)
  }

  /** All entries of all groups, each with the reply of its group. */
  function Pairs(groups: seq<seq<ProseEntry>>, replies: seq<Reply>): seq<(ProseEntry, Reply)>
    requires |groups| == |replies|
  {
    if groups == [] then []
    else
      var n := |groups| - 1;
      Pairs(groups[..n], replies[..n]) + Tagged(groups[n], replies[n])
  }

  function Tagged(group: seq<ProseEntry>, got: Reply): (r: seq<(ProseEntry, Reply)>)
    ensures |r| == |group| && forall k :: 0 <= k < |r| ==> r[k] == (group[k], got)
  {
    seq(|group|, k requires 0 <= k < |group| => (group[k], got))
  }

  ghost predicate GoodPairs(pairs: seq<(ProseEntry, Reply)>, original: seq<string>) {
    && (forall k :: 0 <= k < |pairs| ==> pairs[k].0.lineIndex < |original|)
    && (forall k :: 0 <= k < |pairs| ==>
          pairs[k].0.prefix + pairs[k].0.core + pairs[k].0.suffix == original[pairs[k].0.lineIndex])
    && (forall j, k :: 0 <= j < k < |pairs| ==> pairs[j].0.lineIndex < pairs[k].0.lineIndex)
  }

  function Apply(original: seq<string>, pairs: seq<(ProseEntry, Reply)>): (o: Output)
    requires forall k :: 0 <= k < |pairs| ==> pairs[k].0.lineIndex < |original|
    ensures |o.lines| == |original|
  {
    if pairs == [] then Output(original, 0, 0)
    else
      var n := |pairs| - 1;
      ApplyEntry(Apply(original, pairs[..n]), original, pairs[n].0, pairs[n].1)
  }

  ghost function Differences(a: seq<string>, b: seq<string>): set<nat>
    requires |a| == |b|
  {
    set i: nat | i < |a| && a[i] != b[i]
  }

  lemma {:induction false} AppliedAt(original: seq<string>, pairs: seq<(ProseEntry, Reply)>, k: nat)
    requires GoodPairs(pairs, original) && k < |pairs|
    ensures Apply(original, pairs).lines[pairs[k].0.lineIndex] == Rebuilt(pairs[k].0, pairs[k].1)
  {
    if k < |pairs| - 1 {
      AppliedAt(original, pairs[..|pairs| - 1], k);
    }
  }

  lemma {:induction false} NotAppliedAt(original: seq<string>, pairs: seq<(ProseEntry, Reply)>, i: nat)
    requires GoodPairs(pairs, original) && i < |original|
    requires forall k :: 0 <= k < |pairs| ==> pairs[k].0.lineIndex != i
    ensures Apply(original, pairs).lines[i] == original[i]
  {
    if pairs != [] {
      NotAppliedAt(original, pairs[..|pairs| - 1], i);
    }
  }

  /** Lines without an entry stay as they are, an entry's line is its prefix, its text and its
      suffix, and so a line without an answer is the original line. */
  lemma {:induction false} ApplyMeaning(original: seq<string>, pairs: seq<(ProseEntry, Reply)>)
    requires GoodPairs(pairs, original)
    ensures var o := Apply(original, pairs);
            && (forall k :: 0 <= k < |pairs| ==> o.lines[pairs[k].0.lineIndex] == Rebuilt(pairs[k].0, pairs[k].1))
            && (forall i :: 0 <= i < |original| && (forall k :: 0 <= k < |pairs| ==> pairs[k].0.lineIndex != i) ==>
                  o.lines[i] == original[i])
  {
    forall k | 0 <= k < |pairs|
      ensures Apply(original, pairs).lines[pairs[k].0.lineIndex] == Rebuilt(pairs[k].0, pairs[k].1)
    {
      AppliedAt(original, pairs, k);
    }
    forall i | 0 <= i < |original| && (forall k :: 0 <= k < |pairs| ==> pairs[k].0.lineIndex != i)
      ensures Apply(original, pairs).lines[i] == original[i]
    {
      NotAppliedAt(original, pairs, i);
    }
  }

  lemma {:induction false} NoAnswerNoChange(original: seq<string>, e: ProseEntry, got: Reply)
    requires e.lineIndex < |original| && e.prefix + e.core + e.suffix == original[e.lineIndex]
    ensures TextOf(e, got).None? ==> Rebuilt(e, got) == original[e.lineIndex]
  {
  }

  /** The reported number of changed lines is the number of lines that differ. */
  lemma {:induction false} ChangedCountsDifferences(original: seq<string>, pairs: seq<(ProseEntry, Reply)>)
    requires GoodPairs(pairs, original)
    ensures Apply(original, pairs).changed == |Differences(original, Apply(original, pairs).lines)|
    ensures Apply(original, pairs).changed + Apply(original, pairs).fallback <= |pairs|
  {
    if pairs == [] {
      assert Differences(original, original) == {};
    } else {
      var n := |pairs| - 1;
      var before, after := Apply(original, pairs[..n]), Apply(original, pairs);
      ChangedCountsDifferences(original, pairs[..n]);
      ApplyMeaning(original, pairs[..n]);
      var e, got := pairs[n].0, pairs[n].1;
      NoAnswerNoChange(original, e, got);
      assert before.lines[e.lineIndex] == original[e.lineIndex];
      OneLineReplaced(original, before.lines, e.lineIndex, Rebuilt(e, got));
    }
  }

  lemma {:induction false} OneLineReplaced(original: seq<string>, lines: seq<string>, i: nat, text: string)
    requires |lines| == |original| && i < |lines| && lines[i] == original[i]
    ensures |Differences(original, lines[i := text])| ==
            |Differences(original, lines)| + if text != original[i] then 1 else 0
  {
    var before, after := Differences(original, lines), Differences(original, lines[i := text]);
    if text != original[i] {
      assert after == before + {i};
    } else {
      assert after == before;
    }
  }

  lemma {:induction false} PairsAppend(groups: seq<seq<ProseEntry>>, replies: seq<Reply>, g: nat)
    requires |groups| == |replies| && g < |groups|
    ensures Pairs(groups[..g + 1], replies[..g + 1]) == Pairs(groups[..g], replies[..g]) + Tagged(groups[g], replies[g])
  {
    assert groups[..g + 1][..g] == groups[..g] && replies[..g + 1][..g] == replies[..g];
  }

  lemma {:induction false} PairsAreEntries(groups: seq<seq<ProseEntry>>, replies: seq<Reply>)
    requires |groups| == |replies|
    ensures |Pairs(groups, replies)| == |Flatten(groups)|
    ensures forall k :: 0 <= k < |Flatten(groups)| ==> Pairs(groups, replies)[k].0 == Flatten(groups)[k]
  {
    if groups != [] {
      PairsAreEntries(groups[..|groups| - 1], replies[..|replies| - 1]);
    }
  }

  lemma {:induction false} OneMore<T>(before: seq<T>, here: seq<T>, k: nat)
    requires k < |here|
    ensures before + here[..k + 1] == before + here[..k] + [here[k]]
  {
  }

  lemma {:induction false} ApplyAppend(original: seq<string>, pairs: seq<(ProseEntry, Reply)>, pair: (ProseEntry, Reply))
    requires forall k :: 0 <= k < |pairs| ==> pairs[k].0.lineIndex < |original|
    requires pair.0.lineIndex < |original|
    ensures Apply(original, pairs + [pair]) == ApplyEntry(Apply(original, pairs), original, pair.0, pair.1)
  {
    assert (pairs + [pair])[..|pairs|] == pairs;
  }

  /** One line of the reassembly. */
  method PutLine(o: Output, original: seq<string>, e: ProseEntry, got: Reply) returns (r: Output)
    requires e.lineIndex < |original| == |o.lines|
    ensures r == ApplyEntry(o, original, e, got)
  {
    var lines, changed, fallback := o.lines, o.changed, o.fallback;
    var candidate := TextOf(e, got);
    var rebuilt := e.prefix + (if candidate.Some? then candidate.value else e.core) + e.suffix;
    lines := lines[e.lineIndex := rebuilt];
    if candidate.None? {
      fallback := fallback + 1;
    } else if rebuilt != original[e.lineIndex] {
      changed := changed + 1;
    }
    r := Output(lines, changed, fallback);
  }

  ghost predicate InRange(pairs: seq<(ProseEntry, Reply)>, original: seq<string>) {
    forall k :: 0 <= k < |pairs| ==> pairs[k].0.lineIndex < |original|
  }

  /** One group of `rewriteAll`'s reassembly. */
  method ApplyGroup(o: Output, original: seq<string>, group: seq<ProseEntry>, got: Reply, ghost pairs: seq<(ProseEntry, Reply)>)
    returns (r: Output)
    requires InRange(pairs, original) && forall k :: 0 <= k < |group| ==> group[k].lineIndex < |original|
    requires o == Apply(original, pairs)
    ensures InRange(pairs + Tagged(group, got), original)
    ensures r == Apply(original, pairs + Tagged(group, got))
  {
    r := o;
    ghost var done, tagged := pairs, Tagged(group, got);
    for k := 0 to |group|
      invariant done == pairs + tagged[..k] && InRange(done, original) && r == Apply(original, done)
    {
      OneMore(pairs, tagged, k);
      ApplyAppend(original, done, (group[k], got));
      r := PutLine(r, original, group[k], got);
      done := done + [(group[k], got)];
    }
    assert tagged[..|group|] == tagged;
  }

  /** `rewriteAll` once the pool has returned: `replies` holds one result per group. */
  method Reassemble(original: seq<string>, groups: seq<seq<ProseEntry>>, replies: seq<Reply>) returns (o: Output)
    requires |groups| == |replies| && GoodPairs(Pairs(groups, replies), original)
    ensures o == Apply(original, Pairs(groups, replies))
  {
    o := Output(original, 0, 0);
    for g := 0 to |groups|
      invariant Pairs(groups[..g], replies[..g]) <= Pairs(groups, replies)
      invariant forall k :: 0 <= k < |Pairs(groups[..g], replies[..g])| ==>
                  Pairs(groups[..g], replies[..g])[k].0.lineIndex < |original|
      invariant o == Apply(original, Pairs(groups[..g], replies[..g]))
    {
      PairsAppend(groups, replies, g);
      PairsPrefix(groups, replies, g + 1);
      GroupInRange(groups, replies, g, original);
      o := ApplyGroup(o, original, groups[g], replies[g], Pairs(groups[..g], replies[..g]));
    }
    assert groups[..|groups|] == groups && replies[..|replies|] == replies;
  }

  lemma {:induction false} PairsPrefix(groups: seq<seq<ProseEntry>>, replies: seq<Reply>, g: nat)
    requires |groups| == |replies| && g <= |groups|
    ensures Pairs(groups[..g], replies[..g]) <= Pairs(groups, replies)
    decreases |groups| - g
  {
    if g == |groups| {
      assert groups[..g] == groups && replies[..g] == replies;
    } else {
      PairsPrefix(groups, replies, g + 1);
      PairsAppend(groups, replies, g);
    }
  }

  lemma {:induction false} GroupInRange(groups: seq<seq<ProseEntry>>, replies: seq<Reply>, g: nat, original: seq<string>)
    requires |groups| == |replies| && g < |groups| && GoodPairs(Pairs(groups, replies), original)
    ensures forall k :: 0 <= k < |Tagged(groups[g], replies[g])| ==> Tagged(groups[g], replies[g])[k].0.lineIndex < |original|
  {
    PairsAppend(groups, replies, g);
    PairsPrefix(groups, replies, g + 1);
    InMiddle(Pairs(groups, replies), Pairs(groups[..g], replies[..g]), Tagged(groups[g], replies[g]), original);
  }

  lemma {:induction false} InMiddle(all: seq<(ProseEntry, Reply)>, before: seq<(ProseEntry, Reply)>, here: seq<(ProseEntry, Reply)>, original: seq<string>)
    requires before + here <= all
    requires forall k :: 0 <= k < |all| ==> all[k].0.lineIndex < |original|
    ensures forall k :: 0 <= k < |here| ==> here[k].0.lineIndex < |original|
  {
    forall k | 0 <= k < |here| ensures here[k].0.lineIndex < |original| {
      assert all[|before| + k] == here[k];
    }
  }

  // ----- The whole rewrite

  function ItemsOf(group: seq<ProseEntry>): (r: seq<Item>)
    ensures |r| == |group|
    ensures forall k :: 0 <= k < |r| ==> r[k] == Item(group[k].lineIndex, group[k].core, group[k].tokens)
  {
    seq(|group|, k requires 0 <= k < |group| => Item(group[k].lineIndex, group[k].core, group[k].tokens))
  }

  /** What the model answers to a group on each allowed attempt; `None` if the call throws. */
  type Server = nat -> Option<seq<Reply>>

  /** What one call of the pool resolves to. */
  ghost function Resolved(groups: seq<seq<ProseEntry>>, server: Server, g: nat): Reply {
    if g >= |groups| || server(g).None? then None else Some(Settled(ItemsOf(groups[g]), server(g).value))
  }

  ghost function AllResolved(groups: seq<seq<ProseEntry>>, server: Server): (r: seq<Reply>)
    ensures |r| == |groups| && forall g :: 0 <= g < |r| ==> r[g] == Resolved(groups, server, g)
  {
    seq(|groups|, g requires 0 <= g < |groups| => Resolved(groups, server, g))
  }

  /** An untouched line, or a prose line between its own prefix and suffix with a text that keeps
      every fragile token. */
  ghost predicate SafeLine(lines: seq<string>, i: nat, now: string, cl: Classifier)
    requires i < |lines|
  {
    now == lines[i] ||
    (IsProse(lines, i, cl) && exists text :: Preserves(text, EntryAt(lines, i, cl).tokens) &&
                                             now == EntryAt(lines, i, cl).prefix + text + EntryAt(lines, i, cl).suffix)
  }

  lemma {:induction false} PairComesFromGroup(groups: seq<seq<ProseEntry>>, replies: seq<Reply>, k: nat)
    returns (g: nat, j: nat)
    requires |groups| == |replies| && k < |Pairs(groups, replies)|
    ensures g < |groups| && j < |groups[g]| && Pairs(groups, replies)[k] == (groups[g][j], replies[g])
  {
    var n := |groups| - 1;
    var before := Pairs(groups[..n], replies[..n]);
    if k < |before| {
      g, j := PairComesFromGroup(groups[..n], replies[..n], k);
    } else {
      g, j := n, k - |before|;
    }
  }

  lemma {:induction false} GroupAscends(groups: seq<seq<ProseEntry>>, g: nat)
    requires g < |groups| && Ascending(Flatten(groups))
    ensures Ascending(groups[g])
  {
    var n := |groups| - 1;
    var before := Flatten(groups[..n]);
    if g < n {
      assert before == Flatten(groups)[..|before|];
      GroupAscends(groups[..n], g);
    } else {
      forall j, k | 0 <= j < k < |groups[n]| ensures groups[n][j].lineIndex < groups[n][k].lineIndex {
        assert Flatten(groups)[|before| + j] == groups[n][j] && Flatten(groups)[|before| + k] == groups[n][k];
      }
    }
  }

  lemma {:induction false} PlannedPairsAreGood(lines: seq<string>, cl: Classifier, groups: seq<seq<ProseEntry>>, replies: seq<Reply>)
    requires |groups| == |replies| && Flatten(groups) <= Plan(lines, |lines|, cl)
    ensures GoodPairs(Pairs(groups, replies), lines) && Ascending(Flatten(groups))
    ensures AreProse(Flatten(groups), lines, |lines|, cl)
  {
    PlanMeaning(lines, |lines|, cl);
    PairsAreEntries(groups, replies);
    forall k | 0 <= k < |Flatten(groups)|
      ensures var e := Flatten(groups)[k]; e.lineIndex < |lines| && e.prefix + e.core + e.suffix == lines[e.lineIndex]
    {
      EntryMakesUpLine(lines, Flatten(groups)[k].lineIndex, cl);
    }
  }

  lemma {:induction false} AnswersBelongToTheirEntry(group: seq<ProseEntry>, attempts: seq<Reply>, j: nat)
    requires Ascending(group) && j < |group|
    requires group[j].lineIndex in Settled(ItemsOf(group), attempts)
    ensures Preserves(Settled(ItemsOf(group), attempts)[group[j].lineIndex], group[j].tokens)
  {
    AcceptedTextKeepsTokens(ItemsOf(group), attempts);
  }

  lemma {:induction false} EntryIsSafe(lines: seq<string>, cl: Classifier, groups: seq<seq<ProseEntry>>, server: Server, k: nat)
    requires Flatten(groups) <= Plan(lines, |lines|, cl)
    requires k < |Pairs(groups, AllResolved(groups, server))|
    ensures var pair := Pairs(groups, AllResolved(groups, server))[k];
            pair.0.lineIndex < |lines| && SafeLine(lines, pair.0.lineIndex, Rebuilt(pair.0, pair.1), cl)
  {
    var replies := AllResolved(groups, server);
    PlannedPairsAreGood(lines, cl, groups, replies);
    PairsAreEntries(groups, replies);
    var pair := Pairs(groups, replies)[k];
    assert pair.0 == Flatten(groups)[k];
    var g, j := PairComesFromGroup(groups, replies, k);
    if TextOf(pair.0, pair.1).Some? {
      GroupAscends(groups, g);
      AnswersBelongToTheirEntry(groups[g], server(g).value, j);
      assert Preserves(TextOf(pair.0, pair.1).value, EntryAt(lines, pair.0.lineIndex, cl).tokens);
    } else {
      NoAnswerNoChange(lines, pair.0, pair.1);
    }
  }

  /** The list of lines put together from these replies has only safe entries. */
  ghost predicate SafeLines(lines: seq<string>, cl: Classifier, groups: seq<seq<ProseEntry>>, replies: seq<Reply>) {
    && |groups| == |replies| && GoodPairs(Pairs(groups, replies), lines)
    && forall i :: 0 <= i < |lines| ==> SafeLine(lines, i, Apply(lines, Pairs(groups, replies)).lines[i], cl)
  }

  /** Whatever the model answers, every entry of the list of lines is safe. */
  lemma {:induction false} OutputIsSafe(lines: seq<string>, cl: Classifier, groups: seq<seq<ProseEntry>>, server: Server)
    requires Flatten(groups) <= Plan(lines, |lines|, cl)
    ensures SafeLines(lines, cl, groups, AllResolved(groups, server))
  {
    var pairs := Pairs(groups, AllResolved(groups, server));
    PlannedPairsAreGood(lines, cl, groups, AllResolved(groups, server));
    ApplyMeaning(lines, pairs);
    forall i | 0 <= i < |lines| ensures SafeLine(lines, i, Apply(lines, pairs).lines[i], cl) {
      if k :| 0 <= k < |pairs| && pairs[k].0.lineIndex == i {
        EntryIsSafe(lines, cl, groups, server, k);
      }
    }
  }

  ghost predicate AnsweredBy(call: nat -> Reply, groups: seq<seq<ProseEntry>>, server: Server) {
    forall g: nat :: call(g) == Resolved(groups, server, g)
  }

  lemma {:induction false} EveryScheduleGivesTheSameReplies(groups: seq<seq<ProseEntry>>, server: Server, limit: int,
                                         steps: seq<WorkerPool.Step>, call: nat -> Reply)
    requires AnsweredBy(call, groups, server)
    requires WorkerPool.AllFinished(WorkerPool.Run(WorkerPool.Initial(WorkerPool.Width(limit, |groups|), |groups|), steps, call))
    ensures var p := WorkerPool.Run(WorkerPool.Initial(WorkerPool.Width(limit, |groups|), |groups|), steps, call);
            && |p.results| == |groups| && (forall g :: 0 <= g < |groups| ==> p.results[g].Some?)
            && seq(|groups|, g requires 0 <= g < |groups| => p.results[g].value) == AllResolved(groups, server)
  {
    WorkerPool.PoolIsSequentialMap(limit, |groups|, steps, call);
  }

  /** However the calls of the pool interleave, once it returns the list of lines is safe. */
  lemma {:induction false} EveryScheduleGivesSafeLines(lines: seq<string>, cl: Classifier, groups: seq<seq<ProseEntry>>, server: Server,
                                    limit: int, steps: seq<WorkerPool.Step>, call: nat -> Reply)
    requires Flatten(groups) <= Plan(lines, |lines|, cl) && AnsweredBy(call, groups, server)
    requires WorkerPool.AllFinished(WorkerPool.Run(WorkerPool.Initial(WorkerPool.Width(limit, |groups|), |groups|), steps, call))
    ensures var p := WorkerPool.Run(WorkerPool.Initial(WorkerPool.Width(limit, |groups|), |groups|), steps, call);
            && |p.results| == |groups| && (forall g :: 0 <= g < |groups| ==> p.results[g].Some?)
            && SafeLines(lines, cl, groups, seq(|groups|, g requires 0 <= g < |groups| => p.results[g].value))
  {
    EveryScheduleGivesTheSameReplies(groups, server, limit, steps, call);
    OutputIsSafe(lines, cl, groups, server);
  }

  /** The calls in item order, which is what any schedule of the pool comes to. */
  method CallModel(groups: seq<seq<ProseEntry>>, server: Server) returns (replies: seq<Reply>)
    requires Ascending(Flatten(groups))
    ensures replies == AllResolved(groups, server)
  {
    replies := [];
    for g := 0 to |groups|
      invariant |replies| == g
      invariant forall k :: 0 <= k < g ==> replies[k] == Resolved(groups, server, k)
    {
      GroupAscends(groups, g);
      var attempts := server(g);
      if attempts.Some? {
        var result, _ := Rewrite(ItemsOf(groups[g]), attempts.value);
        replies := replies + [Some(result)];
      } else {
        replies := replies + [None];
      }
    }
  }
}
