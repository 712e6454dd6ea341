/**
 Which answers reach the file in `rewrite-system-prompt.ts`: every prose line within the limit gets its
 first answer that keeps the fragile tokens, and all other lines stay.
 */
module PromptAnswers {
  import opened Wrappers
  import opened PromptText
  import opened PromptRewrite

  // ----- The answer to a line

  /** How many of the first `n` lines are prose. */
  function ProseBefore(lines: seq<string>, n: nat, cl: Classifier): nat
    requires n <= |lines|
  {
    if n == 0 then 0 else ProseBefore(lines, n - 1, cl) + if IsProse(lines, n - 1, cl) then 1 else 0
  }

  /** The first `limit` prose lines, or all of them. */
  predicate Attempted(lines: seq<string>, i: nat, cl: Classifier, limit: int)
    requires i < |lines|
  {
    IsProse(lines, i, cl) && (limit <= 0 || ProseBefore(lines, i, cl) < limit)
  }

  function Step(chunkSize: int): nat {
    if chunkSize < 1 then 1 else chunkSize
  }

  /** The group that the prose line with this number belongs to. */
  function GroupOf(number: nat, chunkSize: int): nat {
    number / Step(chunkSize)
  }

  function ItemAt(lines: seq<string>, i: nat, cl: Classifier): Item
    requires i < |lines| && IsProse(lines, i, cl)
  {
    Item(i, EntryAt(lines, i, cl).core, EntryAt(lines, i, cl).tokens)
  }

  /** What the model answers to a line: the first good answer over the attempts for its group. */
  ghost function AnswerTo(lines: seq<string>, i: nat, cl: Classifier, limit: int, chunkSize: int, server: Server): Option<string>
    requires i < |lines|
  {
    if !Attempted(lines, i, cl, limit) then None
    else
      var attempts := server(GroupOf(ProseBefore(lines, i, cl), chunkSize));
      if attempts.None? then None else FirstGood(ItemAt(lines, i, cl), attempts.value)
  }

  /** Attempted lines that get no answer. */
  ghost function Unanswered(lines: seq<string>, cl: Classifier, limit: int, chunkSize: int, server: Server): set<nat> {
    set i: nat | i < |lines| && Attempted(lines, i, cl, limit) && AnswerTo(lines, i, cl, limit, chunkSize, server).None?
  }

  /** This attempt answers the item with this text, which keeps its tokens. */
  ghost predicate Gives(reply: Reply, item: Item, text: string) {
    reply.Some? && item.id in reply.value && reply.value[item.id] == text && Preserves(text, item.tokens)
  }

  /** The answer taken is that of the first attempt with a good one. */
  lemma {:induction false} FirstGoodExactly(item: Item, replies: seq<Reply>, text: string)
    ensures FirstGood(item, replies) == Some(text) <==>
            exists a :: 0 <= a < |replies| && Gives(replies[a], item, text)
                        && forall b, other :: 0 <= b < a ==> !Gives(replies[b], item, other)
    ensures FirstGood(item, replies) == None ==> forall b, other :: 0 <= b < |replies| ==> !Gives(replies[b], item, other)
  {
    if FirstGood(item, replies).Some? {
      var a := FirstGoodIsGiven(item, replies);
    }
    if a :| 0 <= a < |replies| && Gives(replies[a], item, text)
            && forall b, other :: 0 <= b < a ==> !Gives(replies[b], item, other) {
      FirstGivenIsGood(item, replies, text, a);
    }
    forall b, other | 0 <= b < |replies| && FirstGood(item, replies) == None ensures !Gives(replies[b], item, other) {
      NoneIsGiven(item, replies, b, other);
    }
  }

  lemma {:induction false} NoneIsGiven(item: Item, replies: seq<Reply>, b: nat, other: string)
    requires FirstGood(item, replies) == None && b < |replies|
    ensures !Gives(replies[b], item, other)
  {
    if b < |replies| - 1 {
      NoneIsGiven(item, replies[..|replies| - 1], b, other);
    }
  }

  lemma {:induction false} FirstGivenIsGood(item: Item, replies: seq<Reply>, text: string, a: nat)
    requires a < |replies| && Gives(replies[a], item, text)
    requires forall b, other :: 0 <= b < a ==> !Gives(replies[b], item, other)
    ensures FirstGood(item, replies) == Some(text)
  {
    var n := |replies| - 1;
    if a < n {
      FirstGivenIsGood(item, replies[..n], text, a);
    } else if FirstGood(item, replies[..n]).Some? {
      var b := FirstGoodIsGiven(item, replies[..n]);
    }
  }

  lemma {:induction false} FirstGoodIsGiven(item: Item, replies: seq<Reply>) returns (a: nat)
    requires FirstGood(item, replies).Some?
    ensures a < |replies| && Gives(replies[a], item, FirstGood(item, replies).value)
    ensures forall b, other :: 0 <= b < a ==> !Gives(replies[b], item, other)
  {
    var n := |replies| - 1;
    if FirstGood(item, replies[..n]).Some? {
      a := FirstGoodIsGiven(item, replies[..n]);
      forall b, other | 0 <= b < a ensures !Gives(replies[b], item, other) {
        assert !Gives(replies[..n][b], item, other);
      }
    } else {
      a := n;
      forall b, other | 0 <= b < a ensures !Gives(replies[b], item, other) {
        NoneIsGiven(item, replies[..n], b, other);
      }
    }
  }

  // ----- Places in the plan

  lemma {:induction false} PlanCountsNext(lines: seq<string>, n: nat, cl: Classifier)
    requires n < |lines|
    ensures |Plan(lines, n + 1, cl)| == |Plan(lines, n, cl)| + if IsProse(lines, n, cl) then 1 else 0
  {
    PlanStep(lines, n, cl);
  }

  /** The plan of the first `n` lines has as many entries as they have prose lines. */
  ghost predicate PlansAll(lines: seq<string>, n: nat, cl: Classifier) {
    n <= |lines| && |Plan(lines, n, cl)| == ProseBefore(lines, n, cl)
  }

  lemma {:induction false} PlansNone(lines: seq<string>, cl: Classifier)
    ensures PlansAll(lines, 0, cl)
  {
    assert Plan(lines, 0, cl) == [];
  }

  lemma {:induction false} PlansNext(lines: seq<string>, n: nat, cl: Classifier)
    requires n < |lines| && PlansAll(lines, n, cl)
    ensures PlansAll(lines, n + 1, cl)
  {
    PlanCountsNext(lines, n, cl);
  }

  lemma {:induction false} PlanCounts(lines: seq<string>, n: nat, cl: Classifier)
    requires n <= |lines|
    ensures PlansAll(lines, n, cl)
  {
    var i := 0;
    PlansNone(lines, cl);
    while i < n
      invariant i <= n && PlansAll(lines, i, cl)
    {
      PlansNext(lines, i, cl);
      i := i + 1;
    }
  }

  /** Once planned an entry stays where it is. */
  lemma {:induction false} PlanKeeps(lines: seq<string>, m: nat, n: nat, cl: Classifier)
    requires m <= n <= |lines|
    ensures Plan(lines, m, cl) <= Plan(lines, n, cl)
    decreases n - m
  {
    if m < n {
      PlanKeeps(lines, m + 1, n, cl);
      PlanStep(lines, m, cl);
      PrefixOfPrefix(Plan(lines, m, cl), PlanAt(lines, m, cl), Plan(lines, n, cl));
    }
  }

  lemma {:induction false} PrefixOfPrefix<T>(a: seq<T>, b: seq<T>, c: seq<T>)
    requires a + b <= c
    ensures a <= c
  {
  }

  /** A prose line is planned at its number among the prose lines. */
  lemma {:induction false} PlannedAt(lines: seq<string>, i: nat, cl: Classifier)
    requires i < |lines| && IsProse(lines, i, cl)
    ensures ProseBefore(lines, i, cl) < |Plan(lines, |lines|, cl)|
    ensures Plan(lines, |lines|, cl)[ProseBefore(lines, i, cl)] == EntryAt(lines, i, cl)
  {
    PlanCounts(lines, i, cl);
    PlanStep(lines, i, cl);
    PlanKeeps(lines, i + 1, |lines|, cl);
    AtEndOfPrefix(Plan(lines, i, cl), EntryAt(lines, i, cl), Plan(lines, |lines|, cl));
  }

  lemma {:induction false} AtEndOfPrefix<T>(a: seq<T>, x: T, c: seq<T>)
    requires a + [x] <= c
    ensures |a| < |c| && c[|a|] == x
  {
    assert (a + [x])[|a|] == x;
  }

  /** And every planned entry is at the number of its line. */
  lemma {:induction false} PlannedNumber(lines: seq<string>, k: nat, cl: Classifier)
    requires k < |Plan(lines, |lines|, cl)|
    ensures var i := Plan(lines, |lines|, cl)[k].lineIndex;
            i < |lines| && IsProse(lines, i, cl) && ProseBefore(lines, i, cl) == k
            && Plan(lines, |lines|, cl)[k] == EntryAt(lines, i, cl)
  {
    var plan := Plan(lines, |lines|, cl);
    PlanMeaning(lines, |lines|, cl);
    var i := plan[k].lineIndex;
    PlannedAt(lines, i, cl);
    SamePlace(plan, ProseBefore(lines, i, cl), k);
  }

  lemma {:induction false} SamePlace(entries: seq<ProseEntry>, j: nat, k: nat)
    requires Ascending(entries) && j < |entries| && k < |entries| && entries[j].lineIndex == entries[k].lineIndex
    ensures j == k
  {
  }

  // ----- Groups

  /** Groups of a fixed size, the last of which may be shorter. */
  ghost predicate InSteps<T>(groups: seq<seq<T>>, step: nat) {
    && (forall g :: 0 <= g < |groups| ==> 1 <= |groups[g]| <= step)
    && (forall g :: 0 <= g < |groups| - 1 ==> |groups[g]| == step)
  }

  lemma {:induction false} FullGroups<T>(groups: seq<seq<T>>, step: nat)
    requires forall g :: 0 <= g < |groups| ==> |groups[g]| == step
    ensures |Flatten(groups)| == |groups| * step
  {
    if groups != [] {
      FullGroups(groups[..|groups| - 1], step);
      assert |groups| * step == (|groups| - 1) * step + step;
    }
  }

  lemma {:induction false} Multiply(a: int, b: int, step: nat)
    requires a <= b
    ensures a * step <= b * step
  {
  }

  lemma {:induction false} Divide(a: int, b: int, step: nat)
    requires a * step < b * step
    ensures a < b
  {
    if b <= a {
      Multiply(b, a, step);
    }
  }

  lemma {:induction false} Quotient(k: nat, n: nat, step: nat)
    requires step >= 1 && n * step <= k < n * step + step
    ensures k / step == n
  {
    var q := k / step;
    assert q * step <= k < q * step + step;
    assert (q + 1) * step == q * step + step && (n + 1) * step == n * step + step;
    Divide(n, q + 1, step);
    Divide(q, n + 1, step);
  }

  /** Which group the entry at place `k` is in. */
  lemma {:induction false} GroupOfPlace<T>(groups: seq<seq<T>>, step: nat, k: nat)
    requires groups != [] && step >= 1 && InSteps(groups, step) && k < |Flatten(groups)|
    ensures k >= |Flatten(groups[..|groups| - 1])| ==> k / step == |groups| - 1
  {
    FullGroups(groups[..|groups| - 1], step);
    if k >= |Flatten(groups[..|groups| - 1])| {
      Quotient(k, |groups| - 1, step);
    }
  }

  /** The entry at place `k` comes with the reply of group `k / step`. */
  ghost predicate HasReply(groups: seq<seq<ProseEntry>>, replies: seq<Reply>, g: nat, k: nat)
    requires |groups| == |replies|
  {
    && k < |Flatten(groups)| && k < |Pairs(groups, replies)| && g < |groups|
    && Pairs(groups, replies)[k] == (Flatten(groups)[k], replies[g]) && Flatten(groups)[k] in groups[g]
  }

  lemma {:induction false} ReplyOfEarlier(groups: seq<seq<ProseEntry>>, replies: seq<Reply>, g: nat, k: nat)
    requires |groups| == |replies| && groups != [] && HasReply(groups[..|groups| - 1], replies[..|groups| - 1], g, k)
    ensures HasReply(groups, replies, g, k)
  {
  }

  lemma {:induction false} ReplyOfLast(groups: seq<seq<ProseEntry>>, replies: seq<Reply>, k: nat)
    requires |groups| == |replies| && groups != [] && |Flatten(groups[..|groups| - 1])| <= k < |Flatten(groups)|
    ensures HasReply(groups, replies, |groups| - 1, k)
  {
    var n := |groups| - 1;
    PairsAreEntries(groups[..n], replies[..n]);
    InLastGroup(Flatten(groups[..n]), groups[n], k);
  }

  lemma {:induction false} ReplyOf(groups: seq<seq<ProseEntry>>, replies: seq<Reply>, step: nat, k: nat)
    requires |groups| == |replies| && step >= 1 && InSteps(groups, step) && k < |Flatten(groups)|
    ensures HasReply(groups, replies, k / step, k)
  {
    var n := |groups| - 1;
    GroupOfPlace(groups, step, k);
    if k < |Flatten(groups[..n])| {
      ReplyOf(groups[..n], replies[..n], step, k);
      ReplyOfEarlier(groups, replies, k / step, k);
    } else {
      ReplyOfLast(groups, replies, k);
    }
  }

  lemma {:induction false} InLastGroup<T>(before: seq<T>, last: seq<T>, k: nat)
    requires |before| <= k < |before + last|
    ensures (before + last)[k] == last[k - |before|] && (before + last)[k] in last
  {
  }

  // ----- The result of a group

  lemma {:induction false} SettledAt(items: seq<Item>, replies: seq<Reply>, j: nat)
    requires DistinctIds(items) && j < |items|
    ensures items[j].id in Settled(items, replies) <==> FirstGood(items[j], replies).Some?
    ensures FirstGood(items[j], replies).Some? ==> Settled(items, replies)[items[j].id] == FirstGood(items[j], replies).value
  {
    var n := |items| - 1;
    if j < n {
      SettledAt(items[..n], replies, j);
    } else {
      NotSettledYet(items[..n], replies, items[n].id);
    }
  }

  lemma {:induction false} NotSettledYet(items: seq<Item>, replies: seq<Reply>, id: nat)
    requires forall j :: 0 <= j < |items| ==> items[j].id != id
    ensures id !in Settled(items, replies)
  {
    if items != [] {
      NotSettledYet(items[..|items| - 1], replies, id);
    }
  }

  /** The reply of its group holds for an entry exactly the first good answer to it. */
  lemma {:induction false} TextOfEntry(groups: seq<seq<ProseEntry>>, server: Server, g: nat, e: ProseEntry)
    requires g < |groups| && e in groups[g] && Ascending(groups[g])
    ensures TextOf(e, AllResolved(groups, server)[g]) ==
            if server(g).None? then None else FirstGood(Item(e.lineIndex, e.core, e.tokens), server(g).value)
  {
    if server(g).Some? {
      var j :| 0 <= j < |groups[g]| && groups[g][j] == e;
      SettledAt(ItemsOf(groups[g]), server(g).value, j);
    }
  }

  // ----- Entries without an answer

  ghost function Textless(pairs: seq<(ProseEntry, Reply)>): set<nat> {
    set k: nat | k < |pairs| && TextOf(pairs[k].0, pairs[k].1).None? :: pairs[k].0.lineIndex
  }

  lemma {:induction false} TextlessNext(pairs: seq<(ProseEntry, Reply)>, original: seq<string>)
    requires pairs != [] && GoodPairs(pairs, original)
    ensures var n := |pairs| - 1;
            |Textless(pairs)| == |Textless(pairs[..n])| + if TextOf(pairs[n].0, pairs[n].1).None? then 1 else 0
  {
    var n := |pairs| - 1;
    var before, i := Textless(pairs[..n]), pairs[n].0.lineIndex;
    forall x | x in before ensures x < i {
      var k :| 0 <= k < n && pairs[..n][k].0.lineIndex == x;
      assert pairs[k].0.lineIndex < pairs[n].0.lineIndex;
    }
    forall x | x in before ensures x in Textless(pairs) {
      var k :| 0 <= k < n && TextOf(pairs[..n][k].0, pairs[..n][k].1).None? && pairs[..n][k].0.lineIndex == x;
      assert TextOf(pairs[k].0, pairs[k].1).None? && pairs[k].0.lineIndex == x;
    }
    forall x | x in Textless(pairs) ensures x in before || (x == i && TextOf(pairs[n].0, pairs[n].1).None?) {
      var k :| 0 <= k < |pairs| && TextOf(pairs[k].0, pairs[k].1).None? && pairs[k].0.lineIndex == x;
      if k < n {
        assert TextOf(pairs[..n][k].0, pairs[..n][k].1).None? && pairs[..n][k].0.lineIndex == x;
      }
    }
    if TextOf(pairs[n].0, pairs[n].1).None? {
      assert Textless(pairs) == before + {i};
    } else {
      assert Textless(pairs) == before;
    }
  }

  lemma {:induction false} FallbackCounts(original: seq<string>, pairs: seq<(ProseEntry, Reply)>)
    requires GoodPairs(pairs, original)
    ensures Apply(original, pairs).fallback == |Textless(pairs)|
  {
    if pairs == [] {
      assert Textless(pairs) == {};
    } else {
      FallbackCounts(original, pairs[..|pairs| - 1]);
      TextlessNext(pairs, original);
    }
  }

  // ----- What reaches the file

  /** These groups are the prose lines within the limit, in groups of the given size. */
  ghost predicate Covers(groups: seq<seq<ProseEntry>>, lines: seq<string>, cl: Classifier, limit: int, chunkSize: int) {
    var plan := Plan(lines, |lines|, cl);
    && InSteps(groups, Step(chunkSize))
    && Flatten(groups) == if 0 < limit < |plan| then plan[..limit] else plan
  }

  lemma {:induction false} AskedAt(groups: seq<seq<ProseEntry>>, lines: seq<string>, cl: Classifier, limit: int, chunkSize: int, i: nat)
    requires Covers(groups, lines, cl, limit, chunkSize) && i < |lines| && Attempted(lines, i, cl, limit)
    ensures var k := ProseBefore(lines, i, cl);
            k < |Flatten(groups)| && Flatten(groups)[k] == EntryAt(lines, i, cl)
  {
    PlannedAt(lines, i, cl);
  }

  lemma {:induction false} AnswerInGroup(groups: seq<seq<ProseEntry>>, server: Server, step: nat, k: nat)
    requires step >= 1 && InSteps(groups, step) && k < |Flatten(groups)| && Ascending(Flatten(groups))
    ensures var e, pairs := Flatten(groups)[k], Pairs(groups, AllResolved(groups, server));
            && k < |pairs| && pairs[k].0 == e
            && TextOf(e, pairs[k].1) ==
               if server(k / step).None? then None else FirstGood(Item(e.lineIndex, e.core, e.tokens), server(k / step).value)
  {
    ReplyOf(groups, AllResolved(groups, server), step, k);
    GroupAscends(groups, k / step);
    TextOfEntry(groups, server, k / step, Flatten(groups)[k]);
  }

  /** The lines asked about are exactly the attempted ones, each at its number, with its answer. */
  lemma {:induction false} PairOfLine(groups: seq<seq<ProseEntry>>, lines: seq<string>, cl: Classifier, limit: int, chunkSize: int,
                                      server: Server, i: nat)
    requires Covers(groups, lines, cl, limit, chunkSize) && i < |lines| && Attempted(lines, i, cl, limit)
    ensures var k, pairs := ProseBefore(lines, i, cl), Pairs(groups, AllResolved(groups, server));
            && k < |pairs| && pairs[k].0 == EntryAt(lines, i, cl)
            && TextOf(pairs[k].0, pairs[k].1) == AnswerTo(lines, i, cl, limit, chunkSize, server)
  {
    AskedAt(groups, lines, cl, limit, chunkSize, i);
    PlannedPairsAreGood(lines, cl, groups, AllResolved(groups, server));
    AnswerInGroup(groups, server, Step(chunkSize), ProseBefore(lines, i, cl));
  }

  lemma {:induction false} LineOfPair(groups: seq<seq<ProseEntry>>, lines: seq<string>, cl: Classifier, limit: int, chunkSize: int,
                                      replies: seq<Reply>, k: nat)
    requires Covers(groups, lines, cl, limit, chunkSize) && |groups| == |replies| && k < |Pairs(groups, replies)|
    ensures var i := Pairs(groups, replies)[k].0.lineIndex;
            i < |lines| && Attempted(lines, i, cl, limit) && ProseBefore(lines, i, cl) == k
  {
    PairsAreEntries(groups, replies);
    PlannedNumber(lines, k, cl);
  }

  /** The text at a line: its answer between its own ends, or the line as it was. */
  ghost function LineNow(lines: seq<string>, i: nat, cl: Classifier, limit: int, chunkSize: int, server: Server): string
    requires i < |lines|
  {
    var answer := AnswerTo(lines, i, cl, limit, chunkSize, server);
    if answer.None? then lines[i]
    else EntryAt(lines, i, cl).prefix + answer.value + EntryAt(lines, i, cl).suffix
  }

  lemma {:induction false} AnswerReachesLine(groups: seq<seq<ProseEntry>>, lines: seq<string>, cl: Classifier, limit: int, chunkSize: int,
                                             server: Server, i: nat)
    requires Covers(groups, lines, cl, limit, chunkSize) && i < |lines|
    requires GoodPairs(Pairs(groups, AllResolved(groups, server)), lines)
    ensures Apply(lines, Pairs(groups, AllResolved(groups, server))).lines[i] == LineNow(lines, i, cl, limit, chunkSize, server)
  {
    var pairs := Pairs(groups, AllResolved(groups, server));
    if Attempted(lines, i, cl, limit) {
      PairOfLine(groups, lines, cl, limit, chunkSize, server, i);
      var k := ProseBefore(lines, i, cl);
      AppliedAt(lines, pairs, k);
      NoAnswerNoChange(lines, pairs[k].0, pairs[k].1);
    } else {
      forall k | 0 <= k < |pairs| ensures pairs[k].0.lineIndex != i {
        LineOfPair(groups, lines, cl, limit, chunkSize, AllResolved(groups, server), k);
      }
      NotAppliedAt(lines, pairs, i);
    }
  }

  lemma {:induction false} TextlessAreUnanswered(groups: seq<seq<ProseEntry>>, lines: seq<string>, cl: Classifier, limit: int,
                                                 chunkSize: int, server: Server)
    requires Covers(groups, lines, cl, limit, chunkSize)
    ensures Textless(Pairs(groups, AllResolved(groups, server))) == Unanswered(lines, cl, limit, chunkSize, server)
  {
    var pairs := Pairs(groups, AllResolved(groups, server));
    forall i | i in Textless(pairs) ensures i in Unanswered(lines, cl, limit, chunkSize, server) {
      var k :| 0 <= k < |pairs| && TextOf(pairs[k].0, pairs[k].1).None? && pairs[k].0.lineIndex == i;
      LineOfPair(groups, lines, cl, limit, chunkSize, AllResolved(groups, server), k);
      PairOfLine(groups, lines, cl, limit, chunkSize, server, i);
    }
    forall i | i in Unanswered(lines, cl, limit, chunkSize, server) ensures i in Textless(pairs) {
      PairOfLine(groups, lines, cl, limit, chunkSize, server, i);
      assert TextOf(pairs[ProseBefore(lines, i, cl)].0, pairs[ProseBefore(lines, i, cl)].1).None?;
    }
  }

  /** However the groups are asked for, the list put together has these lines and this fallback count. */
  lemma {:induction false} AnswersReachTheList(groups: seq<seq<ProseEntry>>, lines: seq<string>, cl: Classifier, limit: int,
                                               chunkSize: int, server: Server)
    requires Covers(groups, lines, cl, limit, chunkSize)
    ensures var pairs := Pairs(groups, AllResolved(groups, server));
            && GoodPairs(pairs, lines)
            && (forall i :: 0 <= i < |lines| ==> Apply(lines, pairs).lines[i] == LineNow(lines, i, cl, limit, chunkSize, server))
            && Apply(lines, pairs).fallback == |Unanswered(lines, cl, limit, chunkSize, server)|
  {
    var pairs := Pairs(groups, AllResolved(groups, server));
    PlannedPairsAreGood(lines, cl, groups, AllResolved(groups, server));
    forall i | 0 <= i < |lines| ensures Apply(lines, pairs).lines[i] == LineNow(lines, i, cl, limit, chunkSize, server) {
      AnswerReachesLine(groups, lines, cl, limit, chunkSize, server, i);
    }
    FallbackCounts(lines, pairs);
    TextlessAreUnanswered(groups, lines, cl, limit, chunkSize, server);
  }

  /** `rewriteAll` on the list of lines: each prose line within the limit becomes its first good answer
      between its own ends, every other line stays, and both counts are exact. */
  method RewriteAll(lines: seq<string>, cl: Classifier, limit: int, chunkSize: int, server: Server) returns (o: Output)
    ensures |o.lines| == |lines|
    ensures forall i :: 0 <= i < |lines| ==> o.lines[i] == LineNow(lines, i, cl, limit, chunkSize, server)
    ensures forall i :: 0 <= i < |lines| ==> SafeLine(lines, i, o.lines[i], cl)
    ensures o.changed == |Differences(lines, o.lines)|
    ensures o.fallback == |Unanswered(lines, cl, limit, chunkSize, server)|
    ensures limit > 0 ==> o.changed + o.fallback <= limit
  {
    var prose := PlanRewrite(lines, cl);
    var toRewrite := if 0 < limit < |prose| then prose[..limit] else prose;
    var groups := Chunk(toRewrite, chunkSize);
    PlanMeaning(lines, |lines|, cl);
    assert Ascending(toRewrite);
    var replies := CallModel(groups, server);
    OutputIsSafe(lines, cl, groups, server);
    AnswersReachTheList(groups, lines, cl, limit, chunkSize, server);
    o := Reassemble(lines, groups, replies);
    ChangedCountsDifferences(lines, Pairs(groups, replies));
    PairsAreEntries(groups, replies);
  }
}
