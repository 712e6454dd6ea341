/**
 What the replay of `read_optimizer.py` counts, said by the lines that every call asks for and brings.
 */
module ReadTally {
  import opened Spans
  import opened ReadOptimizer
  import Counting

  // ----- Lines of one call

  predicate Asks(call: ReadCall, x: int, cfg: Config) {
    match call
    case Explicit(s, e) => s <= x <= e
    case Open(s) => s <= x < s + cfg.page
    case Default => 1 <= x <= cfg.page
    case Unbounded => false
  }

  /** The first line of a result: `leading` lines before the request, but not before line 1. */
  function Top(start: int, cfg: Config): int {
    if start <= cfg.leading then 1 else start - cfg.leading
  }

  /** Only an explicit range is followed by trailing context; the cap counts from the first line. */
  predicate Brings(call: ReadCall, x: int, cfg: Config) {
    match call
    case Explicit(s, e) => Top(s, cfg) <= x <= e + cfg.trailing && x < Top(s, cfg) + cfg.maxLines
    case Open(s) => Top(s, cfg) <= x < s + cfg.page && x < Top(s, cfg) + cfg.maxLines
    case Default => 1 <= x <= cfg.page && x <= cfg.maxLines
    case Unbounded => false
  }

  /** Which lines a call asks for and which it brings. */
  lemma {:induction false} DeliveredExactly(call: ReadCall, cfg: Config, x: int)
    requires WellBounded(call) && !call.Unbounded?
    requires cfg.page >= 1 && cfg.maxLines >= 1 && cfg.leading >= 0 && cfg.trailing >= 0
    ensures var req := Requested(call, cfg).value; req.lo <= x <= req.hi <==> Asks(call, x, cfg)
    ensures var d := Delivered(call, cfg).value; d.lo <= x <= d.hi <==> Brings(call, x, cfg)
  {
  }

  // ----- Calls that are paid for

  /** Line `x` was brought by a call paid for among the first `n` of the group. */
  ghost predicate Seen(group: seq<ReadCall>, n: nat, x: int, cfg: Config)
    requires n <= |group|
    decreases n, 0
  {
    exists j: nat :: j < n && Fetched(group, j, cfg) && Brings(group[j], x, cfg)
  }

  /** The first call and every call without a range is paid for, and each other call that asks for a line
      nobody has brought. */
  ghost predicate Fetched(group: seq<ReadCall>, k: nat, cfg: Config)
    requires k < |group|
    decreases k, 1
  {
    k == 0 || group[k].Unbounded? || exists x :: Asks(group[k], x, cfg) && !Seen(group, k, x, cfg)
  }

  lemma {:induction false} PaidRangesNext(group: seq<ReadCall>, n: nat, cfg: Config)
    requires n < |group|
    ensures PaidRanges(group[..n + 1], cfg) ==
            PaidRanges(group[..n], cfg) +
            if group[n].Unbounded? || !Pays(group, n, cfg) then [] else [Delivered(group[n], cfg).value]
  {
    assert group[..n + 1][..n] == group[..n];
  }

  ghost predicate InCoverage(group: seq<ReadCall>, n: nat, x: int, cfg: Config)
    requires n <= |group|
  {
    x in Lines(PaidRanges(group[..n], cfg))
  }

  ghost predicate CoverageIsSeen(group: seq<ReadCall>, n: nat, cfg: Config)
    requires n <= |group|
  {
    forall x :: InCoverage(group, n, x, cfg) <==> Seen(group, n, x, cfg)
  }

  lemma {:induction false} InCoverageNext(group: seq<ReadCall>, n: nat, x: int, cfg: Config)
    requires Sensible(group, cfg) && n < |group|
    ensures InCoverage(group, n + 1, x, cfg) <==>
            InCoverage(group, n, x, cfg) || (Pays(group, n, cfg) && Brings(group[n], x, cfg))
  {
    PaidRangesNext(group, n, cfg);
    if !group[n].Unbounded? && Pays(group, n, cfg) {
      var d := Delivered(group[n], cfg).value;
      assert WellBounded(group[n]);
      LinesAppend(PaidRanges(group[..n], cfg), [d]);
      LinesOfOne(d);
      DeliveredExactly(group[n], cfg, x);
    } else {
      assert PaidRanges(group[..n], cfg) + [] == PaidRanges(group[..n], cfg);
    }
  }

  lemma {:induction false} SeenNext(group: seq<ReadCall>, n: nat, x: int, cfg: Config)
    requires n < |group|
    ensures Seen(group, n + 1, x, cfg) <==> Seen(group, n, x, cfg) || (Fetched(group, n, cfg) && Brings(group[n], x, cfg))
  {
  }

  /** A call is paid for exactly when it must be fetched. */
  lemma {:induction false} PaidExactly(group: seq<ReadCall>, k: nat, cfg: Config)
    requires Sensible(group, cfg) && k < |group| && CoverageIsSeen(group, k, cfg)
    ensures Pays(group, k, cfg) <==> Fetched(group, k, cfg)
  {
    if k > 0 && !group[k].Unbounded? {
      SkippedIffAlreadyDelivered(group, k, cfg);
      var req := Requested(group[k], cfg).value;
      assert WellBounded(group[k]);
      forall x ensures (x in Range(req.lo, req.hi) <==> Asks(group[k], x, cfg)) && InCoverage(group, k, x, cfg) == Seen(group, k, x, cfg) {
        DeliveredExactly(group[k], cfg, x);
      }
    }
  }

  lemma {:induction false} CoverageIsSeenNext(group: seq<ReadCall>, n: nat, cfg: Config)
    requires Sensible(group, cfg) && n < |group| && CoverageIsSeen(group, n, cfg)
    ensures CoverageIsSeen(group, n + 1, cfg)
  {
    PaidExactly(group, n, cfg);
    var m := n + 1;
    forall x ensures InCoverage(group, m, x, cfg) <==> Seen(group, m, x, cfg) {
      SeenNext(group, n, x, cfg);
      InCoverageNext(group, n, x, cfg);
    }
  }

  lemma {:induction false} CoverageIsAlwaysSeen(group: seq<ReadCall>, n: nat, cfg: Config)
    requires Sensible(group, cfg) && n <= |group|
    ensures CoverageIsSeen(group, n, cfg)
  {
    var i := 0;
    assert group[..0] == [];
    while i < n
      invariant i <= n && CoverageIsSeen(group, i, cfg)
    {
      CoverageIsSeenNext(group, i, cfg);
      i := i + 1;
    }
  }

  // ----- Counters

  datatype Counter = Calls | Skipped | Raw | SelectorCalls | SelectorSkipped | DefaultCalls | DefaultSkipped

  function Value(t: Tally, c: Counter): nat {
    match c
    case Calls => t.calls
    case Skipped => t.skipped
    case Raw => t.rawCalls
    case SelectorCalls => t.selectorCalls
    case SelectorSkipped => t.selectorSkipped
    case DefaultCalls => t.defaultCalls
    case DefaultSkipped => t.defaultSkipped
  }

  /** Which calls of a group a counter counts. */
  ghost predicate Counted(c: Counter, group: seq<ReadCall>, k: nat, cfg: Config)
    requires k < |group|
  {
    match c
    case Calls => Fetched(group, k, cfg)
    case Skipped => !Fetched(group, k, cfg)
    case Raw => group[k].Unbounded?
    case SelectorCalls => Fetched(group, k, cfg) && (group[0].Explicit? || group[0].Open?)
    case SelectorSkipped => !Fetched(group, k, cfg) && (group[0].Explicit? || group[0].Open?)
    case DefaultCalls => Fetched(group, k, cfg) && group[0].Default?
    case DefaultSkipped => !Fetched(group, k, cfg) && group[0].Default?
  }

  ghost function CountedUpTo(c: Counter, group: seq<ReadCall>, n: nat, cfg: Config): set<nat>
    requires n <= |group|
  {
    set k: nat | k < n && Counted(c, group, k, cfg)
  }

  lemma {:induction false} OneMore(c: Counter, group: seq<ReadCall>, n: nat, cfg: Config)
    requires n < |group|
    ensures |CountedUpTo(c, group, n + 1, cfg)| == |CountedUpTo(c, group, n, cfg)| + if Counted(c, group, n, cfg) then 1 else 0
  {
    Counting.OneMore(n, CountedUpTo(c, group, n, cfg), CountedUpTo(c, group, n + 1, cfg), Counted(c, group, n, cfg));
  }

  /** What the replay of the first `n` calls has counted. */
  ghost predicate PlaysExactly(group: seq<ReadCall>, n: nat, cfg: Config)
    requires n <= |group|
  {
    var run := Play(group[..n], cfg);
    && run.bounded + run.unbounded == |CountedUpTo(Calls, group, n, cfg)|
    && run.skipped == |CountedUpTo(Skipped, group, n, cfg)|
    && run.unbounded == |CountedUpTo(Raw, group, n, cfg)|
  }

  lemma {:induction false} StepCounts(run: Run, call: ReadCall, cfg: Config, first: bool)
    ensures var run' := Step(run, call, cfg, first);
            var pays := !Skips(run.coverage, call, cfg, first);
            && run'.bounded + run'.unbounded == run.bounded + run.unbounded + (if pays then 1 else 0)
            && run'.skipped == run.skipped + (if pays then 0 else 1)
            && run'.unbounded == run.unbounded + (if call.Unbounded? then 1 else 0)
  {
  }

  lemma {:induction false} PlayOneMore(group: seq<ReadCall>, n: nat, cfg: Config)
    requires n < |group|
    ensures Play(group[..n + 1], cfg) == Step(Play(group[..n], cfg), group[n], cfg, n == 0)
  {
    assert group[..n + 1][..n] == group[..n];
  }

  lemma {:induction false} PaysOrNot(group: seq<ReadCall>, n: nat, cfg: Config)
    requires Sensible(group, cfg) && n < |group|
    ensures Skips(Play(group[..n], cfg).coverage, group[n], cfg, n == 0) <==> !Fetched(group, n, cfg)
  {
    CoverageIsAlwaysSeen(group, n, cfg);
    PaidExactly(group, n, cfg);
  }

  lemma {:induction false} PlaysExactlyNext(group: seq<ReadCall>, n: nat, cfg: Config)
    requires Sensible(group, cfg) && n < |group| && PlaysExactly(group, n, cfg)
    ensures PlaysExactly(group, n + 1, cfg)
  {
    PlayOneMore(group, n, cfg);
    StepCounts(Play(group[..n], cfg), group[n], cfg, n == 0);
    PaysOrNot(group, n, cfg);
    OneMore(Calls, group, n, cfg);
    OneMore(Skipped, group, n, cfg);
    OneMore(Raw, group, n, cfg);
  }

  /** A replayed group pays for the calls that must be fetched and skips the others. */
  lemma {:induction false} GroupPaysExactly(group: seq<ReadCall>, cfg: Config)
    requires Sensible(group, cfg)
    ensures var run, n := Play(group, cfg), |group|;
            && run.bounded + run.unbounded == |CountedUpTo(Calls, group, n, cfg)|
            && run.skipped == |CountedUpTo(Skipped, group, n, cfg)|
            && run.unbounded == |CountedUpTo(Raw, group, n, cfg)|
  {
    var i := 0;
    assert CountedUpTo(Calls, group, 0, cfg) == CountedUpTo(Skipped, group, 0, cfg) == CountedUpTo(Raw, group, 0, cfg) == {};
    while i < |group|
      invariant i <= |group| && PlaysExactly(group, i, cfg)
    {
      PlaysExactlyNext(group, i, cfg);
      i := i + 1;
    }
    assert group[..|group|] == group;
  }

  // ----- All groups

  ghost predicate Usable(groups: seq<seq<ReadCall>>, cfg: Config) {
    forall g :: 0 <= g < |groups| ==> groups[g] != [] && Sensible(groups[g], cfg)
  }

  /** The calls of all groups that a counter counts, by group and place. */
  ghost function Positions(c: Counter, groups: seq<seq<ReadCall>>, cfg: Config): set<(nat, nat)> {
    set g: nat, k: nat | g < |groups| && k < |groups[g]| && Counted(c, groups[g], k, cfg) :: (g, k)
  }

  lemma {:induction false} InPositions(c: Counter, groups: seq<seq<ReadCall>>, cfg: Config, g: nat, k: nat)
    ensures (g, k) in Positions(c, groups, cfg) <==> g < |groups| && k in CountedUpTo(c, groups[g], |groups[g]|, cfg)
  {
  }

  lemma {:induction false} PositionsNext(c: Counter, groups: seq<seq<ReadCall>>, cfg: Config)
    requires groups != []
    ensures var n := |groups| - 1;
            |Positions(c, groups, cfg)| == |Positions(c, groups[..n], cfg)| + |CountedUpTo(c, groups[n], |groups[n]|, cfg)|
  {
    var n := |groups| - 1;
    var before, now, last := Positions(c, groups[..n], cfg), Positions(c, groups, cfg), CountedUpTo(c, groups[n], |groups[n]|, cfg);
    forall p: (nat, nat) ensures p in now <==> p in before || (p.0 == n && p.1 in last) {
      InPositions(c, groups, cfg, p.0, p.1);
      InPositions(c, groups[..n], cfg, p.0, p.1);
    }
    Counting.OneMoreGroup(n, before, now, last);
  }

  lemma {:induction false} GroupAddsExactly(c: Counter, t: Tally, group: seq<ReadCall>, cfg: Config)
    requires group != [] && Sensible(group, cfg)
    ensures Value(AddGroup(t, group, cfg), c) == Value(t, c) + |CountedUpTo(c, group, |group|, cfg)|
  {
    var n := |group|;
    GroupPaysExactly(group, cfg);
    if group[0].Explicit? || group[0].Open? {
      assert CountedUpTo(SelectorCalls, group, n, cfg) == CountedUpTo(Calls, group, n, cfg);
      assert CountedUpTo(SelectorSkipped, group, n, cfg) == CountedUpTo(Skipped, group, n, cfg);
    } else {
      assert CountedUpTo(SelectorCalls, group, n, cfg) == CountedUpTo(SelectorSkipped, group, n, cfg) == {};
    }
    if group[0].Default? {
      assert CountedUpTo(DefaultCalls, group, n, cfg) == CountedUpTo(Calls, group, n, cfg);
      assert CountedUpTo(DefaultSkipped, group, n, cfg) == CountedUpTo(Skipped, group, n, cfg);
    } else {
      assert CountedUpTo(DefaultCalls, group, n, cfg) == CountedUpTo(DefaultSkipped, group, n, cfg) == {};
    }
  }

  /** Every counter is the number of calls it is about. */
  lemma {:induction false} TallyCountsExactly(groups: seq<seq<ReadCall>>, cfg: Config, c: Counter)
    requires Usable(groups, cfg)
    ensures Value(AddGroups(groups, cfg), c) == |Positions(c, groups, cfg)|
  {
    if groups == [] {
      assert Positions(c, groups, cfg) == {};
    } else {
      var n := |groups| - 1;
      TallyCountsExactly(groups[..n], cfg, c);
      PositionsNext(c, groups, cfg);
      GroupAddsExactly(c, AddGroups(groups[..n], cfg), groups[n], cfg);
    }
  }

  // ----- Groups

  /** The first call names a range or a start, and brings every line that a later one asks for. */
  ghost predicate FirstBringsAll(group: seq<ReadCall>, cfg: Config)
    requires group != []
  {
    && (group[0].Explicit? || group[0].Open?)
    && forall k: nat, x :: 0 < k < |group| && Asks(group[k], x, cfg) ==> Brings(group[0], x, cfg)
  }

  lemma {:induction false} LaterIsCovered(group: seq<ReadCall>, k: nat, cfg: Config)
    requires Sensible(group, cfg) && 0 < k < |group| && !group[0].Unbounded? && !group[k].Unbounded?
    ensures IsCovered([Delivered(group[0], cfg).value], Requested(group[k], cfg).value) <==>
            forall x :: Asks(group[k], x, cfg) ==> Brings(group[0], x, cfg)
  {
    var d, req := Delivered(group[0], cfg).value, Requested(group[k], cfg).value;
    assert WellBounded(group[0]) && WellBounded(group[k]);
    DeliveredIsNonEmpty(group[0], cfg);
    DeliveredIsNonEmpty(group[k], cfg);
    CoverageTestsAreExact([d], req);
    LinesOfOne(d);
    forall x ensures (x in Range(req.lo, req.hi) <==> Asks(group[k], x, cfg)) && (x in Range(d.lo, d.hi) <==> Brings(group[0], x, cfg)) {
      DeliveredExactly(group[k], cfg, x);
      DeliveredExactly(group[0], cfg, x);
    }
  }

  lemma {:induction false} CoveredExactly(group: seq<ReadCall>, cfg: Config)
    requires group != [] && Sensible(group, cfg)
    ensures FirstCoversAll(group, cfg) <==> FirstBringsAll(group, cfg)
  {
    if group[0].Explicit? || group[0].Open? {
      forall k: nat | 0 < k < |group| && !group[k].Unbounded?
        ensures IsCovered([Delivered(group[0], cfg).value], Requested(group[k], cfg).value) <==>
                forall x :: Asks(group[k], x, cfg) ==> Brings(group[0], x, cfg)
      {
        LaterIsCovered(group, k, cfg);
      }
    }
  }

  ghost function SelectorGroups(groups: seq<seq<ReadCall>>): set<nat>
    requires forall g :: 0 <= g < |groups| ==> groups[g] != []
  {
    set g: nat | g < |groups| && (groups[g][0].Explicit? || groups[g][0].Open?)
  }

  ghost function CoveredGroups(groups: seq<seq<ReadCall>>, cfg: Config): set<nat>
    requires forall g :: 0 <= g < |groups| ==> groups[g] != []
  {
    set g: nat | g < |groups| && FirstBringsAll(groups[g], cfg)
  }

  lemma {:induction false} AddGroupsNext(groups: seq<seq<ReadCall>>, cfg: Config)
    requires groups != [] && Usable(groups, cfg)
    ensures var n := |groups| - 1;
            var t, t' := AddGroups(groups[..n], cfg), AddGroups(groups, cfg);
            && t'.selectorGroups == t.selectorGroups + (if groups[n][0].Explicit? || groups[n][0].Open? then 1 else 0)
            && t'.allCoveredByFirst == t.allCoveredByFirst + (if FirstCoversAll(groups[n], cfg) then 1 else 0)
  {
  }

  lemma {:induction false} SelectorGroupsNext(groups: seq<seq<ReadCall>>)
    requires groups != [] && forall g :: 0 <= g < |groups| ==> groups[g] != []
    ensures var n := |groups| - 1;
            |SelectorGroups(groups)| == |SelectorGroups(groups[..n])| + if groups[n][0].Explicit? || groups[n][0].Open? then 1 else 0
  {
    var n := |groups| - 1;
    Counting.OneMore(n, SelectorGroups(groups[..n]), SelectorGroups(groups), groups[n][0].Explicit? || groups[n][0].Open?);
  }

  lemma {:induction false} CoveredGroupsNext(groups: seq<seq<ReadCall>>, cfg: Config)
    requires groups != [] && forall g :: 0 <= g < |groups| ==> groups[g] != []
    ensures var n := |groups| - 1;
            |CoveredGroups(groups, cfg)| == |CoveredGroups(groups[..n], cfg)| + if FirstBringsAll(groups[n], cfg) then 1 else 0
  {
    var n := |groups| - 1;
    Counting.OneMore(n, CoveredGroups(groups[..n], cfg), CoveredGroups(groups, cfg), FirstBringsAll(groups[n], cfg));
  }

  /** The two counters of groups are the number of groups they are about. */
  lemma {:induction false} TallyCountsGroupsExactly(groups: seq<seq<ReadCall>>, cfg: Config)
    requires Usable(groups, cfg)
    ensures AddGroups(groups, cfg).selectorGroups == |SelectorGroups(groups)|
    ensures AddGroups(groups, cfg).allCoveredByFirst == |CoveredGroups(groups, cfg)|
  {
    if groups == [] {
      assert SelectorGroups(groups) == CoveredGroups(groups, cfg) == {};
    } else {
      var n := |groups| - 1;
      TallyCountsGroupsExactly(groups[..n], cfg);
      AddGroupsNext(groups, cfg);
      CoveredExactly(groups[n], cfg);
      SelectorGroupsNext(groups);
      CoveredGroupsNext(groups, cfg);
    }
  }
}
