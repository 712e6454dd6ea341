/**
 The counterfactual replay of `read_optimizer.py`: the reads of one (session, file) group are
 replayed under a candidate window configuration, and a read whose whole request has already
 been delivered is skipped.
 */
module ReadOptimizer {
  import opened Spans
  import opened Wrappers

  /** `Unbounded` stands for the raw, conflicts and other kinds, which have no line range. */
  datatype ReadCall = Explicit(start: int, end: int) | Open(start: int) | Default | Unbounded

  datatype Config = Config(page: int, maxLines: int, leading: int, trailing: int)

  function Min(a: int, b: int): int { if a < b then a else b }

  function Max(a: int, b: int): int { if a < b then b else a }

  function Requested(call: ReadCall, cfg: Config): Option<Span> {
    match call
    case Explicit(start, end) => Some(Span(start, end))
    case Open(start) => Some(Span(start, start + cfg.page - 1))
    case Default => Some(Span(1, cfg.page))
    case Unbounded => None
  }

  function Delivered(call: ReadCall, cfg: Config): Option<Span> {
    match call
    case Explicit(s, e) =>
      var start := if s > 1 then Max(1, s - cfg.leading) else 1;
      var requested := Max(1, e - s + 1);
      var lines := Min(requested + (s - start) + cfg.trailing, cfg.maxLines);
      Some(Span(start, start + lines - 1))
    case Open(s) =>
      var start := if s > 1 then Max(1, s - cfg.leading) else 1;
      var lines := Min(cfg.page + (s - start), cfg.maxLines);
      Some(Span(start, start + lines - 1))
    case Default => Some(Span(1, Min(cfg.page, cfg.maxLines)))
    case Unbounded => None
  }

  /** A result starts at most `leading` lines before the request, stays within the cap, and holds the
      whole request unless the cap is used up. */
  lemma {:induction false} DeliveredHoldsTheRequest(call: ReadCall, cfg: Config)
    requires !call.Unbounded? && cfg.page >= 1 && cfg.maxLines >= 1 && cfg.leading >= 0 && cfg.trailing >= 0
    requires call.Explicit? ==> 1 <= call.start <= call.end
    requires call.Open? ==> 1 <= call.start
    ensures var req, d := Requested(call, cfg).value, Delivered(call, cfg).value;
            && 1 <= d.lo <= req.lo <= d.lo + cfg.leading && d.hi <= req.hi + cfg.trailing
            && d.hi - d.lo + 1 <= cfg.maxLines
            && (d.hi - d.lo + 1 == cfg.maxLines || Range(req.lo, req.hi) <= Range(d.lo, d.hi))
  {
  }

  // ----- One group

  /** Coverage so far, and how many calls were paid for (bounded or not) or skipped. */
  datatype Run = Run(coverage: seq<Span>, bounded: nat, unbounded: nat, skipped: nat)

  const START := Run([], 0, 0, 0)

  /** Whether the call at hand is answered from coverage; the first call of a group never is. */
  predicate Skips(coverage: seq<Span>, call: ReadCall, cfg: Config, first: bool) {
    !call.Unbounded? && !first && IsCovered(coverage, Requested(call, cfg).value)
  }

  function Step(run: Run, call: ReadCall, cfg: Config, first: bool): Run {
    if call.Unbounded? then run.(unbounded := run.unbounded + 1)
    else if Skips(run.coverage, call, cfg, first) then run.(skipped := run.skipped + 1)
    else run.(coverage := AddInterval(run.coverage, Delivered(call, cfg).value), bounded := run.bounded + 1)
  }

  function Play(group: seq<ReadCall>, cfg: Config): Run {
    if group == [] then START
    else Step(Play(group[..|group| - 1], cfg), group[|group| - 1], cfg, |group| == 1)
  }

  /** Whether the replay pays for call `k` of the group. */
  predicate Pays(group: seq<ReadCall>, k: nat, cfg: Config)
    requires k < |group|
  {
    !Skips(Play(group[..k], cfg).coverage, group[k], cfg, k == 0)
  }

  /** The ranges delivered by the bounded calls that were paid for. */
  function PaidRanges(group: seq<ReadCall>, cfg: Config): seq<Span> {
    if group == [] then []
    else
      var n := |group| - 1;
      PaidRanges(group[..n], cfg) +
      if group[n].Unbounded? || !Pays(group, n, cfg) then [] else [Delivered(group[n], cfg).value]
  }

  /** What the selector parser and the settings grid guarantee. */
  ghost predicate Sensible(group: seq<ReadCall>, cfg: Config) {
    && cfg.page >= 1 && cfg.maxLines >= 1 && cfg.leading >= 0 && cfg.trailing >= 0
    && forall k :: 0 <= k < |group| ==> WellBounded(group[k])
  }

  predicate WellBounded(call: ReadCall) {
    match call
    case Explicit(s, e) => 1 <= s <= e
    case Open(s) => 1 <= s
    case _ => true
  }

  lemma {:induction false} DeliveredIsNonEmpty(call: ReadCall, cfg: Config)
    requires WellBounded(call) && !call.Unbounded?
    requires cfg.page >= 1 && cfg.maxLines >= 1 && cfg.leading >= 0 && cfg.trailing >= 0
    ensures Delivered(call, cfg).value.lo <= Delivered(call, cfg).value.hi
    ensures Requested(call, cfg).value.lo <= Requested(call, cfg).value.hi
  {
  }

  /** The coverage list is canonical and means exactly what the paid calls delivered. */
  lemma {:induction false} CoverageIsWhatWasPaidFor(group: seq<ReadCall>, cfg: Config)
    requires Sensible(group, cfg)
    ensures Canonical(Play(group, cfg).coverage)
    ensures Lines(Play(group, cfg).coverage) == Lines(PaidRanges(group, cfg))
  {
    if group != [] {
      var n := |group| - 1;
      assert WellBounded(group[n]);
      CoverageIsWhatWasPaidFor(group[..n], cfg);
      if !group[n].Unbounded? && Pays(group, n, cfg) {
        var d := Delivered(group[n], cfg).value;
        DeliveredIsNonEmpty(group[n], cfg);
        AddIntervalMeaning(Play(group[..n], cfg).coverage, d);
        LinesAppend(PaidRanges(group[..n], cfg), [d]);
        LinesOfOne(d);
      } else {
        assert PaidRanges(group, cfg) == PaidRanges(group[..n], cfg);
      }
    }
  }

  /** A later bounded call is skipped if and only if every line it asks for was delivered by
      calls paid for earlier in its group. */
  lemma {:induction false} SkippedIffAlreadyDelivered(group: seq<ReadCall>, k: nat, cfg: Config)
    requires Sensible(group, cfg) && 0 < k < |group| && !group[k].Unbounded?
    ensures var req := Requested(group[k], cfg).value;
            !Pays(group, k, cfg) <==> Range(req.lo, req.hi) <= Lines(PaidRanges(group[..k], cfg))
  {
    assert WellBounded(group[k]);
    DeliveredIsNonEmpty(group[k], cfg);
    assert Sensible(group[..k], cfg);
    CoverageIsWhatWasPaidFor(group[..k], cfg);
    CoverageTestsAreExact(Play(group[..k], cfg).coverage, Requested(group[k], cfg).value);
  }

  lemma {:induction false} EveryCallIsCounted(group: seq<ReadCall>, cfg: Config)
    ensures Play(group, cfg).bounded + Play(group, cfg).unbounded + Play(group, cfg).skipped == |group|
    ensures Play(group, cfg).bounded == |PaidRanges(group, cfg)|
  {
    if group != [] {
      EveryCallIsCounted(group[..|group| - 1], cfg);
    }
  }

  // ----- Raising the line cap

  function WithCap(cfg: Config, maxLines: int): Config {
    cfg.(maxLines := maxLines)
  }

  /** Without context lines, a larger cap delivers a superset that starts with the same line. */
  lemma {:induction false} LargerCapDeliversMore(call: ReadCall, small: Config, large: Config)
    requires WellBounded(call) && !call.Unbounded?
    requires small.page >= 1 && small.leading == small.trailing == 0
    requires 1 <= small.maxLines <= large.maxLines && large == WithCap(small, large.maxLines)
    ensures var d, d', req := Delivered(call, small).value, Delivered(call, large).value, Requested(call, small).value;
            && req == Requested(call, large).value
            && req.lo == d.lo == d'.lo && d.lo <= d.hi <= d'.hi <= req.hi
  {
  }

  /** Two replays side by side: more coverage, and no more payments. */
  ghost predicate Dominates(run': Run, run: Run) {
    && Lines(run.coverage) <= Lines(run'.coverage)
    && run'.bounded <= run.bounded
    && run'.unbounded == run.unbounded
  }

  /** One call keeps the larger cap ahead, and what it pays for the smaller cap pays for too. */
  lemma {:induction false} LargerCapStaysAhead(run: Run, run': Run, call: ReadCall, small: Config, large: Config, first: bool)
    requires WellBounded(call) && small.page >= 1 && small.leading == small.trailing == 0
    requires 1 <= small.maxLines <= large.maxLines && large == WithCap(small, large.maxLines)
    requires Canonical(run.coverage) && Canonical(run'.coverage) && Dominates(run', run)
    ensures Dominates(Step(run', call, large, first), Step(run, call, small, first))
    ensures Skips(run.coverage, call, small, first) ==> Skips(run'.coverage, call, large, first)
  {
    if !call.Unbounded? {
      var d, d', req := Delivered(call, small).value, Delivered(call, large).value, Requested(call, small).value;
      LargerCapDeliversMore(call, small, large);
      CoverageTestsAreExact(run.coverage, req);
      CoverageTestsAreExact(run'.coverage, req);
      AddIntervalMeaning(run.coverage, d);
      AddIntervalMeaning(run'.coverage, d');
      assert Range(d.lo, d.hi) <= Range(d'.lo, d'.hi) <= Range(req.lo, req.hi);
    }
  }

  lemma {:induction false} CoverageIsCanonical(group: seq<ReadCall>, cfg: Config)
    requires Sensible(group, cfg)
    ensures Canonical(Play(group, cfg).coverage)
  {
    CoverageIsWhatWasPaidFor(group, cfg);
  }

  lemma {:induction false} PlayNext(group: seq<ReadCall>, cfg: Config)
    requires group != []
    ensures var n := |group| - 1; Play(group, cfg) == Step(Play(group[..n], cfg), group[n], cfg, |group| == 1)
  {
  }

  /** The larger cap is ahead after every prefix of the group. */
  lemma {:induction false} LargerCapSimulates(group: seq<ReadCall>, small: Config, large: Config)
    requires Sensible(group, small) && small.leading == small.trailing == 0
    requires small.maxLines <= large.maxLines && large == WithCap(small, large.maxLines)
    ensures Dominates(Play(group, large), Play(group, small))
    ensures Canonical(Play(group, small).coverage) && Canonical(Play(group, large).coverage)
  {
    CoverageIsCanonical(group, small);
    CoverageIsCanonical(group, large);
    if group != [] {
      var n := |group| - 1;
      var front, call := group[..n], group[n];
      LargerCapSimulates(front, small, large);
      assert WellBounded(call);
      PlayNext(group, small);
      PlayNext(group, large);
      LargerCapStaysAhead(Play(front, small), Play(front, large), call, small, large, |group| == 1);
    }
  }

  /** Any call the larger cap pays for is also paid for under the smaller cap. */
  lemma {:induction false} LargerCapPaysForASubset(group: seq<ReadCall>, k: nat, small: Config, large: Config)
    requires Sensible(group, small) && small.leading == small.trailing == 0 && k < |group|
    requires small.maxLines <= large.maxLines && large == WithCap(small, large.maxLines)
    ensures Pays(group, k, large) ==> Pays(group, k, small)
  {
    var front := group[..k];
    assert WellBounded(group[k]);
    LargerCapSimulates(front, small, large);
    LargerCapStaysAhead(Play(front, small), Play(front, large), group[k], small, large, k == 0);
  }

  /** Raising `max_lines` never makes a group pay for more calls. */
  lemma {:induction false} RaisingTheCapNeverCostsCalls(group: seq<ReadCall>, cfg: Config, maxLines: int)
    requires Sensible(group, cfg) && cfg.leading == cfg.trailing == 0 && cfg.maxLines <= maxLines
    ensures var run, run' := Play(group, cfg), Play(group, WithCap(cfg, maxLines));
            run'.bounded + run'.unbounded <= run.bounded + run.unbounded
  {
    LargerCapSimulates(group, cfg, WithCap(cfg, maxLines));
  }

  // ----- Groups whose first call is enough

  predicate SelectorFirst(group: seq<ReadCall>) {
    group != [] && (group[0].Explicit? || group[0].Open?)
  }

  /** The check made after the first call: does its result hold every later bounded request? */
  predicate FirstCoversAll(group: seq<ReadCall>, cfg: Config) {
    && SelectorFirst(group)
    && forall k :: 1 <= k < |group| && !group[k].Unbounded? ==>
         IsCovered([Delivered(group[0], cfg).value], Requested(group[k], cfg).value)
  }

  /** A group counted as covered by its first call really pays for one bounded call only. */
  lemma {:induction false} CoveredGroupPaysOnce(group: seq<ReadCall>, cfg: Config)
    requires FirstCoversAll(group, cfg)
    ensures Play(group, cfg).bounded == 1
    ensures Play(group, cfg).coverage == [Delivered(group[0], cfg).value]
  {
    var n := |group| - 1;
    if n == 0 {
      assert group[..0] == [];
      var d := Delivered(group[0], cfg).value;
      assert AddInterval([], d) == [d];
    } else {
      assert group[..n][0] == group[0];
      CoveredGroupPaysOnce(group[..n], cfg);
    }
  }

  // ----- All groups

  datatype Tally = Tally(
    calls: nat, skipped: nat, rawCalls: nat,
    selectorCalls: nat, selectorSkipped: nat, defaultCalls: nat, defaultSkipped: nat,
    selectorGroups: nat, allCoveredByFirst: nat)

  function AddGroup(t: Tally, group: seq<ReadCall>, cfg: Config): Tally
    requires group != []
  {
    var run := Play(group, cfg);
    var paid := run.bounded + run.unbounded;
    var selector, plain := SelectorFirst(group), group[0].Default?;
    Tally(t.calls + paid, t.skipped + run.skipped, t.rawCalls + run.unbounded,
          t.selectorCalls + (if selector then paid else 0), t.selectorSkipped + (if selector then run.skipped else 0),
          t.defaultCalls + (if plain then paid else 0), t.defaultSkipped + (if plain then run.skipped else 0),
          t.selectorGroups + (if selector then 1 else 0),
          t.allCoveredByFirst + (if FirstCoversAll(group, cfg) then 1 else 0))
  }

  function AddGroups(groups: seq<seq<ReadCall>>, cfg: Config): Tally
    requires forall g :: 0 <= g < |groups| ==> groups[g] != []
  {
    if groups == [] then Tally(0, 0, 0, 0, 0, 0, 0, 0, 0)
    else AddGroup(AddGroups(groups[..|groups| - 1], cfg), groups[|groups| - 1], cfg)
  }

  function TotalCalls(groups: seq<seq<ReadCall>>): nat {
    if groups == [] then 0 else TotalCalls(groups[..|groups| - 1]) + |groups[|groups| - 1]|
  }

  /** No call is lost or counted twice, and the covered groups are among the selector groups. */
  lemma {:induction false} TallyAccountsForEveryCall(groups: seq<seq<ReadCall>>, cfg: Config)
    requires forall g :: 0 <= g < |groups| ==> groups[g] != []
    ensures var t := AddGroups(groups, cfg);
            && t.calls + t.skipped == TotalCalls(groups)
            && t.allCoveredByFirst <= t.selectorGroups <= |groups|
            && t.selectorCalls + t.defaultCalls <= t.calls
            && t.selectorSkipped + t.defaultSkipped <= t.skipped
            && t.rawCalls <= t.calls
  {
    if groups != [] {
      var n := |groups| - 1;
      TallyAccountsForEveryCall(groups[..n], cfg);
      EveryCallIsCounted(groups[n], cfg);
    }
  }

  method ReplayGroup(group: seq<ReadCall>, cfg: Config) returns (run: Run, coveredByFirst: bool)
    requires group != []
    ensures run == Play(group, cfg)
    ensures coveredByFirst == FirstCoversAll(group, cfg)
  {
    var coverage: seq<Span>, bounded: nat, unbounded: nat, skipped: nat := [], 0, 0, 0;
    coveredByFirst := false;
    for idx := 0 to |group|
      invariant Run(coverage, bounded, unbounded, skipped) == Play(group[..idx], cfg)
      invariant coveredByFirst == (idx > 0 && FirstCoversAll(group, cfg))
    {
      var call := group[idx];
      assert group[..idx + 1][..idx] == group[..idx];
      if call.Unbounded? {
        unbounded := unbounded + 1;
        continue;
      }
      var req, delivered := Requested(call, cfg).value, Delivered(call, cfg).value;
      var hit := IsCoveredBy(coverage, req);
      if idx > 0 && hit {
        skipped := skipped + 1;
        continue;
      }
      bounded := bounded + 1;
      coverage := AddIntervalTo(coverage, delivered);
      if idx == 0 && SelectorFirst(group) {
        coveredByFirst := CheckFirst(group, delivered, cfg);
      }
    }
    assert group[..|group|] == group;
    run := Run(coverage, bounded, unbounded, skipped);
  }

  method CheckFirst(group: seq<ReadCall>, delivered: Span, cfg: Config) returns (all: bool)
    requires SelectorFirst(group) && delivered == Delivered(group[0], cfg).value
    ensures all == FirstCoversAll(group, cfg)
  {
    for k := 1 to |group|
      invariant forall j :: 1 <= j < k && !group[j].Unbounded? ==>
                  IsCovered([delivered], Requested(group[j], cfg).value)
    {
      var later := Requested(group[k], cfg);
      if later.Some? {
        var hit := IsCoveredBy([delivered], later.value);
        if !hit {
          return false;
        }
      }
    }
    return true;
  }

  method ReplayGroups(groups: seq<seq<ReadCall>>, cfg: Config) returns (t: Tally)
    requires forall g :: 0 <= g < |groups| ==> groups[g] != []
    ensures t == AddGroups(groups, cfg)
  {
    t := Tally(0, 0, 0, 0, 0, 0, 0, 0, 0);
    for g := 0 to |groups|
      invariant t == AddGroups(groups[..g], cfg)
    {
      var group := groups[g];
      assert groups[..g + 1][..g] == groups[..g];
      var run, coveredByFirst := ReplayGroup(group, cfg);
      var paid := run.bounded + run.unbounded;
      t := t.(calls := t.calls + paid, skipped := t.skipped + run.skipped, rawCalls := t.rawCalls + run.unbounded);
      if SelectorFirst(group) {
        t := t.(selectorGroups := t.selectorGroups + 1,
                selectorCalls := t.selectorCalls + paid,
                selectorSkipped := t.selectorSkipped + run.skipped);
        if coveredByFirst {
          t := t.(allCoveredByFirst := t.allCoveredByFirst + 1);
        }
      } else if group[0].Default? {
        t := t.(defaultCalls := t.defaultCalls + paid, defaultSkipped := t.defaultSkipped + run.skipped);
      }
    }
    assert groups[..|groups|] == groups;
  }
}
