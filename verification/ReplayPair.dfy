/**
 The two-phase replay of one (session, file) pair in `optimize_read_config.py`.

 Phase 1 replays the observed calls under a candidate configuration and skips the calls
 whose range is already covered.  Phase 2 compares what the simulation delivered with what
 the agent really received and pays for the difference in capped chunks.  Token costs are
 real numbers: rounding is not the point here.
 */
module ReplayPair {
  import opened Wrappers
  import opened Spans

  /** What one call asked for.  `Other` stands for the kinds without line bounds. */
  datatype Intent = Bare | LineRange(start: int, end: Option<int>) | Raw | Other

  /** `actual` is the range the footer of the real result reported, when there was one. */
  datatype ReadCall = ReadCall(intent: Intent, actual: Option<Span>)

  datatype FileStats = FileStats(sizeLines: int, tokensPerLine: real, bytesPerLine: real)

  datatype Config = Config(defaultPage: int, lineCap: int, byteCap: int, summarizeMin: int)

  const ROUNDTRIP_OVERHEAD: real := 200.0

  function Min(a: int, b: int): int { if a < b then a else b }

  function Max(a: int, b: int): int { if a < b then b else a }

  /** Lines the byte cap lets through, at least one. */
  function ByteLines(fs: FileStats, cfg: Config): int
    requires fs.bytesPerLine > 0.0
  {
    Max(1, (cfg.byteCap as real / fs.bytesPerLine).Floor)
  }

  /** The largest number of lines one call can return. */
  function CallCap(fs: FileStats, cfg: Config): (cap: int)
    requires cfg.lineCap >= 1
    ensures cap >= 1
  {
    if fs.bytesPerLine > 0.0 then Min(cfg.lineCap, ByteLines(fs, cfg)) else cfg.lineCap
  }

  function EffectiveReturned(rc: ReadCall, fs: FileStats, cfg: Config): Option<Span> {
    var size := Max(fs.sizeLines, 1);
    if rc.intent.Other? then None
    else
      var start := if rc.intent.LineRange? && rc.intent.start != 0 then rc.intent.start else 1;
      var endIntent :=
        match rc.intent
        case Bare => cfg.defaultPage
        case LineRange(_, end) => if end.Some? then end.value else start + cfg.defaultPage - 1
        case Raw => size
        case Other => start;
      var end := Min(Min(endIntent, size), start + cfg.lineCap - 1);
      var capped := if fs.bytesPerLine > 0.0 then Min(end, start + ByteLines(fs, cfg) - 1) else end;
      Some(Span(start, Max(capped, start)))
  }

  /** A simulated result is never empty and never above the per-call cap. */
  lemma {:induction false} EffectiveReturnedBounds(rc: ReadCall, fs: FileStats, cfg: Config)
    requires cfg.lineCap >= 1
    ensures EffectiveReturned(rc, fs, cfg).None? <==> rc.intent.Other?
    ensures EffectiveReturned(rc, fs, cfg).Some? ==>
              var ret := EffectiveReturned(rc, fs, cfg).value;
              ret.lo <= ret.hi && ret.hi - ret.lo + 1 <= CallCap(fs, cfg)
  {
  }

  /** The first and last line a call asks for, whatever the file holds. */
  function Asked(intent: Intent, fs: FileStats, cfg: Config): Span
    requires !intent.Other?
  {
    match intent
    case Bare => Span(1, cfg.defaultPage)
    case Raw => Span(1, Max(fs.sizeLines, 1))
    case LineRange(start, end) =>
      var first := if start == 0 then 1 else start;
      Span(first, if end.Some? then end.value else first + cfg.defaultPage - 1)
  }

  /** A result may reach line `h`: its own first line, or a line that was asked for, is in the file and
      keeps the result within the cap. */
  predicate MayReach(rc: ReadCall, fs: FileStats, cfg: Config, h: int)
    requires !rc.intent.Other? && cfg.lineCap >= 1
  {
    var asked := Asked(rc.intent, fs, cfg);
    h == asked.lo || (h <= asked.hi && h <= Max(fs.sizeLines, 1) && h - asked.lo + 1 <= CallCap(fs, cfg))
  }

  /** A simulated result starts where the call asked and goes on as far as it may. */
  lemma {:induction false} EffectiveReturnedIsMaximal(rc: ReadCall, fs: FileStats, cfg: Config)
    requires !rc.intent.Other? && cfg.lineCap >= 1
    ensures var ret := EffectiveReturned(rc, fs, cfg).value;
            && ret.lo == Asked(rc.intent, fs, cfg).lo && MayReach(rc, fs, cfg, ret.hi)
            && forall h :: MayReach(rc, fs, cfg, h) ==> h <= ret.hi
  {
  }

  function CostOfChunk(chunk: Span, fs: FileStats, bare: bool, cfg: Config): real {
    var raw := Max(chunk.hi - chunk.lo + 1, 0) as real * fs.tokensPerLine;
    if bare && cfg.summarizeMin >= 0 && fs.sizeLines >= cfg.summarizeMin then raw * 0.35 else raw
  }

  // ----- Phase 1

  datatype Replay = Replay(covered: seq<Span>, total: real, kept: nat)

  function ReplayStep(st: Replay, rc: ReadCall, fs: FileStats, cfg: Config): Replay {
    match EffectiveReturned(rc, fs, cfg)
    case None => st
    case Some(ret) =>
      if Contained(ret, st.covered) then st
      else Replay(Merge(st.covered + [ret]),
                  st.total + CostOfChunk(ret, fs, rc.intent.Bare?, cfg) + ROUNDTRIP_OVERHEAD,
                  st.kept + 1)
  }

  function Phase1(calls: seq<ReadCall>, fs: FileStats, cfg: Config): Replay {
    if calls == [] then Replay([], 0.0, 0)
    else ReplayStep(Phase1(calls[..|calls| - 1], fs, cfg), calls[|calls| - 1], fs, cfg)
  }

  /** Every range the simulated tool would return, skipped calls included. */
  function Returned(calls: seq<ReadCall>, fs: FileStats, cfg: Config): seq<Span> {
    if calls == [] then []
    else
      var front := Returned(calls[..|calls| - 1], fs, cfg);
      match EffectiveReturned(calls[|calls| - 1], fs, cfg)
      case None => front
      case Some(ret) => front + [ret]
  }

  /** One bounded call: afterwards its range is covered, and a payment brought a new line. */
  lemma {:induction false} ReplayStepDelivers(st: Replay, rc: ReadCall, fs: FileStats, cfg: Config)
    requires cfg.lineCap >= 1 && Canonical(st.covered)
    requires EffectiveReturned(rc, fs, cfg).Some?
    ensures var ret, st' := EffectiveReturned(rc, fs, cfg).value, ReplayStep(st, rc, fs, cfg);
            && Canonical(st'.covered)
            && Lines(st'.covered) == Lines(st.covered) + Range(ret.lo, ret.hi)
            && st'.kept - st.kept <= |Lines(st'.covered)| - |Lines(st.covered)|
  {
    var ret := EffectiveReturned(rc, fs, cfg).value;
    EffectiveReturnedBounds(rc, fs, cfg);
    CoverageTestsAreExact(st.covered, ret);
    if !Contained(ret, st.covered) {
      LinesOfOne(ret);
      AppendAndMerge(st.covered, [ret]);
      var x :| x in Range(ret.lo, ret.hi) && x !in Lines(st.covered);
      GrowsByOne(Lines(st.covered), Lines(ReplayStep(st, rc, fs, cfg).covered), x);
    } else {
      assert Lines(st.covered) + Range(ret.lo, ret.hi) == Lines(st.covered);
    }
  }

  /** Skipping covered calls loses nothing: the coverage is that of all the calls together, and
      every call paid for brought at least one new line. */
  lemma {:induction false} Phase1Delivers(calls: seq<ReadCall>, fs: FileStats, cfg: Config)
    requires cfg.lineCap >= 1
    ensures Canonical(Phase1(calls, fs, cfg).covered)
    ensures Lines(Phase1(calls, fs, cfg).covered) == Lines(Returned(calls, fs, cfg))
    ensures Phase1(calls, fs, cfg).kept <= |Lines(Phase1(calls, fs, cfg).covered)|
  {
    if calls != [] {
      var n := |calls| - 1;
      Phase1Delivers(calls[..n], fs, cfg);
      if EffectiveReturned(calls[n], fs, cfg).Some? {
        var ret := EffectiveReturned(calls[n], fs, cfg).value;
        ReplayStepDelivers(Phase1(calls[..n], fs, cfg), calls[n], fs, cfg);
        LinesAppend(Returned(calls[..n], fs, cfg), [ret]);
        LinesOfOne(ret);
      }
    }
  }

  lemma {:induction false} GrowsByOne(small: set<int>, large: set<int>, x: int)
    requires small <= large && x in large && x !in small
    ensures |small| + 1 <= |large|
  {
    assert large == small + (large - small);
    assert x in large - small;
  }

  lemma {:induction false} AppendAndMerge(covered: seq<Span>, more: seq<Span>)
    requires Canonical(covered) && WellFormed(more)
    ensures Canonical(Merge(covered + more))
    ensures Lines(Merge(covered + more)) == Lines(covered) + Lines(more)
  {
    CanonicalShape(covered);
    LinesAppend(covered, more);
    MergeMeaning(covered + more);
  }

  // ----- Phase 2

  /** The ranges the agent really received. */
  function Observed(calls: seq<ReadCall>): seq<Span> {
    if calls == [] then []
    else
      var front, last := Observed(calls[..|calls| - 1]), calls[|calls| - 1].actual;
      if last.Some? && last.value.lo <= last.value.hi then front + [last.value] else front
  }

  function Gaps(needed: seq<Span>, covered: seq<Span>): seq<Span> {
    if needed == [] then [] else Subtract(needed[0], covered) + Gaps(needed[1..], covered)
  }

  function ChunkAll(gaps: seq<Span>, cap: int): seq<Span>
    requires cap >= 1
  {
    if gaps == [] then [] else Chunks(gaps[0].lo, gaps[0].hi, cap) + ChunkAll(gaps[1..], cap)
  }

  /** The synthetic calls of phase 2, in the order they are paid. */
  function Shortfall(calls: seq<ReadCall>, fs: FileStats, cfg: Config): seq<Span>
    requires cfg.lineCap >= 1
  {
    ChunkAll(Gaps(Merge(Observed(calls)), Phase1(calls, fs, cfg).covered), CallCap(fs, cfg))
  }

  lemma {:induction false} ObservedWellFormed(calls: seq<ReadCall>)
    ensures WellFormed(Observed(calls))
  {
    if calls != [] {
      ObservedWellFormed(calls[..|calls| - 1]);
    }
  }

  lemma {:induction false} GapsMeaning(needed: seq<Span>, covered: seq<Span>)
    requires WellFormed(needed) && WellFormed(covered)
    ensures Lines(Gaps(needed, covered)) == Lines(needed) - Lines(covered)
  {
    if needed != [] {
      SubtractMeaning(needed[0], covered);
      GapsMeaning(needed[1..], covered);
      LinesAppend(Subtract(needed[0], covered), Gaps(needed[1..], covered));
    }
  }

  lemma {:induction false} GapsRise(needed: seq<Span>, covered: seq<Span>, floor: int)
    requires Canonical(needed) && WellFormed(covered)
    requires needed != [] ==> floor < needed[0].lo
    ensures WellFormed(Gaps(needed, covered)) && Rising(Gaps(needed, covered))
    ensures forall i :: 0 <= i < |Gaps(needed, covered)| ==> floor < Gaps(needed, covered)[i].lo
  {
    if needed != [] {
      SubtractMeaning(needed[0], covered);
      GapsRise(needed[1..], covered, needed[0].hi);
      RisingAppend(Subtract(needed[0], covered), Gaps(needed[1..], covered), needed[0].hi);
    }
  }

  lemma {:induction false} ChunkAllMeaning(gaps: seq<Span>, cap: int)
    requires cap >= 1
    ensures AtMost(ChunkAll(gaps, cap), cap)
    ensures Lines(ChunkAll(gaps, cap)) == Lines(gaps)
  {
    if gaps != [] {
      ChunksMeaning(gaps[0].lo, gaps[0].hi, cap);
      ChunkAllMeaning(gaps[1..], cap);
      LinesAppend(Chunks(gaps[0].lo, gaps[0].hi, cap), ChunkAll(gaps[1..], cap));
    }
  }

  lemma {:induction false} ChunkAllRises(gaps: seq<Span>, cap: int, floor: int)
    requires WellFormed(gaps) && Rising(gaps) && cap >= 1
    requires gaps != [] ==> floor < gaps[0].lo
    ensures WellFormed(ChunkAll(gaps, cap)) && Rising(ChunkAll(gaps, cap))
    ensures forall i :: 0 <= i < |ChunkAll(gaps, cap)| ==> floor < ChunkAll(gaps, cap)[i].lo
  {
    if gaps != [] {
      ChunksRise(gaps[0].lo, gaps[0].hi, cap);
      ChunkAllRises(gaps[1..], cap, gaps[0].hi);
      RisingAppend(Chunks(gaps[0].lo, gaps[0].hi, cap), ChunkAll(gaps[1..], cap), gaps[0].hi);
    }
  }

  /** Phase 2 pays every missing line exactly once, in disjoint calls within the cap: its chunks
      cover the lines the agent received and the simulation did not deliver, no others. */
  lemma {:induction false} ShortfallIsExact(calls: seq<ReadCall>, fs: FileStats, cfg: Config)
    requires cfg.lineCap >= 1
    ensures var chunks := Shortfall(calls, fs, cfg);
            var missing := Lines(Observed(calls)) - Lines(Returned(calls, fs, cfg));
            && WellFormed(chunks) && Rising(chunks) && AtMost(chunks, CallCap(fs, cfg))
            && Lines(chunks) == missing
            && Size(chunks) == |missing|
  {
    var needed, covered := Merge(Observed(calls)), Phase1(calls, fs, cfg).covered;
    ObservedWellFormed(calls);
    MergeMeaning(Observed(calls));
    CanonicalShape(needed);
    Phase1Delivers(calls, fs, cfg);
    CanonicalShape(covered);
    GapsMeaning(needed, covered);
    var gaps := Gaps(needed, covered);
    GapsRise(needed, covered, if needed == [] then 0 else needed[0].lo - 1);
    ChunkAllMeaning(gaps, CallCap(fs, cfg));
    ChunkAllRises(gaps, CallCap(fs, cfg), if gaps == [] then 0 else gaps[0].lo - 1);
    SizeCountsLines(Shortfall(calls, fs, cfg));
  }

  /** After both phases the simulation has delivered every line any observed call returned. */
  lemma {:induction false} NothingNeededIsLost(calls: seq<ReadCall>, fs: FileStats, cfg: Config)
    requires cfg.lineCap >= 1
    ensures Lines(Observed(calls)) <=
            Lines(Phase1(calls, fs, cfg).covered) + Lines(Shortfall(calls, fs, cfg))
  {
    ShortfallIsExact(calls, fs, cfg);
    Phase1Delivers(calls, fs, cfg);
  }

  function CostOfAll(chunks: seq<Span>, fs: FileStats, cfg: Config): real {
    if chunks == [] then 0.0
    else CostOfAll(chunks[..|chunks| - 1], fs, cfg)
         + CostOfChunk(chunks[|chunks| - 1], fs, false, cfg) + ROUNDTRIP_OVERHEAD
  }

  lemma {:induction false} OneMoreChunk(k: int, n: int, m: int, t: real)
    ensures k as real * t + n as real * ROUNDTRIP_OVERHEAD + (m as real * t + ROUNDTRIP_OVERHEAD)
            == (k + m) as real * t + (n + 1) as real * ROUNDTRIP_OVERHEAD
  {
  }

  lemma {:induction false} SizeOfLast(chunks: seq<Span>)
    requires chunks != []
    ensures Size(chunks) == Size(chunks[..|chunks| - 1]) + (chunks[|chunks| - 1].hi - chunks[|chunks| - 1].lo + 1)
  {
    var n := |chunks| - 1;
    assert chunks == chunks[..n] + [chunks[n]];
    SizeAppend(chunks[..n], [chunks[n]]);
  }

  lemma {:induction false} CostIsPerLine(chunks: seq<Span>, fs: FileStats, cfg: Config)
    requires WellFormed(chunks)
    ensures CostOfAll(chunks, fs, cfg) == Size(chunks) as real * fs.tokensPerLine + |chunks| as real * ROUNDTRIP_OVERHEAD
  {
    if chunks != [] {
      var n := |chunks| - 1;
      CostIsPerLine(chunks[..n], fs, cfg);
      SizeOfLast(chunks);
      OneMoreChunk(Size(chunks[..n]), n, chunks[n].hi - chunks[n].lo + 1, fs.tokensPerLine);
    }
  }

  lemma {:induction false} CostAppend(a: seq<Span>, b: seq<Span>, fs: FileStats, cfg: Config)
    ensures CostOfAll(a + b, fs, cfg) == CostOfAll(a, fs, cfg) + CostOfAll(b, fs, cfg)
    decreases |b|
  {
    if b == [] {
      assert a + b == a;
    } else {
      assert (a + b)[..|a + b| - 1] == a + b[..|b| - 1];
      CostAppend(a, b[..|b| - 1], fs, cfg);
    }
  }

  lemma {:induction false} GapsAppend(a: seq<Span>, b: seq<Span>, covered: seq<Span>)
    ensures Gaps(a + b, covered) == Gaps(a, covered) + Gaps(b, covered)
  {
    if a == [] {
      assert a + b == b;
    } else {
      assert (a + b)[1..] == a[1..] + b;
      GapsAppend(a[1..], b, covered);
    }
  }

  lemma {:induction false} ChunkAllAppend(a: seq<Span>, b: seq<Span>, cap: int)
    requires cap >= 1
    ensures ChunkAll(a + b, cap) == ChunkAll(a, cap) + ChunkAll(b, cap)
  {
    if a == [] {
      assert a + b == b;
    } else {
      assert (a + b)[1..] == a[1..] + b;
      ChunkAllAppend(a[1..], b, cap);
    }
  }

  // ----- The replay itself

  method FindGaps(needed: seq<Span>, covered: seq<Span>) returns (gaps: seq<Span>)
    ensures gaps == Gaps(needed, covered)
  {
    gaps := [];
    for i := 0 to |needed|
      invariant gaps == Gaps(needed[..i], covered)
    {
      assert needed[..i + 1] == needed[..i] + [needed[i]];
      GapsAppend(needed[..i], [needed[i]], covered);
      assert Gaps([needed[i]], covered) == Subtract(needed[i], covered);
      var pieces := SubtractSpans(needed[i], covered);
      gaps := gaps + pieces;
    }
    assert needed[..|needed|] == needed;
  }

  lemma {:induction false} ReplayNext(calls: seq<ReadCall>, i: nat, fs: FileStats, cfg: Config)
    requires i < |calls|
    ensures Phase1(calls[..i + 1], fs, cfg) == ReplayStep(Phase1(calls[..i], fs, cfg), calls[i], fs, cfg)
    ensures Observed(calls[..i + 1]) == Observed(calls[..i]) +
              if calls[i].actual.Some? && calls[i].actual.value.lo <= calls[i].actual.value.hi then [calls[i].actual.value] else []
  {
    assert calls[..i + 1][..i] == calls[..i];
  }

  method ReplayObserved(calls: seq<ReadCall>, fs: FileStats, cfg: Config)
    returns (st: Replay, needed: seq<Span>)
    requires cfg.lineCap >= 1
    ensures st == Phase1(calls, fs, cfg) && needed == Observed(calls)
  {
    var covered: seq<Span>, total, kept: nat := [], 0.0, 0;
    needed := [];
    for i := 0 to |calls|
      invariant Phase1(calls[..i], fs, cfg) == Replay(covered, total, kept)
      invariant needed == Observed(calls[..i])
    {
      var rc := calls[i];
      ReplayNext(calls, i, fs, cfg);
      if rc.actual.Some? && rc.actual.value.hi >= rc.actual.value.lo {
        needed := needed + [rc.actual.value];
      }
      covered, total, kept := ReplayCall(covered, total, kept, rc, fs, cfg);
    }
    assert calls[..|calls|] == calls;
    st := Replay(covered, total, kept);
  }

  /** One observed call: skipped if it has no bounds or is covered, else paid and merged. */
  method ReplayCall(covered: seq<Span>, total: real, kept: nat, rc: ReadCall, fs: FileStats, cfg: Config)
    returns (covered': seq<Span>, total': real, kept': nat)
    requires cfg.lineCap >= 1
    ensures Replay(covered', total', kept') == ReplayStep(Replay(covered, total, kept), rc, fs, cfg)
  {
    covered', total', kept' := covered, total, kept;
    var ret := EffectiveReturned(rc, fs, cfg);
    if ret.None? {
      return;
    }
    var hit := ContainedIn(ret.value, covered);
    if hit {
      return;
    }
    total' := total' + CostOfChunk(ret.value, fs, rc.intent.Bare?, cfg);
    total' := total' + ROUNDTRIP_OVERHEAD;
    kept' := kept' + 1;
    covered' := covered' + [ret.value];
    covered' := MergeSpans(covered');
  }

  /** Pays the chunks of one gap. */
  method PayGap(st: Replay, gap: Span, fs: FileStats, cfg: Config) returns (st': Replay)
    requires cfg.lineCap >= 1 && Canonical(st.covered)
    ensures var chunks := Chunks(gap.lo, gap.hi, CallCap(fs, cfg));
            && Canonical(st'.covered)
            && Lines(st'.covered) == Lines(st.covered) + Lines(chunks)
            && st'.kept == st.kept + |chunks|
            && st'.total == st.total + CostOfAll(chunks, fs, cfg)
  {
    var chunks := ChunkRange(gap.lo, gap.hi, CallCap(fs, cfg));
    var covered, total, kept := st.covered, st.total, st.kept;
    for k := 0 to |chunks|
      invariant covered == st.covered + chunks[..k]
      invariant kept == st.kept + k
      invariant total == st.total + CostOfAll(chunks[..k], fs, cfg)
    {
      total := total + CostOfChunk(chunks[k], fs, false, cfg);
      total := total + ROUNDTRIP_OVERHEAD;
      kept := kept + 1;
      covered := covered + [chunks[k]];
      assert chunks[..k + 1][..k] == chunks[..k];
    }
    assert chunks[..|chunks|] == chunks;
    ChunksRise(gap.lo, gap.hi, CallCap(fs, cfg));
    AppendAndMerge(st.covered, chunks);
    covered := MergeSpans(covered);
    st' := Replay(covered, total, kept);
  }

  ghost predicate Paid(first: Replay, st: Replay, chunks: seq<Span>, fs: FileStats, cfg: Config) {
    && Canonical(st.covered)
    && st.kept == first.kept + |chunks|
    && st.total == first.total + CostOfAll(chunks, fs, cfg)
    && Lines(st.covered) == Lines(first.covered) + Lines(chunks)
  }

  lemma {:induction false} PaidNext(first: Replay, st: Replay, st': Replay, gaps: seq<Span>, g: nat, fs: FileStats, cfg: Config)
    requires g < |gaps| && cfg.lineCap >= 1 && Paid(first, st, ChunkAll(gaps[..g], CallCap(fs, cfg)), fs, cfg)
    requires Paid(st, st', Chunks(gaps[g].lo, gaps[g].hi, CallCap(fs, cfg)), fs, cfg)
    ensures Paid(first, st', ChunkAll(gaps[..g + 1], CallCap(fs, cfg)), fs, cfg)
  {
    PaidSoFar(gaps, g, fs, cfg);
  }

  /** Fills the shortfall chunk by chunk. */
  method FillShortfall(first: Replay, needed: seq<Span>, fs: FileStats, cfg: Config) returns (st: Replay)
    requires cfg.lineCap >= 1 && Canonical(first.covered)
    ensures Paid(first, st, ChunkAll(Gaps(needed, first.covered), CallCap(fs, cfg)), fs, cfg)
  {
    var gaps := FindGaps(needed, first.covered);
    st := first;
    for g := 0 to |gaps|
      invariant Paid(first, st, ChunkAll(gaps[..g], CallCap(fs, cfg)), fs, cfg)
    {
      var paid := PayGap(st, gaps[g], fs, cfg);
      PaidNext(first, st, paid, gaps, g, fs, cfg);
      st := paid;
    }
    assert gaps[..|gaps|] == gaps;
  }

  /** Replays the observed calls; `covered` is the simulation's final coverage. */
  method ReplayPair(calls: seq<ReadCall>, fs: FileStats, cfg: Config)
    returns (total: real, kept: nat, covered: seq<Span>)
    requires cfg.lineCap >= 1
    ensures Paid(Phase1(calls, fs, cfg), Replay(covered, total, kept), Shortfall(calls, fs, cfg), fs, cfg)
    ensures Lines(Observed(calls)) <= Lines(covered)
  {
    var first, needed := ReplayObserved(calls, fs, cfg);
    Phase1Delivers(calls, fs, cfg);
    needed := MergeSpans(needed);
    var st := FillShortfall(first, needed, fs, cfg);
    NothingNeededIsLost(calls, fs, cfg);
    total, kept, covered := st.total, st.kept, st.covered;
  }

  lemma {:induction false} PaidSoFar(gaps: seq<Span>, g: nat, fs: FileStats, cfg: Config)
    requires g < |gaps| && cfg.lineCap >= 1
    ensures var cap := CallCap(fs, cfg);
            var before, now, after :=
              ChunkAll(gaps[..g], cap), Chunks(gaps[g].lo, gaps[g].hi, cap), ChunkAll(gaps[..g + 1], cap);
            && |after| == |before| + |now|
            && Lines(after) == Lines(before) + Lines(now)
            && CostOfAll(after, fs, cfg) == CostOfAll(before, fs, cfg) + CostOfAll(now, fs, cfg)
  {
    var cap := CallCap(fs, cfg);
    var now := Chunks(gaps[g].lo, gaps[g].hi, cap);
    assert gaps[..g + 1] == gaps[..g] + [gaps[g]];
    ChunkAllAppend(gaps[..g], [gaps[g]], cap);
    assert ChunkAll([gaps[g]], cap) == now + ChunkAll([], cap) == now;
    LinesAppend(ChunkAll(gaps[..g], cap), now);
    CostAppend(ChunkAll(gaps[..g], cap), now, fs, cfg);
  }
}
