/**
 The per-group coverage figures of `analyze_selector_reads.py`: where each follow-up read lands
 relative to the first one, and how many separate regions of the file a session looked at.
 Its `merge_intervals` is the batch merge of `Spans` again.
 */
module SelectorReads {
  import opened Spans
  import opened Wrappers

  datatype Position = Inside | GapAbove | GapBelow | Forward | Backward | Both

  /** `range` and bare reads have lines; `:raw` and `:conflicts` do not. */
  datatype FollowUp = Bounded(range: Span) | Unbounded

  function Classify(f: Span, init: Span): Position {
    if f.lo >= init.lo && f.hi <= init.hi then Inside
    else if f.lo > init.hi + 1 then GapAbove
    else if f.hi < init.lo - 1 then GapBelow
    else if f.hi > init.hi && f.lo >= init.lo then Forward
    else if f.lo < init.lo && f.hi <= init.hi then Backward
    else Both
  }

  predicate IsGap(p: Position) {
    p.GapAbove? || p.GapBelow?
  }

  /** Overlapping or adjacent. */
  predicate Touches(a: Span, b: Span) {
    a.lo <= b.hi + 1 && b.lo <= a.hi + 1
  }

  ghost predicate HasLineAbove(f: Span, init: Span) {
    exists x :: x in Range(f.lo, f.hi) && init.hi < x
  }

  ghost predicate HasLineBelow(f: Span, init: Span) {
    exists x :: x in Range(f.lo, f.hi) && x < init.lo
  }

  /** A follow-up that touches the first read is told by where it has lines of its own. */
  lemma {:induction false} ClassifyExactly(f: Span, init: Span)
    requires f.lo <= f.hi && init.lo <= init.hi
    ensures var above, below := HasLineAbove(f, init), HasLineBelow(f, init);
            Classify(f, init) ==
            if !Touches(f, init) then if above then GapAbove else GapBelow
            else if above then if below then Both else Forward
            else if below then Backward else Inside
  {
    assert f.lo in Range(f.lo, f.hi) && f.hi in Range(f.lo, f.hi);
  }

  /** What each position says about the new lines. */
  lemma {:induction false} ClassifyMeaning(f: Span, init: Span)
    requires f.lo <= f.hi && init.lo <= init.hi
    ensures IsGap(Classify(f, init)) <==> !Touches(f, init)
    ensures Classify(f, init).Inside? <==> Range(f.lo, f.hi) <= Range(init.lo, init.hi)
    ensures Classify(f, init).GapBelow? ==> f.hi < init.lo
    ensures Classify(f, init).GapAbove? ==> init.hi < f.lo
    ensures Classify(f, init).Both? ==> Range(init.lo, init.hi) < Range(f.lo, f.hi)
    ensures Classify(f, init).Forward? ==> init.lo !in Range(f.lo, f.hi) || f.lo == init.lo
    ensures Classify(f, init).Backward? ==> init.hi !in Range(f.lo, f.hi) || f.hi == init.hi
  {
    assert f.lo in Range(f.lo, f.hi) && f.hi in Range(f.lo, f.hi);
    assert init.lo in Range(init.lo, init.hi) && init.hi in Range(init.lo, init.hi);
  }

  // ----- How many regions an insertion can leave

  lemma {:induction false} AddLoopLength(ivs: seq<Span>, s: int, e: int)
    requires Canonical(ivs) && s <= e
    ensures |AddLoop(ivs, s, e, false)| <= |ivs| + 1
  {
    if ivs != [] {
      var iv := ivs[0];
      if iv.hi + 1 < s {
        AddLoopLength(ivs[1..], s, e);
      } else if e + 1 < iv.lo {
        AddLoopAfterPlacing(ivs[1..], s, e);
      } else {
        AddLoopLength(ivs[1..], if iv.lo < s then iv.lo else s, if e < iv.hi then iv.hi else e);
      }
    }
  }

  /** A range that touches one already there opens no new region. */
  lemma {:induction false} TouchingAddsNoRegion(ivs: seq<Span>, s: int, e: int, i: nat)
    requires Canonical(ivs) && s <= e && i < |ivs| && Touches(Span(s, e), ivs[i])
    ensures |AddLoop(ivs, s, e, false)| <= |ivs|
  {
    var iv := ivs[0];
    if iv.hi + 1 < s {
      assert ivs[1..][i - 1] == ivs[i];
      TouchingAddsNoRegion(ivs[1..], s, e, i - 1);
    } else if e + 1 < iv.lo {
      CanonicalShape(ivs);
      assert false;
    } else {
      AddLoopLength(ivs[1..], if iv.lo < s then iv.lo else s, if e < iv.hi then iv.hi else e);
    }
  }

  // ----- A group

  /** The first read and the bounded follow-ups, in session order. */
  function Ranges(init: Span, followups: seq<FollowUp>): seq<Span> {
    if followups == [] then [init]
    else
      var front, last := Ranges(init, followups[..|followups| - 1]), followups[|followups| - 1];
      if last.Bounded? then front + [last.range] else front
  }

  function GapCount(init: Span, followups: seq<FollowUp>): nat {
    if followups == [] then 0
    else
      var last := followups[|followups| - 1];
      GapCount(init, followups[..|followups| - 1]) +
      if last.Bounded? && IsGap(Classify(last.range, init)) then 1 else 0
  }

  /** A follow-up like `100-5` counts as inside the first read and still is a region of its own. */
  predicate HidesARegion(f: Span, init: Span) {
    Classify(f, init).Inside? && (f.lo > init.hi + 1 || (f.lo == init.lo && f.hi + 1 < init.lo))
  }

  function HiddenCount(init: Span, followups: seq<FollowUp>): nat {
    if followups == [] then 0
    else
      var last := followups[|followups| - 1];
      HiddenCount(init, followups[..|followups| - 1]) +
      if last.Bounded? && HidesARegion(last.range, init) then 1 else 0
  }

  ghost predicate NoInvertedRange(init: Span, followups: seq<FollowUp>) {
    && init.lo <= init.hi
    && forall k :: 0 <= k < |followups| && followups[k].Bounded? ==> followups[k].range.lo <= followups[k].range.hi
  }

  lemma {:induction false} RangesWellFormed(init: Span, followups: seq<FollowUp>)
    requires NoInvertedRange(init, followups)
    ensures WellFormed(Ranges(init, followups)) && Range(init.lo, init.hi) <= Lines(Ranges(init, followups))
  {
    if followups == [] {
      LinesOfOne(init);
    } else {
      var n := |followups| - 1;
      RangesWellFormed(init, followups[..n]);
      if followups[n].Bounded? {
        LinesAppend(Ranges(init, followups[..n]), [followups[n].range]);
      }
    }
  }

  // ----- Regions in sorted order

  /** A range that may begin a region: a gap, or hidden. */
  predicate Opens(f: Span, init: Span) {
    IsGap(Classify(f, init)) || HidesARegion(f, init)
  }

  function OpensIn(ivs: seq<Span>, init: Span): nat {
    if ivs == [] then 0 else (if Opens(ivs[0], init) then 1 else 0) + OpensIn(ivs[1..], init)
  }

  /** Sorted before the first read, any other range reaches up to it. */
  lemma {:induction false} EarlierReaches(f: Span, init: Span)
    requires Before(f, init) && !Opens(f, init)
    ensures f.hi + 1 >= init.lo
  {
  }

  /** Sorted behind it, every range that starts beyond it opens a region. */
  lemma {:induction false} BeyondOpens(f: Span, init: Span)
    requires f.lo >= init.lo && f.lo > init.hi + 1
    ensures Opens(f, init)
  {
  }

  lemma {:induction false} SortedRest(iv: Span, rest: seq<Span>)
    requires Sorted([iv] + rest)
    ensures Sorted(rest) && forall i :: 0 <= i < |rest| ==> Before(iv, rest[i])
  {
    var ivs := [iv] + rest;
    forall i | 0 <= i < |rest| ensures Before(iv, rest[i]) {
      assert Before(ivs[0], ivs[i + 1]);
    }
    forall i, j | 0 <= i < j < |rest| ensures Before(rest[i], rest[j]) {
      assert Before(ivs[i + 1], ivs[j + 1]);
    }
  }

  lemma {:induction false} HeadAndRest(ivs: seq<Span>)
    requires ivs != []
    ensures ivs == [ivs[0]] + ivs[1..]
  {
  }

  function Grow(cur: Span, iv: Span): Span {
    Span(cur.lo, if cur.hi < iv.hi then iv.hi else cur.hi)
  }

  lemma {:induction false} MergeLoopNext(cur: Span, iv: Span, rest: seq<Span>)
    ensures |MergeLoop(cur, [iv] + rest)|
            == if iv.lo <= cur.hi + 1 then |MergeLoop(Grow(cur, iv), rest)| else 1 + |MergeLoop(iv, rest)|
  {
    assert ([iv] + rest)[1..] == rest;
  }

  ghost predicate AllBeyond(ivs: seq<Span>, init: Span) {
    forall i :: 0 <= i < |ivs| ==> ivs[i].lo >= init.lo && ivs[i].lo > init.hi + 1
  }

  lemma {:induction false} RegionsBeyond(cur: Span, rest: seq<Span>, init: Span)
    requires AllBeyond(rest, init)
    ensures |MergeLoop(cur, rest)| <= 1 + OpensIn(rest, init)
    decreases rest
  {
    if rest != [] {
      HeadAndRest(rest);
      MergeLoopNext(cur, rest[0], rest[1..]);
      BeyondOpens(rest[0], init);
      RegionsBeyond(if rest[0].lo <= cur.hi + 1 then Grow(cur, rest[0]) else rest[0], rest[1..], init);
    }
  }

  /** Behind the first read. */
  lemma {:induction false} RegionsBehind(cur: Span, rest: seq<Span>, init: Span)
    requires Sorted(rest) && cur.hi >= init.hi && forall i :: 0 <= i < |rest| ==> rest[i].lo >= init.lo
    ensures |MergeLoop(cur, rest)| <= 1 + OpensIn(rest, init)
    decreases rest
  {
    if rest != [] {
      HeadAndRest(rest);
      SortedRest(rest[0], rest[1..]);
      if rest[0].lo <= cur.hi + 1 {
        MergeLoopNext(cur, rest[0], rest[1..]);
        RegionsBehind(Grow(cur, rest[0]), rest[1..], init);
      } else {
        RegionsBeyond(cur, rest, init);
      }
    }
  }

  /** What comes before the first read, the first read, and what comes behind it. */
  function Around(a: seq<Span>, init: Span, b: seq<Span>): seq<Span> {
    a + ([init] + b)
  }

  lemma {:induction false} AroundNext(a: seq<Span>, init: Span, b: seq<Span>)
    requires a != []
    ensures Around(a, init, b) == [a[0]] + Around(a[1..], init, b)
  {
  }

  lemma {:induction false} AroundNone(init: Span, b: seq<Span>)
    ensures Around([], init, b) == [init] + b
  {
  }

  /** From a range that reaches up to the first read on, no region begins before it. */
  lemma {:induction false} RegionsReaching(cur: Span, a: seq<Span>, init: Span, b: seq<Span>)
    requires Sorted(Around(a, init, b)) && cur.hi + 1 >= init.lo
    ensures |MergeLoop(cur, Around(a, init, b))| <= 1 + OpensIn(b, init)
    decreases a
  {
    if a == [] {
      AroundNone(init, b);
      SortedRest(init, b);
      MergeLoopNext(cur, init, b);
      RegionsBehind(Grow(cur, init), b, init);
    } else {
      var rest := Around(a[1..], init, b);
      AroundNext(a, init, b);
      SortedRest(a[0], rest);
      assert rest[|a| - 1] == init;
      MergeLoopNext(cur, a[0], rest);
      RegionsReaching(Grow(cur, a[0]), a[1..], init, b);
    }
  }

  /** Up to the first read at most one region begins with a range that does not open one. */
  lemma {:induction false} RegionsUpTo(cur: Span, a: seq<Span>, init: Span, b: seq<Span>)
    requires Sorted(Around(a, init, b))
    ensures |MergeLoop(cur, Around(a, init, b))| <= 2 + OpensIn(a, init) + OpensIn(b, init)
    decreases a
  {
    if a == [] {
      AroundNone(init, b);
      SortedRest(init, b);
      MergeLoopNext(cur, init, b);
      RegionsBehind(if init.lo <= cur.hi + 1 then Grow(cur, init) else init, b, init);
    } else {
      var rest := Around(a[1..], init, b);
      AroundNext(a, init, b);
      SortedRest(a[0], rest);
      assert rest[|a| - 1] == init;
      MergeLoopNext(cur, a[0], rest);
      if a[0].lo <= cur.hi + 1 {
        RegionsUpTo(Grow(cur, a[0]), a[1..], init, b);
      } else if Opens(a[0], init) {
        RegionsUpTo(a[0], a[1..], init, b);
      } else {
        EarlierReaches(a[0], init);
        RegionsReaching(a[0], a[1..], init, b);
      }
    }
  }

  lemma {:induction false} RegionsOfSorted(a: seq<Span>, init: Span, b: seq<Span>)
    requires Sorted(Around(a, init, b))
    ensures var ivs := Around(a, init, b); |MergeLoop(ivs[0], ivs[1..])| <= 1 + OpensIn(a, init) + OpensIn(b, init)
  {
    if a == [] {
      AroundNone(init, b);
      SortedRest(init, b);
      assert ([init] + b)[1..] == b;
      RegionsBehind(init, b, init);
    } else {
      var rest := Around(a[1..], init, b);
      AroundNext(a, init, b);
      SortedRest(a[0], rest);
      assert rest[|a| - 1] == init;
      assert ([a[0]] + rest)[1..] == rest;
      if Opens(a[0], init) {
        RegionsUpTo(a[0], a[1..], init, b);
      } else {
        EarlierReaches(a[0], init);
        RegionsReaching(a[0], a[1..], init, b);
      }
    }
  }

  // ----- The count survives sorting

  lemma {:induction false} OpensAppend(a: seq<Span>, b: seq<Span>, init: Span)
    ensures OpensIn(a + b, init) == OpensIn(a, init) + OpensIn(b, init)
  {
    if a == [] {
      assert a + b == b;
    } else {
      assert (a + b)[1..] == a[1..] + b;
      OpensAppend(a[1..], b, init);
    }
  }

  lemma {:induction false} OpensOfOne(f: Span, init: Span)
    ensures OpensIn([f], init) == if Opens(f, init) then 1 else 0
  {
    assert [f][1..] == [];
  }

  /** Inserting puts the range somewhere and moves nothing else. */
  lemma {:induction false} InsertionSplits(iv: Span, ivs: seq<Span>) returns (k: nat)
    ensures k <= |ivs| && InsertSorted(iv, ivs) == Around(ivs[..k], iv, ivs[k..])
  {
    if ivs == [] || Before(iv, ivs[0]) {
      k := 0;
    } else {
      var n := InsertionSplits(iv, ivs[1..]);
      k := n + 1;
      assert ivs[..k] == [ivs[0]] + ivs[1..][..n] && ivs[k..] == ivs[1..][n..];
    }
  }

  lemma {:induction false} OpensOfSorted(ivs: seq<Span>, init: Span)
    ensures OpensIn(SortSpans(ivs), init) == OpensIn(ivs, init)
  {
    if ivs != [] {
      var sorted := SortSpans(ivs[1..]);
      OpensOfSorted(ivs[1..], init);
      var k := InsertionSplits(ivs[0], sorted);
      assert sorted == sorted[..k] + sorted[k..];
      OpensAppend(sorted[..k], sorted[k..], init);
      OpensAppend(sorted[..k], [ivs[0]] + sorted[k..], init);
      OpensAppend([ivs[0]], sorted[k..], init);
      OpensOfOne(ivs[0], init);
    }
  }

  lemma {:induction false} OpensOfRanges(init: Span, followups: seq<FollowUp>)
    ensures Ranges(init, followups) != [] && Ranges(init, followups)[0] == init
    ensures OpensIn(Ranges(init, followups)[1..], init) == GapCount(init, followups) + HiddenCount(init, followups)
  {
    if followups != [] {
      var n := |followups| - 1;
      var front, last := Ranges(init, followups[..n]), followups[n];
      OpensOfRanges(init, followups[..n]);
      if last.Bounded? {
        assert (front + [last.range])[1..] == front[1..] + [last.range];
        OpensAppend(front[1..], [last.range], init);
        OpensOfOne(last.range, init);
      }
    }
  }

  // ----- The bound

  lemma {:induction false} RegionsOfInserted(init: Span, others: seq<Span>, a: seq<Span>, b: seq<Span>)
    requires SortSpans(others) == a + b && InsertSorted(init, a + b) == Around(a, init, b)
    ensures |Merge([init] + others)| <= 1 + OpensIn(a, init) + OpensIn(b, init)
  {
    assert ([init] + others)[1..] == others;
    assert SortSpans([init] + others) == Around(a, init, b);
    RegionsOfSorted(a, init, b);
  }

  lemma {:induction false} RegionsOfMerge(init: Span, others: seq<Span>)
    ensures |Merge([init] + others)| <= 1 + OpensIn(others, init)
  {
    var sorted := SortSpans(others);
    var k := InsertionSplits(init, sorted);
    var a, b := sorted[..k], sorted[k..];
    assert sorted == a + b;
    OpensOfSorted(others, init);
    OpensAppend(a, b, init);
    RegionsOfInserted(init, others, a, b);
  }

  /** The final coverage has at most one region more than there are follow-ups across a gap or hidden. */
  lemma {:induction false} RegionsAreBoundedByGaps(init: Span, followups: seq<FollowUp>)
    ensures 1 <= |Merge(Ranges(init, followups))| <= 1 + GapCount(init, followups) + HiddenCount(init, followups)
  {
    var ivs := Ranges(init, followups);
    OpensOfRanges(init, followups);
    MergeOfSome(ivs);
    HeadAndRest(ivs);
    RegionsOfMerge(init, ivs[1..]);
  }

  lemma {:induction false} MergeOfSome(ivs: seq<Span>)
    requires ivs != []
    ensures Merge(ivs) != []
  {
    var sorted := SortSpans(ivs);
    assert |sorted| == |multiset(sorted)| == |multiset(ivs)| == |ivs|;
    MergeLoopOfSome(sorted[0], sorted[1..]);
  }

  lemma {:induction false} MergeLoopOfSome(cur: Span, rest: seq<Span>)
    ensures MergeLoop(cur, rest) != []
    decreases rest
  {
    if rest != [] && rest[0].lo <= cur.hi + 1 {
      MergeLoopOfSome(Grow(cur, rest[0]), rest[1..]);
    }
  }

  /** So several regions mean that some follow-up hopped over a gap or is hidden. */
  lemma {:induction false} SeveralRegionsImplyAHop(init: Span, followups: seq<FollowUp>)
    requires |Merge(Ranges(init, followups))| > 1
    ensures exists k :: 0 <= k < |followups| && followups[k].Bounded? && Opens(followups[k].range, init)
  {
    RegionsAreBoundedByGaps(init, followups);
    OpeningWitness(init, followups);
  }

  lemma {:induction false} OpeningWitness(init: Span, followups: seq<FollowUp>)
    requires GapCount(init, followups) + HiddenCount(init, followups) > 0
    ensures exists k :: 0 <= k < |followups| && followups[k].Bounded? && Opens(followups[k].range, init)
  {
    var n := |followups| - 1;
    if !(followups[n].Bounded? && Opens(followups[n].range, init)) {
      OpeningWitness(init, followups[..n]);
      var k :| 0 <= k < n && followups[..n][k].Bounded? && Opens(followups[..n][k].range, init);
      assert followups[k] == followups[..n][k];
    }
  }

  // ----- When gaps alone bound the regions

  /** Every bounded follow-up has one of these ranges. */
  ghost predicate DrawnFrom(followups: seq<FollowUp>, ranges: iset<Span>) {
    forall k :: 0 <= k < |followups| && followups[k].Bounded? ==> followups[k].range in ranges
  }

  lemma {:induction false} NothingHidden(init: Span, followups: seq<FollowUp>)
    requires forall k :: 0 <= k < |followups| && followups[k].Bounded? ==> !HidesARegion(followups[k].range, init)
    ensures HiddenCount(init, followups) == 0
  {
    if followups != [] {
      NothingHidden(init, followups[..|followups| - 1]);
    }
  }

  /** A range with its ends in order is never hidden. */
  lemma {:induction false} NothingHiddenInOrder(init: Span, followups: seq<FollowUp>)
    requires NoInvertedRange(init, followups)
    ensures HiddenCount(init, followups) == 0
  {
    NothingHidden(init, followups);
  }

  lemma {:induction false} MergeLoopOfOne(a: Span, b: Span)
    ensures |MergeLoop(a, [b])| == if b.lo <= a.hi + 1 then 1 else 2
  {
    assert [b][1..] == [];
  }

  lemma {:induction false} SortOfTwo(a: Span, b: Span)
    ensures SortSpans([a, b]) == if Before(a, b) then [a, b] else [b, a]
  {
    assert [a, b][1..] == [b] && [b][1..] == [];
    assert SortSpans([]) == [];
    assert InsertSorted(b, []) == [b];
    assert SortSpans([b]) == [b];
    assert InsertSorted(a, []) == [a];
  }

  lemma {:induction false} MergeOfTwo(a: Span, b: Span)
    ensures |Merge([a, b])| == if Before(a, b) then (if b.lo <= a.hi + 1 then 1 else 2) else (if a.lo <= b.hi + 1 then 1 else 2)
  {
    SortOfTwo(a, b);
    MergeLoopOfOne(a, b);
    MergeLoopOfOne(b, a);
    assert [a, b][1..] == [b] && [b, a][1..] == [a];
  }

  lemma {:induction false} OneFollowUp(init: Span, f: Span)
    ensures Ranges(init, [Bounded(f)]) == [init, f]
    ensures GapCount(init, [Bounded(f)]) == if IsGap(Classify(f, init)) then 1 else 0
  {
    var one := [Bounded(f)];
    assert one[..0] == [];
    assert Ranges(init, []) == [init] && GapCount(init, []) == 0;
    assert [init] + [f] == [init, f];
  }

  /** A single hidden follow-up already breaks the bound. */
  lemma {:induction false} HiddenBreaksTheBound(init: Span, f: Span)
    requires HidesARegion(f, init)
    ensures |Merge(Ranges(init, [Bounded(f)]))| > 1 + GapCount(init, [Bounded(f)])
  {
    OneFollowUp(init, f);
    MergeOfTwo(init, f);
  }

  /** Gaps alone bound the regions of all follow-ups drawn from some ranges, if and only if none of these
      ranges is hidden. */
  lemma {:induction false} GapsBoundRegionsExactly(init: Span, ranges: iset<Span>)
    ensures (forall followups :: DrawnFrom(followups, ranges) ==> |Merge(Ranges(init, followups))| <= 1 + GapCount(init, followups))
            <==> (forall f :: f in ranges ==> !HidesARegion(f, init))
  {
    if forall f :: f in ranges ==> !HidesARegion(f, init) {
      forall followups | DrawnFrom(followups, ranges)
        ensures |Merge(Ranges(init, followups))| <= 1 + GapCount(init, followups)
      {
        NothingHidden(init, followups);
        RegionsAreBoundedByGaps(init, followups);
      }
    } else {
      var f :| f in ranges && HidesARegion(f, init);
      HiddenBreaksTheBound(init, f);
      assert DrawnFrom([Bounded(f)], ranges);
    }
  }

  /** For instance `100-5` after `10-20`. */
  lemma {:induction false} InvertedRangeHidesARegion()
    ensures var init, followups := Span(10, 20), [Bounded(Span(100, 5))];
            |Merge(Ranges(init, followups))| > 1 + GapCount(init, followups)
  {
    HiddenBreaksTheBound(Span(10, 20), Span(100, 5));
  }

  // ----- The reported figures

  datatype Summary = Summary(
    initSize: int, followups: nat, gapHops: nat, regions: nat,
    covered: int, extra: int, span: int, gapLines: int)

  lemma {:induction false} CanonicalBox(ivs: seq<Span>)
    requires Canonical(ivs) && ivs != []
    ensures Lines(ivs) <= Range(ivs[0].lo, ivs[|ivs| - 1].hi)
    ensures ivs[0].lo <= ivs[|ivs| - 1].hi
    ensures |ivs| > 1 ==> ivs[0].hi + 1 !in Lines(ivs) && ivs[0].hi + 1 < ivs[|ivs| - 1].hi
  {
    if |ivs| > 1 {
      CanonicalBox(ivs[1..]);
      assert ivs[1..][|ivs| - 2] == ivs[|ivs| - 1];
      CanonicalSplit(ivs);
    }
  }

  lemma {:induction false} SubsetSize(a: set<int>, b: set<int>)
    requires a <= b
    ensures |b - a| == |b| - |a|
  {
    assert b == a + (b - a);
  }

  /** Covered lines, and lines beyond the first read. */
  ghost predicate CountsLines(r: Summary, init: Span, seen: set<int>) {
    && r.covered == |seen| && r.initSize == |Range(init.lo, init.hi)|
    && r.extra == |seen - Range(init.lo, init.hi)| && r.initSize <= r.covered
  }

  /** Lines of the bounding box nobody read: there are none exactly when one region is left. */
  ghost predicate CountsGaps(r: Summary, merged: seq<Span>)
    requires merged != []
  {
    var box := Range(merged[0].lo, merged[|merged| - 1].hi);
    && r.regions == |merged| && Lines(merged) <= box
    && r.span == |box| && r.gapLines == |box - Lines(merged)|
    && (r.gapLines == 0 <==> r.regions == 1)
  }

  ghost predicate Faithful(r: Summary, init: Span, followups: seq<FollowUp>) {
    var ranges := Ranges(init, followups);
    && CountsLines(r, init, Lines(ranges))
    && Merge(ranges) != [] && CountsGaps(r, Merge(ranges))
    && r.followups == |followups| && r.gapHops == GapCount(init, followups)
    && r.regions <= 1 + r.gapHops
  }

  lemma {:induction false} CountsAreFaithful(init: Span, ivs: seq<Span>, r: Summary)
    requires init.lo <= init.hi && WellFormed(ivs) && Range(init.lo, init.hi) <= Lines(ivs)
    requires r.initSize == init.hi - init.lo + 1 && r.covered == Size(Merge(ivs))
    requires r.extra == if r.covered - r.initSize > 0 then r.covered - r.initSize else 0
    ensures CountsLines(r, init, Lines(ivs))
  {
    MergeMeaning(ivs);
    CanonicalShape(Merge(ivs));
    SizeCountsLines(Merge(ivs));
    RangeSize(init.lo, init.hi);
    SubsetSize(Range(init.lo, init.hi), Lines(ivs));
  }

  lemma {:induction false} GapsAreFaithful(merged: seq<Span>, r: Summary)
    requires Canonical(merged) && merged != []
    requires r.regions == |merged| && r.covered == Size(merged)
    requires r.span == merged[|merged| - 1].hi - merged[0].lo + 1 && r.gapLines == r.span - r.covered
    ensures CountsGaps(r, merged)
  {
    CanonicalShape(merged);
    SizeCountsLines(merged);
    CanonicalBox(merged);
    RangeSize(merged[0].lo, merged[|merged| - 1].hi);
    SubsetSize(Lines(merged), Range(merged[0].lo, merged[|merged| - 1].hi));
    OneRegionHasNoGap(merged);
  }

  lemma {:induction false} OneRegionHasNoGap(merged: seq<Span>)
    requires Canonical(merged) && merged != []
    ensures |Range(merged[0].lo, merged[|merged| - 1].hi) - Lines(merged)| == 0 <==> |merged| == 1
  {
    CanonicalBox(merged);
    var box := Range(merged[0].lo, merged[|merged| - 1].hi);
    if |merged| == 1 {
      LinesOfOne(merged[0]);
      assert merged == [merged[0]];
    } else {
      assert merged[0].hi + 1 in box - Lines(merged);
    }
  }

  /** The position of the first follow-up that has lines. */
  function FirstPosition(init: Span, followups: seq<FollowUp>): Option<Position> {
    if followups == [] then None
    else if followups[0].Bounded? then Some(Classify(followups[0].range, init))
    else FirstPosition(init, followups[1..])
  }

  /** The figures as computed, whatever the ranges. */
  ghost predicate Computed(r: Summary, init: Span, followups: seq<FollowUp>, merged: seq<Span>)
    requires merged != []
  {
    && r.initSize == init.hi - init.lo + 1 && r.followups == |followups| && r.gapHops == GapCount(init, followups)
    && r.regions == |merged| <= 1 + r.gapHops + HiddenCount(init, followups) && r.covered == Size(merged)
    && r.extra == (if r.covered - r.initSize > 0 then r.covered - r.initSize else 0)
    && r.span == merged[|merged| - 1].hi - merged[0].lo + 1 && r.gapLines == r.span - r.covered
  }

  lemma {:induction false} ComputedCountsLines(r: Summary, init: Span, followups: seq<FollowUp>)
    requires Merge(Ranges(init, followups)) != [] && Computed(r, init, followups, Merge(Ranges(init, followups)))
    requires NoInvertedRange(init, followups)
    ensures CountsLines(r, init, Lines(Ranges(init, followups)))
  {
    RangesWellFormed(init, followups);
    CountsAreFaithful(init, Ranges(init, followups), r);
  }

  lemma {:induction false} ComputedCountsGaps(r: Summary, init: Span, followups: seq<FollowUp>)
    requires Merge(Ranges(init, followups)) != [] && Computed(r, init, followups, Merge(Ranges(init, followups)))
    requires NoInvertedRange(init, followups)
    ensures CountsGaps(r, Merge(Ranges(init, followups)))
  {
    RangesWellFormed(init, followups);
    MergeMeaning(Ranges(init, followups));
    GapsAreFaithful(Merge(Ranges(init, followups)), r);
  }

  /** Without inverted ranges the computed figures count lines. */
  lemma {:induction false} ComputedIsFaithful(r: Summary, init: Span, followups: seq<FollowUp>)
    requires Merge(Ranges(init, followups)) != [] && Computed(r, init, followups, Merge(Ranges(init, followups)))
    requires NoInvertedRange(init, followups)
    ensures Faithful(r, init, followups)
  {
    ComputedCountsLines(r, init, followups);
    ComputedCountsGaps(r, init, followups);
    NothingHiddenInOrder(init, followups);
  }

  method Analyze(init: Span, followups: seq<FollowUp>) returns (r: Summary, firstPosition: Option<Position>)
    ensures Merge(Ranges(init, followups)) != [] && Computed(r, init, followups, Merge(Ranges(init, followups)))
    ensures NoInvertedRange(init, followups) ==> Faithful(r, init, followups)
    ensures firstPosition == FirstPosition(init, followups)
  {
    var intervals, hops: nat := [init], 0;
    firstPosition := None;
    for i := 0 to |followups|
      invariant intervals == Ranges(init, followups[..i]) && hops == GapCount(init, followups[..i])
      invariant FirstPosition(init, followups) ==
                  if firstPosition.Some? then firstPosition else FirstPosition(init, followups[i..])
    {
      assert followups[..i + 1][..i] == followups[..i];
      assert followups[i..][1..] == followups[i + 1..];
      if followups[i].Unbounded? {
        continue;
      }
      var position := Classify(followups[i].range, init);
      if IsGap(position) {
        hops := hops + 1;
      }
      if firstPosition.None? {
        firstPosition := Some(position);
      }
      intervals := intervals + [followups[i].range];
    }
    assert followups[..|followups|] == followups;
    var merged := MergeSpans(intervals);
    RegionsAreBoundedByGaps(init, followups);
    var covered := SumSizes(merged);
    var size := init.hi - init.lo + 1;
    var span := merged[|merged| - 1].hi - merged[0].lo + 1;
    r := Summary(size, |followups|, hops, |merged|, covered,
                 if covered - size > 0 then covered - size else 0, span, span - covered);
    if NoInvertedRange(init, followups) {
      ComputedIsFaithful(r, init, followups);
    }
  }

  method SumSizes(ivs: seq<Span>) returns (total: int)
    ensures total == Size(ivs)
  {
    total := 0;
    for i := 0 to |ivs|
      invariant total == Size(ivs[..i])
    {
      assert ivs[..i + 1] == ivs[..i] + [ivs[i]];
      SizeAppend(ivs[..i], [ivs[i]]);
      assert Size([ivs[i]]) == ivs[i].hi - ivs[i].lo + 1;
      total := total + (ivs[i].hi - ivs[i].lo + 1);
    }
    assert ivs[..|ivs|] == ivs;
  }
}
