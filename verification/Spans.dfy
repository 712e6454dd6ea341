/**
 Inclusive line ranges and the lists of ranges three scripts keep as "lines seen so far".

 The same idea is written three times in the repository: a batch merge, an incremental
 insertion, and a subtraction followed by chunking.  Here each is a function that follows
 the script's loop step by step, a method with the loop itself, and theorems that read all
 of them as operations on the set of lines a list covers.
 */
module Spans {

  datatype Span = Span(lo: int, hi: int)

  // ----- What a list of ranges means

  ghost function Range(lo: int, hi: int): (r: set<int>)
    ensures forall x :: x in r <==> lo <= x <= hi
    decreases hi - lo + 1
  {
    if lo > hi then {} else Range(lo, hi - 1) + {hi}
  }

  /** The lines a list of ranges covers. */
  ghost function Lines(ivs: seq<Span>): set<int> {
    if ivs == [] then {} else Range(ivs[0].lo, ivs[0].hi) + Lines(ivs[1..])
  }

  ghost predicate WellFormed(ivs: seq<Span>) {
    forall i :: 0 <= i < |ivs| ==> ivs[i].lo <= ivs[i].hi
  }

  /** Strictly rising, so pairwise disjoint. */
  ghost predicate Rising(ivs: seq<Span>) {
    forall i, j :: 0 <= i < j < |ivs| ==> ivs[i].hi < ivs[j].lo
  }

  /** Non-empty ranges in order, with at least one uncovered line between neighbours. */
  ghost predicate Canonical(ivs: seq<Span>) {
    ivs == [] ||
    (&& ivs[0].lo <= ivs[0].hi
     && (|ivs| > 1 ==> ivs[0].hi + 1 < ivs[1].lo)
     && Canonical(ivs[1..]))
  }

  lemma {:induction false} LinesMember(ivs: seq<Span>, x: int)
    ensures x in Lines(ivs) <==> exists i :: 0 <= i < |ivs| && ivs[i].lo <= x <= ivs[i].hi
  {
    if ivs == [] {
    } else {
      LinesMember(ivs[1..], x);
      if x in Lines(ivs[1..]) {
        var i :| 0 <= i < |ivs[1..]| && ivs[1..][i].lo <= x <= ivs[1..][i].hi;
        assert ivs[i + 1].lo <= x <= ivs[i + 1].hi;
      }
      if i :| 0 <= i < |ivs| && ivs[i].lo <= x <= ivs[i].hi {
        if i > 0 {
          assert ivs[1..][i - 1].lo <= x <= ivs[1..][i - 1].hi;
        }
      }
    }
  }

  lemma {:induction false} LinesAppend(a: seq<Span>, b: seq<Span>)
    ensures Lines(a + b) == Lines(a) + Lines(b)
  {
    if a == [] {
      assert a + b == b;
    } else {
      assert (a + b)[1..] == a[1..] + b;
      LinesAppend(a[1..], b);
    }
  }

  lemma {:induction false} LinesOfOne(iv: Span)
    ensures Lines([iv]) == Range(iv.lo, iv.hi)
  {
    assert [iv][1..] == [];
  }

  /** Coverage ignores order and repetition of the listed ranges. */
  lemma {:induction false} LinesOfPermutation(a: seq<Span>, b: seq<Span>)
    requires multiset(a) == multiset(b)
    ensures Lines(a) == Lines(b)
    ensures WellFormed(a) <==> WellFormed(b)
  {
    LinesOfSublist(a, b);
    LinesOfSublist(b, a);
  }

  lemma {:induction false} LinesOfSublist(a: seq<Span>, b: seq<Span>)
    requires multiset(a) <= multiset(b)
    ensures Lines(a) <= Lines(b)
    ensures WellFormed(b) ==> WellFormed(a)
  {
    forall i | 0 <= i < |a| ensures a[i] in b {
      assert a[i] in multiset(a);
    }
    forall x | x in Lines(a) ensures x in Lines(b) {
      LinesMember(a, x);
      LinesMember(b, x);
      var i :| 0 <= i < |a| && a[i].lo <= x <= a[i].hi;
      assert a[i] in b;
    }
  }

  /** In a canonical list, every line beyond the first range lies past a gap. */
  lemma {:induction false} CanonicalSplit(ivs: seq<Span>)
    requires Canonical(ivs) && ivs != []
    ensures forall x :: x in Lines(ivs[1..]) ==> ivs[0].hi + 1 < x
    ensures forall x :: x in Lines(ivs) ==> ivs[0].lo <= x
    ensures Lines(ivs[1..]) == Lines(ivs) - Range(ivs[0].lo, ivs[0].hi)
  {
    if |ivs| > 1 {
      CanonicalSplit(ivs[1..]);
    }
  }

  lemma {:induction false} CanonicalShape(ivs: seq<Span>)
    requires Canonical(ivs)
    ensures WellFormed(ivs) && Rising(ivs)
  {
    if |ivs| > 1 {
      CanonicalShape(ivs[1..]);
      forall j | 0 < j < |ivs| ensures ivs[0].hi < ivs[j].lo {
        assert ivs[j] == ivs[1..][j - 1];
      }
    }
  }

  /** Two canonical lists that cover the same lines are the same list. */
  lemma {:induction false} CanonicalUnique(a: seq<Span>, b: seq<Span>)
    requires Canonical(a) && Canonical(b)
    requires Lines(a) == Lines(b)
    ensures a == b
  {
    if a != [] {
      CanonicalSplit(a);
      assert a[0].lo in Lines(a);
    }
    if b != [] {
      CanonicalSplit(b);
      assert b[0].lo in Lines(b);
    }
    if a != [] && b != [] {
      assert a[0].lo == b[0].lo;
      assert a[0].hi + 1 !in Lines(a) && b[0].hi + 1 !in Lines(b);
      assert a[0].hi == b[0].hi;
      CanonicalUnique(a[1..], b[1..]);
      assert a == [a[0]] + a[1..] && b == [b[0]] + b[1..];
    }
  }

  // ----- Counting lines

  function Size(ivs: seq<Span>): int {
    if ivs == [] then 0 else ivs[0].hi - ivs[0].lo + 1 + Size(ivs[1..])
  }

  lemma {:induction false} SizeAppend(a: seq<Span>, b: seq<Span>)
    ensures Size(a + b) == Size(a) + Size(b)
  {
    if a == [] {
      assert a + b == b;
    } else {
      assert (a + b)[1..] == a[1..] + b;
      SizeAppend(a[1..], b);
    }
  }

  lemma {:induction false} RangeSize(lo: int, hi: int)
    requires lo <= hi + 1
    ensures |Range(lo, hi)| == hi - lo + 1
    decreases hi - lo + 1
  {
    if lo == hi + 1 {
      assert Range(lo, hi) == {};
    } else {
      RangeSize(lo, hi - 1);
      assert Range(lo, hi) == Range(lo, hi - 1) + {hi};
    }
  }

  /** Adding up the lengths of disjoint ranges counts the covered lines. */
  lemma {:induction false} SizeCountsLines(ivs: seq<Span>)
    requires WellFormed(ivs) && Rising(ivs)
    ensures Size(ivs) == |Lines(ivs)|
  {
    if ivs != [] {
      SizeCountsLines(ivs[1..]);
      RangeSize(ivs[0].lo, ivs[0].hi);
      forall x | x in Lines(ivs[1..]) ensures ivs[0].hi < x {
        LinesMember(ivs[1..], x);
      }
      assert Range(ivs[0].lo, ivs[0].hi) !! Lines(ivs[1..]);
    }
  }

  // ----- Batch merge

  /** Python's order on pairs. */
  predicate Before(a: Span, b: Span) {
    a.lo < b.lo || (a.lo == b.lo && a.hi <= b.hi)
  }

  ghost predicate Sorted(ivs: seq<Span>) {
    forall i, j :: 0 <= i < j < |ivs| ==> Before(ivs[i], ivs[j])
  }

  function InsertSorted(iv: Span, ivs: seq<Span>): seq<Span> {
    if ivs == [] then [iv]
    else if Before(iv, ivs[0]) then [iv] + ivs
    else [ivs[0]] + InsertSorted(iv, ivs[1..])
  }

  lemma {:induction false} InsertSortedElements(iv: Span, ivs: seq<Span>)
    ensures multiset(InsertSorted(iv, ivs)) == multiset(ivs) + multiset{iv}
  {
    if ivs != [] {
      assert ivs == [ivs[0]] + ivs[1..];
      InsertSortedElements(iv, ivs[1..]);
    }
  }

  lemma {:induction false} SortedTail(ivs: seq<Span>)
    requires ivs != [] && Sorted(ivs)
    ensures Sorted(ivs[1..]) && forall j :: 0 <= j < |ivs[1..]| ==> Before(ivs[0], ivs[1..][j])
  {
    var rest := ivs[1..];
    forall i, j | 0 <= i < j < |rest| ensures Before(rest[i], rest[j]) {
      assert Before(ivs[i + 1], ivs[j + 1]);
    }
    forall j | 0 <= j < |rest| ensures Before(ivs[0], rest[j]) {
      assert Before(ivs[0], ivs[j + 1]);
    }
  }

  lemma {:induction false} SortedCons(iv: Span, rest: seq<Span>)
    requires Sorted(rest) && forall j :: 0 <= j < |rest| ==> Before(iv, rest[j])
    ensures Sorted([iv] + rest)
  {
    var ivs := [iv] + rest;
    forall i, j | 0 <= i < j < |ivs| ensures Before(ivs[i], ivs[j]) {
      assert ivs[j] == rest[j - 1];
      if i > 0 {
        assert Before(rest[i - 1], rest[j - 1]);
      }
    }
  }

  lemma {:induction false} AllBehind(iv: Span, x: Span, ivs: seq<Span>)
    requires Before(x, iv) && forall j :: 0 <= j < |ivs| ==> Before(x, ivs[j])
    ensures forall j :: 0 <= j < |InsertSorted(iv, ivs)| ==> Before(x, InsertSorted(iv, ivs)[j])
  {
    var r := InsertSorted(iv, ivs);
    InsertSortedElements(iv, ivs);
    forall j | 0 <= j < |r| ensures Before(x, r[j]) {
      assert r[j] in multiset(r);
      if r[j] != iv {
        assert r[j] in ivs;
      }
    }
  }

  lemma {:induction false} InsertSortedOrder(iv: Span, ivs: seq<Span>)
    requires Sorted(ivs)
    ensures Sorted(InsertSorted(iv, ivs))
  {
    if ivs == [] {
      SortedCons(iv, []);
      assert [iv] + [] == [iv];
    } else {
      SortedTail(ivs);
      if Before(iv, ivs[0]) {
        AheadOfAll(iv, ivs);
        SortedCons(iv, ivs);
      } else {
        InsertSortedOrder(iv, ivs[1..]);
        AllBehind(iv, ivs[0], ivs[1..]);
        SortedCons(ivs[0], InsertSorted(iv, ivs[1..]));
      }
    }
  }

  lemma {:induction false} AheadOfAll(iv: Span, ivs: seq<Span>)
    requires ivs != [] && Before(iv, ivs[0]) && Sorted(ivs)
    ensures forall j :: 0 <= j < |ivs| ==> Before(iv, ivs[j])
  {
    forall j | 0 <= j < |ivs| ensures Before(iv, ivs[j]) {
      assert j > 0 ==> Before(ivs[0], ivs[j]);
    }
  }

  /** What `sorted` returns: the order is total, so the sorted list is unique. */
  function SortSpans(ivs: seq<Span>): (r: seq<Span>)
    ensures multiset(r) == multiset(ivs)
    ensures Sorted(r)
  {
    if ivs == [] then []
    else
      assert ivs == [ivs[0]] + ivs[1..];
      InsertSortedElements(ivs[0], SortSpans(ivs[1..]));
      InsertSortedOrder(ivs[0], SortSpans(ivs[1..]));
      InsertSorted(ivs[0], SortSpans(ivs[1..]))
  }

  /** The loop of `merge`, with `cur` the last range emitted so far. */
  function MergeLoop(cur: Span, rest: seq<Span>): seq<Span>
    decreases rest
  {
    if rest == [] then [cur]
    else if rest[0].lo <= cur.hi + 1 then
      MergeLoop(Span(cur.lo, if cur.hi < rest[0].hi then rest[0].hi else cur.hi), rest[1..])
    else [cur] + MergeLoop(rest[0], rest[1..])
  }

  function Merge(ivs: seq<Span>): seq<Span> {
    var sorted := SortSpans(ivs);
    if sorted == [] then [] else MergeLoop(sorted[0], sorted[1..])
  }

  lemma {:induction false} MergeLoopMeaning(cur: Span, rest: seq<Span>)
    requires cur.lo <= cur.hi && WellFormed(rest) && Sorted(rest)
    requires rest != [] ==> cur.lo <= rest[0].lo
    ensures Canonical(MergeLoop(cur, rest))
    ensures MergeLoop(cur, rest) != [] && MergeLoop(cur, rest)[0].lo == cur.lo
    ensures Lines(MergeLoop(cur, rest)) == Range(cur.lo, cur.hi) + Lines(rest)
    decreases rest
  {
    if rest == [] {
      LinesOfOne(cur);
    } else if rest[0].lo <= cur.hi + 1 {
      var grown := Span(cur.lo, if cur.hi < rest[0].hi then rest[0].hi else cur.hi);
      MergeLoopMeaning(grown, rest[1..]);
      assert Range(grown.lo, grown.hi) == Range(cur.lo, cur.hi) + Range(rest[0].lo, rest[0].hi);
    } else {
      MergeLoopMeaning(rest[0], rest[1..]);
      assert MergeLoop(cur, rest)[1..] == MergeLoop(rest[0], rest[1..]);
    }
  }

  /** The batch merge is the canonical list of exactly the lines it was given. */
  lemma {:induction false} MergeMeaning(ivs: seq<Span>)
    requires WellFormed(ivs)
    ensures Canonical(Merge(ivs))
    ensures Lines(Merge(ivs)) == Lines(ivs)
  {
    var sorted := SortSpans(ivs);
    LinesOfPermutation(ivs, sorted);
    if sorted != [] {
      MergeLoopMeaning(sorted[0], sorted[1..]);
    }
  }

  /** The result once `rest` has been folded into the list emitted so far. */
  ghost function MergeTail(out: seq<Span>, rest: seq<Span>): seq<Span>
    requires out != []
  {
    out[..|out| - 1] + MergeLoop(out[|out| - 1], rest)
  }

  lemma {:induction false} MergeTailStep(out: seq<Span>, rest: seq<Span>)
    requires out != [] && rest != []
    ensures var last := out[|out| - 1];
            MergeTail(out, rest) ==
            if rest[0].lo <= last.hi + 1
            then MergeTail(out[|out| - 1 := Span(last.lo, if last.hi < rest[0].hi then rest[0].hi else last.hi)], rest[1..])
            else MergeTail(out + [rest[0]], rest[1..])
  {
    var n := |out| - 1;
    if rest[0].lo <= out[n].hi + 1 {
    } else {
      assert (out + [rest[0]])[..n + 1] == out[..n] + [out[n]];
    }
  }

  lemma {:induction false} SameLength(a: seq<Span>, b: seq<Span>)
    requires multiset(a) == multiset(b)
    ensures |a| == |b|
  {
    assert |a| == |multiset(a)| == |multiset(b)| == |b|;
  }

  lemma {:induction false} MergeTailStart(iv: Span, rest: seq<Span>)
    ensures MergeTail([iv], rest) == MergeLoop(iv, rest)
  {
    assert [iv][..0] == [];
  }

  lemma {:induction false} MergeTailEnd(out: seq<Span>)
    requires out != []
    ensures MergeTail(out, []) == out
  {
  }

  method MergeSpans(ivs: seq<Span>) returns (out: seq<Span>)
    ensures out == Merge(ivs)
  {
    if ivs == [] {
      return [];
    }
    var sorted := SortSpans(ivs);
    SameLength(sorted, ivs);
    out := [sorted[0]];
    MergeTailStart(sorted[0], sorted[1..]);
    for i := 1 to |sorted|
      invariant out != []
      invariant MergeTail(out, sorted[i..]) == Merge(ivs)
    {
      var iv, last := sorted[i], out[|out| - 1];
      MergeTailStep(out, sorted[i..]);
      assert sorted[i..][1..] == sorted[i + 1..];
      if iv.lo <= last.hi + 1 {
        out := out[|out| - 1 := Span(last.lo, if last.hi < iv.hi then iv.hi else last.hi)];
      } else {
        out := out + [iv];
      }
    }
    MergeTailEnd(out);
    assert sorted[|sorted|..] == [];
  }

  // ----- Incremental insertion

  /** The loop of `add_interval` from one position on, with the range grown so far. */
  function AddLoop(ivs: seq<Span>, s: int, e: int, placed: bool): seq<Span> {
    if ivs == [] then if placed then [] else [Span(s, e)]
    else
      var iv := ivs[0];
      if iv.hi + 1 < s then [iv] + AddLoop(ivs[1..], s, e, placed)
      else if e + 1 < iv.lo then
        (if placed then [] else [Span(s, e)]) + [iv] + AddLoop(ivs[1..], s, e, true)
      else AddLoop(ivs[1..], if iv.lo < s then iv.lo else s, if e < iv.hi then iv.hi else e, placed)
  }

  function AddInterval(ivs: seq<Span>, item: Span): seq<Span> {
    AddLoop(ivs, item.lo, item.hi, false)
  }

  lemma {:induction false} AddLoopAfterPlacing(ivs: seq<Span>, s: int, e: int)
    requires Canonical(ivs) && s <= e
    requires ivs != [] ==> e + 1 < ivs[0].lo
    ensures AddLoop(ivs, s, e, true) == ivs
  {
    if ivs != [] {
      AddLoopAfterPlacing(ivs[1..], s, e);
    }
  }

  /** The loop keeps the list canonical.  `floor` is any line below everything in play; the result stays above it. */
  lemma {:induction false} AddLoopCanonical(ivs: seq<Span>, s: int, e: int, floor: int)
    requires Canonical(ivs) && s <= e
    requires floor < s && (ivs == [] || floor < ivs[0].lo)
    ensures Canonical(AddLoop(ivs, s, e, false))
    ensures AddLoop(ivs, s, e, false) != [] && floor < AddLoop(ivs, s, e, false)[0].lo
  {
    var r := AddLoop(ivs, s, e, false);
    if ivs == [] {
      LinesOfOne(Span(s, e));
    } else {
      var iv := ivs[0];
      if iv.hi + 1 < s {
        AddLoopCanonical(ivs[1..], s, e, iv.hi + 1);
        assert r[1..] == AddLoop(ivs[1..], s, e, false);
      } else if e + 1 < iv.lo {
        AddLoopAfterPlacing(ivs[1..], s, e);
        assert r == [Span(s, e)] + ivs;
        assert r[1..] == ivs;
      } else {
        var s', e' := if iv.lo < s then iv.lo else s, if e < iv.hi then iv.hi else e;
        AddLoopCanonical(ivs[1..], s', e', floor);
      }
    }
  }

  lemma {:induction false} LinesCons(iv: Span, rest: seq<Span>)
    ensures Lines([iv] + rest) == Range(iv.lo, iv.hi) + Lines(rest)
  {
    assert ([iv] + rest)[1..] == rest;
  }

  lemma {:induction false} RangesUnite(iv: Span, s: int, e: int, s': int, e': int)
    requires iv.lo <= iv.hi && s <= e && s <= iv.hi + 1 && iv.lo <= e + 1
    requires s' == (if iv.lo < s then iv.lo else s) && e' == if e < iv.hi then iv.hi else e
    ensures Range(s', e') == Range(s, e) + Range(iv.lo, iv.hi)
  {
  }

  lemma {:induction false} HeadOf(ivs: seq<Span>)
    requires ivs != []
    ensures ivs == [ivs[0]] + ivs[1..]
  {
  }

  lemma {:induction false} Regroup(a: set<int>, b: set<int>, c: set<int>)
    ensures a + (b + c) == (a + b) + c && a + b == b + a && b + (c + a) == (a + b) + c
  {
  }

  lemma {:induction false} AddLoopLines(ivs: seq<Span>, s: int, e: int)
    requires Canonical(ivs) && s <= e
    ensures Lines(AddLoop(ivs, s, e, false)) == Lines(ivs) + Range(s, e)
  {
    if ivs == [] {
      LinesOfOne(Span(s, e));
    } else {
      var iv, rest := ivs[0], ivs[1..];
      Regroup(Range(iv.lo, iv.hi), Lines(rest), Range(s, e));
      if iv.hi + 1 < s {
        AddLoopLines(rest, s, e);
        LinesCons(iv, AddLoop(rest, s, e, false));
      } else if e + 1 < iv.lo {
        AddLoopAfterPlacing(rest, s, e);
        AddInFront(ivs, s, e);
      } else {
        var s', e' := if iv.lo < s then iv.lo else s, if e < iv.hi then iv.hi else e;
        AddLoopLines(rest, s', e');
        RangesUnite(iv, s, e, s', e');
      }
    }
  }

  lemma {:induction false} AddInFront(ivs: seq<Span>, s: int, e: int)
    requires ivs != []
    ensures Lines([Span(s, e)] + [ivs[0]] + ivs[1..]) == Lines(ivs) + Range(s, e)
  {
    HeadOf(ivs);
    assert [Span(s, e)] + [ivs[0]] + ivs[1..] == [Span(s, e)] + ivs;
    LinesCons(Span(s, e), ivs);
    Regroup(Lines(ivs), Range(s, e), {});
  }

  /** Inserting keeps the list canonical and adds exactly the item's lines. */
  lemma {:induction false} AddIntervalMeaning(ivs: seq<Span>, item: Span)
    requires Canonical(ivs) && item.lo <= item.hi
    ensures Canonical(AddInterval(ivs, item))
    ensures Lines(AddInterval(ivs, item)) == Lines(ivs) + Range(item.lo, item.hi)
  {
    AddLoopCanonical(ivs, item.lo, item.hi,
                   if ivs != [] && ivs[0].lo < item.lo then ivs[0].lo - 1 else item.lo - 1);
    AddLoopLines(ivs, item.lo, item.hi);
  }

  /** One round of the insertion moves what is settled to the list built so far. */
  lemma {:induction false} AddLoopNext(out: seq<Span>, ivs: seq<Span>, i: nat, s: int, e: int, placed: bool)
    requires i < |ivs|
    ensures var iv := ivs[i];
            out + AddLoop(ivs[i..], s, e, placed) ==
            if iv.hi + 1 < s then out + [iv] + AddLoop(ivs[i + 1..], s, e, placed)
            else if e + 1 < iv.lo then
              (if placed then out else out + [Span(s, e)]) + [iv] + AddLoop(ivs[i + 1..], s, e, true)
            else out + AddLoop(ivs[i + 1..], if iv.lo < s then iv.lo else s, if e < iv.hi then iv.hi else e, placed)
  {
    assert ivs[i..][1..] == ivs[i + 1..];
  }

  method AddIntervalTo(ivs: seq<Span>, item: Span) returns (out: seq<Span>)
    ensures out == AddInterval(ivs, item)
  {
    var s, e := item.lo, item.hi;
    out := [];
    var placed := false;
    for i := 0 to |ivs|
      invariant out + AddLoop(ivs[i..], s, e, placed) == AddInterval(ivs, item)
    {
      var iv := ivs[i];
      AddLoopNext(out, ivs, i, s, e, placed);
      if iv.hi + 1 < s {
        out := out + [iv];
      } else if e + 1 < iv.lo {
        if !placed {
          out := out + [Span(s, e)];
          placed := true;
        }
        out := out + [iv];
      } else {
        s := if iv.lo < s then iv.lo else s;
        e := if e < iv.hi then iv.hi else e;
      }
    }
    if !placed {
      out := out + [Span(s, e)];
    }
  }

  function AddAll(ivs: seq<Span>): seq<Span> {
    if ivs == [] then [] else AddInterval(AddAll(ivs[..|ivs| - 1]), ivs[|ivs| - 1])
  }

  lemma {:induction false} AddAllMeaning(ivs: seq<Span>)
    requires WellFormed(ivs)
    ensures Canonical(AddAll(ivs)) && Lines(AddAll(ivs)) == Lines(ivs)
  {
    if ivs != [] {
      var front, last := ivs[..|ivs| - 1], ivs[|ivs| - 1];
      AddAllMeaning(front);
      AddIntervalMeaning(AddAll(front), last);
      assert ivs == front + [last];
      LinesAppend(front, [last]);
      LinesOfOne(last);
    }
  }

  /** One insertion at a time, in any order, builds exactly the list the batch merge builds. */
  lemma {:induction false} AddingInAnyOrderIsMerging(ivs: seq<Span>, order: seq<Span>)
    requires WellFormed(ivs) && multiset(order) == multiset(ivs)
    ensures AddAll(order) == Merge(ivs)
  {
    LinesOfPermutation(order, ivs);
    AddAllMeaning(order);
    MergeMeaning(ivs);
    CanonicalUnique(AddAll(order), Merge(ivs));
  }

  // ----- Single-range coverage tests

  predicate Contained(target: Span, ivs: seq<Span>) {
    ivs != [] && ((ivs[0].lo <= target.lo && target.hi <= ivs[0].hi) || Contained(target, ivs[1..]))
  }

  /** The test that gives up at the first range starting after the target. */
  predicate IsCovered(ivs: seq<Span>, target: Span) {
    if ivs == [] then false
    else if ivs[0].lo <= target.lo && target.hi <= ivs[0].hi then true
    else if ivs[0].lo > target.lo then false
    else IsCovered(ivs[1..], target)
  }

  /** On a canonical list both tests ask exactly whether every line of the target is covered. */
  lemma {:induction false} CoverageTestsAreExact(ivs: seq<Span>, target: Span)
    requires Canonical(ivs) && target.lo <= target.hi
    ensures Contained(target, ivs) <==> Range(target.lo, target.hi) <= Lines(ivs)
    ensures IsCovered(ivs, target) <==> Range(target.lo, target.hi) <= Lines(ivs)
  {
    if ivs != [] {
      CanonicalSplit(ivs);
      CoverageTestsAreExact(ivs[1..], target);
      var t := Range(target.lo, target.hi);
      assert target.lo in t && target.hi in t;
      if t <= Lines(ivs) {
        assert ivs[0].hi + 1 !in Lines(ivs);
        assert ivs[0].lo <= target.lo <= ivs[0].hi ==> target.hi <= ivs[0].hi;
        if ivs[0].hi < target.lo {
          assert t <= Lines(ivs[1..]);
        }
      }
    }
  }

  /** Without the canonical form the single-range test misses coverage: [1,2] and [3,4] hold [2,3]. */
  lemma {:induction false} ContainedNeedsCanonicalForm()
    ensures exists ivs: seq<Span>, target: Span ::
              WellFormed(ivs) && Range(target.lo, target.hi) <= Lines(ivs) && !Contained(target, ivs)
  {
    var ivs, target := [Span(1, 2), Span(3, 4)], Span(2, 3);
    assert ivs[1..] == [Span(3, 4)];
    LinesOfOne(Span(3, 4));
    assert WellFormed(ivs) && Range(target.lo, target.hi) <= Lines(ivs) && !Contained(target, ivs);
  }

  method ContainedIn(target: Span, ivs: seq<Span>) returns (r: bool)
    ensures r == Contained(target, ivs)
    ensures Canonical(ivs) && target.lo <= target.hi ==> (r <==> Range(target.lo, target.hi) <= Lines(ivs))
  {
    if Canonical(ivs) && target.lo <= target.hi {
      CoverageTestsAreExact(ivs, target);
    }
    for i := 0 to |ivs|
      invariant Contained(target, ivs) == Contained(target, ivs[i..])
    {
      assert ivs[i..][1..] == ivs[i + 1..];
      if ivs[i].lo <= target.lo && target.hi <= ivs[i].hi {
        return true;
      }
    }
    return false;
  }

  method IsCoveredBy(ivs: seq<Span>, target: Span) returns (r: bool)
    ensures r == IsCovered(ivs, target)
    ensures Canonical(ivs) && target.lo <= target.hi ==> (r <==> Range(target.lo, target.hi) <= Lines(ivs))
  {
    if Canonical(ivs) && target.lo <= target.hi {
      CoverageTestsAreExact(ivs, target);
    }
    for i := 0 to |ivs|
      invariant IsCovered(ivs, target) == IsCovered(ivs[i..], target)
    {
      assert ivs[i..][1..] == ivs[i + 1..];
      if ivs[i].lo <= target.lo && target.hi <= ivs[i].hi {
        return true;
      }
      if ivs[i].lo > target.lo {
        return false;
      }
    }
    return false;
  }

  // ----- Subtraction and chunking

  /** One remaining piece after one covered range has been cut out of it. */
  function CutPiece(piece: Span, iv: Span): seq<Span> {
    if iv.hi < piece.lo || iv.lo > piece.hi then [piece]
    else
      (if iv.lo > piece.lo then [Span(piece.lo, iv.lo - 1)] else []) +
      (if iv.hi < piece.hi then [Span(iv.hi + 1, piece.hi)] else [])
  }

  function CutAll(pieces: seq<Span>, iv: Span): seq<Span> {
    if pieces == [] then [] else CutPiece(pieces[0], iv) + CutAll(pieces[1..], iv)
  }

  function SubtractLoop(pieces: seq<Span>, ivs: seq<Span>): seq<Span>
    decreases |ivs|
  {
    if ivs == [] || pieces == [] then pieces else SubtractLoop(CutAll(pieces, ivs[0]), ivs[1..])
  }

  /** `target` minus the union of `ivs`. */
  function Subtract(target: Span, ivs: seq<Span>): seq<Span> {
    SubtractLoop([target], ivs)
  }

  ghost predicate Within(pieces: seq<Span>, lo: int, hi: int) {
    forall i :: 0 <= i < |pieces| ==> lo <= pieces[i].lo && pieces[i].hi <= hi
  }

  lemma {:induction false} RisingAppend(a: seq<Span>, b: seq<Span>, m: int)
    requires Rising(a) && Rising(b)
    requires forall i :: 0 <= i < |a| ==> a[i].hi <= m
    requires forall i :: 0 <= i < |b| ==> m < b[i].lo
    ensures Rising(a + b)
  {
  }

  /** A piece and what a cut leaves of it. */
  ghost predicate Leaves(piece: Span, iv: Span, cut: seq<Span>) {
    && WellFormed(cut) && Rising(cut) && Within(cut, piece.lo, piece.hi)
    && Lines(cut) == Range(piece.lo, piece.hi) - Range(iv.lo, iv.hi)
  }

  lemma {:induction false} CutMisses(piece: Span, iv: Span)
    requires piece.lo <= piece.hi && iv.lo <= iv.hi && (iv.hi < piece.lo || iv.lo > piece.hi)
    ensures Leaves(piece, iv, [piece])
  {
    LinesOfOne(piece);
  }

  lemma {:induction false} CutLeavesLeft(piece: Span, iv: Span)
    requires piece.lo < iv.lo <= piece.hi <= iv.hi
    ensures Leaves(piece, iv, [Span(piece.lo, iv.lo - 1)])
  {
    LinesOfOne(Span(piece.lo, iv.lo - 1));
  }

  lemma {:induction false} CutLeavesRight(piece: Span, iv: Span)
    requires iv.lo <= piece.lo <= iv.hi < piece.hi
    ensures Leaves(piece, iv, [Span(iv.hi + 1, piece.hi)])
  {
    LinesOfOne(Span(iv.hi + 1, piece.hi));
  }

  lemma {:induction false} CutLeavesNothing(piece: Span, iv: Span)
    requires iv.lo <= piece.lo <= piece.hi <= iv.hi
    ensures Leaves(piece, iv, [])
  {
  }

  lemma {:induction false} CutInTheMiddle(piece: Span, iv: Span)
    requires piece.lo < iv.lo <= iv.hi < piece.hi
    ensures Leaves(piece, iv, [Span(piece.lo, iv.lo - 1), Span(iv.hi + 1, piece.hi)])
  {
    var a, b := Span(piece.lo, iv.lo - 1), Span(iv.hi + 1, piece.hi);
    LinesOfOne(b);
    LinesCons(a, [b]);
    assert [a] + [b] == [a, b];
  }

  lemma {:induction false} CutShapes(piece: Span, iv: Span)
    requires piece.lo <= piece.hi && iv.lo <= iv.hi && iv.lo <= piece.hi && piece.lo <= iv.hi
    ensures var a, b := Span(piece.lo, iv.lo - 1), Span(iv.hi + 1, piece.hi);
            CutPiece(piece, iv) == if iv.lo > piece.lo then (if iv.hi < piece.hi then [a, b] else [a])
                                   else if iv.hi < piece.hi then [b] else []
  {
  }

  lemma {:induction false} CutPieceMeaning(piece: Span, iv: Span)
    requires piece.lo <= piece.hi && iv.lo <= iv.hi
    ensures Leaves(piece, iv, CutPiece(piece, iv))
  {
    if iv.hi < piece.lo || iv.lo > piece.hi {
      CutMisses(piece, iv);
    } else {
      CutShapes(piece, iv);
      if iv.lo > piece.lo && iv.hi < piece.hi {
        CutInTheMiddle(piece, iv);
      } else if iv.lo > piece.lo {
        CutLeavesLeft(piece, iv);
      } else if iv.hi < piece.hi {
        CutLeavesRight(piece, iv);
      } else {
        CutLeavesNothing(piece, iv);
      }
    }
  }

  lemma {:induction false} BehindTheFirst(pieces: seq<Span>, lo: int, hi: int)
    requires pieces != [] && WellFormed(pieces) && Rising(pieces) && Within(pieces, lo, hi)
    ensures WellFormed(pieces[1..]) && Rising(pieces[1..]) && Within(pieces[1..], pieces[0].hi + 1, hi)
    ensures lo <= pieces[0].lo <= pieces[0].hi <= hi
  {
  }

  lemma {:induction false} JoinCuts(a: seq<Span>, b: seq<Span>, lo: int, m: int, n: int, hi: int)
    requires WellFormed(a) && Rising(a) && Within(a, m, n) && WellFormed(b) && Rising(b) && Within(b, n + 1, hi)
    requires lo <= m <= n <= hi
    ensures WellFormed(a + b) && Rising(a + b) && Within(a + b, lo, hi)
  {
    RisingAppend(a, b, n);
  }

  lemma {:induction false} CutAllMeaning(pieces: seq<Span>, iv: Span, lo: int, hi: int)
    requires WellFormed(pieces) && Rising(pieces) && iv.lo <= iv.hi && Within(pieces, lo, hi)
    ensures WellFormed(CutAll(pieces, iv)) && Rising(CutAll(pieces, iv))
    ensures Within(CutAll(pieces, iv), lo, hi)
    ensures Lines(CutAll(pieces, iv)) == Lines(pieces) - Range(iv.lo, iv.hi)
  {
    if pieces != [] {
      var first, rest := CutPiece(pieces[0], iv), CutAll(pieces[1..], iv);
      CutPieceMeaning(pieces[0], iv);
      BehindTheFirst(pieces, lo, hi);
      CutAllMeaning(pieces[1..], iv, pieces[0].hi + 1, hi);
      JoinCuts(first, rest, lo, pieces[0].lo, pieces[0].hi, hi);
      LinesAppend(first, rest);
    }
  }

  lemma {:induction false} SubtractLoopMeaning(pieces: seq<Span>, ivs: seq<Span>, lo: int, hi: int)
    requires WellFormed(pieces) && Rising(pieces) && WellFormed(ivs) && Within(pieces, lo, hi)
    ensures WellFormed(SubtractLoop(pieces, ivs)) && Rising(SubtractLoop(pieces, ivs))
    ensures Within(SubtractLoop(pieces, ivs), lo, hi)
    ensures Lines(SubtractLoop(pieces, ivs)) == Lines(pieces) - Lines(ivs)
    decreases |ivs|
  {
    if ivs != [] && pieces != [] {
      CutAllMeaning(pieces, ivs[0], lo, hi);
      SubtractLoopMeaning(CutAll(pieces, ivs[0]), ivs[1..], lo, hi);
    }
  }

  /** What is left is exactly the uncovered lines of the target, as disjoint ranges in order. */
  lemma {:induction false} SubtractMeaning(target: Span, ivs: seq<Span>)
    requires target.lo <= target.hi && WellFormed(ivs)
    ensures WellFormed(Subtract(target, ivs)) && Rising(Subtract(target, ivs))
    ensures Within(Subtract(target, ivs), target.lo, target.hi)
    ensures Lines(Subtract(target, ivs)) == Range(target.lo, target.hi) - Lines(ivs)
  {
    LinesOfOne(target);
    SubtractLoopMeaning([target], ivs, target.lo, target.hi);
  }

  method CutOne(piece: Span, iv: Span) returns (next: seq<Span>)
    ensures next == CutPiece(piece, iv)
  {
    if iv.hi < piece.lo || iv.lo > piece.hi {
      return [piece];
    }
    next := [];
    if iv.lo > piece.lo {
      next := next + [Span(piece.lo, iv.lo - 1)];
    }
    if iv.hi < piece.hi {
      next := next + [Span(iv.hi + 1, piece.hi)];
    }
  }

  /** The inner loop of `subtract`: every piece left so far, cut by one covered range. */
  method CutSpans(pieces: seq<Span>, iv: Span) returns (next: seq<Span>)
    ensures next == CutAll(pieces, iv)
  {
    next := [];
    for k := 0 to |pieces|
      invariant next + CutAll(pieces[k..], iv) == CutAll(pieces, iv)
    {
      var cut := CutOne(pieces[k], iv);
      assert pieces[k..][1..] == pieces[k + 1..];
      assert next + (cut + CutAll(pieces[k + 1..], iv)) == next + cut + CutAll(pieces[k + 1..], iv);
      next := next + cut;
    }
  }

  method SubtractSpans(target: Span, ivs: seq<Span>) returns (out: seq<Span>)
    ensures out == Subtract(target, ivs)
  {
    out := [target];
    for i := 0 to |ivs|
      invariant SubtractLoop(out, ivs[i..]) == Subtract(target, ivs)
    {
      assert ivs[i..][1..] == ivs[i + 1..];
      out := CutSpans(out, ivs[i]);
      if out == [] {
        break;
      }
    }
  }

  /** `chunk_range`: [s, e] in calls of at most `cap` lines. */
  function Chunks(s: int, e: int, cap: int): seq<Span>
    requires cap >= 1
    decreases e - s + 1
  {
    if s > e then []
    else
      var end := if s + cap - 1 < e then s + cap - 1 else e;
      [Span(s, end)] + Chunks(end + 1, e, cap)
  }

  lemma {:induction false} ChunksRise(s: int, e: int, cap: int)
    requires cap >= 1
    ensures Within(Chunks(s, e, cap), s, e) && WellFormed(Chunks(s, e, cap)) && Rising(Chunks(s, e, cap))
    decreases e - s + 1
  {
    if s <= e {
      var end := if s + cap - 1 < e then s + cap - 1 else e;
      ChunksRise(end + 1, e, cap);
      JoinCuts([Span(s, end)], Chunks(end + 1, e, cap), s, s, end, e);
    }
  }

  ghost predicate AtMost(ivs: seq<Span>, cap: int) {
    forall i :: 0 <= i < |ivs| ==> ivs[i].hi - ivs[i].lo + 1 <= cap
  }

  /** Chunks pay every line of the range exactly once, each within the cap. */
  lemma {:induction false} ChunksMeaning(s: int, e: int, cap: int)
    requires cap >= 1
    ensures AtMost(Chunks(s, e, cap), cap)
    ensures Lines(Chunks(s, e, cap)) == Range(s, e)
    decreases e - s + 1
  {
    if s <= e {
      var end := if s + cap - 1 < e then s + cap - 1 else e;
      ChunksMeaning(end + 1, e, cap);
      assert Chunks(s, e, cap)[1..] == Chunks(end + 1, e, cap);
      assert Range(s, e) == Range(s, end) + Range(end + 1, e);
    }
  }

  /** No more calls are made than the cap forces. */
  lemma {:induction false} ChunkCount(s: int, e: int, cap: int)
    requires cap >= 1 && s <= e
    ensures (|Chunks(s, e, cap)| - 1) * cap < e - s + 1 <= |Chunks(s, e, cap)| * cap
    decreases e - s + 1
  {
    if s + cap - 1 < e {
      ChunkCount(s + cap, e, cap);
      var n := |Chunks(s + cap, e, cap)|;
      assert (n - 1) * cap + cap == n * cap;
      assert n * cap + cap == (n + 1) * cap;
    } else {
      assert Chunks(s, e, cap) == [Span(s, e)] + Chunks(e + 1, e, cap) == [Span(s, e)];
    }
  }

  method ChunkRange(s: int, e: int, cap: int) returns (out: seq<Span>)
    requires cap >= 1
    ensures out == Chunks(s, e, cap)
  {
    out := [];
    var cur := s;
    while cur <= e
      invariant out + Chunks(cur, e, cap) == Chunks(s, e, cap)
      decreases e - cur
    {
      var end := if cur + cap - 1 < e then cur + cap - 1 else e;
      out := out + [Span(cur, end)];
      cur := end + 1;
    }
  }
}
