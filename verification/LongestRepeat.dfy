/** The quadratic search of `sync.py` for the longest repeated run of payload lines. */
module LongestRepeat {
  import opened Wrappers

  datatype Repeat = Repeat(start: nat, length: nat)

  /** How far the lines from `i` and from `j` agree before the first run reaches `j`. */
  function RunFrom<T(==)>(block: seq<T>, i: nat, j: nat, k: nat): (r: nat)
    requires i + k <= j && j + k <= |block|
    ensures r >= k && i + r <= j && j + r <= |block|
    ensures block[i + k..i + r] == block[j + k..j + r]
    ensures i + r == j || j + r == |block| || block[i + r] != block[j + r]
    decreases j - i - k
  {
    if i + k < j && j + k < |block| && block[i + k] == block[j + k] then
      var r := RunFrom(block, i, j, k + 1);
      assert block[i + k..i + r] == [block[i + k]] + block[i + k + 1..i + r];
      assert block[j + k..j + r] == [block[j + k]] + block[j + k + 1..j + r];
      r
    else k
  }

  function Run<T(==)>(block: seq<T>, i: nat, j: nat): (r: nat)
    requires i <= j <= |block|
    ensures i + r <= j && j + r <= |block|
  {
    RunFrom(block, i, j, 0)
  }

  function Count<T>(lines: seq<T>, meaningful: T -> bool): (c: nat)
    ensures c <= |lines|
  {
    if lines == [] then 0
    else Count(lines[..|lines| - 1], meaningful) + if meaningful(lines[|lines| - 1]) then 1 else 0
  }

  /** At least half of the lines are meaningful, and at least two. */
  predicate Meaty<T>(lines: seq<T>, meaningful: T -> bool) {
    Count(lines, meaningful) >= (if (|lines| + 1) / 2 > 2 then (|lines| + 1) / 2 else 2)
  }

  ghost function MeaningfulAt<T>(lines: seq<T>, meaningful: T -> bool): set<nat> {
    set i: nat | i < |lines| && meaningful(lines[i])
  }

  lemma {:induction false} CountsPositions<T>(lines: seq<T>, meaningful: T -> bool)
    ensures Count(lines, meaningful) == |MeaningfulAt(lines, meaningful)|
  {
    if lines == [] {
      assert MeaningfulAt(lines, meaningful) == {};
    } else {
      var n := |lines| - 1;
      CountsPositions(lines[..n], meaningful);
      var before := MeaningfulAt(lines[..n], meaningful);
      assert MeaningfulAt(lines, meaningful) == if meaningful(lines[n]) then before + {n} else before;
    }
  }

  /** At least two lines are meaningful, and no fewer than are not. */
  lemma {:induction false} MeatyExactly<T>(lines: seq<T>, meaningful: T -> bool)
    ensures Meaty(lines, meaningful) <==>
            |MeaningfulAt(lines, meaningful)| >= 2 && |MeaningfulAt(lines, meaningful)| >= |lines| - |MeaningfulAt(lines, meaningful)|
  {
    CountsPositions(lines, meaningful);
  }

  /** A pair of starting points whose maximal run is long enough and at least half meaningful. */
  predicate Qualifies<T(==)>(block: seq<T>, minLen: nat, meaningful: T -> bool, i: nat, j: nat)
    requires i <= j <= |block|
  {
    var k := Run(block, i, j);
    k >= minLen && Meaty(block[i..i + k], meaningful)
  }

  /** The length a pair of starting points counts for; zero when it does not qualify. */
  ghost function Score<T>(block: seq<T>, minLen: nat, meaningful: T -> bool): (nat, nat) -> nat {
    (i: nat, j: nat) => if i <= j <= |block| && Qualifies(block, minLen, meaningful, i, j) then Run(block, i, j) else 0
  }

  /** The pairs the two outer loops visit before (i, j). */
  ghost predicate Visited(n: nat, minLen: nat, p: nat, q: nat, i: nat, j: nat) {
    && p + minLen <= q && q + minLen <= n
    && (p < i || (p == i && q < j))
  }

  /** `best` is the earliest highest-scoring start among the pairs visited before (i, j). */
  ghost predicate IsBest(n: nat, minLen: nat, score: (nat, nat) -> nat, best: Option<Repeat>, i: nat, j: nat) {
    match best
    case None => forall p: nat, q: nat :: Visited(n, minLen, p, q, i, j) ==> score(p, q) == 0
    case Some(r) =>
      && r.length > 0
      && (exists q: nat :: Visited(n, minLen, r.start, q, i, j) && score(r.start, q) == r.length)
      && (forall p: nat, q: nat :: Visited(n, minLen, p, q, i, j) ==>
            score(p, q) <= r.length && (p < r.start ==> score(p, q) < r.length))
  }

  function Improve(best: Option<Repeat>, i: nat, k: nat): Option<Repeat> {
    if best.None? || k > best.value.length then Some(Repeat(i, k)) else best
  }

  lemma {:induction false} BestStep(n: nat, minLen: nat, score: (nat, nat) -> nat, best: Option<Repeat>, i: nat, j: nat)
    requires IsBest(n, minLen, score, best, i, j) && i + minLen <= j && j + minLen <= n
    ensures IsBest(n, minLen, score, if score(i, j) > 0 then Improve(best, i, score(i, j)) else best, i, j + 1)
  {
    assert Visited(n, minLen, i, j, i, j + 1);
    if best.Some? {
      var q: nat :| Visited(n, minLen, best.value.start, q, i, j) && score(best.value.start, q) == best.value.length;
      assert Visited(n, minLen, best.value.start, q, i, j + 1);
    }
  }

  lemma {:induction false} SameVisits(n: nat, minLen: nat, score: (nat, nat) -> nat, best: Option<Repeat>, i: nat, j: nat, i': nat, j': nat)
    requires IsBest(n, minLen, score, best, i, j)
    requires forall p: nat, q: nat :: Visited(n, minLen, p, q, i, j) <==> Visited(n, minLen, p, q, i', j')
    ensures IsBest(n, minLen, score, best, i', j')
  {
  }

  lemma {:induction false} ScoreOf<T>(block: seq<T>, minLen: nat, meaningful: T -> bool, i: nat, j: nat)
    requires i <= j <= |block|
    ensures Score(block, minLen, meaningful)(i, j) > 0 <==> Qualifies(block, minLen, meaningful, i, j)
    ensures Qualifies(block, minLen, meaningful, i, j) ==> Score(block, minLen, meaningful)(i, j) == Run(block, i, j)
  {
    assert Count(block[i..i + Run(block, i, j)], meaningful) <= Run(block, i, j);
  }

  method MeasureRun<T(==)>(block: seq<T>, i: nat, j: nat) returns (k: nat)
    requires i <= j <= |block|
    ensures k == Run(block, i, j)
  {
    k := 0;
    while i + k < j && j + k < |block| && block[i + k] == block[j + k]
      invariant i + k <= j && j + k <= |block|
      invariant RunFrom(block, i, j, k) == Run(block, i, j)
    {
      k := k + 1;
    }
  }

  method ConsiderPair<T(==)>(block: seq<T>, minLen: nat, meaningful: T -> bool, before: Option<Repeat>, i: nat, j: nat)
    returns (best: Option<Repeat>)
    requires i + minLen <= j && j + minLen <= |block|
    requires IsBest(|block|, minLen, Score(block, minLen, meaningful), before, i, j)
    ensures IsBest(|block|, minLen, Score(block, minLen, meaningful), best, i, j + 1)
  {
    best := before;
    var k := MeasureRun(block, i, j);
    BestStep(|block|, minLen, Score(block, minLen, meaningful), best, i, j);
    ScoreOf(block, minLen, meaningful, i, j);
    if Qualifies(block, minLen, meaningful, i, j) {
      best := Improve(best, i, k);
    }
  }

  lemma {:induction false} RowStarts(n: nat, minLen: nat, i: nat)
    ensures forall p: nat, q: nat :: Visited(n, minLen, p, q, i, 0) <==> Visited(n, minLen, p, q, i, i + minLen)
  {
  }

  lemma {:induction false} RowEnds(n: nat, minLen: nat, i: nat, j: nat)
    requires j + minLen > n
    ensures forall p: nat, q: nat :: Visited(n, minLen, p, q, i, j) <==> Visited(n, minLen, p, q, i + 1, 0)
  {
  }

  /** The inner loops: every second start for one first start. */
  method ScanFrom<T(==)>(block: seq<T>, minLen: nat, meaningful: T -> bool, before: Option<Repeat>, i: nat)
    returns (best: Option<Repeat>)
    requires i + minLen <= |block|
    requires IsBest(|block|, minLen, Score(block, minLen, meaningful), before, i, 0)
    ensures IsBest(|block|, minLen, Score(block, minLen, meaningful), best, i + 1, 0)
  {
    best := before;
    var j := i + minLen;
    ghost var score := Score(block, minLen, meaningful);
    RowStarts(|block|, minLen, i);
    SameVisits(|block|, minLen, score, best, i, 0, i, j);
    while j < |block| - minLen + 1
      invariant i + minLen <= j
      invariant IsBest(|block|, minLen, score, best, i, j)
    {
      best := ConsiderPair(block, minLen, meaningful, best, i, j);
      j := j + 1;
    }
    RowEnds(|block|, minLen, i, j);
    SameVisits(|block|, minLen, score, best, i, j, i + 1, 0);
  }

  method FindLongestRepeat<T(==)>(block: seq<T>, minLen: nat, meaningful: T -> bool) returns (best: Option<Repeat>)
    ensures IsAnswer(block, minLen, meaningful, best)
  {
    var n := |block|;
    best := None;
    if n < 2 * minLen {
      return;
    }
    for i: nat := 0 to n - minLen + 1
      invariant IsBest(n, minLen, Score(block, minLen, meaningful), best, i, 0)
    {
      best := ScanFrom(block, minLen, meaningful, best, i);
    }
    SameVisits(n, minLen, Score(block, minLen, meaningful), best, n - minLen + 1, 0, n + 1, 0);
  }

  // ----- What the search finds

  /** What the two loops end with. */
  ghost predicate IsAnswer<T>(block: seq<T>, minLen: nat, meaningful: T -> bool, best: Option<Repeat>) {
    IsBest(|block|, minLen, Score(block, minLen, meaningful), best, |block| + 1, 0)
  }

  /** Two copies of `length` lines that do not overlap. */
  ghost predicate Repeats<T>(block: seq<T>, p: nat, q: nat, length: nat) {
    p + length <= q && q + length <= |block| && block[p..p + length] == block[q..q + length]
  }

  lemma {:induction false} RunIsLongest<T>(block: seq<T>, p: nat, q: nat, length: nat, k: nat)
    requires Repeats(block, p, q, length) && k <= length
    ensures RunFrom(block, p, q, k) >= length
    decreases length - k
  {
    if k < length {
      assert block[p..p + length][k] == block[p + k] && block[q..q + length][k] == block[q + k];
      RunIsLongest(block, p, q, length, k + 1);
    }
  }

  lemma {:induction false} RunRepeats<T>(block: seq<T>, p: nat, q: nat)
    requires p <= q <= |block|
    ensures Repeats(block, p, q, Run(block, p, q))
  {
    var r := RunFrom(block, p, q, 0);
    assert block[p..p + r] == block[q..q + r];
  }

  /** A repeat of the kind asked for.  `Meaty` wants two meaningful lines besides the half that the
      docstring speaks of, as the code does; that makes a difference only for a repeat of one or two
      lines, so from `minLen` 3 on there is none. */
  ghost predicate Wanted<T>(block: seq<T>, minLen: nat, meaningful: T -> bool, p: nat, q: nat, length: nat) {
    length >= minLen && Repeats(block, p, q, length) && Meaty(block[p..p + length], meaningful)
  }

  /** And one that is no part of a longer repeat from the same places. */
  ghost predicate WantedWhole<T>(block: seq<T>, minLen: nat, meaningful: T -> bool, p: nat, q: nat, length: nat) {
    Wanted(block, minLen, meaningful, p, q, length) && !Repeats(block, p, q, length + 1)
  }

  lemma {:induction false} WantedWholeIsRun<T>(block: seq<T>, minLen: nat, meaningful: T -> bool, p: nat, q: nat, length: nat)
    ensures WantedWhole(block, minLen, meaningful, p, q, length)
            <==> p <= q <= |block| && length == Run(block, p, q) && Qualifies(block, minLen, meaningful, p, q)
  {
    if Repeats(block, p, q, length) {
      RunIsLongest(block, p, q, length, 0);
      RunRepeats(block, p, q);
      if Run(block, p, q) > length {
        ShorterRepeats(block, p, q, Run(block, p, q), length + 1);
      }
    }
    if p <= q <= |block| && length == Run(block, p, q) {
      RunRepeats(block, p, q);
      if Repeats(block, p, q, length + 1) {
        RunIsLongest(block, p, q, length + 1, 0);
      }
    }
  }

  lemma {:induction false} ShorterRepeats<T>(block: seq<T>, p: nat, q: nat, longer: nat, length: nat)
    requires Repeats(block, p, q, longer) && length <= longer
    ensures Repeats(block, p, q, length)
  {
    assert block[p..p + longer][..length] == block[p..p + length];
    assert block[q..q + longer][..length] == block[q..q + length];
  }

  lemma {:induction false} WholeIsVisited<T>(block: seq<T>, minLen: nat, meaningful: T -> bool, p: nat, q: nat, length: nat)
    requires WantedWhole(block, minLen, meaningful, p, q, length)
    ensures Visited(|block|, minLen, p, q, |block| + 1, 0) && Score(block, minLen, meaningful)(p, q) == length > 0
  {
    WantedWholeIsRun(block, minLen, meaningful, p, q, length);
    ScoreOf(block, minLen, meaningful, p, q);
  }

  /** The search finds nothing exactly when no whole repeat is wanted; otherwise it reports the greatest
      length of one, and the first place where one of this length starts. */
  lemma {:induction false} SearchIsExact<T>(block: seq<T>, minLen: nat, meaningful: T -> bool, best: Option<Repeat>)
    requires IsAnswer(block, minLen, meaningful, best)
    ensures best.None? <==> forall p: nat, q: nat, length: nat :: !WantedWhole(block, minLen, meaningful, p, q, length)
    ensures best.Some? ==>
              && (exists q: nat :: WantedWhole(block, minLen, meaningful, best.value.start, q, best.value.length))
              && (forall p: nat, q: nat, length: nat :: WantedWhole(block, minLen, meaningful, p, q, length) ==>
                    length <= best.value.length && (length == best.value.length ==> best.value.start <= p))
  {
    var score := Score(block, minLen, meaningful);
    forall p: nat, q: nat, length: nat | WantedWhole(block, minLen, meaningful, p, q, length)
      ensures best.Some? && length <= best.value.length && (length == best.value.length ==> best.value.start <= p)
    {
      WholeIsVisited(block, minLen, meaningful, p, q, length);
      assert score(p, q) == length;
    }
    if best.Some? {
      var q: nat :| Visited(|block|, minLen, best.value.start, q, |block| + 1, 0)
                    && score(best.value.start, q) == best.value.length;
      ScoreOf(block, minLen, meaningful, best.value.start, q);
      WantedWholeIsRun(block, minLen, meaningful, best.value.start, q, best.value.length);
    }
  }

  // ----- Whether a wanted repeat is enough for an answer

  /** The search answers whenever the block has a wanted repeat, whole or not. */
  ghost predicate KeepsPromise<T(!new)>(minLen: nat, meaningful: T -> bool) {
    forall block: seq<T>, best: Option<Repeat>, p: nat, q: nat, length: nat ::
      Wanted(block, minLen, meaningful, p, q, length) && IsAnswer(block, minLen, meaningful, best) ==> best.Some?
  }

  lemma {:induction false} AllMeaningful<T>(lines: seq<T>, meaningful: T -> bool)
    requires forall k :: 0 <= k < |lines| ==> meaningful(lines[k])
    ensures Count(lines, meaningful) == |lines|
  {
    if lines != [] {
      AllMeaningful(lines[..|lines| - 1], meaningful);
    }
  }

  /** Lines from `c` on that are not meaningful do not count. */
  lemma {:induction false} OnlyTheFirstCount<T>(lines: seq<T>, meaningful: T -> bool, c: nat)
    requires forall k :: c <= k < |lines| ==> !meaningful(lines[k])
    ensures Count(lines, meaningful) <= c
  {
    if lines != [] {
      OnlyTheFirstCount(lines[..|lines| - 1], meaningful, c);
      if |lines| <= c {
        assert Count(lines, meaningful) <= |lines|;
      } else {
        assert !meaningful(lines[|lines| - 1]);
      }
    }
  }

  /** In a block of meaningful lines the whole of a wanted repeat is wanted. */
  lemma {:induction false} WholeOfMeaningful<T>(block: seq<T>, minLen: nat, meaningful: T -> bool, p: nat, q: nat, length: nat)
    requires Wanted(block, minLen, meaningful, p, q, length)
    requires forall k :: 0 <= k < |block| ==> meaningful(block[k])
    ensures WantedWhole(block, minLen, meaningful, p, q, Run(block, p, q))
  {
    RunIsLongest(block, p, q, length, 0);
    AllMeaningful(block[p..p + Run(block, p, q)], meaningful);
    WantedWholeIsRun(block, minLen, meaningful, p, q, Run(block, p, q));
  }

  /** In a block of meaningful lines every wanted repeat gets an answer at least as long. */
  lemma {:induction false} MeaningfulBlockIsAnswered<T>(
      block: seq<T>, minLen: nat, meaningful: T -> bool, best: Option<Repeat>, p: nat, q: nat, length: nat)
    requires IsAnswer(block, minLen, meaningful, best)
    requires Wanted(block, minLen, meaningful, p, q, length)
    requires forall k :: 0 <= k < |block| ==> meaningful(block[k])
    ensures best.Some? && length <= best.value.length
  {
    WholeOfMeaningful(block, minLen, meaningful, p, q, length);
    RunIsLongest(block, p, q, length, 0);
    SearchIsExact(block, minLen, meaningful, best);
  }

  // ----- A block on which it does not answer

  /** Twice the same: some meaningful lines, and one more that are not. */
  function Diluted<T>(m: T, b: T, n: nat): seq<T> {
    seq(4 * n + 2, t requires 0 <= t < 4 * n + 2 => if t < n || 2 * n + 1 <= t < 3 * n + 1 then m else b)
  }

  lemma {:induction false} DilutedRepeats<T>(m: T, b: T, n: nat)
    ensures Repeats(Diluted(m, b, n), 0, 2 * n + 1, n)
    ensures forall k :: 0 <= k < n ==> Diluted(m, b, n)[0..n][k] == m
  {
  }

  lemma {:induction false} RunAgrees<T>(block: seq<T>, p: nat, q: nat, t: nat)
    requires p <= q <= |block| && t < Run(block, p, q)
    ensures block[p + t] == block[q + t]
  {
    var r := Run(block, p, q);
    RunRepeats(block, p, q);
    assert block[p..p + r][t] == block[p + t] && block[q..q + r][t] == block[q + t];
  }

  /** A run that begins with a meaningful line is short, or has too many other lines. */
  lemma {:induction false} RunFromTheTop<T>(m: T, b: T, n: nat, meaningful: T -> bool, p: nat, q: nat)
    requires meaningful(m) && !meaningful(b) && n >= 1 && p < n && p + n <= q <= 4 * n + 2
    requires Run(Diluted(m, b, n), p, q) >= n
    ensures q == p + 2 * n + 1
  {
    var block := Diluted(m, b, n);
    RunAgrees(block, p, q, 0);
    var c := q - (2 * n + 1);
    if p < c {
      RunAgrees(block, p, q, n - c);
    } else if p > c {
      RunAgrees(block, p, q, n - p);
    }
  }

  lemma {:induction false} AlignedRun<T>(m: T, b: T, n: nat, p: nat)
    requires p < n
    ensures Run(Diluted(m, b, n), p, p + 2 * n + 1) == 2 * n + 1 - p
  {
    var block, q, length := Diluted(m, b, n), p + 2 * n + 1, 2 * n + 1 - p;
    assert block[p..p + length] == block[q..q + length];
    RunIsLongest(block, p, q, length, 0);
  }

  lemma {:induction false} TopRunIsDiluted<T>(m: T, b: T, n: nat, meaningful: T -> bool, p: nat)
    requires meaningful(m) && !meaningful(b) && n >= 1 && p < n
    ensures !Meaty(Diluted(m, b, n)[p..2 * n + 1], meaningful)
  {
    OnlyTheFirstCount(Diluted(m, b, n)[p..2 * n + 1], meaningful, n - p);
  }

  /** A run that begins behind the first meaningful lines has none. */
  lemma {:induction false} RunFromBelow<T>(m: T, b: T, n: nat, meaningful: T -> bool, p: nat, q: nat)
    requires meaningful(m) && !meaningful(b) && n >= 1 && n <= p && p + n <= q <= 4 * n + 2
    requires Run(Diluted(m, b, n), p, q) >= n
    ensures Count(Diluted(m, b, n)[p..p + Run(Diluted(m, b, n), p, q)], meaningful) == 0
  {
    var block := Diluted(m, b, n);
    var r := Run(block, p, q);
    var lines := block[p..p + r];
    forall t | 0 <= t < |lines| ensures !meaningful(lines[t]) {
      RunAgrees(block, p, q, t);
      assert q + t < |block|;
    }
    OnlyTheFirstCount(lines, meaningful, 0);
  }

  lemma {:induction false} MeatyHasTwo<T>(lines: seq<T>, meaningful: T -> bool)
    requires Meaty(lines, meaningful)
    ensures |lines| >= 2 && Count(lines, meaningful) > 0
  {
  }

  lemma {:induction false} NoWholeFromTheTop<T>(m: T, b: T, n: nat, meaningful: T -> bool, p: nat, q: nat)
    requires meaningful(m) && !meaningful(b) && n >= 1 && p < n && p + n <= q <= 4 * n + 2
    requires Run(Diluted(m, b, n), p, q) >= n
    ensures !Meaty(Diluted(m, b, n)[p..p + Run(Diluted(m, b, n), p, q)], meaningful)
  {
    RunFromTheTop(m, b, n, meaningful, p, q);
    AlignedRun(m, b, n, p);
    TopRunIsDiluted(m, b, n, meaningful, p);
  }

  lemma {:induction false} NoWholeFrom<T>(m: T, b: T, n: nat, meaningful: T -> bool, p: nat, q: nat)
    requires meaningful(m) && !meaningful(b) && n >= 1 && p + n <= q <= 4 * n + 2
    requires Run(Diluted(m, b, n), p, q) >= n
    ensures !Meaty(Diluted(m, b, n)[p..p + Run(Diluted(m, b, n), p, q)], meaningful)
  {
    if p < n {
      NoWholeFromTheTop(m, b, n, meaningful, p, q);
    } else {
      RunFromBelow(m, b, n, meaningful, p, q);
    }
  }

  lemma {:induction false} WholeIsMeaty<T>(block: seq<T>, minLen: nat, meaningful: T -> bool, p: nat, q: nat, length: nat)
    requires WantedWhole(block, minLen, meaningful, p, q, length)
    ensures p + length <= q && q + length <= |block| && length == Run(block, p, q)
    ensures length >= minLen && length >= 2 && Meaty(block[p..p + length], meaningful)
  {
    WantedWholeIsRun(block, minLen, meaningful, p, q, length);
    MeatyHasTwo(block[p..p + length], meaningful);
  }

  lemma {:induction false} DilutedHasNoWhole<T>(
      m: T, b: T, minLen: nat, n: nat, meaningful: T -> bool, p: nat, q: nat, length: nat)
    requires meaningful(m) && !meaningful(b) && n == (if minLen > 2 then minLen else 2)
    ensures !WantedWhole(Diluted(m, b, n), minLen, meaningful, p, q, length)
  {
    if WantedWhole(Diluted(m, b, n), minLen, meaningful, p, q, length) {
      WholeIsMeaty(Diluted(m, b, n), minLen, meaningful, p, q, length);
      NoWholeFrom(m, b, n, meaningful, p, q);
    }
  }

  /** The search finds nothing in such a block, although its first lines are a wanted repeat. */
  lemma {:induction false} DilutedRepeatIsLost<T>(m: T, b: T, minLen: nat, n: nat, meaningful: T -> bool, best: Option<Repeat>)
    requires meaningful(m) && !meaningful(b) && n == (if minLen > 2 then minLen else 2)
    requires IsAnswer(Diluted(m, b, n), minLen, meaningful, best)
    ensures Wanted(Diluted(m, b, n), minLen, meaningful, 0, 2 * n + 1, n) && best.None?
  {
    var block := Diluted(m, b, n);
    DilutedRepeats(m, b, n);
    AllMeaningful(block[0..n], meaningful);
    forall p: nat, q: nat, length: nat ensures !WantedWhole(block, minLen, meaningful, p, q, length) {
      DilutedHasNoWhole(m, b, minLen, n, meaningful, p, q, length);
    }
    SearchIsExact(block, minLen, meaningful, best);
  }

  lemma {:induction false} NothingFound<T>(block: seq<T>, minLen: nat, meaningful: T -> bool)
    requires forall p: nat, q: nat, length: nat :: !WantedWhole(block, minLen, meaningful, p, q, length)
    ensures IsAnswer(block, minLen, meaningful, None)
  {
    var score := Score(block, minLen, meaningful);
    forall p: nat, q: nat | Visited(|block|, minLen, p, q, |block| + 1, 0) ensures score(p, q) == 0 {
      WantedWholeIsRun(block, minLen, meaningful, p, q, Run(block, p, q));
      ScoreOf(block, minLen, meaningful, p, q);
    }
  }

  lemma {:induction false} MixedLinesBreakThePromise<T(!new)>(m: T, b: T, minLen: nat, meaningful: T -> bool)
    requires meaningful(m) && !meaningful(b)
    ensures !KeepsPromise(minLen, meaningful)
  {
    var n := if minLen > 2 then minLen else 2;
    var block := Diluted(m, b, n);
    forall p: nat, q: nat, length: nat ensures !WantedWhole(block, minLen, meaningful, p, q, length) {
      DilutedHasNoWhole(m, b, minLen, n, meaningful, p, q, length);
    }
    NothingFound(block, minLen, meaningful);
    DilutedRepeatIsLost(m, b, minLen, n, meaningful, None);
    assert IsAnswer(block, minLen, meaningful, None);
  }

  lemma {:induction false} NoneMeaningfulNoneWanted<T>(
      block: seq<T>, minLen: nat, meaningful: T -> bool, p: nat, q: nat, length: nat)
    requires forall x: T :: !meaningful(x)
    ensures !Wanted(block, minLen, meaningful, p, q, length)
  {
    if Wanted(block, minLen, meaningful, p, q, length) {
      OnlyTheFirstCount(block[p..p + length], meaningful, 0);
    }
  }

  /** Every wanted repeat gets an answer exactly when no two lines differ in being meaningful. */
  lemma {:induction false} PromiseIsKeptExactly<T(!new)>(minLen: nat, meaningful: T -> bool)
    ensures KeepsPromise(minLen, meaningful) <==> (forall x: T :: meaningful(x)) || (forall x: T :: !meaningful(x))
  {
    if (forall x: T :: meaningful(x)) || (forall x: T :: !meaningful(x)) {
      forall block: seq<T>, best: Option<Repeat>, p: nat, q: nat, length: nat
        | Wanted(block, minLen, meaningful, p, q, length) && IsAnswer(block, minLen, meaningful, best)
        ensures best.Some?
      {
        if forall x: T :: meaningful(x) {
          MeaningfulBlockIsAnswered(block, minLen, meaningful, best, p, q, length);
        } else {
          NoneMeaningfulNoneWanted(block, minLen, meaningful, p, q, length);
        }
      }
    } else {
      var m: T :| meaningful(m);
      var b: T :| !meaningful(b);
      MixedLinesBreakThePromise(m, b, minLen, meaningful);
    }
  }
}
