/**
 Which added bullets of a diff count as new in `fix-changelogs.ts`: additions are paired with removals
 of the same text, and what is left over in each hunk is offset against its unpaired removals.
 */
module DiffPairing {

  /** What a diff line says, without its marker. */
  datatype Content = ReleaseHeading | Bullet(key: string) | Plain

  datatype DiffLine =
    | NewPath(path: string)
    | FileStart
    | HunkStart(oldStart: nat, newStart: nat)
    | Added(content: Content)
    | Removed(content: Content)
    | Context(content: Content)
    | Other

  datatype HunkRef = HunkRef(path: string, index: nat)

  datatype Addition = Addition(line: nat, key: string, hunk: HunkRef)
  datatype Removal = Removal(key: string, hunk: HunkRef)

  // ----- Reading the diff

  /** `hunk` is the index of the current hunk, or -1 before the first of a file. */
  datatype Reader = Reader(
    path: string, newLine: nat, hunk: int, additions: seq<Addition>, removals: seq<Removal>, headings: set<HunkRef>)

  const START: Reader := Reader("", 0, -1, [], [], {})

  predicate InHunk(r: Reader) {
    r.path != "" && r.hunk >= 0
  }

  function ReadAdded(r: Reader, content: Content): Reader
    requires InHunk(r)
  {
    var here, next := HunkRef(r.path, r.hunk), r.(newLine := r.newLine + 1);
    match content
    case ReleaseHeading => next.(headings := r.headings + {here})
    case Bullet(key) => next.(additions := r.additions + [Addition(r.newLine, key, here)])
    case Plain => next
  }

  function ReadRemoved(r: Reader, content: Content): Reader
    requires InHunk(r)
  {
    if content.Bullet? then r.(removals := r.removals + [Removal(content.key, HunkRef(r.path, r.hunk))]) else r
  }

  function ReadLine(r: Reader, l: DiffLine): Reader {
    match l
    case NewPath(path) => r.(path := path)
    case FileStart => r.(path := "", hunk := -1)
    case HunkStart(_, newStart) => r.(newLine := newStart, hunk := r.hunk + 1)
    case Added(content) => if InHunk(r) then ReadAdded(r, content) else r
    case Removed(content) => if InHunk(r) then ReadRemoved(r, content) else r
    case Context(_) => if InHunk(r) then r.(newLine := r.newLine + 1) else r
    case Other => r
  }

  function ReadFrom(r: Reader, lines: seq<DiffLine>): Reader {
    if lines == [] then r else ReadLine(ReadFrom(r, lines[..|lines| - 1]), lines[|lines| - 1])
  }

  method ReadDiff(lines: seq<DiffLine>) returns (additions: seq<Addition>, removals: seq<Removal>, headings: set<HunkRef>)
    ensures var r := ReadFrom(START, lines); additions == r.additions && removals == r.removals && headings == r.headings
  {
    additions, removals, headings := [], [], {};
    var path, oldLine, newLine, hunk := "", 0, 0, -1;
    for k := 0 to |lines|
      invariant Reader(path, newLine, hunk, additions, removals, headings) == ReadFrom(START, lines[..k])
    {
      assert lines[..k + 1][..k] == lines[..k];
      match lines[k]
      case NewPath(p) => path := p;
      case FileStart => path, hunk := "", -1;
      case HunkStart(oldStart, newStart) => oldLine, newLine, hunk := oldStart, newStart, hunk + 1;
      case Other =>
      case Added(content) =>
        if path != "" && hunk >= 0 {
          if content.ReleaseHeading? {
            headings := headings + {HunkRef(path, hunk)};
          }
          if content.Bullet? {
            additions := additions + [Addition(newLine, content.key, HunkRef(path, hunk))];
          }
          newLine := newLine + 1;
        }
      case Removed(content) =>
        if path != "" && hunk >= 0 {
          if content.Bullet? {
            removals := removals + [Removal(content.key, HunkRef(path, hunk))];
          }
          oldLine := oldLine + 1;
        }
      case Context(_) =>
        if path != "" && hunk >= 0 {
          oldLine, newLine := oldLine + 1, newLine + 1;
        }
    }
    assert lines[..|lines|] == lines;
  }

  // ----- Pairing

  /** Pairing is per file and text. */
  datatype ItemKey = ItemKey(path: string, text: string)

  function KeyOf(a: Addition): ItemKey { ItemKey(a.hunk.path, a.key) }
  function KeyOfRemoval(r: Removal): ItemKey { ItemKey(r.hunk.path, r.key) }

  function CountAdded(adds: seq<Addition>, k: ItemKey): nat {
    if adds == [] then 0
    else CountAdded(adds[..|adds| - 1], k) + if KeyOf(adds[|adds| - 1]) == k then 1 else 0
  }

  function CountRemoved(rems: seq<Removal>, k: ItemKey): nat {
    if rems == [] then 0
    else CountRemoved(rems[..|rems| - 1], k) + if KeyOfRemoval(rems[|rems| - 1]) == k then 1 else 0
  }

  /** The first additions of a text are paired, as many as there are removals of it. */
  predicate IsPaired(adds: seq<Addition>, rems: seq<Removal>, i: nat)
    requires i < |adds|
  {
    CountAdded(adds[..i], KeyOf(adds[i])) < CountRemoved(rems, KeyOf(adds[i]))
  }

  /** And the first removals, as many as there are additions. */
  predicate IsPairedRemoval(adds: seq<Addition>, rems: seq<Removal>, j: nat)
    requires j < |rems|
  {
    CountRemoved(rems[..j], KeyOfRemoval(rems[j])) < CountAdded(adds, KeyOfRemoval(rems[j]))
  }

  lemma {:induction false} CountAddedNext(adds: seq<Addition>, i: nat, k: ItemKey)
    requires i < |adds|
    ensures CountAdded(adds[..i + 1], k) == CountAdded(adds[..i], k) + if KeyOf(adds[i]) == k then 1 else 0
  {
    assert adds[..i + 1][..i] == adds[..i];
  }

  lemma {:induction false} CountRemovedNext(rems: seq<Removal>, j: nat, k: ItemKey)
    requires j < |rems|
    ensures CountRemoved(rems[..j + 1], k) == CountRemoved(rems[..j], k) + if KeyOfRemoval(rems[j]) == k then 1 else 0
  {
    assert rems[..j + 1][..j] == rems[..j];
  }

  lemma {:induction false} CountRemovedGrows(rems: seq<Removal>, j: nat, n: nat, k: ItemKey)
    requires j <= n <= |rems|
    ensures CountRemoved(rems[..j], k) <= CountRemoved(rems[..n], k)
  {
    if j < n {
      CountRemovedGrows(rems, j, n - 1, k);
      CountRemovedNext(rems, n - 1, k);
    }
  }

  /** The places of the removals of a text, in order. */
  ghost predicate Places(rems: seq<Removal>, n: nat, k: ItemKey, at: seq<nat>)
    requires n <= |rems|
  {
    && |at| == CountRemoved(rems[..n], k)
    && forall x :: 0 <= x < |at| ==> at[x] < n && KeyOfRemoval(rems[at[x]]) == k && CountRemoved(rems[..at[x]], k) == x
  }

  ghost predicate Groups(rems: seq<Removal>, n: nat, byItem: map<ItemKey, seq<nat>>)
    requires n <= |rems|
  {
    && (forall k :: k in byItem ==> Places(rems, n, k, byItem[k]))
    && (forall k :: k !in byItem ==> CountRemoved(rems[..n], k) == 0)
  }

  lemma {:induction false} GroupStep(rems: seq<Removal>, n: nat, byItem: map<ItemKey, seq<nat>>)
    requires n < |rems| && Groups(rems, n, byItem)
    ensures var k := KeyOfRemoval(rems[n]);
            Groups(rems, n + 1, byItem[k := (if k in byItem then byItem[k] else []) + [n]])
  {
    var k := KeyOfRemoval(rems[n]);
    var after := byItem[k := (if k in byItem then byItem[k] else []) + [n]];
    forall j ensures CountRemoved(rems[..n + 1], j) == CountRemoved(rems[..n], j) + if j == k then 1 else 0 {
      CountRemovedNext(rems, n, j);
    }
    forall j | j in after ensures Places(rems, n + 1, j, after[j]) {
      if j != k {
        assert Places(rems, n, j, byItem[j]);
      } else if k in byItem {
        assert Places(rems, n, k, byItem[k]);
      }
    }
  }

  method GroupRemovals(rems: seq<Removal>) returns (byItem: map<ItemKey, seq<nat>>)
    ensures Groups(rems, |rems|, byItem)
  {
    byItem := map[];
    for j := 0 to |rems|
      invariant Groups(rems, j, byItem)
    {
      GroupStep(rems, j, byItem);
      var k := KeyOfRemoval(rems[j]);
      byItem := byItem[k := (if k in byItem then byItem[k] else []) + [j]];
    }
  }

  /** The removals paired once the first `i` additions have been looked at. */
  ghost predicate PairedSoFar(adds: seq<Addition>, rems: seq<Removal>, i: nat, paired: seq<bool>)
    requires i <= |adds|
  {
    |paired| == |rems| && forall j :: 0 <= j < |rems| ==> paired[j] == IsPairedRemoval(adds[..i], rems, j)
  }

  /** The first place in the list that is not paired yet. */
  method FirstUnpaired(at: seq<nat>, paired: array<bool>, ghost used: nat) returns (x: nat)
    requires forall y :: 0 <= y < |at| ==> at[y] < paired.Length && paired[at[y]] == (y < used)
    ensures x == if used < |at| then used else |at|
  {
    x := 0;
    while x < |at| && paired[at[x]]
      invariant x <= |at| && x <= used
    {
      x := x + 1;
    }
  }

  lemma {:induction false} PlacesPaired(adds: seq<Addition>, rems: seq<Removal>, i: nat, paired: seq<bool>, k: ItemKey, at: seq<nat>)
    requires i <= |adds| && PairedSoFar(adds, rems, i, paired) && Places(rems, |rems|, k, at)
    ensures forall y :: 0 <= y < |at| ==> at[y] < |paired| && paired[at[y]] == (y < CountAdded(adds[..i], k))
  {
  }

  lemma {:induction false} SamePlace(rems: seq<Removal>, a: nat, b: nat)
    requires a < |rems| && b < |rems| && KeyOfRemoval(rems[a]) == KeyOfRemoval(rems[b])
    requires CountRemoved(rems[..a], KeyOfRemoval(rems[a])) == CountRemoved(rems[..b], KeyOfRemoval(rems[b]))
    ensures a == b
  {
    var k := KeyOfRemoval(rems[a]);
    CountRemovedNext(rems, a, k);
    CountRemovedNext(rems, b, k);
    if a < b {
      CountRemovedGrows(rems, a + 1, b, k);
    } else if b < a {
      CountRemovedGrows(rems, b + 1, a, k);
    }
  }

  /** Pairing the next addition with the first free removal of its text. */
  lemma {:induction false} PairStep(adds: seq<Addition>, rems: seq<Removal>, i: nat, paired: seq<bool>, at: seq<nat>)
    requires i < |adds| && PairedSoFar(adds, rems, i, paired) && Places(rems, |rems|, KeyOf(adds[i]), at)
    ensures var x := CountAdded(adds[..i], KeyOf(adds[i]));
            if x < |at| then IsPaired(adds, rems, i) && at[x] < |paired| && PairedSoFar(adds, rems, i + 1, paired[at[x] := true])
            else !IsPaired(adds, rems, i) && PairedSoFar(adds, rems, i + 1, paired)
  {
    var k := KeyOf(adds[i]);
    var x := CountAdded(adds[..i], k);
    assert rems[..|rems|] == rems;
    forall j | 0 <= j < |rems|
      ensures IsPairedRemoval(adds[..i + 1], rems, j) <==>
              (IsPairedRemoval(adds[..i], rems, j) || (x < |at| && j == at[x]))
    {
      RemovalStep(adds, rems, i, at, j);
    }
    if x < |at| {
      var after := paired[at[x] := true];
      forall j | 0 <= j < |rems| ensures after[j] == IsPairedRemoval(adds[..i + 1], rems, j) {
        assert paired[j] == IsPairedRemoval(adds[..i], rems, j);
      }
    }
  }

  lemma {:induction false} RemovalStep(adds: seq<Addition>, rems: seq<Removal>, i: nat, at: seq<nat>, j: nat)
    requires i < |adds| && j < |rems| && Places(rems, |rems|, KeyOf(adds[i]), at)
    ensures var x := CountAdded(adds[..i], KeyOf(adds[i]));
            IsPairedRemoval(adds[..i + 1], rems, j) <==>
            (IsPairedRemoval(adds[..i], rems, j) || (x < |at| && j == at[x]))
  {
    var k, kj := KeyOf(adds[i]), KeyOfRemoval(rems[j]);
    var x := CountAdded(adds[..i], k);
    CountAddedNext(adds, i, kj);
    if kj == k {
      assert rems[..|rems|] == rems;
      CountRemovedNext(rems, j, k);
      CountRemovedGrows(rems, j + 1, |rems|, k);
      if CountRemoved(rems[..j], k) == x {
        SamePlace(rems, j, at[x]);
      }
    }
  }

  ghost predicate AddsSoFar(adds: seq<Addition>, rems: seq<Removal>, i: nat, paired: seq<bool>)
    requires i <= |adds|
  {
    |paired| == |adds| && forall k :: 0 <= k < |adds| ==> paired[k] == (k < i && IsPaired(adds, rems, k))
  }

  lemma {:induction false} AddsStep(adds: seq<Addition>, rems: seq<Removal>, i: nat, paired: seq<bool>)
    requires i < |adds| && AddsSoFar(adds, rems, i, paired)
    ensures AddsSoFar(adds, rems, i + 1, paired[i := IsPaired(adds, rems, i)])
    ensures !IsPaired(adds, rems, i) ==> AddsSoFar(adds, rems, i + 1, paired)
  {
  }

  /** One addition looks for the first free removal of its file and text. */
  method PairOne(adds: seq<Addition>, rems: seq<Removal>, i: nat, at: seq<nat>, pairedRems: array<bool>) returns (found: bool)
    requires i < |adds| && Places(rems, |rems|, KeyOf(adds[i]), at) && PairedSoFar(adds, rems, i, pairedRems[..])
    modifies pairedRems
    ensures found == IsPaired(adds, rems, i) && PairedSoFar(adds, rems, i + 1, pairedRems[..])
  {
    ghost var was := pairedRems[..];
    PlacesPaired(adds, rems, i, was, KeyOf(adds[i]), at);
    PairStep(adds, rems, i, was, at);
    var x := FirstUnpaired(at, pairedRems, CountAdded(adds[..i], KeyOf(adds[i])));
    found := x < |at|;
    if found {
      pairedRems[at[x]] := true;
      assert pairedRems[..] == was[at[x] := true];
    }
  }

  /** Each addition in turn takes the first free removal of the same file and text. */
  method PairUp(adds: seq<Addition>, rems: seq<Removal>) returns (pairedAdds: array<bool>, pairedRems: array<bool>)
    ensures fresh(pairedAdds) && fresh(pairedRems)
    ensures AddsSoFar(adds, rems, |adds|, pairedAdds[..]) && PairedSoFar(adds, rems, |adds|, pairedRems[..])
  {
    var byItem := GroupRemovals(rems);
    pairedAdds := new bool[|adds|](_ => false);
    pairedRems := new bool[|rems|](_ => false);
    for i := 0 to |adds|
      invariant pairedAdds != pairedRems && fresh(pairedAdds) && fresh(pairedRems)
      invariant PairedSoFar(adds, rems, i, pairedRems[..]) && AddsSoFar(adds, rems, i, pairedAdds[..])
    {
      var k := KeyOf(adds[i]);
      var at := if k in byItem then byItem[k] else [];
      ghost var was := pairedAdds[..];
      AddsStep(adds, rems, i, was);
      assert Places(rems, |rems|, k, at);
      var found := PairOne(adds, rems, i, at, pairedRems);
      pairedAdds[i] := found;
      assert pairedAdds[..] == was[i := found];
    }
  }

  // ----- How many are paired

  function Min(a: nat, b: nat): nat { if a < b then a else b }

  /** Paired additions of a text among the first `n`. */
  function PairedAdds(adds: seq<Addition>, rems: seq<Removal>, k: ItemKey, n: nat): nat
    requires n <= |adds|
  {
    if n == 0 then 0
    else PairedAdds(adds, rems, k, n - 1) + if KeyOf(adds[n - 1]) == k && IsPaired(adds, rems, n - 1) then 1 else 0
  }

  function PairedRems(adds: seq<Addition>, rems: seq<Removal>, k: ItemKey, n: nat): nat
    requires n <= |rems|
  {
    if n == 0 then 0
    else PairedRems(adds, rems, k, n - 1) + if KeyOfRemoval(rems[n - 1]) == k && IsPairedRemoval(adds, rems, n - 1) then 1 else 0
  }

  lemma {:induction false} PairedAddsUpTo(adds: seq<Addition>, rems: seq<Removal>, k: ItemKey, n: nat)
    requires n <= |adds|
    ensures PairedAdds(adds, rems, k, n) == Min(CountAdded(adds[..n], k), CountRemoved(rems, k))
  {
    if n > 0 {
      PairedAddsUpTo(adds, rems, k, n - 1);
      CountAddedNext(adds, n - 1, k);
    }
  }

  lemma {:induction false} PairedRemsUpTo(adds: seq<Addition>, rems: seq<Removal>, k: ItemKey, n: nat)
    requires n <= |rems|
    ensures PairedRems(adds, rems, k, n) == Min(CountRemoved(rems[..n], k), CountAdded(adds, k))
  {
    if n > 0 {
      PairedRemsUpTo(adds, rems, k, n - 1);
      CountRemovedNext(rems, n - 1, k);
    }
  }

  /** Per file and text exactly as many are paired as there are of the rarer side. */
  lemma {:induction false} PairingIsExact(adds: seq<Addition>, rems: seq<Removal>, k: ItemKey)
    ensures PairedAdds(adds, rems, k, |adds|) == Min(CountAdded(adds, k), CountRemoved(rems, k))
    ensures PairedRems(adds, rems, k, |rems|) == Min(CountAdded(adds, k), CountRemoved(rems, k))
  {
    PairedAddsUpTo(adds, rems, k, |adds|);
    PairedRemsUpTo(adds, rems, k, |rems|);
    assert adds[..|adds|] == adds && rems[..|rems|] == rems;
  }

  // ----- Offsetting within a hunk

  /** Unpaired additions of a hunk among the first `n`. */
  function UnpairedAdds(adds: seq<Addition>, rems: seq<Removal>, h: HunkRef, n: nat): nat
    requires n <= |adds|
  {
    if n == 0 then 0
    else UnpairedAdds(adds, rems, h, n - 1) + if adds[n - 1].hunk == h && !IsPaired(adds, rems, n - 1) then 1 else 0
  }

  function UnpairedRems(adds: seq<Addition>, rems: seq<Removal>, h: HunkRef, n: nat): nat
    requires n <= |rems|
  {
    if n == 0 then 0
    else UnpairedRems(adds, rems, h, n - 1) + if rems[n - 1].hunk == h && !IsPairedRemoval(adds, rems, n - 1) then 1 else 0
  }

  /** An unpaired addition counts as new when its hunk has no release heading among its additions, and
      the unpaired removals of the hunk have been used up by the unpaired additions before it. */
  predicate IsNew(adds: seq<Addition>, rems: seq<Removal>, headings: set<HunkRef>, i: nat)
    requires i < |adds|
  {
    && !IsPaired(adds, rems, i) && adds[i].hunk !in headings
    && UnpairedAdds(adds, rems, adds[i].hunk, i) >= UnpairedRems(adds, rems, adds[i].hunk, |rems|)
  }

  ghost predicate Budgets(adds: seq<Addition>, rems: seq<Removal>, n: nat, budget: map<HunkRef, nat>)
    requires n <= |rems|
  {
    forall h :: (if h in budget then budget[h] else 0) == UnpairedRems(adds, rems, h, n)
  }

  method CountUnpairedRemovals(adds: seq<Addition>, rems: seq<Removal>, pairedRems: array<bool>) returns (budget: map<HunkRef, nat>)
    requires PairedSoFar(adds, rems, |adds|, pairedRems[..])
    ensures Budgets(adds, rems, |rems|, budget)
  {
    budget := map[];
    assert adds[..|adds|] == adds;
    for j := 0 to |rems|
      invariant Budgets(adds, rems, j, budget)
    {
      assert pairedRems[..][j] == IsPairedRemoval(adds, rems, j);
      if !pairedRems[j] {
        var h := rems[j].hunk;
        budget := budget[h := (if h in budget then budget[h] else 0) + 1];
      }
    }
  }

  /** What is left of the unpaired removals after the first `n` additions. */
  ghost predicate Remaining(adds: seq<Addition>, rems: seq<Removal>, headings: set<HunkRef>, n: nat, budget: map<HunkRef, nat>)
    requires n <= |adds|
  {
    forall h :: h !in headings ==>
      (if h in budget then budget[h] else 0) ==
      Left(UnpairedRems(adds, rems, h, |rems|), UnpairedAdds(adds, rems, h, n))
  }

  function Left(budget: nat, spent: nat): nat { if budget < spent then 0 else budget - spent }

  /** The new lines of a file among the first `n` additions. */
  ghost function NewLines(adds: seq<Addition>, rems: seq<Removal>, headings: set<HunkRef>, path: string, n: nat): set<nat>
    requires n <= |adds|
  {
    if n == 0 then {}
    else
      NewLines(adds, rems, headings, path, n - 1) +
      if adds[n - 1].hunk.path == path && IsNew(adds, rems, headings, n - 1) then {adds[n - 1].line} else {}
  }

  lemma {:induction false} NewLineFrom(adds: seq<Addition>, rems: seq<Removal>, headings: set<HunkRef>, path: string, n: nat, x: nat)
    returns (i: nat)
    requires n <= |adds| && x in NewLines(adds, rems, headings, path, n)
    ensures i < n && adds[i].hunk.path == path && IsNew(adds, rems, headings, i) && adds[i].line == x
  {
    if x in NewLines(adds, rems, headings, path, n - 1) {
      i := NewLineFrom(adds, rems, headings, path, n - 1, x);
    } else {
      i := n - 1;
    }
  }

  lemma {:induction false} NewLineOf(adds: seq<Addition>, rems: seq<Removal>, headings: set<HunkRef>, path: string, n: nat, i: nat)
    requires i < n <= |adds| && adds[i].hunk.path == path && IsNew(adds, rems, headings, i)
    ensures adds[i].line in NewLines(adds, rems, headings, path, n)
  {
    if i < n - 1 {
      NewLineOf(adds, rems, headings, path, n - 1, i);
    }
  }

  /** These are the lines of the new additions to this file. */
  lemma {:induction false} NewLinesMeaning(adds: seq<Addition>, rems: seq<Removal>, headings: set<HunkRef>, path: string, n: nat, x: nat)
    requires n <= |adds|
    ensures x in NewLines(adds, rems, headings, path, n) <==>
            exists i :: 0 <= i < n && adds[i].hunk.path == path && IsNew(adds, rems, headings, i) && adds[i].line == x
  {
    if x in NewLines(adds, rems, headings, path, n) {
      var i := NewLineFrom(adds, rems, headings, path, n, x);
    }
    if i :| 0 <= i < n && adds[i].hunk.path == path && IsNew(adds, rems, headings, i) && adds[i].line == x {
      NewLineOf(adds, rems, headings, path, n, i);
    }
  }

  ghost predicate Collected(adds: seq<Addition>, rems: seq<Removal>, headings: set<HunkRef>, n: nat, lines: map<string, set<nat>>)
    requires n <= |adds|
  {
    forall p :: (if p in lines then lines[p] else {}) == NewLines(adds, rems, headings, p, n)
  }

  method SelectNew(adds: seq<Addition>, rems: seq<Removal>, headings: set<HunkRef>, pairedAdds: array<bool>, unpaired: map<HunkRef, nat>)
    returns (lines: map<string, set<nat>>)
    requires AddsSoFar(adds, rems, |adds|, pairedAdds[..]) && Budgets(adds, rems, |rems|, unpaired)
    ensures Collected(adds, rems, headings, |adds|, lines)
  {
    lines := map[];
    var budget := unpaired;
    for i := 0 to |adds|
      invariant Remaining(adds, rems, headings, i, budget) && Collected(adds, rems, headings, i, lines)
    {
      assert pairedAdds[..][i] == IsPaired(adds, rems, i);
      var h := adds[i].hunk;
      if pairedAdds[i] || h in headings {
        continue;
      }
      var left := if h in budget then budget[h] else 0;
      if left > 0 {
        budget := budget[h := left - 1];
      } else {
        lines := lines[h.path := (if h.path in lines then lines[h.path] else {}) + {adds[i].line}];
      }
    }
  }

  /** `collectPromotableAddedItemLines`. */
  method CollectPromotableAddedItemLines(diff: seq<DiffLine>) returns (lines: map<string, set<nat>>)
    ensures var r := ReadFrom(START, diff); Collected(r.additions, r.removals, r.headings, |r.additions|, lines)
  {
    var adds, rems, headings := ReadDiff(diff);
    var pairedAdds, pairedRems := PairUp(adds, rems);
    var unpaired := CountUnpairedRemovals(adds, rems, pairedRems);
    lines := SelectNew(adds, rems, headings, pairedAdds, unpaired);
  }

  /** New additions of a hunk among the first `n`. */
  function CountNew(adds: seq<Addition>, rems: seq<Removal>, headings: set<HunkRef>, h: HunkRef, n: nat): nat
    requires n <= |adds|
  {
    if n == 0 then 0
    else CountNew(adds, rems, headings, h, n - 1) + if adds[n - 1].hunk == h && IsNew(adds, rems, headings, n - 1) then 1 else 0
  }

  lemma {:induction false} NewUpTo(adds: seq<Addition>, rems: seq<Removal>, headings: set<HunkRef>, h: HunkRef, n: nat)
    requires n <= |adds|
    ensures CountNew(adds, rems, headings, h, n) ==
            if h in headings then 0 else Left(UnpairedAdds(adds, rems, h, n), UnpairedRems(adds, rems, h, |rems|))
  {
    if n > 0 {
      NewUpTo(adds, rems, headings, h, n - 1);
    }
  }

  /** A hunk yields its surplus of unpaired additions, and none if it adds a release heading. */
  lemma {:induction false} HunkYieldsItsSurplus(adds: seq<Addition>, rems: seq<Removal>, headings: set<HunkRef>, h: HunkRef)
    ensures CountNew(adds, rems, headings, h, |adds|) ==
            if h in headings then 0
            else Left(UnpairedAdds(adds, rems, h, |adds|), UnpairedRems(adds, rems, h, |rems|))
  {
    NewUpTo(adds, rems, headings, h, |adds|);
  }
}
