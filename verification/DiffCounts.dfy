/**
 Which additions and removals `fix-changelogs.ts` pairs, and which additions are new, counted over the
 positions in the diff: by file path and bullet text, and by hunk.
 */
module DiffCounts {
  import opened DiffPairing

  // ----- Positions

  /** The first `n` additions with this path and text. */
  ghost function AddedAt(adds: seq<Addition>, n: nat, path: string, text: string): set<nat>
    requires n <= |adds|
  {
    set i: nat | i < n && adds[i].hunk.path == path && adds[i].key == text
  }

  ghost function RemovedAt(rems: seq<Removal>, n: nat, path: string, text: string): set<nat>
    requires n <= |rems|
  {
    set j: nat | j < n && rems[j].hunk.path == path && rems[j].key == text
  }

  lemma {:induction false} CountsAdded(adds: seq<Addition>, n: nat, path: string, text: string)
    requires n <= |adds|
    ensures CountAdded(adds[..n], ItemKey(path, text)) == |AddedAt(adds, n, path, text)|
  {
    if n > 0 {
      CountsAdded(adds, n - 1, path, text);
      CountAddedNext(adds, n - 1, ItemKey(path, text));
      AddedNext(adds, n - 1, path, text);
      OneMoreOf(AddedAt(adds, n - 1, path, text), {}, n - 1);
    }
  }

  lemma {:induction false} CountsRemoved(rems: seq<Removal>, n: nat, path: string, text: string)
    requires n <= |rems|
    ensures CountRemoved(rems[..n], ItemKey(path, text)) == |RemovedAt(rems, n, path, text)|
  {
    if n > 0 {
      CountsRemoved(rems, n - 1, path, text);
      CountRemovedNext(rems, n - 1, ItemKey(path, text));
      RemovedNext(rems, n - 1, path, text);
      OneMoreOf(RemovedAt(rems, n - 1, path, text), {}, n - 1);
    }
  }

  // ----- What is paired

  /** An addition is paired exactly when fewer earlier additions than removals have its path and text. */
  lemma {:induction false} PairedExactly(adds: seq<Addition>, rems: seq<Removal>, i: nat)
    requires i < |adds|
    ensures var path, text := adds[i].hunk.path, adds[i].key;
            IsPaired(adds, rems, i) <==> |AddedAt(adds, i, path, text)| < |RemovedAt(rems, |rems|, path, text)|
  {
    CountsAdded(adds, i, adds[i].hunk.path, adds[i].key);
    CountsRemoved(rems, |rems|, adds[i].hunk.path, adds[i].key);
    assert rems[..|rems|] == rems;
  }

  lemma {:induction false} RemovalPairedExactly(adds: seq<Addition>, rems: seq<Removal>, j: nat)
    requires j < |rems|
    ensures var path, text := rems[j].hunk.path, rems[j].key;
            IsPairedRemoval(adds, rems, j) <==> |RemovedAt(rems, j, path, text)| < |AddedAt(adds, |adds|, path, text)|
  {
    CountsRemoved(rems, j, rems[j].hunk.path, rems[j].key);
    CountsAdded(adds, |adds|, rems[j].hunk.path, rems[j].key);
    assert adds[..|adds|] == adds;
  }

  /** In particular nothing is paired across files or texts. */
  lemma {:induction false} NoPartnerNoPair(adds: seq<Addition>, rems: seq<Removal>, i: nat)
    requires i < |adds| && IsPaired(adds, rems, i)
    ensures exists j :: 0 <= j < |rems| && rems[j].hunk.path == adds[i].hunk.path && rems[j].key == adds[i].key
  {
    PairedExactly(adds, rems, i);
    var partners := RemovedAt(rems, |rems|, adds[i].hunk.path, adds[i].key);
    assert partners != {};
    var j :| j in partners;
  }

  ghost function PairedAdditions(adds: seq<Addition>, rems: seq<Removal>): set<nat> {
    set i: nat | i < |adds| && IsPaired(adds, rems, i)
  }

  ghost function PairedRemovals(adds: seq<Addition>, rems: seq<Removal>): set<nat> {
    set j: nat | j < |rems| && IsPairedRemoval(adds, rems, j)
  }

  lemma {:induction false} OneMoreOf(a: set<nat>, among: set<nat>, n: nat)
    requires n !in a
    ensures |(a + {n}) * among| == |a * among| + if n in among then 1 else 0
    ensures |(a + {n}) - among| == |a - among| + if n in among then 0 else 1
  {
    assert (a + {n}) * among == if n in among then (a * among) + {n} else a * among;
    assert (a + {n}) - among == if n in among then a - among else (a - among) + {n};
  }

  lemma {:induction false} AddedNext(adds: seq<Addition>, n: nat, path: string, text: string)
    requires n < |adds|
    ensures n !in AddedAt(adds, n, path, text)
    ensures AddedAt(adds, n + 1, path, text)
            == AddedAt(adds, n, path, text) + if adds[n].hunk.path == path && adds[n].key == text then {n} else {}
  {
  }

  lemma {:induction false} RemovedNext(rems: seq<Removal>, n: nat, path: string, text: string)
    requires n < |rems|
    ensures n !in RemovedAt(rems, n, path, text)
    ensures RemovedAt(rems, n + 1, path, text)
            == RemovedAt(rems, n, path, text) + if rems[n].hunk.path == path && rems[n].key == text then {n} else {}
  {
  }

  /** As many of these are among those as there is room for. */
  ghost predicate FillsUp(these: set<nat>, among: set<nat>, room: nat) {
    |these * among| == if |these| < room then |these| else room
  }

  /** One more position joins the first set, and is in the second as long as it has room. */
  lemma {:induction false} RoomStep(before: set<nat>, now: set<nat>, among: set<nat>, n: nat, here: bool, room: nat)
    requires n !in before && now == before + (if here then {n} else {})
    requires here ==> (n in among <==> |before| < room)
    requires FillsUp(before, among, room)
    ensures FillsUp(now, among, room)
  {
    if here {
      OneMoreOf(before, among, n);
    }
  }

  lemma {:induction false} AmongPaired(adds: seq<Addition>, rems: seq<Removal>, i: nat)
    requires i < |adds|
    ensures i in PairedAdditions(adds, rems) <==>
            |AddedAt(adds, i, adds[i].hunk.path, adds[i].key)| < |RemovedAt(rems, |rems|, adds[i].hunk.path, adds[i].key)|
  {
    PairedExactly(adds, rems, i);
  }

  lemma {:induction false} AmongPairedRemovals(adds: seq<Addition>, rems: seq<Removal>, j: nat)
    requires j < |rems|
    ensures j in PairedRemovals(adds, rems) <==>
            |RemovedAt(rems, j, rems[j].hunk.path, rems[j].key)| < |AddedAt(adds, |adds|, rems[j].hunk.path, rems[j].key)|
  {
    RemovalPairedExactly(adds, rems, j);
  }

  /** These are the additions that are paired, as far as counts go. */
  ghost predicate FirstOnes(adds: seq<Addition>, among: set<nat>, path: string, text: string, room: nat) {
    forall i {:trigger i in among} :: 0 <= i < |adds| && adds[i].hunk.path == path && adds[i].key == text ==>
      (i in among <==> |AddedAt(adds, i, path, text)| < room)
  }

  ghost predicate FirstRemovals(rems: seq<Removal>, among: set<nat>, path: string, text: string, room: nat) {
    forall j {:trigger j in among} :: 0 <= j < |rems| && rems[j].hunk.path == path && rems[j].key == text ==>
      (j in among <==> |RemovedAt(rems, j, path, text)| < room)
  }

  lemma {:induction false} PairedStep(adds: seq<Addition>, among: set<nat>, i: nat, path: string, text: string, room: nat)
    requires i < |adds| && FirstOnes(adds, among, path, text, room) && FillsUp(AddedAt(adds, i, path, text), among, room)
    ensures FillsUp(AddedAt(adds, i + 1, path, text), among, room)
  {
    AddedNext(adds, i, path, text);
    RoomStep(AddedAt(adds, i, path, text), AddedAt(adds, i + 1, path, text), among, i,
             adds[i].hunk.path == path && adds[i].key == text, room);
  }

  lemma {:induction false} CountsPaired(adds: seq<Addition>, among: set<nat>, n: nat, path: string, text: string, room: nat)
    requires n <= |adds| && FirstOnes(adds, among, path, text, room)
    ensures FillsUp(AddedAt(adds, n, path, text), among, room)
  {
    var i := 0;
    assert AddedAt(adds, 0, path, text) == {};
    while i < n
      invariant i <= n && FillsUp(AddedAt(adds, i, path, text), among, room)
    {
      PairedStep(adds, among, i, path, text, room);
      i := i + 1;
    }
  }

  lemma {:induction false} PairedRemovalStep(rems: seq<Removal>, among: set<nat>, j: nat, path: string, text: string, room: nat)
    requires j < |rems| && FirstRemovals(rems, among, path, text, room) && FillsUp(RemovedAt(rems, j, path, text), among, room)
    ensures FillsUp(RemovedAt(rems, j + 1, path, text), among, room)
  {
    RemovedNext(rems, j, path, text);
    RoomStep(RemovedAt(rems, j, path, text), RemovedAt(rems, j + 1, path, text), among, j,
             rems[j].hunk.path == path && rems[j].key == text, room);
  }

  lemma {:induction false} CountsPairedRemoved(rems: seq<Removal>, among: set<nat>, n: nat, path: string, text: string, room: nat)
    requires n <= |rems| && FirstRemovals(rems, among, path, text, room)
    ensures FillsUp(RemovedAt(rems, n, path, text), among, room)
  {
    var j := 0;
    assert RemovedAt(rems, 0, path, text) == {};
    while j < n
      invariant j <= n && FillsUp(RemovedAt(rems, j, path, text), among, room)
    {
      PairedRemovalStep(rems, among, j, path, text, room);
      j := j + 1;
    }
  }

  /** For every path and text, exactly as many additions and as many removals are paired as there are of
      the rarer side. */
  lemma {:induction false} AsManyAsTheRarerSide(adds: seq<Addition>, rems: seq<Removal>, path: string, text: string)
    ensures var added, removed := AddedAt(adds, |adds|, path, text), RemovedAt(rems, |rems|, path, text);
            var rarer := if |added| < |removed| then |added| else |removed|;
            |added * PairedAdditions(adds, rems)| == |removed * PairedRemovals(adds, rems)| == rarer
  {
    forall i | 0 <= i < |adds| && adds[i].hunk.path == path && adds[i].key == text
      ensures i in PairedAdditions(adds, rems) <==> |AddedAt(adds, i, path, text)| < |RemovedAt(rems, |rems|, path, text)|
    {
      AmongPaired(adds, rems, i);
    }
    forall j | 0 <= j < |rems| && rems[j].hunk.path == path && rems[j].key == text
      ensures j in PairedRemovals(adds, rems) <==> |RemovedAt(rems, j, path, text)| < |AddedAt(adds, |adds|, path, text)|
    {
      AmongPairedRemovals(adds, rems, j);
    }
    CountsPaired(adds, PairedAdditions(adds, rems), |adds|, path, text, |RemovedAt(rems, |rems|, path, text)|);
    CountsPairedRemoved(rems, PairedRemovals(adds, rems), |rems|, path, text, |AddedAt(adds, |adds|, path, text)|);
  }

  // ----- What is new

  /** The first `n` additions of this hunk. */
  ghost function AddedIn(adds: seq<Addition>, n: nat, h: HunkRef): set<nat>
    requires n <= |adds|
  {
    set i: nat | i < n && adds[i].hunk == h
  }

  ghost function RemovedIn(rems: seq<Removal>, n: nat, h: HunkRef): set<nat>
    requires n <= |rems|
  {
    set j: nat | j < n && rems[j].hunk == h
  }

  lemma {:induction false} AddedInNext(adds: seq<Addition>, n: nat, h: HunkRef, among: set<nat>)
    requires n < |adds|
    ensures |AddedIn(adds, n + 1, h) - among| == |AddedIn(adds, n, h) - among| + if adds[n].hunk == h && n !in among then 1 else 0
  {
    var before := AddedIn(adds, n, h);
    assert AddedIn(adds, n + 1, h) == before + if adds[n].hunk == h then {n} else {};
    OneMoreOf(before, among, n);
  }

  lemma {:induction false} RemovedInNext(rems: seq<Removal>, n: nat, h: HunkRef, among: set<nat>)
    requires n < |rems|
    ensures |RemovedIn(rems, n + 1, h) - among| == |RemovedIn(rems, n, h) - among| + if rems[n].hunk == h && n !in among then 1 else 0
  {
    var before := RemovedIn(rems, n, h);
    assert RemovedIn(rems, n + 1, h) == before + if rems[n].hunk == h then {n} else {};
    OneMoreOf(before, among, n);
  }

  lemma {:induction false} LoneNext(adds: seq<Addition>, rems: seq<Removal>, n: nat, h: HunkRef)
    requires n < |adds|
    ensures UnpairedAdds(adds, rems, h, n + 1)
            == UnpairedAdds(adds, rems, h, n) + if adds[n].hunk == h && n !in PairedAdditions(adds, rems) then 1 else 0
  {
  }

  lemma {:induction false} LoneRemovedNext(adds: seq<Addition>, rems: seq<Removal>, n: nat, h: HunkRef)
    requires n < |rems|
    ensures UnpairedRems(adds, rems, h, n + 1)
            == UnpairedRems(adds, rems, h, n) + if rems[n].hunk == h && n !in PairedRemovals(adds, rems) then 1 else 0
  {
  }

  lemma {:induction false} CountsLone(adds: seq<Addition>, rems: seq<Removal>, n: nat, h: HunkRef)
    requires n <= |adds|
    ensures UnpairedAdds(adds, rems, h, n) == |AddedIn(adds, n, h) - PairedAdditions(adds, rems)|
  {
    var i, among := 0, PairedAdditions(adds, rems);
    assert AddedIn(adds, 0, h) - among == {};
    while i < n
      invariant i <= n && UnpairedAdds(adds, rems, h, i) == |AddedIn(adds, i, h) - among|
    {
      LoneNext(adds, rems, i, h);
      AddedInNext(adds, i, h, among);
      i := i + 1;
    }
  }

  lemma {:induction false} CountsLoneRemoved(adds: seq<Addition>, rems: seq<Removal>, n: nat, h: HunkRef)
    requires n <= |rems|
    ensures UnpairedRems(adds, rems, h, n) == |RemovedIn(rems, n, h) - PairedRemovals(adds, rems)|
  {
    var j, among := 0, PairedRemovals(adds, rems);
    assert RemovedIn(rems, 0, h) - among == {};
    while j < n
      invariant j <= n && UnpairedRems(adds, rems, h, j) == |RemovedIn(rems, j, h) - among|
    {
      LoneRemovedNext(adds, rems, j, h);
      RemovedInNext(rems, j, h, among);
      j := j + 1;
    }
  }

  /** An addition is new exactly when it has no partner, its hunk adds no release heading, and at least as
      many additions of the hunk before it lack a partner as removals of the hunk do. */
  lemma {:induction false} NewExactly(adds: seq<Addition>, rems: seq<Removal>, headings: set<HunkRef>, i: nat)
    requires i < |adds|
    ensures var h := adds[i].hunk;
            IsNew(adds, rems, headings, i) <==>
            (i !in PairedAdditions(adds, rems) && h !in headings
             && |AddedIn(adds, i, h) - PairedAdditions(adds, rems)| >= |RemovedIn(rems, |rems|, h) - PairedRemovals(adds, rems)|)
  {
    CountsLone(adds, rems, i, adds[i].hunk);
    CountsLoneRemoved(adds, rems, |rems|, adds[i].hunk);
  }
}
