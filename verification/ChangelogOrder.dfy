/**
 The order of release sections in `fix-changelogs.ts`: unreleased first, then the newest version.
 */
module ChangelogOrder {
  import opened ChangelogText
  import ChangelogLists
  import opened ChangelogDocument
  import opened StableSort

  // ----- Comparing versions

  /** A missing part counts as zero. */
  function Part(parts: seq<int>, i: nat): int {
    if i < |parts| then parts[i] else 0
  }

  /** The first difference from part `i` on, newest first. */
  function CompareFrom(l: seq<int>, r: seq<int>, i: nat, n: nat): int
    decreases n - i
  {
    if i >= n then 0
    else if Part(r, i) != Part(l, i) then Part(r, i) - Part(l, i)
    else CompareFrom(l, r, i + 1, n)
  }

  function Longer(l: seq<int>, r: seq<int>): nat {
    if |l| < |r| then |r| else |l|
  }

  function CompareDesc(l: seq<int>, r: seq<int>): int {
    CompareFrom(l, r, 0, Longer(l, r))
  }

  method CompareVersionTitlesDesc(l: seq<int>, r: seq<int>) returns (difference: int)
    ensures difference == CompareDesc(l, r)
  {
    var limit := Longer(l, r);
    for i := 0 to limit
      invariant CompareDesc(l, r) == CompareFrom(l, r, i, limit)
    {
      difference := Part(r, i) - Part(l, i);
      if difference != 0 {
        return;
      }
    }
    difference := 0;
  }

  /** Comparing further than both versions go changes nothing. */
  lemma {:induction false} CompareFurther(l: seq<int>, r: seq<int>, i: nat, n: nat)
    requires n >= Longer(l, r)
    ensures CompareFrom(l, r, i, n) == CompareFrom(l, r, i, Longer(l, r))
    decreases n - i
  {
    if i < n {
      CompareFurther(l, r, i + 1, n);
    }
  }

  lemma {:induction false} CompareIsWeakFrom(x: seq<int>, y: seq<int>, z: seq<int>, i: nat, n: nat)
    ensures CompareFrom(x, y, i, n) < 0 <==> CompareFrom(y, x, i, n) > 0
    ensures CompareFrom(x, y, i, n) >= 0 && CompareFrom(y, z, i, n) >= 0 ==> CompareFrom(x, z, i, n) >= 0
    decreases n - i
  {
    if i < n {
      CompareIsWeakFrom(x, y, z, i + 1, n);
    }
  }

  /** Up to part `i` the versions agree, and there `l` is the greater; a missing part is a zero. */
  ghost predicate GreaterAt(l: seq<int>, r: seq<int>, i: nat) {
    && (forall j :: 0 <= j < i ==> (if j < |l| then l[j] else 0) == (if j < |r| then r[j] else 0))
    && (if i < |l| then l[i] else 0) > (if i < |r| then r[i] else 0)
  }

  lemma {:induction false} ComparesFrom(l: seq<int>, r: seq<int>, i: nat)
    requires forall j :: 0 <= j < i ==> (if j < |l| then l[j] else 0) == (if j < |r| then r[j] else 0)
    ensures CompareFrom(l, r, i, Longer(l, r)) < 0 <==> exists k: nat :: GreaterAt(l, r, k)
    ensures CompareFrom(l, r, i, Longer(l, r)) > 0 <==> exists k: nat :: GreaterAt(r, l, k)
    decreases Longer(l, r) - i
  {
    if i < Longer(l, r) {
      if Part(l, i) == Part(r, i) {
        ComparesFrom(l, r, i + 1);
      } else if Part(l, i) > Part(r, i) {
        assert GreaterAt(l, r, i);
      } else {
        assert GreaterAt(r, l, i);
      }
    }
  }

  /** The greater version comes first: the one that is greater at the first part where they differ. */
  lemma {:induction false} GreaterComesFirst(l: seq<int>, r: seq<int>)
    ensures CompareDesc(l, r) < 0 <==> exists k: nat :: GreaterAt(l, r, k)
    ensures CompareDesc(l, r) > 0 <==> exists k: nat :: GreaterAt(r, l, k)
  {
    ComparesFrom(l, r, 0);
  }

  function Parts(title: Title): seq<int> {
    match title case Unreleased => [] case Version(parts) => parts
  }

  const NEWER: (Section, Section) -> bool :=
    (x: Section, y: Section) => CompareDesc(Parts(x.title), Parts(y.title)) < 0

  lemma {:induction false} CompareIsWeak(x: seq<int>, y: seq<int>, z: seq<int>)
    ensures CompareDesc(x, y) < 0 <==> CompareDesc(y, x) > 0
    ensures CompareDesc(x, y) >= 0 && CompareDesc(y, z) >= 0 ==> CompareDesc(x, z) >= 0
  {
    var n := |x| + |y| + |z|;
    CompareIsWeakFrom(x, y, z, 0, n);
    CompareFurther(x, y, 0, n);
    CompareFurther(y, x, 0, n);
    CompareFurther(y, z, 0, n);
    CompareFurther(x, z, 0, n);
  }

  /** The comparator of the sort is a weak order on numeric titles. */
  lemma {:induction false} NewerIsWeakOrder()
    ensures WeakOrder(NEWER)
  {
    forall x: Section, y: Section ensures NEWER(x, y) ==> !NEWER(y, x) {
      CompareIsWeak(Parts(x.title), Parts(y.title), []);
    }
    forall x: Section, y: Section, z: Section ensures !NEWER(x, y) && !NEWER(y, z) ==> !NEWER(x, z) {
      CompareIsWeak(Parts(x.title), Parts(y.title), Parts(z.title));
    }
  }

  // ----- Sorting the sections

  function Choose(sections: seq<Section>, unreleased: bool): seq<Section> {
    if sections == [] then []
    else if Last(sections).title.Unreleased? == unreleased then Choose(Front(sections), unreleased) + [Last(sections)]
    else Choose(Front(sections), unreleased)
  }

  function SortSections(sections: seq<Section>): seq<Section> {
    Choose(sections, true) + Sort(Choose(sections, false), NEWER)
  }

  method ChooseSections(sections: seq<Section>, unreleased: bool) returns (r: seq<Section>)
    ensures r == Choose(sections, unreleased)
  {
    r := [];
    for j := 0 to |sections|
      invariant r == Choose(sections[..j], unreleased)
    {
      assert Front(sections[..j + 1]) == sections[..j];
      if sections[j].title.Unreleased? == unreleased {
        r := r + [sections[j]];
      }
    }
    assert sections[..|sections|] == sections;
  }

  method SortReleaseSections(sections: seq<Section>) returns (r: seq<Section>)
    ensures r == SortSections(sections)
  {
    var unreleased := ChooseSections(sections, true);
    var released := ChooseSections(sections, false);
    r := unreleased + Sort(released, NEWER);
  }

  ghost predicate AllAre(sections: seq<Section>, unreleased: bool) {
    forall j :: 0 <= j < |sections| ==> sections[j].title.Unreleased? == unreleased
  }

  /** `n` unreleased sections, then released ones from new to old. */
  ghost predicate InOrderFrom(sections: seq<Section>, n: nat) {
    && n <= |sections| && AllAre(sections[..n], true) && AllAre(sections[n..], false)
    && Ordered(sections[n..], NEWER)
  }

  ghost predicate InReleaseOrder(sections: seq<Section>) {
    exists n: nat :: InOrderFrom(sections, n)
  }

  lemma {:induction false} ChooseMeaning(sections: seq<Section>, unreleased: bool)
    ensures AllAre(Choose(sections, unreleased), unreleased)
  {
    if sections != [] {
      ChooseMeaning(Front(sections), unreleased);
    }
  }

  lemma {:induction false} ChooseAll(sections: seq<Section>, unreleased: bool)
    requires AllAre(sections, unreleased)
    ensures Choose(sections, unreleased) == sections
  {
    if sections != [] {
      var front, last := Front(sections), Last(sections);
      assert front + [last] == sections;
      assert AllAre(front, unreleased) && last.title.Unreleased? == unreleased;
      ChooseAll(front, unreleased);
      assert Choose(sections, unreleased) == Choose(front, unreleased) + [last];
    }
  }

  lemma {:induction false} ChooseConcat(x: seq<Section>, y: seq<Section>, unreleased: bool)
    ensures Choose(x + y, unreleased) == Choose(x, unreleased) + Choose(y, unreleased)
  {
    if y == [] {
      assert x + y == x;
    } else {
      assert Front(x + y) == x + Front(y);
      ChooseConcat(x, Front(y), unreleased);
      ChangelogLists.Associates(Choose(x, unreleased), Choose(Front(y), unreleased), [Last(y)]);
    }
  }

  lemma {:induction false} ChooseSplits(sections: seq<Section>)
    ensures multiset(sections) == multiset(Choose(sections, true)) + multiset(Choose(sections, false))
  {
    if sections != [] {
      ChooseSplits(Front(sections));
      assert sections == Front(sections) + [Last(sections)];
    }
  }

  lemma {:induction false} AllArePermuted(a: seq<Section>, b: seq<Section>, unreleased: bool)
    requires multiset(a) == multiset(b) && AllAre(a, unreleased)
    ensures AllAre(b, unreleased)
  {
    forall j | 0 <= j < |b| ensures b[j].title.Unreleased? == unreleased {
      assert b[j] in multiset(b);
      assert b[j] in a;
    }
  }

  /** Sorting permutes the sections into release order. */
  lemma {:induction false} SortSectionsOrders(sections: seq<Section>)
    ensures InReleaseOrder(SortSections(sections)) && multiset(SortSections(sections)) == multiset(sections)
  {
    var first, second := Choose(sections, true), Choose(sections, false);
    var sorted := Sort(second, NEWER);
    NewerIsWeakOrder();
    SortMeaning(second, NEWER);
    ChooseMeaning(sections, true);
    ChooseMeaning(sections, false);
    ChooseSplits(sections);
    AllArePermuted(second, sorted, false);
    assert SortSections(sections)[..|first|] == first && SortSections(sections)[|first|..] == sorted;
    assert InOrderFrom(SortSections(sections), |first|);
  }

  lemma {:induction false} ChooseParts(a: seq<Section>, b: seq<Section>)
    requires AllAre(a, true) && AllAre(b, false)
    ensures Choose(a + b, true) == a && Choose(a + b, false) == b
  {
    ChooseConcat(a, b, true);
    ChooseConcat(a, b, false);
    ChooseAll(a, true);
    ChooseAll(b, false);
    ChooseNone(a, false);
    ChooseNone(b, true);
  }

  lemma {:induction false} ChooseNone(sections: seq<Section>, unreleased: bool)
    requires AllAre(sections, !unreleased)
    ensures Choose(sections, unreleased) == []
  {
    if sections != [] {
      assert Last(sections) == sections[|sections| - 1];
      ChooseNone(Front(sections), unreleased);
    }
  }

  /** Sections in release order are left alone. */
  lemma {:induction false} SortKeepsOrder(sections: seq<Section>)
    requires InReleaseOrder(sections)
    ensures SortSections(sections) == sections
  {
    var n: nat :| InOrderFrom(sections, n);
    var a, b := sections[..n], sections[n..];
    assert a + b == sections;
    ChooseParts(a, b);
    SortOfOrdered(b, NEWER);
  }

  /** Order is a matter of titles. */
  lemma {:induction false} SameTitlesSameOrder(a: seq<Section>, b: seq<Section>)
    requires |a| == |b| && InReleaseOrder(a)
    requires forall j :: 0 <= j < |a| ==> a[j].title == b[j].title
    ensures InReleaseOrder(b)
  {
    var n: nat :| InOrderFrom(a, n);
    forall j | 0 <= j < n ensures b[..n][j].title.Unreleased? {
      assert a[..n][j].title.Unreleased?;
    }
    var x, y := a[n..], b[n..];
    forall j | 0 <= j < |y| ensures !y[j].title.Unreleased? && y[j].title == x[j].title {
      assert !x[j].title.Unreleased?;
    }
    forall i, j | 0 <= i < j < |y| ensures !NEWER(y[j], y[i]) {
      assert !NEWER(x[j], x[i]);
    }
    assert InOrderFrom(b, n);
  }

  // ----- The first unreleased section

  /** The place of the first unreleased section, or the end. */
  function FindUnreleased(sections: seq<Section>): (u: nat)
    ensures u <= |sections|
    ensures u < |sections| ==> sections[u].title.Unreleased?
    ensures forall j :: 0 <= j < u ==> !sections[j].title.Unreleased?
  {
    if sections == [] then 0
    else
      var u := FindUnreleased(Front(sections));
      if u < |sections| - 1 || Last(sections).title.Unreleased? then u else |sections|
  }

  lemma {:induction false} FirstChosen(sections: seq<Section>)
    ensures FindUnreleased(sections) == |sections| ==> Choose(sections, true) == []
    ensures FindUnreleased(sections) < |sections| ==>
              Choose(sections, true) != [] && Choose(sections, true)[0] == sections[FindUnreleased(sections)]
  {
    if sections != [] {
      FirstChosen(Front(sections));
    }
  }

  /** Sorting moves the first unreleased section to the top. */
  lemma {:induction false} SortingFindsUnreleased(sections: seq<Section>)
    ensures var u, sorted := FindUnreleased(sections), SortSections(sections);
            if u < |sections| then FindUnreleased(sorted) == 0 && sorted != [] && sorted[0] == sections[u]
            else FindUnreleased(sorted) == |sorted|
  {
    FirstChosen(sections);
    SortSectionsOrders(sections);
    var u, sorted := FindUnreleased(sections), SortSections(sections);
    if u < |sections| {
      assert sorted[0] == Choose(sections, true)[0];
    } else {
      ChooseMeaning(sections, false);
      NewerIsWeakOrder();
      SortMeaning(Choose(sections, false), NEWER);
      AllArePermuted(Choose(sections, false), Sort(Choose(sections, false), NEWER), false);
      assert sorted == Sort(Choose(sections, false), NEWER);
    }
  }

  // ----- What sorting leaves as it was

  /** The sections of this kind, in order. */
  function Only(sections: seq<Section>, kind: Section -> bool): seq<Section> {
    if sections == [] then []
    else (if kind(sections[0]) then [sections[0]] else []) + Only(sections[1..], kind)
  }

  const IS_UNRELEASED: Section -> bool := (s: Section) => s.title.Unreleased?

  /** The releases whose version neither is greater than this one nor smaller. */
  function SameVersion(parts: seq<int>): Section -> bool {
    (s: Section) => !s.title.Unreleased? && CompareDesc(parts, s.title.parts) == 0
  }

  lemma {:induction false} OnlyConcat(x: seq<Section>, y: seq<Section>, kind: Section -> bool)
    ensures Only(x + y, kind) == Only(x, kind) + Only(y, kind)
  {
    if x == [] {
      assert x + y == y;
    } else {
      assert (x + y)[1..] == x[1..] + y;
      OnlyConcat(x[1..], y, kind);
      ChangelogLists.Associates(if kind(x[0]) then [x[0]] else [], Only(x[1..], kind), Only(y, kind));
    }
  }

  lemma {:induction false} OnlyOne(s: Section, kind: Section -> bool)
    ensures Only([s], kind) == if kind(s) then [s] else []
  {
    assert [s][1..] == [];
  }

  /** Choosing one kind of sections does not disturb another selection from them. */
  lemma {:induction false} OnlyChosen(sections: seq<Section>, unreleased: bool, kind: Section -> bool)
    requires forall s: Section :: kind(s) ==> s.title.Unreleased? == unreleased
    ensures Only(Choose(sections, unreleased), kind) == Only(sections, kind)
    ensures Only(Choose(sections, !unreleased), kind) == []
  {
    if sections != [] {
      var front, last := Front(sections), Last(sections);
      OnlyChosen(front, unreleased, kind);
      FrontAndLast(sections);
      OnlyConcat(front, [last], kind);
      OnlyOne(last, kind);
      OnlyConcat(Choose(front, unreleased), [last], kind);
      OnlyConcat(Choose(front, !unreleased), [last], kind);
    }
  }

  lemma {:induction false} OnlyIsAlike(sections: seq<Section>, parts: seq<int>, x: Section)
    requires AllAre(sections, false) && x.title == Version(parts)
    ensures Only(sections, SameVersion(parts)) == Alike(sections, x, NEWER)
  {
    if sections != [] {
      assert !sections[0].title.Unreleased?;
      assert AllAre(sections[1..], false);
      OnlyIsAlike(sections[1..], parts, x);
      CompareIsWeak(sections[0].title.parts, parts, []);
      assert Parts(sections[0].title) == sections[0].title.parts;
    }
  }

  lemma {:induction false} NoneOfOtherKind(sections: seq<Section>, kind: Section -> bool)
    requires forall j :: 0 <= j < |sections| ==> !kind(sections[j])
    ensures Only(sections, kind) == []
  {
    if sections != [] {
      NoneOfOtherKind(sections[1..], kind);
    }
  }

  /** Unreleased sections keep their order, and so do releases of the same version. */
  lemma {:induction false} SortKeepsTies(sections: seq<Section>, parts: seq<int>)
    ensures Only(SortSections(sections), IS_UNRELEASED) == Only(sections, IS_UNRELEASED)
    ensures Only(SortSections(sections), SameVersion(parts)) == Only(sections, SameVersion(parts))
  {
    var first, second := Choose(sections, true), Choose(sections, false);
    var sorted := Sort(second, NEWER);
    NewerIsWeakOrder();
    SortMeaning(second, NEWER);
    ChooseMeaning(sections, true);
    ChooseMeaning(sections, false);
    AllArePermuted(second, sorted, false);
    OnlyConcat(first, sorted, IS_UNRELEASED);
    OnlyConcat(first, sorted, SameVersion(parts));
    OnlyChosen(sections, true, IS_UNRELEASED);
    NoneOfOtherKind(sorted, IS_UNRELEASED);
    OnlyChosen(sections, false, SameVersion(parts));
    var x := Section("", Version(parts), [], []);
    OnlyIsAlike(sorted, parts, x);
    OnlyIsAlike(second, parts, x);
  }
}
