/**
 Repeated passes of the fixer of `fix-changelogs.ts`: with distinct headings the first pass is final,
 so three passes always equal two; and where promoted bullets end up.
 */
module ChangelogPasses {
  import opened ChangelogText
  import opened ChangelogLists
  import opened ChangelogItems
  import opened ChangelogRemoval
  import opened ChangelogDocument
  import opened ChangelogNormal
  import opened StableSort
  import opened ChangelogOrder
  import opened ChangelogPromotion
  import opened ChangelogFixer
  import opened ChangelogLaws
  import opened ChangelogIdempotence

  // ----- Distinct headings

  ghost predicate DistinctDocument(sections: seq<Section>) {
    forall j :: 0 <= j < |sections| ==> Distinct(sections[j].subsections)
  }

  lemma {:induction false} KeyInSubsections(subs: seq<Subsection>, key: seq<Line>)
    ensures key in SubsectionKeys(subs) <==> exists j :: 0 <= j < |subs| && key in KeysOf(subs[j].lines)
  {
    if subs != [] {
      KeyInSubsections(Front(subs), key);
      assert Front(subs) + [Last(subs)] == subs;
    }
  }

  lemma {:induction false} ReleaseOfKey(sections: seq<Section>, key: seq<Line>) returns (j: nat)
    requires key in ReleasedKeys(sections)
    ensures j < |sections| && !sections[j].title.Unreleased? && key in SubsectionKeys(sections[j].subsections)
  {
    if key in ReleasedKeys(Front(sections)) {
      j := ReleaseOfKey(Front(sections), key);
    } else {
      j := |sections| - 1;
    }
  }

  lemma {:induction false} KeyOfRelease(sections: seq<Section>, key: seq<Line>, j: nat)
    requires j < |sections| && !sections[j].title.Unreleased? && key in SubsectionKeys(sections[j].subsections)
    ensures key in ReleasedKeys(sections)
  {
    if j < |sections| - 1 {
      KeyOfRelease(Front(sections), key, j);
    }
  }

  lemma {:induction false} KeyInReleased(sections: seq<Section>, key: seq<Line>)
    ensures key in ReleasedKeys(sections) <==>
            exists j :: 0 <= j < |sections| && !sections[j].title.Unreleased? && key in SubsectionKeys(sections[j].subsections)
  {
    if key in ReleasedKeys(sections) {
      var j := ReleaseOfKey(sections, key);
    }
    if j :| 0 <= j < |sections| && !sections[j].title.Unreleased? && key in SubsectionKeys(sections[j].subsections) {
      KeyOfRelease(sections, key, j);
    }
  }

  lemma {:induction false} CompactAllKeys(subs: seq<Subsection>, key: seq<Line>)
    requires key in SubsectionKeys(CompactAll(subs))
    ensures key in SubsectionKeys(subs)
  {
    if subs != [] {
      var last := Last(subs);
      KeysOfCompact(last.lines);
      if Compact(last.lines) != [] {
        FrontOfAppend(CompactAll(Front(subs)), Subsection(last.title, Compact(last.lines)));
        if key !in KeySet(last.lines) {
          CompactAllKeys(Front(subs), key);
        }
      } else {
        CompactAllKeys(Front(subs), key);
      }
    }
  }

  lemma {:induction false} SubsectionKeysPermuted(a: seq<Subsection>, b: seq<Subsection>, key: seq<Line>)
    requires multiset(a) == multiset(b) && key in SubsectionKeys(a)
    ensures key in SubsectionKeys(b)
  {
    KeyInSubsections(a, key);
    KeyInSubsections(b, key);
    var j :| 0 <= j < |a| && key in KeysOf(a[j].lines);
    assert a[j] in multiset(b);
    assert a[j] in b;
  }

  /** With distinct headings normalising makes no new bullets. */
  lemma {:induction false} NormalizeKeys(s: Section, key: seq<Line>)
    requires Distinct(s.subsections) && key in SubsectionKeys(Normalize(s).subsections)
    ensures key in SubsectionKeys(s.subsections)
  {
    MergeOfDistinct(s.subsections);
    var merged := Merge(s.subsections);
    if s.title.Unreleased? {
      TitleOrderIsWeak();
      SortMeaning(merged, BY_TITLE);
      SubsectionKeysPermuted(Sort(merged, BY_TITLE), merged, key);
    }
    CompactAllKeys(s.subsections, key);
  }

  lemma {:induction false} ReleasedKeysStay(sections: seq<Section>, key: seq<Line>)
    requires DistinctDocument(sections) && key in ReleasedKeys(SortSections(NormalizeAll(sections)))
    ensures key in ReleasedKeys(sections)
  {
    var normal := NormalizeAll(sections);
    var sorted := SortSections(normal);
    SortSectionsOrders(normal);
    KeyInReleased(sorted, key);
    var j :| 0 <= j < |sorted| && !sorted[j].title.Unreleased? && key in SubsectionKeys(sorted[j].subsections);
    assert sorted[j] in multiset(normal);
    assert sorted[j] in normal;
    var k :| 0 <= k < |normal| && normal[k] == sorted[j];
    NormalizeEach(sections, k);
    NormalizeKeys(sections[k], key);
    KeyInReleased(sections, key);
  }

  lemma {:induction false} DroppedCountZero(sections: seq<Section>, historical: set<seq<Line>>)
    requires var u := FindUnreleased(sections);
             u < |sections| ==> forall key :: key in SubsectionKeys(sections[u].subsections) ==>
                                              key !in ReleasedKeys(sections) && key !in historical
    ensures DroppedCount(sections, historical) == 0
  {
    var u := FindUnreleased(sections);
    if u < |sections| {
      var subs, pick := sections[u].subsections, InKeys(ReleasedKeys(sections) + historical);
      forall j | 0 <= j < |subs| ensures Picked(Split(subs[j].lines).items, pick) == [] {
        NoneAmong(subs, j, ReleasedKeys(sections) + historical);
      }
      CountPickedZero(subs, pick);
    }
  }

  lemma {:induction false} NoneAmong(subs: seq<Subsection>, j: nat, among: set<seq<Line>>)
    requires j < |subs| && forall key :: key in SubsectionKeys(subs) ==> key !in among
    ensures Picked(Split(subs[j].lines).items, InKeys(among)) == []
  {
    var items := Split(subs[j].lines).items;
    SplitCuts(subs[j].lines);
    forall i | 0 <= i < |items| ensures Keys(items)[i] !in among {
      assert Keys(items)[i] in KeysOf(subs[j].lines);
      KeyInSubsections(subs, Keys(items)[i]);
    }
    PickedByKey(items, among);
    NoMembers(Keys(items), among);
  }

  lemma {:induction false} NoMembers(keys: seq<seq<Line>>, among: set<seq<Line>>)
    requires forall i :: 0 <= i < |keys| ==> keys[i] !in among
    ensures CountMembers(keys, among) == 0
  {
    if keys != [] {
      NoMembers(Front(keys), among);
    }
  }

  /** A bullet of the first unreleased section that is left after dropping is in no release. */
  lemma {:induction false} LeftAfterDropping(sections: seq<Section>, historical: set<seq<Line>>, key: seq<Line>)
    requires FindUnreleased(sections) < |sections|
    requires key in SubsectionKeys(DropDuplicates(sections, historical)[FindUnreleased(sections)].subsections)
    ensures key !in ReleasedKeys(sections) && key !in historical
  {
    var u, among := FindUnreleased(sections), ReleasedKeys(sections) + historical;
    var kept := KeepSubsections(sections[u].subsections, InKeys(among));
    KeyInSubsections(kept, key);
    var j :| 0 <= j < |kept| && key in KeysOf(kept[j].lines);
    var lines := sections[u].subsections[j].lines;
    RestSplits(lines, InKeys(among));
    SplitCuts(lines);
    UnpickedKeys(Split(lines).items, among, key);
  }

  lemma {:induction false} UnpickedKeys(items: seq<seq<Line>>, among: set<seq<Line>>, key: seq<Line>)
    requires AreItems(items) && key in Keys(Unpicked(items, InKeys(among)))
    ensures key !in among
  {
    var front, last := Front(items), Last(items);
    assert IsItem(items[|front|]);
    if !IsPicked(last, InKeys(among)) {
      var rest := Unpicked(front, InKeys(among));
      assert Keys(rest + [last]) == Keys(rest) + [Key(last)];
      if key != Key(last) {
        UnpickedKeys(front, among, key);
      }
    } else {
      UnpickedKeys(front, among, key);
    }
  }

  lemma {:induction false} ReleasedKeysOfDropped(sections: seq<Section>, u: nat, s: Section)
    requires u < |sections| && sections[u].title.Unreleased? && s.title.Unreleased?
    ensures ReleasedKeys(sections[u := s]) == ReleasedKeys(sections)
  {
    var after := sections[u := s];
    if u == |sections| - 1 {
      assert Front(after) == Front(sections);
    } else {
      assert Front(after) == Front(sections)[u := s];
      ReleasedKeysOfDropped(Front(sections), u, s);
    }
  }

  lemma {:induction false} DroppingKeepsDistinct(sections: seq<Section>, historical: set<seq<Line>>)
    requires DistinctDocument(sections)
    ensures DistinctDocument(DropDuplicates(sections, historical))
    ensures ReleasedKeys(DropDuplicates(sections, historical)) == ReleasedKeys(sections)
    ensures FindUnreleased(DropDuplicates(sections, historical)) == FindUnreleased(sections)
  {
    var u, after := FindUnreleased(sections), DropDuplicates(sections, historical);
    SameTitlesSamePlace(after, sections);
    if u < |sections| {
      assert Distinct(sections[u].subsections);
      ReleasedKeysOfDropped(sections, u, KeepIn(sections[u], InKeys(ReleasedKeys(sections) + historical)));
    }
  }

  lemma {:induction false} DistinctIsClean(sections: seq<Section>)
    requires DistinctDocument(sections)
    ensures CleanDocument(sections)
  {
    forall j | 0 <= j < |sections| ensures CleanMerges(sections[j].subsections) {
      MergeOfDistinct(sections[j].subsections);
    }
  }

  lemma {:induction false} NothingDroppedLate(sections: seq<Section>, historical: set<seq<Line>>)
    requires DistinctDocument(sections)
    ensures DroppedCount(SortSections(NormalizeAll(DropDuplicates(sections, historical))), historical) == 0
  {
    var left := DropDuplicates(sections, historical);
    var normal := NormalizeAll(left);
    var sorted, u := SortSections(normal), FindUnreleased(left);
    DroppingKeepsDistinct(sections, historical);
    NormalizeAllKeepsTitles(left);
    SameTitlesSamePlace(left, normal);
    SortingFindsUnreleased(normal);
    if u < |left| {
      NormalizeEach(left, u);
      forall key | key in SubsectionKeys(sorted[0].subsections) ensures key !in ReleasedKeys(sorted) && key !in historical {
        NormalizeKeys(left[u], key);
        LeftAfterDropping(sections, historical, key);
        if key in ReleasedKeys(sorted) {
          ReleasedKeysStay(left, key);
        }
      }
    }
    DroppedCountZero(sorted, historical);
  }

  /** With distinct headings in every section, one pass without promotions is final. */
  lemma {:induction false} DistinctHeadingsNeedOnePass(content: seq<Text>, historical: set<seq<Line>>)
    requires DistinctDocument(Parse(content).sections)
    ensures Fix(Fix(content, {}, historical), {}, historical) == Fix(content, {}, historical)
  {
    var sections := Parse(content).sections;
    PromoteNothing(DropDuplicates(sections, historical));
    DroppingKeepsDistinct(sections, historical);
    DistinctIsClean(DropDuplicates(sections, historical));
    NothingDroppedLate(sections, historical);
    AgainChangesNothingExactly(content, {}, historical);
  }

  /** Every output has distinct headings. */
  lemma {:induction false} OutputIsDistinct(content: seq<Text>, promotable: set<nat>, historical: set<seq<Line>>)
    ensures DistinctDocument(Parse(Fix(content, promotable, historical)).sections)
  {
    var e := Parse(Fix(content, promotable, historical)).sections;
    SecondInput(content, promotable, historical);
    FixedInForm(content, promotable, historical);
    forall j | 0 <= j < |e| ensures Distinct(e[j].subsections) {
      assert InForm(TidySections(e)[j]);
      var tidy := TidySubsections(e[j].subsections);
      assert Distinct(tidy);
      forall i, k | 0 <= i < k < |tidy| ensures e[j].subsections[i].title != e[j].subsections[k].title {
        assert tidy[i].title != tidy[k].title;
      }
    }
  }

  /** Whatever the input and the first pass promotes, a third pass changes nothing. */
  lemma {:induction false} ThreePassesAreTwo(content: seq<Text>, promotable: set<nat>, historical: set<seq<Line>>)
    ensures var once := Fix(content, promotable, historical);
            Fix(Fix(once, {}, historical), {}, historical) == Fix(once, {}, historical)
  {
    OutputIsDistinct(content, promotable, historical);
    DistinctHeadingsNeedOnePass(Fix(content, promotable, historical), historical);
  }

  // ----- Duplicate headings may need two passes

  const RELEASE: Text := Release(Version([1, 0]), "## [1.0]")
  const ADDED: Text := Subheading("Added", "")

  /** A list whose last bullet runs on, and the same heading again. */
  function Twice(first: Text, more: Text, second: Text): seq<Text> {
    [RELEASE, ADDED, first, more, ADDED, second]
  }

  const OPENED: Section := Section("## [1.0]", Version([1, 0]), [], [])

  function FirstHalf(first: Text, more: Text): Section {
    WithLines(OPENED, "Added", [Line(first, 3), Line(more, 4)])
  }

  function BothHalves(first: Text, more: Text, second: Text): Section {
    WithLines(FirstHalf(first, more), "Added", [Line(second, 6)])
  }

  lemma {:induction false} FeedOnly(lines: seq<Line>, n: nat, s: Section)
    requires n < |lines| && Feed(EMPTY, lines[..n]).sections == [s] && !lines[n].text.Release?
    ensures Feed(EMPTY, lines[..n + 1]).sections == [AddToSection(s, lines[n])]
  {
    FeedNext(EMPTY, lines, n);
    assert Front([s]) == [];
  }

  lemma {:induction false} Singleton<T>(x: T)
    ensures [] + [x] == [x]
  {
  }

  lemma {:induction false} FeedInto(lines: seq<Line>, n: nat, s: Section, body: seq<Line>)
    requires n < |lines| && Feed(EMPTY, lines[..n]).sections == [WithLines(s, "Added", body)]
    requires !IsHeading(lines[n].text)
    ensures Feed(EMPTY, lines[..n + 1]).sections == [WithLines(s, "Added", body + [lines[n]])]
  {
    FeedOnly(lines, n, WithLines(s, "Added", body));
    AddToNewest(s, "Added", body, lines[n]);
  }

  lemma {:induction false} FeedHeadings(lines: seq<Line>)
    requires |lines| >= 2 && lines[0] == Line(RELEASE, 1) && lines[1] == Line(ADDED, 2)
    ensures Feed(EMPTY, lines[..2]).sections == [WithLines(OPENED, "Added", [])]
  {
    FeedNext(EMPTY, lines, 0);
    assert Feed(EMPTY, lines[..0]) == EMPTY;
    assert Feed(EMPTY, lines[..1]).sections == [OPENED];
    FeedOnly(lines, 1, OPENED);
  }

  lemma {:induction false} Pair<T>(x: T, y: T)
    ensures [x] + [y] == [x, y]
  {
  }

  lemma {:induction false} FeedTwoLines(lines: seq<Line>, s: Section)
    requires |lines| >= 4 && Feed(EMPTY, lines[..2]).sections == [WithLines(s, "Added", [])]
    requires !IsHeading(lines[2].text) && !IsHeading(lines[3].text)
    ensures Feed(EMPTY, lines[..4]).sections == [WithLines(s, "Added", [lines[2], lines[3]])]
  {
    FeedInto(lines, 2, s, []);
    Singleton(lines[2]);
    FeedInto(lines, 3, s, [lines[2]]);
    Pair(lines[2], lines[3]);
  }

  lemma {:induction false} FeedFirstHalf(lines: seq<Line>, first: Text, more: Text)
    requires |lines| >= 4 && lines[0] == Line(RELEASE, 1) && lines[1] == Line(ADDED, 2)
    requires lines[2] == Line(first, 3) && lines[3] == Line(more, 4) && first.Bullet? && more.Plain?
    ensures Feed(EMPTY, lines[..4]).sections == [FirstHalf(first, more)]
  {
    FeedHeadings(lines);
    FeedTwoLines(lines, OPENED);
  }

  lemma {:induction false} FeedSecondHalf(lines: seq<Line>, s: Section, second: Text)
    requires |lines| == 6 && Feed(EMPTY, lines[..4]).sections == [s]
    requires lines[4] == Line(ADDED, 5) && lines[5] == Line(second, 6) && second.Bullet?
    ensures Feed(EMPTY, lines).sections == [WithLines(s, "Added", [Line(second, 6)])]
  {
    FeedOnly(lines, 4, s);
    FeedLast(lines, s);
    assert lines[..6] == lines;
  }

  lemma {:induction false} FeedLast(lines: seq<Line>, s: Section)
    requires |lines| == 6 && Feed(EMPTY, lines[..5]).sections == [WithLines(s, "Added", [])]
    requires !IsHeading(lines[5].text)
    ensures Feed(EMPTY, lines[..6]).sections == [WithLines(s, "Added", [lines[5]])]
  {
    FeedInto(lines, 5, s, []);
    Singleton(lines[5]);
  }

  lemma {:induction false} ParseTwice(first: Text, more: Text, second: Text)
    requires first.Bullet? && more.Plain? && second.Bullet?
    ensures Parse(Twice(first, more, second)).sections == [BothHalves(first, more, second)]
  {
    var lines := Number(Twice(first, more, second));
    FeedFirstHalf(lines, first, more);
    FeedSecondHalf(lines, FirstHalf(first, more), second);
  }

  lemma {:induction false} MergeSingle(a: Subsection)
    requires Compact(a.lines) != []
    ensures Merge([a]) == [Subsection(a.title, Compact(a.lines))]
  {
    assert Front([a]) == [];
    assert Merge([]) == [];
  }

  lemma {:induction false} JoinLeavesGap(a: Subsection, b: Subsection)
    requires a.title == b.title && StartsWithBullet(Compact(a.lines)) && StartsWithBullet(Compact(b.lines))
    requires !IsBullet(Last(Compact(a.lines)))
    ensures !CleanMerges([a, b])
  {
    assert Front([a, b]) == [a];
    MergeSingle(a);
  }

  lemma {:induction false} CompactOfTwo(first: Text, more: Text)
    requires first.Bullet? && more.Plain?
    ensures var c := Compact([Line(first, 3), Line(more, 4)]); StartsWithBullet(c) && !IsBullet(Last(c))
  {
    CompactSettles([Line(first, 3), Line(more, 4)]);
    TrimKeepsTrimmed([Line(first, 3), Line(more, 4)]);
  }

  lemma {:induction false} TwiceIsNotClean(first: Text, more: Text, second: Text)
    requires first.Bullet? && more.Plain? && second.Bullet?
    ensures !CleanMerges(BothHalves(first, more, second).subsections)
  {
    var a, b := Subsection("Added", [Line(first, 3), Line(more, 4)]), Subsection("Added", [Line(second, 6)]);
    CompactOfTwo(first, more);
    CompactSettles(b.lines);
    TrimKeepsTrimmed(b.lines);
    JoinLeavesGap(a, b);
    assert BothHalves(first, more, second).subsections == [a, b];
  }

  /** One pass is not always enough: the second heading's bullet is joined behind a blank line, which
      the next pass takes away. */
  lemma {:induction false} OnePassMayNotBeEnough(first: Text, more: Text, second: Text)
    requires first.Bullet? && more.Plain? && second.Bullet?
    ensures var once := Fix(Twice(first, more, second), {}, {}); Fix(once, {}, {}) != once
  {
    var content := Twice(first, more, second);
    ParseTwice(first, more, second);
    var sections := Parse(content).sections;
    assert Front(sections) == [] && FindUnreleased(sections) == |sections|;
    PromoteNothing(sections);
    TwiceIsNotClean(first, more, second);
    assert !CleanMerges(Prepared(content, {}, {})[0].subsections);
    AgainChangesNothingExactly(content, {}, {});
  }
}
