/**
 Why a second pass of `fix-changelogs.ts` may drop a bullet: it was promoted although it still stands
 elsewhere, or merging duplicate headings has made two bullets equal.
 */
module ChangelogAgain {
  import opened Wrappers
  import opened ChangelogText
  import opened ChangelogLists
  import opened ChangelogItems
  import opened ChangelogRemoval
  import opened ChangelogDocument
  import opened ChangelogNormal
  import opened StableSort
  import opened ChangelogOrder
  import opened ChangelogPromotion
  import opened ChangelogFixer
  import opened ChangelogLaws
  import opened ChangelogArrival
  import opened ChangelogIdempotence
  import opened ChangelogPasses
  import opened ChangelogGrowth

  // ----- The bullets of a merged section

  /** Merging gives the section this bullet. */
  ghost predicate Merges(subs: seq<Subsection>, key: seq<Line>) {
    exists j :: 0 <= j < |subs| && key in KeysUnder(subs, subs[j].title)
  }

  lemma {:induction false} TitleOfKeys(subs: seq<Subsection>, title: string) returns (j: nat)
    requires KeysUnder(subs, title) != []
    ensures j < |subs| && subs[j].title == title
  {
    if Last(subs).title == title {
      j := |subs| - 1;
    } else {
      j := TitleOfKeys(Front(subs), title);
    }
  }

  lemma {:induction false} MergesExactly(subs: seq<Subsection>, key: seq<Line>)
    ensures key in SubsectionKeys(Merge(subs)) <==> Merges(subs, key)
  {
    var merged := Merge(subs);
    MergeIsDistinct(subs);
    KeyInSubsections(merged, key);
    if key in SubsectionKeys(merged) {
      var i :| 0 <= i < |merged| && key in KeysOf(merged[i].lines);
      FindIs(merged, i);
      MergedKeys(subs, merged[i].title);
      var j := TitleOfKeys(subs, merged[i].title);
    }
    if Merges(subs, key) {
      var j :| 0 <= j < |subs| && key in KeysUnder(subs, subs[j].title);
      MergedKeys(subs, subs[j].title);
      assert key in KeysOf(BodyOf(merged, subs[j].title));
    }
  }

  lemma {:induction false} NormalizedBullets(s: Section, key: seq<Line>)
    ensures key in SubsectionKeys(Normalize(s).subsections) <==> Merges(s.subsections, key)
  {
    var merged := Merge(s.subsections);
    MergesExactly(s.subsections, key);
    if s.title.Unreleased? {
      var sorted := Sort(merged, BY_TITLE);
      TitleOrderIsWeak();
      SortMeaning(merged, BY_TITLE);
      if key in SubsectionKeys(sorted) {
        SubsectionKeysPermuted(sorted, merged, key);
      }
      if key in SubsectionKeys(merged) {
        SubsectionKeysPermuted(merged, sorted, key);
      }
    }
  }

  /** Merging gives some release this bullet. */
  ghost predicate ReleaseMerges(sections: seq<Section>, key: seq<Line>) {
    exists k :: 0 <= k < |sections| && !sections[k].title.Unreleased? && Merges(sections[k].subsections, key)
  }

  lemma {:induction false} FixedReleaseMerges(sections: seq<Section>, key: seq<Line>)
    requires key in ReleasedKeys(SortSections(NormalizeAll(sections)))
    ensures ReleaseMerges(sections, key)
  {
    var normal := NormalizeAll(sections);
    var sorted := SortSections(normal);
    SortSectionsOrders(normal);
    KeyInReleased(sorted, key);
    var i :| 0 <= i < |sorted| && !sorted[i].title.Unreleased? && key in SubsectionKeys(sorted[i].subsections);
    assert sorted[i] in multiset(normal);
    assert sorted[i] in normal;
    var k :| 0 <= k < |normal| && normal[k] == sorted[i];
    NormalizeEach(sections, k);
    NormalizedBullets(sections[k], key);
  }

  lemma {:induction false} MergesInFixedRelease(sections: seq<Section>, key: seq<Line>)
    requires ReleaseMerges(sections, key)
    ensures key in ReleasedKeys(SortSections(NormalizeAll(sections)))
  {
    var normal := NormalizeAll(sections);
    var sorted := SortSections(normal);
    SortSectionsOrders(normal);
    KeyInReleased(sorted, key);
    var k :| 0 <= k < |sections| && !sections[k].title.Unreleased? && Merges(sections[k].subsections, key);
    NormalizeEach(sections, k);
    NormalizedBullets(sections[k], key);
    assert normal[k] in multiset(sorted);
    assert normal[k] in sorted;
  }

  lemma {:induction false} FixedReleases(sections: seq<Section>, key: seq<Line>)
    ensures key in ReleasedKeys(SortSections(NormalizeAll(sections))) <==> ReleaseMerges(sections, key)
  {
    if key in ReleasedKeys(SortSections(NormalizeAll(sections))) {
      FixedReleaseMerges(sections, key);
    }
    if ReleaseMerges(sections, key) {
      MergesInFixedRelease(sections, key);
    }
  }

  // ----- What the second pass drops

  /** The merged unreleased section has this bullet, and so has a merged release or the history. */
  ghost predicate Collides(sections: seq<Section>, historical: set<seq<Line>>, key: seq<Line>) {
    var u := FindUnreleased(sections);
    u < |sections| && Merges(sections[u].subsections, key) && (key in historical || ReleaseMerges(sections, key))
  }

  lemma {:induction false} DropsNoneExactly(sections: seq<Section>, historical: set<seq<Line>>, key: seq<Line>)
    requires DroppedCount(sections, historical) == 0 && FindUnreleased(sections) < |sections|
    requires key in SubsectionKeys(sections[FindUnreleased(sections)].subsections)
    ensures key !in ReleasedKeys(sections) && key !in historical
  {
    var subs, among := sections[FindUnreleased(sections)].subsections, ReleasedKeys(sections) + historical;
    CountPickedZero(subs, InKeys(among));
    KeyInSubsections(subs, key);
    var j :| 0 <= j < |subs| && key in KeysOf(subs[j].lines);
    var items := Split(subs[j].lines).items;
    SplitCuts(subs[j].lines);
    PickedByKey(items, among);
    var i :| 0 <= i < |Keys(items)| && Keys(items)[i] == key;
    MemberCounts(Keys(items), i, among);
  }

  lemma {:induction false} MemberCounts(keys: seq<seq<Line>>, i: nat, among: set<seq<Line>>)
    requires i < |keys| && CountMembers(keys, among) == 0
    ensures keys[i] !in among
  {
    if i < |keys| - 1 {
      MemberCounts(Front(keys), i, among);
    }
  }

  lemma {:induction false} FixedUnreleased(sections: seq<Section>, key: seq<Line>)
    ensures var u, sorted := FindUnreleased(sections), SortSections(NormalizeAll(sections));
            if u < |sections| then
              FindUnreleased(sorted) == 0 < |sorted| &&
              (key in SubsectionKeys(sorted[0].subsections) <==> Merges(sections[u].subsections, key))
            else FindUnreleased(sorted) == |sorted|
  {
    var u := FindUnreleased(sections);
    NormalizeAllKeepsTitles(sections);
    SameTitlesSamePlace(sections, NormalizeAll(sections));
    SortingFindsUnreleased(NormalizeAll(sections));
    if u < |sections| {
      NormalizeEach(sections, u);
      NormalizedBullets(sections[u], key);
    }
  }

  lemma {:induction false} CollisionDrops(sections: seq<Section>, historical: set<seq<Line>>, key: seq<Line>)
    requires Collides(sections, historical, key)
    ensures DroppedCount(SortSections(NormalizeAll(sections)), historical) > 0
  {
    var sorted := SortSections(NormalizeAll(sections));
    FixedUnreleased(sections, key);
    FixedReleases(sections, key);
    if DroppedCount(sorted, historical) == 0 {
      DropsNoneExactly(sorted, historical, key);
    }
  }

  lemma {:induction false} NoCollisionNoDrop(sections: seq<Section>, historical: set<seq<Line>>)
    requires forall key :: !Collides(sections, historical, key)
    ensures DroppedCount(SortSections(NormalizeAll(sections)), historical) == 0
  {
    var u, sorted := FindUnreleased(sections), SortSections(NormalizeAll(sections));
    FixedUnreleased(sections, []);
    if u < |sections| {
      forall key | key in SubsectionKeys(sorted[0].subsections) ensures key !in ReleasedKeys(sorted) && key !in historical {
        FixedUnreleased(sections, key);
        FixedReleases(sections, key);
        assert !Collides(sections, historical, key);
      }
    }
    DroppedCountZero(sorted, historical);
  }

  // ----- Where a colliding bullet comes from

  /** The bullet is promoted out of some release. */
  ghost predicate IsPromoted(sections: seq<Section>, promotable: set<nat>, key: seq<Line>) {
    exists k, j :: 0 <= k < |sections| && !sections[k].title.Unreleased? && 0 <= j < |sections[k].subsections|
      && key in PromotedKeys(sections[k].subsections[j], promotable)
  }

  /** The bullet is there only because a later body under its heading starts with text. */
  ghost predicate HasGrown(sections: seq<Section>, historical: set<seq<Line>>, key: seq<Line>) {
    var u := FindUnreleased(sections);
    || (u < |sections| && key !in SubsectionKeys(sections[u].subsections))
    || (key !in historical && key !in ReleasedKeys(sections))
  }

  lemma {:induction false} AddItemsFrom(lines: seq<Line>, keys: seq<seq<Line>>, key: seq<Line>)
    requires AreKeys(keys) && key in KeysOf(AddItems(lines, keys))
    ensures key in KeysOf(lines) || key in keys
  {
    if keys != [] {
      var front, last := Front(keys), Last(keys);
      assert IsItem(keys[|front|]) && Tidy(keys[|front|]);
      AppendItem(AddItems(lines, front), last);
      if key in KeysOf(AddItems(lines, front)) {
        AddItemsFrom(lines, front, key);
      } else {
        assert key == last;
      }
    }
  }

  lemma {:induction false} PromoteIntoFrom(s: Section, title: string, keys: seq<seq<Line>>, key: seq<Line>)
    requires AreKeys(keys) && key in SubsectionKeys(PromoteInto(s, title, keys).subsections)
    ensures key in SubsectionKeys(s.subsections) || key in keys
  {
    var i, after := FindLast(s.subsections, title), PromoteInto(s, title, keys).subsections;
    KeyInSubsections(after, key);
    KeyInSubsections(s.subsections, key);
    var j :| 0 <= j < |after| && key in KeysOf(after[j].lines);
    if j == i {
      AddItemsFrom(BodyUnder(s, title), keys, key);
    }
  }

  ghost predicate InTarget(target: Option<Section>, key: seq<Line>) {
    target.Some? && key in SubsectionKeys(target.value.subsections)
  }

  lemma {:induction false} PromoteSubsectionFrom(target: Option<Section>, sub: Subsection, promotable: set<nat>, key: seq<Line>)
    requires InTarget(PromoteSubsection(target, sub, promotable), key)
    ensures InTarget(target, key) || key in PromotedKeys(sub, promotable)
  {
    SplitCuts(sub.lines);
    PickedKeysAreKeys(Split(sub.lines).items, StartsOn(promotable));
    if PromotedKeys(sub, promotable) != [] {
      PromoteIntoFrom(OrNew(target), sub.title, PromotedKeys(sub, promotable), key);
      assert SubsectionKeys([]) == {};
    }
  }

  lemma {:induction false} PromoteSubsectionsFrom(target: Option<Section>, subs: seq<Subsection>, promotable: set<nat>, key: seq<Line>)
    requires InTarget(PromoteSubsections(target, subs, promotable), key)
    ensures InTarget(target, key) || exists j :: 0 <= j < |subs| && key in PromotedKeys(subs[j], promotable)
  {
    if subs != [] {
      var front, last := Front(subs), Last(subs);
      PromoteSubsectionFrom(PromoteSubsections(target, front, promotable), last, promotable, key);
      if InTarget(PromoteSubsections(target, front, promotable), key) {
        PromoteSubsectionsFrom(target, front, promotable, key);
        if !InTarget(target, key) {
          var j :| 0 <= j < |front| && key in PromotedKeys(front[j], promotable);
          assert key in PromotedKeys(subs[j], promotable);
        }
      } else {
        assert key in PromotedKeys(subs[|subs| - 1], promotable);
      }
    }
  }

  lemma {:induction false} IsPromotedGrows(sections: seq<Section>, promotable: set<nat>, key: seq<Line>)
    requires sections != [] && IsPromoted(Front(sections), promotable, key)
    ensures IsPromoted(sections, promotable, key)
  {
    var front := Front(sections);
    var k, j :| 0 <= k < |front| && !front[k].title.Unreleased? && 0 <= j < |front[k].subsections|
      && key in PromotedKeys(front[k].subsections[j], promotable);
    assert sections[k] == front[k];
  }

  lemma {:induction false} PromoteSectionsFrom(target: Option<Section>, sections: seq<Section>, promotable: set<nat>, key: seq<Line>)
    requires InTarget(PromoteSections(target, sections, promotable), key)
    ensures InTarget(target, key) || IsPromoted(sections, promotable, key)
  {
    if sections != [] {
      var front, last := Front(sections), Last(sections);
      var before := PromoteSections(target, front, promotable);
      if !last.title.Unreleased? {
        PromoteSubsectionsFrom(before, last.subsections, promotable, key);
      }
      if InTarget(before, key) {
        PromoteSectionsFrom(target, front, promotable, key);
        if !InTarget(target, key) {
          IsPromotedGrows(sections, promotable, key);
        }
      } else {
        var j :| 0 <= j < |last.subsections| && key in PromotedKeys(last.subsections[j], promotable);
        assert key in PromotedKeys(sections[|sections| - 1].subsections[j], promotable);
      }
    }
  }

  /** A bullet of the unreleased section after promotion was there before or is promoted. */
  lemma {:induction false} PreparedFrom(sections: seq<Section>, promotable: set<nat>, key: seq<Line>)
    requires var after := Promote(sections, promotable); var u := FindUnreleased(after);
             u < |after| && key in SubsectionKeys(after[u].subsections)
    ensures InTarget(FirstUnreleased(sections), key) || IsPromoted(sections, promotable, key)
  {
    var target := PromoteSections(FirstUnreleased(sections), sections, promotable);
    TargetIsUnreleased(sections, |sections|, promotable);
    assert sections[..|sections|] == sections;
    if target.None? {
      KeptTitles(sections, promotable);
    } else {
      PromotedSection(sections, promotable);
      PromoteSectionsFrom(FirstUnreleased(sections), sections, promotable, key);
    }
  }

  lemma {:induction false} KeptTitles(sections: seq<Section>, promotable: set<nat>)
    ensures FindUnreleased(KeepReleased(sections, promotable)) == FindUnreleased(sections)
  {
    SameTitlesSamePlace(sections, KeepReleased(sections, promotable));
  }

  lemma {:induction false} UnpickedKeyIsThere(items: seq<seq<Line>>, pick: Item -> bool, key: seq<Line>)
    requires key in Keys(Unpicked(items, pick))
    ensures key in Keys(items)
  {
    var front, last := Front(items), Last(items);
    assert Keys(front + [last]) == Keys(front) + [Key(last)] && items == front + [last];
    if IsPicked(last, pick) {
      UnpickedKeyIsThere(front, pick, key);
    } else {
      assert Keys(Unpicked(front, pick) + [last]) == Keys(Unpicked(front, pick)) + [Key(last)];
      if key != Key(last) {
        UnpickedKeyIsThere(front, pick, key);
      }
    }
  }

  lemma {:induction false} KeptKeys(subs: seq<Subsection>, pick: Item -> bool, key: seq<Line>)
    requires key in SubsectionKeys(KeepSubsections(subs, pick))
    ensures key in SubsectionKeys(subs)
  {
    var kept := KeepSubsections(subs, pick);
    KeyInSubsections(kept, key);
    KeyInSubsections(subs, key);
    var j :| 0 <= j < |kept| && key in KeysOf(kept[j].lines);
    RestSplits(subs[j].lines, pick);
    UnpickedKeyIsThere(Split(subs[j].lines).items, pick, key);
    assert key in KeysOf(subs[j].lines);
  }

  lemma {:induction false} PromotionKeepsReleased(sections: seq<Section>, promotable: set<nat>, key: seq<Line>)
    requires key in ReleasedKeys(Promote(sections, promotable))
    ensures key in ReleasedKeys(sections)
  {
    var after := Promote(sections, promotable);
    KeyInReleased(after, key);
    var k :| 0 <= k < |after| && !after[k].title.Unreleased? && key in SubsectionKeys(after[k].subsections);
    var i := PreparedRelease(sections, promotable, k);
    KeptKeys(sections[i].subsections, StartsOn(promotable), key);
    KeyInReleased(sections, key);
  }

  lemma {:induction false} DroppingKeepsReleased(sections: seq<Section>, historical: set<seq<Line>>)
    ensures ReleasedKeys(DropDuplicates(sections, historical)) == ReleasedKeys(sections)
    ensures FindUnreleased(DropDuplicates(sections, historical)) == FindUnreleased(sections)
  {
    var u, after := FindUnreleased(sections), DropDuplicates(sections, historical);
    SameTitlesSamePlace(after, sections);
    if u < |sections| {
      ReleasedKeysOfDropped(sections, u, KeepIn(sections[u], InKeys(ReleasedKeys(sections) + historical)));
    }
  }

  /** A bullet found twice after one pass was promoted, or has come about by merging. */
  lemma {:induction false} CollisionsHaveACause(content: seq<Text>, promotable: set<nat>, historical: set<seq<Line>>, key: seq<Line>)
    requires Collides(Prepared(content, promotable, historical), historical, key)
    ensures IsPromoted(DropDuplicates(Parse(content).sections, historical), promotable, key)
            || HasGrown(Prepared(content, promotable, historical), historical, key)
  {
    var sections := Parse(content).sections;
    var left, prepared := DropDuplicates(sections, historical), Prepared(content, promotable, historical);
    if !HasGrown(prepared, historical, key) {
      PreparedFrom(left, promotable, key);
      DroppingKeepsReleased(sections, historical);
      if InTarget(FirstUnreleased(left), key) {
        LeftAfterDropping(sections, historical, key);
        PromotionKeepsReleased(left, promotable, key);
      }
    }
  }

  /** A promoted bullet is still in a release or in the history. */
  ghost predicate PromotedTooEarly(content: seq<Text>, promotable: set<nat>, historical: set<seq<Line>>) {
    exists key :: IsPromoted(DropDuplicates(Parse(content).sections, historical), promotable, key)
      && Collides(Prepared(content, promotable, historical), historical, key)
  }

  /** Text joined behind a bullet has made it equal to another. */
  ghost predicate GrownTogether(content: seq<Text>, promotable: set<nat>, historical: set<seq<Line>>) {
    exists key :: HasGrown(Prepared(content, promotable, historical), historical, key)
      && Collides(Prepared(content, promotable, historical), historical, key)
  }

  /** One pass is final exactly when every duplicate heading is joined without a gap, no promoted bullet
      still stands elsewhere and no bullet becomes equal to one elsewhere by growing. */
  lemma {:induction false} FixingTwiceIsFixingOnceExactly(content: seq<Text>, promotable: set<nat>, historical: set<seq<Line>>)
    ensures Fix(Fix(content, promotable, historical), {}, historical) == Fix(content, promotable, historical)
            <==> (CleanDocument(Prepared(content, promotable, historical))
                  && !PromotedTooEarly(content, promotable, historical)
                  && !GrownTogether(content, promotable, historical))
  {
    var prepared := Prepared(content, promotable, historical);
    AgainChangesNothingExactly(content, promotable, historical);
    if PromotedTooEarly(content, promotable, historical) || GrownTogether(content, promotable, historical) {
      var key :| Collides(prepared, historical, key);
      CollisionDrops(prepared, historical, key);
    } else {
      forall key ensures !Collides(prepared, historical, key) {
        if Collides(prepared, historical, key) {
          CollisionsHaveACause(content, promotable, historical, key);
        }
      }
      NoCollisionNoDrop(prepared, historical);
    }
  }

  // ----- No text behind a duplicate heading

  /** No heading that comes again starts with text. */
  ghost predicate NoLateText(subs: seq<Subsection>) {
    forall j, k :: 0 <= j < k < |subs| && subs[j].title == subs[k].title ==> Intro(subs[k].lines) == []
  }

  ghost predicate NoLateTexts(sections: seq<Section>) {
    forall j :: 0 <= j < |sections| ==> NoLateText(sections[j].subsections)
  }

  lemma {:induction false} NothingGrows(subs: seq<Subsection>, title: string, key: seq<Line>)
    requires NoLateText(subs) && key in KeysUnder(subs, title)
    ensures key in SubsectionKeys(subs)
  {
    var front, last := Front(subs), Last(subs);
    assert NoLateText(front);
    var before := KeysUnder(front, title);
    if last.title == title && before != [] {
      var j := TitleOfKeys(front, title);
      assert subs[j].title == subs[|subs| - 1].title;
      assert Intro(last.lines) == [];
    }
    if key in before {
      NothingGrows(front, title, key);
    } else {
      assert key in KeysOf(last.lines);
    }
  }

  lemma {:induction false} NothingHasGrown(sections: seq<Section>, historical: set<seq<Line>>, key: seq<Line>)
    requires NoLateTexts(sections) && Collides(sections, historical, key)
    ensures !HasGrown(sections, historical, key)
  {
    var u := FindUnreleased(sections);
    var j :| 0 <= j < |sections[u].subsections| && key in KeysUnder(sections[u].subsections, sections[u].subsections[j].title);
    assert NoLateText(sections[u].subsections);
    NothingGrows(sections[u].subsections, sections[u].subsections[j].title, key);
    if key !in historical {
      var k :| 0 <= k < |sections| && !sections[k].title.Unreleased? && Merges(sections[k].subsections, key);
      var subs := sections[k].subsections;
      assert NoLateText(subs);
      var i :| 0 <= i < |subs| && key in KeysUnder(subs, subs[i].title);
      NothingGrows(subs, subs[i].title, key);
      KeyInReleased(sections, key);
    }
  }

  lemma {:induction false} DroppingKeepsIntros(sections: seq<Section>, historical: set<seq<Line>>)
    requires NoLateTexts(sections)
    ensures NoLateTexts(DropDuplicates(sections, historical))
  {
    var u, after := FindUnreleased(sections), DropDuplicates(sections, historical);
    forall j | 0 <= j < |after| ensures NoLateText(after[j].subsections) {
      assert NoLateText(sections[j].subsections);
      if j == u {
        KeepingKeepsIntros(sections[u].subsections, InKeys(ReleasedKeys(sections) + historical));
      }
    }
  }

  lemma {:induction false} KeepingKeepsIntros(subs: seq<Subsection>, pick: Item -> bool)
    requires NoLateText(subs)
    ensures NoLateText(KeepSubsections(subs, pick))
  {
    var kept := KeepSubsections(subs, pick);
    forall j, k | 0 <= j < k < |kept| && kept[j].title == kept[k].title ensures Intro(kept[k].lines) == [] {
      RestSplits(subs[k].lines, pick);
      assert subs[j].title == subs[k].title;
    }
  }

  lemma {:induction false} NoTextBehind(subs: seq<Subsection>, title: string)
    requires forall k :: 0 <= k < |subs| && subs[k].title == title ==> Intro(subs[k].lines) == []
    ensures TextBehind(subs, title) == []
  {
    if subs != [] {
      NoTextBehind(Front(subs), title);
    }
  }

  /** Where nothing grows merging keeps every bullet as it is. */
  lemma {:induction false} NothingIsLost(subs: seq<Subsection>, key: seq<Line>)
    requires NoLateText(subs) && key in SubsectionKeys(subs)
    ensures Merges(subs, key)
  {
    KeyInSubsections(subs, key);
    var j :| 0 <= j < |subs| && key in KeysOf(subs[j].lines);
    var i :| 0 <= i < |KeysOf(subs[j].lines)| && KeysOf(subs[j].lines)[i] == key;
    var rest := subs[j + 1..];
    var p := EachBulletStands(subs, j, i);
    forall k | 0 <= k < |rest| && rest[k].title == subs[j].title ensures Intro(rest[k].lines) == [] {
      assert rest[k] == subs[j + 1 + k];
    }
    NoTextBehind(rest, subs[j].title);
    assert key + [] == key;
  }

  lemma {:induction false} IntroOfJoined(target: seq<Line>, item: seq<Line>)
    requires IsItem(item) && Tidy(item)
    ensures Intro(Append(target, item)) == Intro(target)
  {
    var e := Strip(Trim(target));
    TidyTrim(item);
    IntroOfText(target);
    var before := if e == [] then [] else e + Separator(e, item);
    assert Append(target, item) == before + item;
    SplitAddsItem(before, item);
    if e != [] {
      IntroBeforeBlanks(e, Separator(e, item));
    }
  }

  lemma {:induction false} IntroOfAdded(lines: seq<Line>, keys: seq<seq<Line>>)
    requires AreKeys(keys)
    ensures Intro(AddItems(lines, keys)) == Intro(lines)
  {
    if keys != [] {
      var front, last := Front(keys), Last(keys);
      assert IsItem(keys[|front|]) && Tidy(keys[|front|]);
      IntroOfAdded(lines, front);
      IntroOfJoined(AddItems(lines, front), last);
    }
  }

  lemma {:induction false} PromotingKeepsIntros(s: Section, title: string, keys: seq<seq<Line>>)
    requires AreKeys(keys) && NoLateText(s.subsections)
    ensures NoLateText(PromoteInto(s, title, keys).subsections)
  {
    var subs, after, i := s.subsections, PromoteInto(s, title, keys).subsections, FindLast(s.subsections, title);
    IntroOfAdded(BodyUnder(s, title), keys);
    forall j, k | 0 <= j < k < |after| && after[j].title == after[k].title ensures Intro(after[k].lines) == [] {
      if k < |subs| {
        assert subs[j].title == subs[k].title;
      } else {
        assert Intro([]) == [];
      }
    }
  }

  lemma {:induction false} TargetKeepsIntros(target: Option<Section>, subs: seq<Subsection>, promotable: set<nat>)
    requires target.Some? ==> NoLateText(target.value.subsections)
    ensures var t := PromoteSubsections(target, subs, promotable); t.Some? ==> NoLateText(t.value.subsections)
  {
    if subs != [] {
      var before, last := PromoteSubsections(target, Front(subs), promotable), Last(subs);
      TargetKeepsIntros(target, Front(subs), promotable);
      SplitCuts(last.lines);
      PickedKeysAreKeys(Split(last.lines).items, StartsOn(promotable));
      PromotingKeepsIntros(OrNew(before), last.title, PromotedKeys(last, promotable));
    }
  }

  lemma {:induction false} SectionsKeepIntros(target: Option<Section>, sections: seq<Section>, promotable: set<nat>)
    requires target.Some? ==> NoLateText(target.value.subsections)
    ensures var t := PromoteSections(target, sections, promotable); t.Some? ==> NoLateText(t.value.subsections)
  {
    if sections != [] {
      SectionsKeepIntros(target, Front(sections), promotable);
      TargetKeepsIntros(PromoteSections(target, Front(sections), promotable), Last(sections).subsections, promotable);
    }
  }

  lemma {:induction false} PromotionKeepsIntros(sections: seq<Section>, promotable: set<nat>)
    requires NoLateTexts(sections)
    ensures NoLateTexts(Promote(sections, promotable))
  {
    var u, after := FindUnreleased(sections), Promote(sections, promotable);
    assert u < |sections| ==> NoLateText(sections[u].subsections);
    SectionsKeepIntros(FirstUnreleased(sections), sections, promotable);
    var kept := KeepReleased(sections, promotable);
    forall k | 0 <= k < |kept| ensures NoLateText(kept[k].subsections) {
      assert NoLateText(sections[k].subsections);
      KeepingKeepsIntros(sections[k].subsections, StartsOn(promotable));
    }
    forall k | 0 <= k < |after| ensures NoLateText(after[k].subsections) {
    }
  }

  // ----- The causes in the file that was read

  /** Some release has the bullet on a line that is not promotable. */
  ghost predicate StaysReleased(sections: seq<Section>, promotable: set<nat>, key: seq<Line>) {
    exists k, j :: 0 <= k < |sections| && !sections[k].title.Unreleased? && 0 <= j < |sections[k].subsections|
      && key in Keys(Unpicked(Split(sections[k].subsections[j].lines).items, StartsOn(promotable)))
  }

  lemma {:induction false} KeptReleaseHas(s: Section, promotable: set<nat>, key: seq<Line>)
    ensures key in SubsectionKeys(KeepIn(s, StartsOn(promotable)).subsections) <==>
            exists j :: 0 <= j < |s.subsections| && key in Keys(Unpicked(Split(s.subsections[j].lines).items, StartsOn(promotable)))
  {
    var kept := KeepSubsections(s.subsections, StartsOn(promotable));
    KeyInSubsections(kept, key);
    forall j | 0 <= j < |kept|
      ensures key in KeysOf(kept[j].lines) <==> key in Keys(Unpicked(Split(s.subsections[j].lines).items, StartsOn(promotable)))
    {
      RestSplits(s.subsections[j].lines, StartsOn(promotable));
    }
  }

  lemma {:induction false} AssembledAt(sections: seq<Section>, u: nat, target: Option<Section>, i: nat) returns (k: nat)
    requires i < |sections| && i != u
    ensures k < |Assemble(sections, u, target)| && Assemble(sections, u, target)[k] == sections[i]
  {
    k := if target.Some? && u >= |sections| then i + 1 else i;
  }

  lemma {:induction false} ReleaseIsPrepared(sections: seq<Section>, promotable: set<nat>, i: nat) returns (k: nat)
    requires i < |sections| && !sections[i].title.Unreleased?
    ensures k < |Promote(sections, promotable)|
    ensures Promote(sections, promotable)[k] == KeepIn(sections[i], StartsOn(promotable))
  {
    var kept := KeepReleased(sections, promotable);
    var u, target := FindUnreleased(sections), PromoteSections(FirstUnreleased(sections), sections, promotable);
    assert kept[i] == KeepIn(sections[i], StartsOn(promotable));
    k := AssembledAt(kept, u, target, i);
  }

  /** What the releases hold after promotion can be seen in the file that was read. */
  lemma {:induction false} StaysReleasedExactly(sections: seq<Section>, promotable: set<nat>, key: seq<Line>)
    ensures key in ReleasedKeys(Promote(sections, promotable)) <==> StaysReleased(sections, promotable, key)
  {
    var after := Promote(sections, promotable);
    KeyInReleased(after, key);
    if key in ReleasedKeys(after) {
      var k :| 0 <= k < |after| && !after[k].title.Unreleased? && key in SubsectionKeys(after[k].subsections);
      var i := PreparedRelease(sections, promotable, k);
      KeptReleaseHas(sections[i], promotable, key);
    }
    if StaysReleased(sections, promotable, key) {
      var i, j :| 0 <= i < |sections| && !sections[i].title.Unreleased? && 0 <= j < |sections[i].subsections|
        && key in Keys(Unpicked(Split(sections[i].subsections[j].lines).items, StartsOn(promotable)));
      KeptReleaseHas(sections[i], promotable, key);
      var k := ReleaseIsPrepared(sections, promotable, i);
    }
  }

  /** Dropping leaves the releases alone. */
  lemma {:induction false} DroppingLeavesReleases(sections: seq<Section>, promotable: set<nat>, historical: set<seq<Line>>, key: seq<Line>)
    ensures var left := DropDuplicates(sections, historical);
            && (IsPromoted(left, promotable, key) <==> IsPromoted(sections, promotable, key))
            && (StaysReleased(left, promotable, key) <==> StaysReleased(sections, promotable, key))
  {
    var left := DropDuplicates(sections, historical);
    assert |left| == |sections|;
    forall k | 0 <= k < |sections|
      ensures left[k].title == sections[k].title && (!sections[k].title.Unreleased? ==> left[k] == sections[k])
    {
    }
  }

  /** A bullet that is promoted out of one release while it stays in another, or in the history. */
  ghost predicate PromotedAndStays(sections: seq<Section>, promotable: set<nat>, historical: set<seq<Line>>) {
    exists key :: IsPromoted(sections, promotable, key) && (key in historical || StaysReleased(sections, promotable, key))
  }

  lemma {:induction false} PromotedStandsOnTop(content: seq<Text>, promotable: set<nat>, historical: set<seq<Line>>, key: seq<Line>)
    requires IsPromoted(Parse(content).sections, promotable, key)
    ensures var prepared := Prepared(content, promotable, historical); var u := FindUnreleased(prepared);
            u < |prepared| && key in SubsectionKeys(prepared[u].subsections)
  {
    var sections := DropDuplicates(Parse(content).sections, historical);
    DroppingLeavesReleases(Parse(content).sections, promotable, historical, key);
    var k, j :| 0 <= k < |sections| && !sections[k].title.Unreleased? && 0 <= j < |sections[k].subsections|
      && key in PromotedKeys(sections[k].subsections[j], promotable);
    PromoteSectionsHas(FirstUnreleased(sections), sections, promotable, k, j, key);
    PromotedSection(sections, promotable);
    var prepared := Promote(sections, promotable);
    KeyInSubsections(prepared[FindUnreleased(prepared)].subsections, key);
  }

  /** Where nothing grows, a promoted bullet collides exactly when it stays elsewhere. */
  lemma {:induction false} PromotedCollidesExactly(content: seq<Text>, promotable: set<nat>, historical: set<seq<Line>>, key: seq<Line>)
    requires NoLateTexts(Prepared(content, promotable, historical)) && IsPromoted(Parse(content).sections, promotable, key)
    ensures Collides(Prepared(content, promotable, historical), historical, key)
            <==> (key in historical || StaysReleased(Parse(content).sections, promotable, key))
  {
    var prepared := Prepared(content, promotable, historical);
    var u := FindUnreleased(prepared);
    PromotedStandsOnTop(content, promotable, historical, key);
    assert NoLateText(prepared[u].subsections);
    NothingIsLost(prepared[u].subsections, key);
    ReleasesMergeExactly(prepared, key);
    StaysReleasedExactly(DropDuplicates(Parse(content).sections, historical), promotable, key);
    DroppingLeavesReleases(Parse(content).sections, promotable, historical, key);
  }

  lemma {:induction false} ReleasesMergeExactly(sections: seq<Section>, key: seq<Line>)
    requires NoLateTexts(sections)
    ensures ReleaseMerges(sections, key) <==> key in ReleasedKeys(sections)
  {
    KeyInReleased(sections, key);
    forall k | 0 <= k < |sections| ensures Merges(sections[k].subsections, key) <==> key in SubsectionKeys(sections[k].subsections) {
      var subs := sections[k].subsections;
      assert NoLateText(subs);
      if Merges(subs, key) {
        var i :| 0 <= i < |subs| && key in KeysUnder(subs, subs[i].title);
        NothingGrows(subs, subs[i].title, key);
      }
      if key in SubsectionKeys(subs) {
        NothingIsLost(subs, key);
      }
    }
  }

  lemma {:induction false} NothingGrowsTogether(content: seq<Text>, promotable: set<nat>, historical: set<seq<Line>>)
    requires NoLateTexts(Prepared(content, promotable, historical))
    ensures !GrownTogether(content, promotable, historical)
  {
    var prepared := Prepared(content, promotable, historical);
    forall key | Collides(prepared, historical, key) ensures !HasGrown(prepared, historical, key) {
      NothingHasGrown(prepared, historical, key);
    }
  }

  lemma {:induction false} PromotedTooEarlyExactly(content: seq<Text>, promotable: set<nat>, historical: set<seq<Line>>)
    requires NoLateTexts(Prepared(content, promotable, historical))
    ensures PromotedTooEarly(content, promotable, historical)
            <==> PromotedAndStays(Parse(content).sections, promotable, historical)
  {
    var sections, prepared := Parse(content).sections, Prepared(content, promotable, historical);
    if PromotedTooEarly(content, promotable, historical) {
      var key :| IsPromoted(DropDuplicates(sections, historical), promotable, key) && Collides(prepared, historical, key);
      DroppingLeavesReleases(sections, promotable, historical, key);
      PromotedCollidesExactly(content, promotable, historical, key);
    }
    if PromotedAndStays(sections, promotable, historical) {
      var key :| IsPromoted(sections, promotable, key) && (key in historical || StaysReleased(sections, promotable, key));
      DroppingLeavesReleases(sections, promotable, historical, key);
      PromotedCollidesExactly(content, promotable, historical, key);
    }
  }

  /** Without text behind a duplicate heading a second pass is needed exactly for a gap, or for a bullet
      promoted out of one release while it stays in another or in the history. */
  lemma {:induction false} GapsAndEarlyPromotionsNeedAnotherPass(content: seq<Text>, promotable: set<nat>, historical: set<seq<Line>>)
    requires NoLateTexts(Parse(content).sections)
    ensures Fix(Fix(content, promotable, historical), {}, historical) == Fix(content, promotable, historical)
            <==> (CleanDocument(Prepared(content, promotable, historical))
                  && !PromotedAndStays(Parse(content).sections, promotable, historical))
  {
    DroppingKeepsIntros(Parse(content).sections, historical);
    PromotionKeepsIntros(DropDuplicates(Parse(content).sections, historical), promotable);
    FixingTwiceIsFixingOnceExactly(content, promotable, historical);
    NothingGrowsTogether(content, promotable, historical);
    PromotedTooEarlyExactly(content, promotable, historical);
  }

  /** Without promotions, and without text behind a duplicate heading, only a gap needs a second pass. */
  lemma {:induction false} OnlyGapsNeedAnotherPass(content: seq<Text>, historical: set<seq<Line>>)
    requires NoLateTexts(Parse(content).sections)
    ensures Fix(Fix(content, {}, historical), {}, historical) == Fix(content, {}, historical)
            <==> CleanDocument(DropDuplicates(Parse(content).sections, historical))
  {
    var sections := Parse(content).sections;
    PromoteNothing(DropDuplicates(sections, historical));
    GapsAndEarlyPromotionsNeedAnotherPass(content, {}, historical);
    forall key ensures !IsPromoted(sections, {}, key) {
      NothingIsPromoted(sections, key);
    }
  }

  lemma {:induction false} NothingIsPromoted(sections: seq<Section>, key: seq<Line>)
    ensures !IsPromoted(sections, {}, key)
  {
    if IsPromoted(sections, {}, key) {
      var k, j :| 0 <= k < |sections| && !sections[k].title.Unreleased? && 0 <= j < |sections[k].subsections|
        && key in PromotedKeys(sections[k].subsections[j], {});
      NonePicked(Split(sections[k].subsections[j].lines).items);
    }
  }
}
