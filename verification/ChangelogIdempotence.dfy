/**
 When running the fixer of `fix-changelogs.ts` once more changes nothing.
 */
module ChangelogIdempotence {
  import opened Wrappers
  import opened ChangelogText
  import opened ChangelogLists
  import opened ChangelogItems
  import opened ChangelogRemoval
  import opened ChangelogDocument
  import opened ChangelogNormal
  import opened ChangelogOrder
  import opened ChangelogPromotion
  import opened ChangelogConservation
  import opened ChangelogFixer
  import opened ChangelogLaws

  // ----- Nothing to promote, nothing to drop

  lemma {:induction false} NonePicked(items: seq<seq<Line>>)
    ensures Picked(items, StartsOn({})) == []
  {
    if items != [] {
      NonePicked(Front(items));
    }
  }

  lemma {:induction false} KeepAll(lines: seq<Line>, pick: Item -> bool)
    requires Picked(Split(lines).items, pick) == []
    ensures RestOf(lines, pick) == lines
  {
    NothingPicked(Split(lines).items, pick);
    SplitCuts(lines);
  }

  lemma {:induction false} KeepAllIn(s: Section, pick: Item -> bool)
    requires forall j :: 0 <= j < |s.subsections| ==> Picked(Split(s.subsections[j].lines).items, pick) == []
    ensures KeepIn(s, pick) == s
  {
    forall j | 0 <= j < |s.subsections| ensures RestOf(s.subsections[j].lines, pick) == s.subsections[j].lines {
      KeepAll(s.subsections[j].lines, pick);
    }
    assert KeepSubsections(s.subsections, pick) == s.subsections;
  }

  lemma {:induction false} NoTargetChange(target: Option<Section>, subs: seq<Subsection>)
    ensures PromoteSubsections(target, subs, {}) == target
  {
    if subs != [] {
      NoTargetChange(target, Front(subs));
      NonePicked(Split(Last(subs).lines).items);
    }
  }

  lemma {:induction false} NoTargetChangeAtAll(target: Option<Section>, sections: seq<Section>)
    ensures PromoteSections(target, sections, {}) == target
  {
    if sections != [] {
      NoTargetChangeAtAll(target, Front(sections));
      NoTargetChange(target, Last(sections).subsections);
    }
  }

  /** Without promotable lines promotion does nothing. */
  lemma {:induction false} PromoteNothing(sections: seq<Section>)
    ensures Promote(sections, {}) == sections
  {
    NoTargetChangeAtAll(FirstUnreleased(sections), sections);
    forall k | 0 <= k < |sections| ensures KeepSection(sections[k], {}) == sections[k] {
      forall j | 0 <= j < |sections[k].subsections| ensures Picked(Split(sections[k].subsections[j].lines).items, StartsOn({})) == [] {
        NonePicked(Split(sections[k].subsections[j].lines).items);
      }
      KeepAllIn(sections[k], StartsOn({}));
    }
    assert KeepReleased(sections, {}) == sections;
    var u := FindUnreleased(sections);
    assert u < |sections| ==> sections[u := sections[u]] == sections;
  }

  lemma {:induction false} NoneCountedNonePicked(subs: seq<Subsection>, pick: Item -> bool, j: nat)
    requires CountPicked(subs, pick) == 0 && j < |subs|
    ensures Picked(Split(subs[j].lines).items, pick) == []
  {
    if j < |subs| - 1 {
      NoneCountedNonePicked(Front(subs), pick, j);
    }
  }

  lemma {:induction false} NonePickedNoneCounted(subs: seq<Subsection>, pick: Item -> bool)
    requires forall j :: 0 <= j < |subs| ==> Picked(Split(subs[j].lines).items, pick) == []
    ensures CountPicked(subs, pick) == 0
  {
    if subs != [] {
      assert Picked(Split(subs[|subs| - 1].lines).items, pick) == [];
      NonePickedNoneCounted(Front(subs), pick);
    }
  }

  lemma {:induction false} CountPickedZero(subs: seq<Subsection>, pick: Item -> bool)
    ensures CountPicked(subs, pick) == 0 <==>
            forall j :: 0 <= j < |subs| ==> Picked(Split(subs[j].lines).items, pick) == []
  {
    if CountPicked(subs, pick) == 0 {
      forall j | 0 <= j < |subs| ensures Picked(Split(subs[j].lines).items, pick) == [] {
        NoneCountedNonePicked(subs, pick, j);
      }
    } else if forall j :: 0 <= j < |subs| ==> Picked(Split(subs[j].lines).items, pick) == [] {
      NonePickedNoneCounted(subs, pick);
    }
  }

  lemma {:induction false} DropNothing(sections: seq<Section>, historical: set<seq<Line>>)
    requires DroppedCount(sections, historical) == 0
    ensures DropDuplicates(sections, historical) == sections
  {
    var u := FindUnreleased(sections);
    if u < |sections| {
      var pick := InKeys(ReleasedKeys(sections) + historical);
      CountPickedZero(sections[u].subsections, pick);
      KeepAllIn(sections[u], pick);
      assert sections[u := sections[u]] == sections;
    }
  }

  // ----- Keys do not depend on numbers and blank ends

  /** How many of these keys are in the set. */
  function CountMembers(keys: seq<seq<Line>>, among: set<seq<Line>>): nat {
    if keys == [] then 0 else CountMembers(Front(keys), among) + if Last(keys) in among then 1 else 0
  }

  lemma {:induction false} PickedByKey(items: seq<seq<Line>>, among: set<seq<Line>>)
    requires AreItems(items)
    ensures |Picked(items, InKeys(among))| == CountMembers(Keys(items), among)
  {
    if items != [] {
      var front, last := Front(items), Last(items);
      assert AreItems(front) && IsItem(last);
      PickedByKey(front, among);
      assert Front(Keys(items)) == Keys(front) && Last(Keys(items)) == Key(last);
    }
  }

  lemma {:induction false} CountPickedOfTidy(subs: seq<Subsection>, among: set<seq<Line>>)
    ensures CountPicked(TidySubsections(subs), InKeys(among)) == CountPicked(subs, InKeys(among))
  {
    if subs != [] {
      var tidy, last := TidySubsections(subs), Last(subs);
      CountPickedOfTidy(Front(subs), among);
      assert Front(tidy) == TidySubsections(Front(subs)) && Last(tidy).lines == Strip(Trim(last.lines));
      SplitCuts(last.lines);
      SplitCuts(Last(tidy).lines);
      TextKeepsKeys(last.lines);
      PickedByKey(Split(last.lines).items, among);
      PickedByKey(Split(Last(tidy).lines).items, among);
    }
  }

  lemma {:induction false} SubsectionKeysOfTidy(subs: seq<Subsection>)
    ensures SubsectionKeys(TidySubsections(subs)) == SubsectionKeys(subs)
  {
    if subs != [] {
      SubsectionKeysOfTidy(Front(subs));
      assert Front(TidySubsections(subs)) == TidySubsections(Front(subs));
      TextKeepsKeys(Last(subs).lines);
    }
  }

  lemma {:induction false} ReleasedKeysOfTidy(sections: seq<Section>)
    ensures ReleasedKeys(TidySections(sections)) == ReleasedKeys(sections)
  {
    if sections != [] {
      ReleasedKeysOfTidy(Front(sections));
      assert Front(TidySections(sections)) == TidySections(Front(sections));
      SubsectionKeysOfTidy(Last(sections).subsections);
    }
  }

  lemma {:induction false} SameTitlesSamePlace(a: seq<Section>, b: seq<Section>)
    requires |a| == |b| && forall j :: 0 <= j < |a| ==> a[j].title == b[j].title
    ensures FindUnreleased(a) == FindUnreleased(b)
  {
    if a != [] {
      SameTitlesSamePlace(Front(a), Front(b));
    }
  }

  lemma {:induction false} DroppedCountOfTidy(sections: seq<Section>, historical: set<seq<Line>>)
    ensures DroppedCount(TidySections(sections), historical) == DroppedCount(sections, historical)
  {
    SameTitlesSamePlace(sections, TidySections(sections));
    ReleasedKeysOfTidy(sections);
    var u := FindUnreleased(sections);
    if u < |sections| {
      CountPickedOfTidy(sections[u].subsections, ReleasedKeys(sections) + historical);
    }
  }

  lemma {:induction false} NormalizeAllOfTidy(sections: seq<Section>)
    ensures NormalizeAll(TidySections(sections)) == NormalizeAll(sections)
  {
    if sections != [] {
      NormalizeAllOfTidy(Front(sections));
      assert Front(TidySections(sections)) == TidySections(Front(sections));
      NormalizeOfTidy(Last(sections));
    }
  }

  // ----- The second pass

  ghost predicate SettledDocument(sections: seq<Section>) {
    forall j :: 0 <= j < |sections| ==> AllSettled(sections[j].subsections)
  }

  /** Every duplicate heading was merged without leaving a gap. */
  ghost predicate CleanDocument(sections: seq<Section>) {
    forall j :: 0 <= j < |sections| ==> CleanMerges(sections[j].subsections)
  }

  /** The fixed document has nothing left to tighten exactly when its merges were clean. */
  lemma {:induction false} FixedIsSettled(content: seq<Text>, promotable: set<nat>, historical: set<seq<Line>>)
    ensures SettledDocument(FixedDocument(content, promotable, historical).sections)
            <==> CleanDocument(Prepared(content, promotable, historical))
  {
    var prepared := Prepared(content, promotable, historical);
    var normal := NormalizeAll(prepared);
    forall j | 0 <= j < |prepared| ensures AllSettled(normal[j].subsections) <==> CleanMerges(prepared[j].subsections) {
      NormalizeEach(prepared, j);
      NormalizeForms(prepared[j]);
    }
    assert SettledDocument(normal) <==> CleanDocument(prepared);
    SortSectionsOrders(normal);
    SettledPermuted(normal, SortSections(normal));
    SettledPermuted(SortSections(normal), normal);
  }

  lemma {:induction false} SettledPermuted(a: seq<Section>, b: seq<Section>)
    requires multiset(a) == multiset(b)
    ensures SettledDocument(a) ==> SettledDocument(b)
  {
    if SettledDocument(a) {
      forall j | 0 <= j < |b| ensures AllSettled(b[j].subsections) {
        assert b[j] in multiset(b);
        assert b[j] in a;
      }
    }
  }

  lemma {:induction false} NormalizeAllKeepsTitles(sections: seq<Section>)
    ensures forall j :: 0 <= j < |sections| ==> NormalizeAll(sections)[j].title == sections[j].title
  {
    forall j | 0 <= j < |sections| ensures NormalizeAll(sections)[j].title == sections[j].title {
      NormalizeEach(sections, j);
    }
  }

  /** Sections in form and in order are left alone exactly when they are settled. */
  lemma {:induction false} SecondNormalization(sections: seq<Section>)
    requires AllInForm(sections) && InReleaseOrder(sections)
    ensures SortSections(NormalizeAll(sections)) == sections <==> SettledDocument(sections)
  {
    var again := NormalizeAll(sections);
    NormalizeAllKeepsTitles(sections);
    SameTitlesSameOrder(sections, again);
    SortKeepsOrder(again);
    forall j | 0 <= j < |sections| ensures again[j] == sections[j] <==> AllSettled(sections[j].subsections) {
      NormalizeEach(sections, j);
      NormalizeKeepsExactlySettled(sections[j]);
    }
    if SettledDocument(sections) {
      assert again == sections;
    }
    if again == sections {
      forall j | 0 <= j < |sections| ensures AllSettled(sections[j].subsections) {
        assert again[j] == sections[j];
      }
    }
  }

  /** What the second pass reads. */
  lemma {:induction false} SecondInput(content: seq<Text>, promotable: set<nat>, historical: set<seq<Line>>)
    ensures var d, e := FixedDocument(content, promotable, historical), Parse(Fix(content, promotable, historical));
            TidySections(e.sections) == d.sections && Strip(Trim(e.prefix)) == d.prefix
  {
    FixedIsNormal(content, promotable, historical);
    ParseInvertsRender(FixedDocument(content, promotable, historical));
  }

  /** When nothing is left to drop, the second pass only normalises. */
  lemma {:induction false} SecondPass(content: seq<Text>, promotable: set<nat>, historical: set<seq<Line>>)
    requires DroppedCount(FixedDocument(content, promotable, historical).sections, historical) == 0
    ensures var d := FixedDocument(content, promotable, historical);
            FixedDocument(Fix(content, promotable, historical), {}, historical)
            == Document(d.prefix, SortSections(NormalizeAll(d.sections)))
  {
    var e := Parse(Fix(content, promotable, historical));
    SecondInput(content, promotable, historical);
    DroppedCountOfTidy(e.sections, historical);
    DropNothing(e.sections, historical);
    PromoteNothing(e.sections);
    NormalizeAllOfTidy(e.sections);
  }

  lemma {:induction false} SecondPassKeepsExactlyClean(content: seq<Text>, promotable: set<nat>, historical: set<seq<Line>>)
    requires DroppedCount(FixedDocument(content, promotable, historical).sections, historical) == 0
    ensures Fix(Fix(content, promotable, historical), {}, historical) == Fix(content, promotable, historical)
            <==> CleanDocument(Prepared(content, promotable, historical))
  {
    var d := FixedDocument(content, promotable, historical);
    var again := FixedDocument(Fix(content, promotable, historical), {}, historical);
    SecondPass(content, promotable, historical);
    FixedInForm(content, promotable, historical);
    SortSectionsOrders(NormalizeAll(Prepared(content, promotable, historical)));
    SecondNormalization(d.sections);
    FixedIsSettled(content, promotable, historical);
    FixedIsNormal(content, promotable, historical);
    FixedIsNormal(Fix(content, promotable, historical), {}, historical);
    if Render(again) == Render(d) {
      RenderIsInjective(again, d);
    }
  }

  // ----- A bullet dropped late

  lemma {:induction false} PickedHasText(items: seq<seq<Line>>, pick: Item -> bool) returns (t: Text)
    requires AreItems(items) && Picked(items, pick) != []
    ensures IsBody(t) && CountKeys(Keys(Picked(items, pick)), t) > 0
  {
    var front, last := Front(items), Last(items);
    if IsPicked(last, pick) {
      t := last[0].text;
      CountKeysAppend(Picked(front, pick), last, t);
      assert IsItem(items[|front|]);
      CountPositive(last, 0);
    } else {
      t := PickedHasText(front, pick);
    }
  }

  lemma {:induction false} DroppedHasText(subs: seq<Subsection>, pick: Item -> bool) returns (t: Text)
    requires CountPicked(subs, pick) > 0
    ensures IsBody(t) && PickedText(subs, pick, t) > 0
  {
    if CountPicked(Front(subs), pick) > 0 {
      t := DroppedHasText(Front(subs), pick);
    } else {
      SplitCuts(Last(subs).lines);
      t := PickedHasText(Split(Last(subs).lines).items, pick);
    }
  }

  /** A pass that drops a bullet changes the file. */
  lemma {:induction false} DroppingChangesTheFile(content: seq<Text>, historical: set<seq<Line>>)
    requires DroppedCount(Parse(content).sections, historical) > 0
    ensures Fix(content, {}, historical) != content
  {
    var sections := Parse(content).sections;
    var u := FindUnreleased(sections);
    var t := DroppedHasText(sections[u].subsections, InKeys(ReleasedKeys(sections) + historical));
    TextIsConserved(content, {}, historical, t);
  }

  /** Once more changes nothing exactly when all merges were clean and the next pass finds nothing to
      drop. */
  lemma {:induction false} AgainChangesNothingExactly(content: seq<Text>, promotable: set<nat>, historical: set<seq<Line>>)
    ensures Fix(Fix(content, promotable, historical), {}, historical) == Fix(content, promotable, historical)
            <==> (CleanDocument(Prepared(content, promotable, historical)) &&
                  DroppedCount(FixedDocument(content, promotable, historical).sections, historical) == 0)
  {
    if DroppedCount(FixedDocument(content, promotable, historical).sections, historical) == 0 {
      SecondPassKeepsExactlyClean(content, promotable, historical);
    } else {
      SecondInput(content, promotable, historical);
      DroppedCountOfTidy(Parse(Fix(content, promotable, historical)).sections, historical);
      DroppingChangesTheFile(Fix(content, promotable, historical), historical);
    }
  }
}
