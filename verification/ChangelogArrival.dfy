/**
 Where the bullets promoted by `fix-changelogs.ts` end up.
 */
module ChangelogArrival {
  import opened Wrappers
  import opened ChangelogText
  import opened ChangelogLists
  import opened ChangelogItems
  import opened ChangelogRemoval
  import opened ChangelogDocument
  import opened ChangelogNormal
  import opened ChangelogGrowth
  import opened StableSort
  import opened ChangelogOrder
  import opened ChangelogPromotion
  import opened ChangelogFixer
  import opened ChangelogLaws
  import opened ChangelogIdempotence

  /** A subsection of this title has exactly this bullet. */
  ghost predicate HasUnder(subs: seq<Subsection>, title: string, key: seq<Line>) {
    exists j :: 0 <= j < |subs| && subs[j].title == title && key in KeysOf(subs[j].lines)
  }

  ghost predicate AreKeys(keys: seq<seq<Line>>) {
    forall j :: 0 <= j < |keys| ==> IsItem(keys[j]) && Tidy(keys[j])
  }

  lemma {:induction false} PickedKeysAreKeys(items: seq<seq<Line>>, pick: Item -> bool)
    requires AreItems(items)
    ensures AreKeys(Keys(Picked(items, pick)))
  {
    if items != [] {
      var front, last := Front(items), Last(items);
      assert IsItem(items[|front|]);
      PickedKeysAreKeys(front, pick);
      if IsPicked(last, pick) {
        TrimItem(last);
        TidyTrim(last);
        assert Keys(Picked(front, pick) + [last]) == Keys(Picked(front, pick)) + [Key(last)];
      }
    }
  }

  lemma {:induction false} PickedKeyIsThere(items: seq<seq<Line>>, pick: Item -> bool, i: nat)
    requires i < |items| && IsPicked(items[i], pick)
    ensures Key(items[i]) in Keys(Picked(items, pick))
  {
    var front, last := Front(items), Last(items);
    if i < |front| {
      PickedKeyIsThere(front, pick, i);
    }
    if IsPicked(last, pick) {
      assert Keys(Picked(front, pick) + [last]) == Keys(Picked(front, pick)) + [Key(last)];
    }
  }

  lemma {:induction false} AddItemsHas(lines: seq<Line>, keys: seq<seq<Line>>, key: seq<Line>)
    requires AreKeys(keys) && (key in KeysOf(lines) || key in keys)
    ensures key in KeysOf(AddItems(lines, keys))
  {
    if keys != [] {
      var front, last := Front(keys), Last(keys);
      assert IsItem(keys[|front|]) && Tidy(keys[|front|]);
      if key in KeysOf(lines) || key in front {
        AddItemsHas(lines, front, key);
      }
      AppendItem(AddItems(lines, front), last);
    }
  }

  lemma {:induction false} PromoteIntoHas(s: Section, title: string, keys: seq<seq<Line>>, under: string, key: seq<Line>)
    requires AreKeys(keys) && (HasUnder(s.subsections, under, key) || (under == title && key in keys))
    ensures HasUnder(PromoteInto(s, title, keys).subsections, under, key)
  {
    var i, after := FindLast(s.subsections, title), PromoteInto(s, title, keys).subsections;
    if HasUnder(s.subsections, under, key) {
      var j :| 0 <= j < |s.subsections| && s.subsections[j].title == under && key in KeysOf(s.subsections[j].lines);
      if i == j {
        AddItemsHas(s.subsections[j].lines, keys, key);
      }
      assert after[j].title == under && key in KeysOf(after[j].lines);
    } else {
      AddItemsHas(BodyUnder(s, title), keys, key);
      var at := if i < |s.subsections| then i else |s.subsections|;
      assert after[at].title == under && key in KeysOf(after[at].lines);
    }
  }

  ghost predicate TargetHas(target: Option<Section>, title: string, key: seq<Line>) {
    target.Some? && HasUnder(target.value.subsections, title, key)
  }

  lemma {:induction false} PromoteSubsectionHas(target: Option<Section>, sub: Subsection, promotable: set<nat>, title: string, key: seq<Line>)
    requires TargetHas(target, title, key) || (title == sub.title && key in PromotedKeys(sub, promotable))
    ensures TargetHas(PromoteSubsection(target, sub, promotable), title, key)
  {
    SplitCuts(sub.lines);
    PickedKeysAreKeys(Split(sub.lines).items, StartsOn(promotable));
    PromoteIntoHas(OrNew(target), sub.title, PromotedKeys(sub, promotable), title, key);
  }

  lemma {:induction false} PromoteSubsectionsHas(target: Option<Section>, subs: seq<Subsection>, promotable: set<nat>,
                                                 j: nat, title: string, key: seq<Line>)
    requires TargetHas(target, title, key) ||
             (j < |subs| && title == subs[j].title && key in PromotedKeys(subs[j], promotable))
    ensures TargetHas(PromoteSubsections(target, subs, promotable), title, key)
  {
    if subs != [] {
      if TargetHas(target, title, key) || j < |subs| - 1 {
        PromoteSubsectionsHas(target, Front(subs), promotable, j, title, key);
      }
      PromoteSubsectionHas(PromoteSubsections(target, Front(subs), promotable), Last(subs), promotable, title, key);
    }
  }

  lemma {:induction false} PromoteSectionsHas(target: Option<Section>, sections: seq<Section>, promotable: set<nat>,
                                              k: nat, j: nat, key: seq<Line>)
    requires k < |sections| && !sections[k].title.Unreleased? && j < |sections[k].subsections|
    requires key in PromotedKeys(sections[k].subsections[j], promotable)
    ensures TargetHas(PromoteSections(target, sections, promotable), sections[k].subsections[j].title, key)
  {
    var front, last := Front(sections), Last(sections);
    if k < |front| {
      PromoteSectionsHas(target, front, promotable, k, j, key);
    }
    if !last.title.Unreleased? {
      PromoteSubsectionsHas(PromoteSections(target, front, promotable), last.subsections, promotable, j,
                            sections[k].subsections[j].title, key);
    }
  }

  /** After promotion the first unreleased section is the one the bullets went to. */
  lemma {:induction false} PromotedSection(sections: seq<Section>, promotable: set<nat>)
    requires PromoteSections(FirstUnreleased(sections), sections, promotable).Some?
    ensures var after := Promote(sections, promotable);
            && FindUnreleased(after) < |after|
            && after[FindUnreleased(after)] == PromoteSections(FirstUnreleased(sections), sections, promotable).value
  {
    var u, after := FindUnreleased(sections), Promote(sections, promotable);
    TargetIsUnreleased(sections, |sections|, promotable);
    assert sections[..|sections|] == sections;
    var at := if u < |sections| then u else 0;
    assert after[at].title.Unreleased?;
    FirstIs(after, at);
  }

  lemma {:induction false} FirstIs(sections: seq<Section>, u: nat)
    requires u < |sections| && sections[u].title.Unreleased?
    requires forall j :: 0 <= j < u ==> !sections[j].title.Unreleased?
    ensures FindUnreleased(sections) == u
  {
  }

  // ----- In the fixed document

  lemma {:induction false} HasUnderPermuted(a: seq<Subsection>, b: seq<Subsection>, title: string, key: seq<Line>)
    requires multiset(a) == multiset(b) && HasUnder(a, title, key)
    ensures HasUnder(b, title, key)
  {
    var j :| 0 <= j < |a| && a[j].title == title && key in KeysOf(a[j].lines);
    assert a[j] in multiset(b);
    assert a[j] in b;
  }

  /** The bullets that bodies have together under a title are in the normalised section under it. */
  lemma {:induction false} NormalizedHas(s: Section, title: string, key: seq<Line>)
    requires key in KeysUnder(s.subsections, title)
    ensures HasUnder(Normalize(s).subsections, title, key)
  {
    var merged := Merge(s.subsections);
    MergedKeys(s.subsections, title);
    assert merged[Find(merged, title)].title == title;
    assert HasUnder(merged, title, key);
    if s.title.Unreleased? {
      TitleOrderIsWeak();
      SortMeaning(merged, BY_TITLE);
      HasUnderPermuted(merged, Sort(merged, BY_TITLE), title, key);
    }
  }

  /** This bullet of a body is under its title in the final subsections, with what it takes in. */
  ghost predicate EndsUp(subs: seq<Subsection>, j: nat, i: nat, after: seq<Subsection>)
    requires j < |subs| && i < |KeysOf(subs[j].lines)|
  {
    HasUnder(after, subs[j].title, KeysOf(subs[j].lines)[i] + Additions(subs, j, i))
  }

  /** The bullet stands in some body with this title and ends up there. */
  ghost predicate ArrivesFrom(subs: seq<Subsection>, title: string, key: seq<Line>, after: seq<Subsection>) {
    exists j, i :: 0 <= j < |subs| && 0 <= i < |KeysOf(subs[j].lines)| &&
      subs[j].title == title && KeysOf(subs[j].lines)[i] == key && EndsUp(subs, j, i, after)
  }

  lemma {:induction false} EveryBulletEndsUp(s: Section, j: nat, i: nat)
    requires j < |s.subsections| && i < |KeysOf(s.subsections[j].lines)|
    ensures EndsUp(s.subsections, j, i, Normalize(s).subsections)
  {
    var p := EachBulletStands(s.subsections, j, i);
    NormalizedHas(s, s.subsections[j].title, KeysUnder(s.subsections, s.subsections[j].title)[p]);
  }

  lemma {:induction false} BulletArrives(s: Section, title: string, key: seq<Line>)
    requires HasUnder(s.subsections, title, key)
    ensures ArrivesFrom(s.subsections, title, key, Normalize(s).subsections)
  {
    var subs := s.subsections;
    var j :| 0 <= j < |subs| && subs[j].title == title && key in KeysOf(subs[j].lines);
    var i :| 0 <= i < |KeysOf(subs[j].lines)| && KeysOf(subs[j].lines)[i] == key;
    EveryBulletEndsUp(s, j, i);
  }

  lemma {:induction false} FixedStartsWithUnreleased(sections: seq<Section>)
    requires FindUnreleased(sections) < |sections|
    ensures var fixed := SortSections(NormalizeAll(sections));
            fixed != [] && fixed[0].title.Unreleased? && fixed[0] == Normalize(sections[FindUnreleased(sections)])
  {
    NormalizeEach(sections, FindUnreleased(sections));
    NormalizeAllKeepsTitles(sections);
    SameTitlesSamePlace(sections, NormalizeAll(sections));
    SortingFindsUnreleased(NormalizeAll(sections));
  }

  /** A promotable bullet of a release of the parsed file. */
  ghost predicate Promotable(sections: seq<Section>, promotable: set<nat>, k: nat, j: nat, i: nat) {
    && k < |sections| && !sections[k].title.Unreleased? && j < |sections[k].subsections|
    && i < |Split(sections[k].subsections[j].lines).items|
    && IsPicked(Split(sections[k].subsections[j].lines).items[i], StartsOn(promotable))
  }

  lemma {:induction false} PromotedIsPrepared(content: seq<Text>, promotable: set<nat>, historical: set<seq<Line>>, k: nat, j: nat, i: nat)
    requires Promotable(Parse(content).sections, promotable, k, j, i)
    ensures var prepared := Prepared(content, promotable, historical);
            var sub := Parse(content).sections[k].subsections[j];
            && FindUnreleased(prepared) < |prepared|
            && HasUnder(prepared[FindUnreleased(prepared)].subsections, sub.title, Key(Split(sub.lines).items[i]))
  {
    var sections := DropDuplicates(Parse(content).sections, historical);
    var sub := Parse(content).sections[k].subsections[j];
    assert sections[k] == Parse(content).sections[k];
    PickedKeyIsThere(Split(sub.lines).items, StartsOn(promotable), i);
    PromoteSectionsHas(FirstUnreleased(sections), sections, promotable, k, j, Key(Split(sub.lines).items[i]));
    PromotedSection(sections, promotable);
  }

  /** Every promotable bullet of a release is in the fixed document under the same heading of the
      unreleased section, which comes first.  It is there whole, and followed by exactly the text that
      stands behind it in the bodies of the same title. */
  lemma {:induction false} PromotedBulletsArrive(content: seq<Text>, promotable: set<nat>, historical: set<seq<Line>>, k: nat, j: nat, i: nat)
    requires Promotable(Parse(content).sections, promotable, k, j, i)
    ensures var d, prepared := FixedDocument(content, promotable, historical), Prepared(content, promotable, historical);
            var sub := Parse(content).sections[k].subsections[j];
            && d.sections != [] && d.sections[0].title.Unreleased? && FindUnreleased(prepared) < |prepared|
            && ArrivesFrom(prepared[FindUnreleased(prepared)].subsections, sub.title, Key(Split(sub.lines).items[i]),
                           d.sections[0].subsections)
  {
    var prepared, sub := Prepared(content, promotable, historical), Parse(content).sections[k].subsections[j];
    PromotedIsPrepared(content, promotable, historical, k, j, i);
    BulletArrives(prepared[FindUnreleased(prepared)], sub.title, Key(Split(sub.lines).items[i]));
    FixedStartsWithUnreleased(prepared);
  }

  /** The releases of the prepared document are those of the document, without the promoted bullets. */
  lemma {:induction false} PreparedRelease(sections: seq<Section>, promotable: set<nat>, k: nat) returns (i: nat)
    requires k < |Promote(sections, promotable)| && !Promote(sections, promotable)[k].title.Unreleased?
    ensures i < |sections| && !sections[i].title.Unreleased?
    ensures Promote(sections, promotable)[k] == KeepIn(sections[i], StartsOn(promotable))
  {
    var u, target := FindUnreleased(sections), PromoteSections(FirstUnreleased(sections), sections, promotable);
    TargetIsUnreleased(sections, |sections|, promotable);
    assert sections[..|sections|] == sections;
    i := if target.Some? && u == |sections| then k - 1 else k;
  }

  /** And none of the prepared releases has it any more. */
  lemma {:induction false} PromotedBulletsLeave(content: seq<Text>, promotable: set<nat>, historical: set<seq<Line>>, k: nat)
    requires k < |Prepared(content, promotable, historical)|
    requires !Prepared(content, promotable, historical)[k].title.Unreleased?
    ensures CountPicked(Prepared(content, promotable, historical)[k].subsections, StartsOn(promotable)) == 0
  {
    var sections := DropDuplicates(Parse(content).sections, historical);
    var i := PreparedRelease(sections, promotable, k);
    NothingToPromote(None, sections[i].subsections, promotable);
  }
}
