/**
 No text is lost in `fix-changelogs.ts`: every line of the input is in the output, was dropped as a
 duplicate of a released bullet, or belonged to a promoted bullet that was already there.
 */
module ChangelogConservation {
  import opened Wrappers
  import opened ChangelogText
  import opened ChangelogItems
  import opened ChangelogRemoval
  import opened ChangelogDocument
  import opened ChangelogNormal
  import opened ChangelogOrder
  import opened ChangelogPromotion

  // ----- Counting in bullets and sections

  function CountKeys(keys: seq<seq<Line>>, t: Text): nat {
    if keys == [] then 0 else CountKeys(Front(keys), t) + Count(Last(keys), t)
  }

  function CountSections(sections: seq<Section>, t: Text): nat {
    if sections == [] then 0 else CountSections(Front(sections), t) + CountSection(Last(sections), t)
  }

  function CountDocument(d: Document, t: Text): nat {
    Count(d.prefix, t) + CountSections(d.sections, t)
  }

  /** The text of the picked bullets. */
  function PickedText(subs: seq<Subsection>, pick: Item -> bool, t: Text): nat {
    if subs == [] then 0
    else PickedText(Front(subs), pick, t) + CountKeys(Keys(Picked(Split(Last(subs).lines).items, pick)), t)
  }

  lemma {:induction false} CountKey(item: seq<Line>, t: Text)
    requires !t.Blank?
    ensures Count(Key(item), t) == Count(item, t)
  {
    CountTrim(item, t);
  }

  lemma {:induction false} CountKeysAppend(items: seq<seq<Line>>, item: seq<Line>, t: Text)
    requires !t.Blank?
    ensures CountKeys(Keys(items + [item]), t) == CountKeys(Keys(items), t) + Count(item, t)
  {
    assert Keys(items + [item]) == Keys(items) + [Key(item)];
    FrontOfAppend(Keys(items), Key(item));
    CountKey(item, t);
  }

  lemma {:induction false} CountFlattenAppend(items: seq<seq<Line>>, item: seq<Line>, t: Text)
    ensures Count(Flatten(items + [item]), t) == Count(Flatten(items), t) + Count(item, t)
  {
    FrontOfAppend(items, item);
    CountConcat(Flatten(items), item, t);
  }

  lemma {:induction false} PickedOrKept(items: seq<seq<Line>>, pick: Item -> bool, t: Text)
    requires !t.Blank?
    ensures Count(Flatten(Unpicked(items, pick)), t) + CountKeys(Keys(Picked(items, pick)), t) == Count(Flatten(items), t)
  {
    if items != [] {
      var front, last := Front(items), Last(items);
      PickedOrKept(front, pick, t);
      CountConcat(Flatten(front), last, t);
      if IsPicked(last, pick) {
        CountKeysAppend(Picked(front, pick), last, t);
      } else {
        CountFlattenAppend(Unpicked(front, pick), last, t);
      }
    }
  }

  /** What is taken out and what is left make up the body. */
  lemma {:induction false} RestKeepsText(lines: seq<Line>, pick: Item -> bool, t: Text)
    requires !t.Blank?
    ensures Count(RestOf(lines, pick), t) + CountKeys(Keys(Picked(Split(lines).items, pick)), t) == Count(lines, t)
  {
    var p := Split(lines);
    SplitCuts(lines);
    PickedOrKept(p.items, pick, t);
    CountConcat(p.preamble, Flatten(p.items), t);
    CountConcat(p.preamble, Flatten(Unpicked(p.items, pick)), t);
  }

  lemma {:induction false} KeepKeepsText(subs: seq<Subsection>, pick: Item -> bool, t: Text)
    requires !t.Blank?
    ensures CountIn(KeepSubsections(subs, pick), t) + PickedText(subs, pick, t) == CountIn(subs, t)
  {
    if subs != [] {
      KeepKeepsText(Front(subs), pick, t);
      RestKeepsText(Last(subs).lines, pick, t);
      assert Front(KeepSubsections(subs, pick)) == KeepSubsections(Front(subs), pick);
    }
  }

  lemma {:induction false} CountSectionReplaced(sections: seq<Section>, i: nat, s: Section, t: Text)
    requires i < |sections|
    ensures CountSections(sections[i := s], t) + CountSection(sections[i], t) == CountSections(sections, t) + CountSection(s, t)
  {
    var after := sections[i := s];
    if i == |sections| - 1 {
      assert Front(after) == Front(sections);
    } else {
      assert Front(after) == Front(sections)[i := s];
      CountSectionReplaced(Front(sections), i, s, t);
    }
  }

  // ----- Dropping

  function DroppedText(sections: seq<Section>, historical: set<seq<Line>>, t: Text): nat {
    var u := FindUnreleased(sections);
    if u == |sections| then 0
    else PickedText(sections[u].subsections, InKeys(ReleasedKeys(sections) + historical), t)
  }

  lemma {:induction false} DropKeepsText(sections: seq<Section>, historical: set<seq<Line>>, t: Text)
    requires !t.Blank?
    ensures CountSections(DropDuplicates(sections, historical), t) + DroppedText(sections, historical, t)
            == CountSections(sections, t)
  {
    var u := FindUnreleased(sections);
    if u < |sections| {
      var pick := InKeys(ReleasedKeys(sections) + historical);
      KeepKeepsText(sections[u].subsections, pick, t);
      CountSectionReplaced(sections, u, KeepIn(sections[u], pick), t);
    }
  }

  // ----- Promoting

  /** The text of those bullets the body already had when their turn came. */
  function RepeatedText(lines: seq<Line>, keys: seq<seq<Line>>, t: Text): nat {
    if keys == [] then 0
    else
      RepeatedText(lines, Front(keys), t) +
      if Last(keys) in KeysOf(AddItems(lines, Front(keys))) then Count(Last(keys), t) else 0
  }

  function RepeatedInSubsection(target: Option<Section>, sub: Subsection, promotable: set<nat>, t: Text): nat {
    RepeatedText(BodyUnder(OrNew(target), sub.title), PromotedKeys(sub, promotable), t)
  }

  function RepeatedInSubsections(target: Option<Section>, subs: seq<Subsection>, promotable: set<nat>, t: Text): nat {
    if subs == [] then 0
    else
      RepeatedInSubsections(target, Front(subs), promotable, t) +
      RepeatedInSubsection(PromoteSubsections(target, Front(subs), promotable), Last(subs), promotable, t)
  }

  function RepeatedInSections(target: Option<Section>, sections: seq<Section>, promotable: set<nat>, t: Text): nat {
    if sections == [] then 0
    else
      RepeatedInSections(target, Front(sections), promotable, t) +
      if Last(sections).title.Unreleased? then 0
      else RepeatedInSubsections(PromoteSections(target, Front(sections), promotable), Last(sections).subsections, promotable, t)
  }

  function CountTarget(target: Option<Section>, t: Text): nat {
    if target.Some? then CountSection(target.value, t) else 0
  }

  lemma {:induction false} AddItemsKeepsText(lines: seq<Line>, keys: seq<seq<Line>>, t: Text)
    requires !t.Blank?
    ensures Count(AddItems(lines, keys), t) + RepeatedText(lines, keys, t) == Count(lines, t) + CountKeys(keys, t)
  {
    if keys != [] {
      AddItemsKeepsText(lines, Front(keys), t);
      CountAppend(AddItems(lines, Front(keys)), Last(keys), t);
    }
  }

  lemma {:induction false} PromoteIntoKeepsText(s: Section, title: string, keys: seq<seq<Line>>, t: Text)
    requires !t.Blank?
    ensures CountSection(PromoteInto(s, title, keys), t) + RepeatedText(BodyUnder(s, title), keys, t)
            == CountSection(s, t) + CountKeys(keys, t)
  {
    var i := FindLast(s.subsections, title);
    var sub := Subsection(title, AddItems(BodyUnder(s, title), keys));
    AddItemsKeepsText(BodyUnder(s, title), keys, t);
    if i < |s.subsections| {
      CountReplaced(s.subsections, i, sub, t);
    } else {
      FrontOfAppend(s.subsections, sub);
    }
  }

  lemma {:induction false} PromoteSubsectionKeepsText(target: Option<Section>, sub: Subsection, promotable: set<nat>, t: Text)
    requires !t.Blank?
    ensures CountTarget(PromoteSubsection(target, sub, promotable), t) + RepeatedInSubsection(target, sub, promotable, t)
            == CountTarget(target, t) + CountKeys(PromotedKeys(sub, promotable), t)
  {
    PromoteIntoKeepsText(OrNew(target), sub.title, PromotedKeys(sub, promotable), t);
  }

  lemma {:induction false} PromoteSubsectionsKeepText(target: Option<Section>, subs: seq<Subsection>, promotable: set<nat>, t: Text)
    requires !t.Blank?
    ensures CountTarget(PromoteSubsections(target, subs, promotable), t) + RepeatedInSubsections(target, subs, promotable, t)
            == CountTarget(target, t) + PickedText(subs, StartsOn(promotable), t)
  {
    if subs != [] {
      PromoteSubsectionsKeepText(target, Front(subs), promotable, t);
      PromoteSubsectionKeepsText(PromoteSubsections(target, Front(subs), promotable), Last(subs), promotable, t);
    }
  }

  /** What the released sections lose, the unreleased one gains, but for repetitions. */
  lemma {:induction false} PromoteSectionsKeepText(target: Option<Section>, sections: seq<Section>, promotable: set<nat>, t: Text)
    requires !t.Blank?
    ensures CountTarget(PromoteSections(target, sections, promotable), t)
            + RepeatedInSections(target, sections, promotable, t)
            + CountSections(KeepReleased(sections, promotable), t)
            == CountTarget(target, t) + CountSections(sections, t)
  {
    if sections != [] {
      var front, last := Front(sections), Last(sections);
      PromoteSectionsKeepText(target, front, promotable, t);
      assert Front(KeepReleased(sections, promotable)) == KeepReleased(front, promotable);
      assert Last(KeepReleased(sections, promotable)) == KeepSection(last, promotable);
      if !last.title.Unreleased? {
        PromoteSubsectionsKeepText(PromoteSections(target, front, promotable), last.subsections, promotable, t);
        KeepKeepsText(last.subsections, StartsOn(promotable), t);
      }
    }
  }

  /** The text of promoted bullets that were already in the unreleased section. */
  function AlreadyThere(sections: seq<Section>, promotable: set<nat>, t: Text): nat {
    RepeatedInSections(FirstUnreleased(sections), sections, promotable, t)
  }

  lemma {:induction false} CountOnTop(s: Section, sections: seq<Section>, t: Text)
    ensures CountSections([s] + sections, t) == CountSection(s, t) + CountSections(sections, t)
  {
    if sections == [] {
      assert Front([s]) == [] && [s] + sections == [s];
    } else {
      assert Front([s] + sections) == [s] + Front(sections);
      CountOnTop(s, Front(sections), t);
    }
  }

  lemma {:induction false} PromoteKeepsText(sections: seq<Section>, promotable: set<nat>, t: Text)
    requires !t.Blank?
    ensures CountSections(Promote(sections, promotable), t) + AlreadyThere(sections, promotable, t) == CountSections(sections, t)
  {
    var u, first, kept := FindUnreleased(sections), FirstUnreleased(sections), KeepReleased(sections, promotable);
    var target := PromoteSections(first, sections, promotable);
    PromoteSectionsKeepText(first, sections, promotable, t);
    if u < |sections| {
      TargetStays(first, sections, promotable);
      CountSectionReplaced(kept, u, target.value, t);
      assert kept[u] == sections[u];
    } else if target.Some? {
      CountOnTop(target.value, kept, t);
    }
  }

  lemma {:induction false} TargetStaysThrough(target: Option<Section>, subs: seq<Subsection>, promotable: set<nat>)
    requires target.Some?
    ensures PromoteSubsections(target, subs, promotable).Some?
  {
    if subs != [] {
      TargetStaysThrough(target, Front(subs), promotable);
    }
  }

  lemma {:induction false} TargetStays(target: Option<Section>, sections: seq<Section>, promotable: set<nat>)
    requires target.Some?
    ensures PromoteSections(target, sections, promotable).Some?
  {
    if sections != [] {
      TargetStays(target, Front(sections), promotable);
      TargetStaysThrough(PromoteSections(target, Front(sections), promotable), Last(sections).subsections, promotable);
    }
  }
}
