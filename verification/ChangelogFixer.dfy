/**
 The fixer of `fix-changelogs.ts`: the document as an object whose sections each pass replaces.
 */
module ChangelogFixer {
  import opened Wrappers
  import opened ChangelogText
  import opened ChangelogRemoval
  import opened ChangelogDocument
  import opened ChangelogNormal
  import opened ChangelogOrder
  import opened ChangelogPromotion

  // ----- The promotion loop, which may visit a section twice

  /** The unreleased section after the first `k` sections have been visited. */
  function TargetAt(sections: seq<Section>, k: nat, promotable: set<nat>): Option<Section>
    requires k <= |sections|
  {
    PromoteSections(FirstUnreleased(sections), sections[..k], promotable)
  }

  function HalfKept(sections: seq<Section>, k: nat, promotable: set<nat>): seq<Section>
    requires k <= |sections|
  {
    KeepReleased(sections[..k], promotable) + sections[k..]
  }

  /** The sections after the first `k` have been visited. */
  function StateAt(sections: seq<Section>, k: nat, promotable: set<nat>): seq<Section>
    requires k <= |sections|
  {
    Assemble(HalfKept(sections, k, promotable), FindUnreleased(sections), TargetAt(sections, k, promotable))
  }

  /** How far a newly created section has pushed the others down. */
  function Shift(sections: seq<Section>, k: nat, promotable: set<nat>): nat
    requires k <= |sections|
  {
    if FindUnreleased(sections) == |sections| && TargetAt(sections, k, promotable).Some? then 1 else 0
  }

  lemma {:induction false} TargetNext(sections: seq<Section>, k: nat, promotable: set<nat>)
    requires k < |sections|
    ensures TargetAt(sections, k + 1, promotable)
            == if sections[k].title.Unreleased? then TargetAt(sections, k, promotable)
               else PromoteSubsections(TargetAt(sections, k, promotable), sections[k].subsections, promotable)
  {
    var upTo := sections[..k + 1];
    assert Front(upTo) == sections[..k] && Last(upTo) == sections[k];
  }

  lemma {:induction false} HalfKeptNext(sections: seq<Section>, k: nat, promotable: set<nat>)
    requires k < |sections|
    ensures HalfKept(sections, k + 1, promotable) == HalfKept(sections, k, promotable)[k := KeepSection(sections[k], promotable)]
    ensures HalfKept(sections, k, promotable)[k] == sections[k]
  {
  }

  lemma {:induction false} TargetStaysUnreleased(target: Option<Section>, subs: seq<Subsection>, promotable: set<nat>)
    requires target.Some? ==> target.value.title.Unreleased?
    ensures var t := PromoteSubsections(target, subs, promotable);
            (t.Some? ==> t.value.title.Unreleased?) && (target.Some? ==> t.Some?)
  {
    if subs != [] {
      TargetStaysUnreleased(target, Front(subs), promotable);
    }
  }

  lemma {:induction false} TargetAtStart(sections: seq<Section>, promotable: set<nat>)
    ensures TargetAt(sections, 0, promotable) == FirstUnreleased(sections)
  {
  }

  lemma {:induction false} TargetIsUnreleased(sections: seq<Section>, k: nat, promotable: set<nat>)
    requires k <= |sections|
    ensures var t := TargetAt(sections, k, promotable);
            (t.Some? ==> t.value.title.Unreleased?) && (FindUnreleased(sections) < |sections| ==> t.Some?)
  {
    if k == 0 {
      TargetAtStart(sections, promotable);
    } else {
      var t := TargetAt(sections, k - 1, promotable);
      TargetIsUnreleased(sections, k - 1, promotable);
      TargetNext(sections, k - 1, promotable);
      TargetStaysUnreleased(t, sections[k - 1].subsections, promotable);
    }
  }

  /** Passing over an unreleased section changes nothing. */
  lemma {:induction false} SkipStep(sections: seq<Section>, k: nat, promotable: set<nat>)
    requires k < |sections| && sections[k].title.Unreleased?
    ensures StateAt(sections, k + 1, promotable) == StateAt(sections, k, promotable)
    ensures TargetAt(sections, k + 1, promotable) == TargetAt(sections, k, promotable)
    ensures Shift(sections, k, promotable) == Shift(sections, k + 1, promotable) == 0
    ensures k < |StateAt(sections, k, promotable)| && StateAt(sections, k, promotable)[k].title.Unreleased?
  {
    TargetNext(sections, k, promotable);
    HalfKeptNext(sections, k, promotable);
    TargetIsUnreleased(sections, k, promotable);
    var kept := HalfKept(sections, k, promotable);
    assert kept[k := kept[k]] == kept;
  }

  /** Where the unreleased section is, or would have to be looked for. */
  function Place(sections: seq<Section>, k: nat, promotable: set<nat>): nat
    requires k <= |sections|
  {
    if TargetAt(sections, k, promotable).None? then |sections|
    else if FindUnreleased(sections) < |sections| then FindUnreleased(sections) else 0
  }

  /** What a visit of section `i` makes of the sections. */
  function Visited(now: seq<Section>, i: nat, place: nat, promotable: set<nat>): seq<Section>
    requires i < |now|
  {
    Assemble(now[i := KeepIn(now[i], StartsOn(promotable))], place,
             PromoteSubsections(TargetOf(now, place), now[i].subsections, promotable))
  }

  function TargetOf(now: seq<Section>, place: nat): Option<Section> {
    if place < |now| then Some(now[place]) else None
  }

  /** In the document so far, this is the place and content of the unreleased section. */
  lemma {:induction false} PlaceHolds(sections: seq<Section>, k: nat, promotable: set<nat>)
    requires k <= |sections|
    ensures var now := StateAt(sections, k, promotable);
            && |now| == |sections| + Shift(sections, k, promotable)
            && TargetOf(now, Place(sections, k, promotable)) == TargetAt(sections, k, promotable)
            && (Place(sections, k, promotable) < |now| ==> now[Place(sections, k, promotable)].title.Unreleased?)
  {
    TargetIsUnreleased(sections, k, promotable);
  }

  lemma {:induction false} CurrentSection(sections: seq<Section>, k: nat, promotable: set<nat>)
    requires k < |sections| && !sections[k].title.Unreleased?
    ensures var i := k + Shift(sections, k, promotable);
            i < |StateAt(sections, k, promotable)| && StateAt(sections, k, promotable)[i] == sections[k]
  {
    HalfKeptNext(sections, k, promotable);
    TargetIsUnreleased(sections, k, promotable);
  }

  /** Visiting the next section moves the state on by one. */
  lemma {:induction false} VisitStep(sections: seq<Section>, k: nat, promotable: set<nat>)
    requires k < |sections| && !sections[k].title.Unreleased?
    ensures var i := k + Shift(sections, k, promotable);
            && i < |StateAt(sections, k, promotable)|
            && Visited(StateAt(sections, k, promotable), i, Place(sections, k, promotable), promotable)
               == StateAt(sections, k + 1, promotable)
    ensures Shift(sections, k, promotable) <= Shift(sections, k + 1, promotable)
  {
    TargetNext(sections, k, promotable);
    HalfKeptNext(sections, k, promotable);
    CurrentSection(sections, k, promotable);
    PlaceHolds(sections, k, promotable);
    TargetIsUnreleased(sections, k, promotable);
    TargetStaysUnreleased(TargetAt(sections, k, promotable), sections[k].subsections, promotable);
    AssembleAfterUpdate(HalfKept(sections, k, promotable), k, KeepIn(sections[k], StartsOn(promotable)),
                        FindUnreleased(sections), TargetAt(sections, k, promotable),
                        PromoteSubsections(TargetAt(sections, k, promotable), sections[k].subsections, promotable));
  }

  lemma {:induction false} AssembleAfterUpdate(base: seq<Section>, k: nat, kept: Section, u: nat, t: Option<Section>, t': Option<Section>)
    requires k < |base| && u != k && u <= |base| && (u < |base| ==> t.Some?) && (t.Some? ==> t'.Some?)
    ensures var c := if u == |base| && t.Some? then 1 else 0;
            var place := if t.None? then |base| else if u < |base| then u else 0;
            var now := Assemble(base, u, t);
            && k + c < |now|
            && Assemble(now[k + c := kept], place, t') == Assemble(base[k := kept], u, t')
  {
  }

  lemma {:induction false} NothingToPromote(target: Option<Section>, subs: seq<Subsection>, promotable: set<nat>)
    ensures PromoteSubsections(target, KeepSubsections(subs, StartsOn(promotable)), promotable) == target
    ensures KeepSubsections(KeepSubsections(subs, StartsOn(promotable)), StartsOn(promotable))
            == KeepSubsections(subs, StartsOn(promotable))
    ensures CountPicked(KeepSubsections(subs, StartsOn(promotable)), StartsOn(promotable)) == 0
    ensures Removable(KeepSubsections(subs, StartsOn(promotable)), StartsOn(promotable))
  {
    var kept := KeepSubsections(subs, StartsOn(promotable));
    if subs != [] {
      NothingToPromote(target, Front(subs), promotable);
      assert Front(kept) == KeepSubsections(Front(subs), StartsOn(promotable));
    }
    forall j | 0 <= j < |subs|
      ensures Picked(Split(kept[j].lines).items, StartsOn(promotable)) == []
      ensures RestOf(kept[j].lines, StartsOn(promotable)) == kept[j].lines
    {
      RemovingTwiceIsRemovingOnce(subs[j].lines, StartsOn(promotable));
    }
    if subs != [] {
      assert Picked(Split(kept[|subs| - 1].lines).items, StartsOn(promotable)) == [];
    }
  }

  lemma {:induction false} RoundAgain(sections: seq<Section>, k: nat, promotable: set<nat>)
    requires 0 < k <= |sections| && Shift(sections, k, promotable) == 1
    ensures var now := StateAt(sections, k, promotable);
            && k < |now| && Place(sections, k, promotable) == 0 && !sections[k - 1].title.Unreleased?
            && now[0] == TargetAt(sections, k, promotable).value
            && now[k] == KeepIn(sections[k - 1], StartsOn(promotable))
  {
    assert StateAt(sections, k, promotable)[k] == HalfKept(sections, k, promotable)[k - 1]
        == KeepSection(sections[k - 1], promotable);
  }

  /** Creating the unreleased section makes the loop come back to the section it was at; the second
      visit changes nothing. */
  lemma {:induction false} RevisitStep(sections: seq<Section>, k: nat, promotable: set<nat>)
    requires 0 < k <= |sections| && Shift(sections, k, promotable) == 1
    ensures var now := StateAt(sections, k, promotable);
            && k < |now| && !now[k].title.Unreleased?
            && Visited(now, k, Place(sections, k, promotable), promotable) == now
            && CountPicked(now[k].subsections, StartsOn(promotable)) == 0
            && Removable(now[k].subsections, StartsOn(promotable))
  {
    var now := StateAt(sections, k, promotable);
    RoundAgain(sections, k, promotable);
    NothingToPromote(Some(now[0]), sections[k - 1].subsections, promotable);
    assert now[k := now[k]] == now;
    assert now[0 := now[0]] == now;
  }

  // ----- The document as an object

  function PromotedCount(sections: seq<Section>, promotable: set<nat>): nat {
    if sections == [] then 0
    else
      PromotedCount(Front(sections), promotable) +
      if Last(sections).title.Unreleased? then 0 else CountPicked(Last(sections).subsections, StartsOn(promotable))
  }

  ghost predicate RisingSection(s: Section) {
    forall j :: 0 <= j < |s.subsections| ==> Rising(s.subsections[j].lines)
  }

  ghost predicate ReleasesRise(sections: seq<Section>) {
    forall j :: 0 <= j < |sections| && !sections[j].title.Unreleased? ==> RisingSection(sections[j])
  }

  /** The loop of the promotion: `k` sections have been visited, and the next is the one at `i` unless
      the last one comes round again. */
  ghost predicate AtSection(before: seq<Section>, now: seq<Section>, i: nat, k: nat, place: nat, promotable: set<nat>) {
    && k <= |before| && now == StateAt(before, k, promotable) && i <= |now| && place == Place(before, k, promotable)
    && (i == k + Shift(before, k, promotable) || ComesRound(before, i, k, promotable))
  }

  ghost predicate ComesRound(before: seq<Section>, i: nat, k: nat, promotable: set<nat>)
    requires k <= |before|
  {
    0 < k && i == k && Shift(before, k, promotable) == 1
  }

  lemma {:induction false} AtStart(before: seq<Section>, promotable: set<nat>)
    ensures AtSection(before, before, 0, 0, FindUnreleased(before), promotable)
  {
    var u := FindUnreleased(before);
    assert HalfKept(before, 0, promotable) == before;
    assert u < |before| ==> before[u := before[u]] == before;
  }

  lemma {:induction false} AtEnd(before: seq<Section>, now: seq<Section>, i: nat, k: nat, place: nat, promotable: set<nat>)
    requires AtSection(before, now, i, k, place, promotable) && i == |now|
    ensures k == |before| && now == Promote(before, promotable)
  {
    PlaceHolds(before, k, promotable);
    assert before[..|before|] == before;
    assert HalfKept(before, |before|, promotable) == KeepReleased(before, promotable);
  }

  lemma {:induction false} CountNext(before: seq<Section>, k: nat, promotable: set<nat>)
    requires k < |before|
    ensures PromotedCount(before[..k + 1], promotable) == PromotedCount(before[..k], promotable) +
            if before[k].title.Unreleased? then 0 else CountPicked(before[k].subsections, StartsOn(promotable))
  {
    assert Front(before[..k + 1]) == before[..k];
  }

  lemma {:induction false} SkipLoop(before: seq<Section>, now: seq<Section>, i: nat, k: nat, place: nat, promotable: set<nat>)
    requires AtSection(before, now, i, k, place, promotable) && i < |now| && now[i].title.Unreleased?
    ensures k < |before| && AtSection(before, now, i + 1, k + 1, place, promotable)
    ensures PromotedCount(before[..k + 1], promotable) == PromotedCount(before[..k], promotable)
  {
    PlaceHolds(before, k, promotable);
    if ComesRound(before, i, k, promotable) {
      RevisitStep(before, k, promotable);
    }
    if !before[k].title.Unreleased? {
      CurrentSection(before, k, promotable);
    }
    SkipStep(before, k, promotable);
    CountNext(before, k, promotable);
  }

  function NewPlace(now: seq<Section>, after: seq<Section>, place: nat): nat {
    if place < |now| then place else if |after| > |now| then 0 else |after|
  }

  lemma {:induction false} VisitLoop(before: seq<Section>, now: seq<Section>, i: nat, k: nat, place: nat, promotable: set<nat>)
    requires AtSection(before, now, i, k, place, promotable) && i < |now| && !now[i].title.Unreleased?
    requires !ComesRound(before, i, k, promotable)
    requires ReleasesRise(before)
    ensures place != i && Removable(now[i].subsections, StartsOn(promotable)) && k < |before|
    ensures var after := Visited(now, i, place, promotable);
            AtSection(before, after, i + 1, k + 1, NewPlace(now, after, place), promotable)
    ensures PromotedCount(before[..k + 1], promotable)
            == PromotedCount(before[..k], promotable) + CountPicked(now[i].subsections, StartsOn(promotable))
  {
    PlaceHolds(before, k, promotable);
    if before[k].title.Unreleased? {
      SkipStep(before, k, promotable);
    }
    CurrentSection(before, k, promotable);
    VisitStep(before, k, promotable);
    PlaceHolds(before, k + 1, promotable);
    TargetNext(before, k, promotable);
    TargetIsUnreleased(before, k, promotable);
    TargetStaysUnreleased(TargetAt(before, k, promotable), before[k].subsections, promotable);
    CountNext(before, k, promotable);
  }

  lemma {:induction false} RevisitLoop(before: seq<Section>, now: seq<Section>, i: nat, k: nat, place: nat, promotable: set<nat>)
    requires AtSection(before, now, i, k, place, promotable) && ComesRound(before, i, k, promotable)
    ensures i < |now| && place != i && Removable(now[i].subsections, StartsOn(promotable))
    ensures var after := Visited(now, i, place, promotable);
            AtSection(before, after, i + 1, k, NewPlace(now, after, place), promotable)
    ensures CountPicked(now[i].subsections, StartsOn(promotable)) == 0
  {
    PlaceHolds(before, k, promotable);
    RevisitStep(before, k, promotable);
  }

  function NextCount(before: seq<Section>, i: nat, k: nat, promotable: set<nat>): nat
    requires k <= |before|
  {
    if 0 < k && i == k && Shift(before, k, promotable) == 1 then k else k + 1
  }

  /** One round of the loop, for the first or the second time. */
  lemma {:induction false} LoopStep(before: seq<Section>, now: seq<Section>, i: nat, k: nat, place: nat, promotable: set<nat>)
    requires AtSection(before, now, i, k, place, promotable) && i < |now| && !now[i].title.Unreleased?
    requires ReleasesRise(before)
    ensures place != i && Removable(now[i].subsections, StartsOn(promotable))
    ensures var after, next := Visited(now, i, place, promotable), NextCount(before, i, k, promotable);
            && AtSection(before, after, i + 1, next, NewPlace(now, after, place), promotable)
            && PromotedCount(before[..next], promotable)
               == PromotedCount(before[..k], promotable) + CountPicked(now[i].subsections, StartsOn(promotable))
            && (next == k ==> |after| == |now|)
  {
    if ComesRound(before, i, k, promotable) {
      RevisitLoop(before, now, i, k, place, promotable);
    } else {
      VisitLoop(before, now, i, k, place, promotable);
    }
  }

  class Changelog {
    var prefix: seq<Line>
    var sections: seq<Section>

    ghost function Doc(): Document
      reads this
    {
      Document(prefix, sections)
    }

    constructor (content: seq<Text>)
      ensures Doc() == Parse(content)
    {
      var d := ParseChangelog(content);
      prefix, sections := d.prefix, d.sections;
    }

    method DropUnreleasedDuplicatesOfReleased(historical: set<seq<Line>>) returns (dropped: nat)
      requires forall j :: 0 <= j < |sections| ==> RisingSection(sections[j])
      modifies this
      ensures prefix == old(prefix) && sections == DropDuplicates(old(sections), historical)
      ensures dropped == DroppedCount(old(sections), historical)
    {
      var u := FindUnreleased(sections);
      if u == |sections| {
        return 0;
      }
      var keys := CollectReleasedItemKeys(sections);
      keys := keys + historical;
      var kept;
      kept, dropped := DropFrom(sections[u], keys);
      sections := sections[u := kept];
    }

    /** Moves the promotable bullets of one released section to the unreleased one, which is put on
        top if it does not exist yet. */
    method Visit(i: nat, place: nat, promotable: set<nat>) returns (newPlace: nat, promoted: nat)
      requires i < |sections| && place != i && Removable(sections[i].subsections, StartsOn(promotable))
      modifies this
      ensures prefix == old(prefix) && sections == Visited(old(sections), i, place, promotable)
      ensures promoted == CountPicked(old(sections)[i].subsections, StartsOn(promotable))
      ensures newPlace == NewPlace(old(sections), sections, place)
    {
      var target := if place < |sections| then Some(sections[place]) else None;
      var kept, t;
      kept, t, promoted := PromoteFrom(sections[i], target, promotable);
      sections := sections[i := kept];
      newPlace := place;
      if place < |sections| {
        if t.Some? {
          sections := sections[place := t.value];
        }
      } else if t.Some? {
        sections, newPlace := [t.value] + sections, 0;
      } else {
        newPlace := |sections|;
      }
    }

    /** One round of the promotion. */
    method PromoteStep(ghost before: seq<Section>, i: nat, ghost k: nat, place: nat, promotable: set<nat>)
      returns (newPlace: nat, promoted: nat, ghost next: nat)
      requires AtSection(before, sections, i, k, place, promotable) && i < |sections| && ReleasesRise(before)
      modifies this
      ensures prefix == old(prefix) && AtSection(before, sections, i + 1, next, newPlace, promotable)
      ensures PromotedCount(before[..next], promotable) == PromotedCount(before[..k], promotable) + promoted
      ensures k <= next && (next == k ==> |sections| == |old(sections)|)
    {
      if sections[i].title.Unreleased? {
        SkipLoop(before, sections, i, k, place, promotable);
        return place, 0, k + 1;
      }
      LoopStep(before, sections, i, k, place, promotable);
      next := NextCount(before, i, k, promotable);
      newPlace, promoted := Visit(i, place, promotable);
    }

    /** The promotion: the loop walks over a list that it may itself extend at the front. */
    method PromoteAddedItems(promotable: set<nat>) returns (promoted: nat)
      requires ReleasesRise(sections)
      modifies this
      ensures prefix == old(prefix) && sections == Promote(old(sections), promotable)
      ensures promoted == PromotedCount(old(sections), promotable)
    {
      ghost var before, k := sections, 0;
      var place, i := FindUnreleased(sections), 0;
      promoted := 0;
      AtStart(before, promotable);
      while i < |sections|
        invariant prefix == old(prefix) && AtSection(before, sections, i, k, place, promotable)
        invariant promoted == PromotedCount(before[..k], promotable)
        decreases |before| - k, |sections| - i
      {
        var count;
        place, count, k := PromoteStep(before, i, k, place, promotable);
        promoted := promoted + count;
        i := i + 1;
      }
      AtEnd(before, sections, i, k, place, promotable);
      assert before[..|before|] == before;
    }

    /** Every section is put into normal form. */
    method NormalizeSections() returns (mergedDuplicateHeadings: nat, removedEmptyHeadings: nat)
      modifies this
      ensures prefix == old(prefix) && sections == NormalizeAll(old(sections))
      ensures removedEmptyHeadings == BlankHeadings(old(sections))
      ensures Headings(sections) + mergedDuplicateHeadings + removedEmptyHeadings == Headings(old(sections))
    {
      mergedDuplicateHeadings, removedEmptyHeadings := 0, 0;
      ghost var before := sections;
      NothingNormalized(before);
      for i := 0 to |sections|
        invariant prefix == old(prefix) && |sections| == |before|
        invariant NormalizedUpTo(before, sections, i, mergedDuplicateHeadings, removedEmptyHeadings)
      {
        ghost var duplicates, blanks := mergedDuplicateHeadings, removedEmptyHeadings;
        CurrentIsOld(before, sections, i, duplicates, blanks);
        var section, merged, removed := NormalizeSection(sections[i]);
        NormalizeStep(before, sections, i, duplicates, blanks, section, merged);
        sections := sections[i := section];
        mergedDuplicateHeadings := mergedDuplicateHeadings + merged;
        removedEmptyHeadings := removedEmptyHeadings + removed;
      }
      AllNormalized(before, sections, mergedDuplicateHeadings, removedEmptyHeadings);
    }

    method SortReleases()
      modifies this
      ensures prefix == old(prefix) && sections == SortSections(old(sections))
    {
      sections := SortReleaseSections(sections);
    }
  }

  function NormalizeAll(sections: seq<Section>): (r: seq<Section>)
    ensures |r| == |sections|
  {
    if sections == [] then [] else NormalizeAll(Front(sections)) + [Normalize(Last(sections))]
  }

  lemma {:induction false} NormalizeEach(sections: seq<Section>, j: nat)
    requires j < |sections|
    ensures NormalizeAll(sections)[j] == Normalize(sections[j])
  {
    if j < |sections| - 1 {
      NormalizeEach(Front(sections), j);
    }
  }

  /** How many subsection headings there are. */
  function Headings(sections: seq<Section>): nat {
    if sections == [] then 0 else Headings(Front(sections)) + |Last(sections).subsections|
  }

  /** How many of them have no text below them. */
  function BlankHeadings(sections: seq<Section>): nat {
    if sections == [] then 0 else BlankHeadings(Front(sections)) + Blanks(Last(sections).subsections)
  }

  /** The first `i` sections are normalised, at the cost of so many duplicate and blank headings. */
  ghost predicate NormalizedUpTo(before: seq<Section>, now: seq<Section>, i: nat, duplicates: nat, blanks: nat) {
    && i <= |before| && now == NormalizeAll(before[..i]) + before[i..]
    && blanks == BlankHeadings(before[..i])
    && Headings(NormalizeAll(before[..i])) + duplicates + blanks == Headings(before[..i])
  }

  lemma {:induction false} NothingNormalized(before: seq<Section>)
    ensures NormalizedUpTo(before, before, 0, 0, 0)
  {
  }

  lemma {:induction false} AllNormalized(before: seq<Section>, now: seq<Section>, duplicates: nat, blanks: nat)
    requires NormalizedUpTo(before, now, |before|, duplicates, blanks)
    ensures now == NormalizeAll(before) && blanks == BlankHeadings(before)
    ensures Headings(now) + duplicates + blanks == Headings(before)
  {
    assert before[..|before|] == before && before[|before|..] == [];
    assert NormalizeAll(before) + [] == NormalizeAll(before);
  }

  lemma {:induction false} CurrentIsOld(before: seq<Section>, now: seq<Section>, i: nat, duplicates: nat, blanks: nat)
    requires NormalizedUpTo(before, now, i, duplicates, blanks) && i < |before|
    ensures |now| == |before| && now[i] == before[i]
  {
  }

  lemma {:induction false} NormalizeStep(
      before: seq<Section>, now: seq<Section>, i: nat, duplicates: nat, blanks: nat, s: Section, merged: nat)
    requires NormalizedUpTo(before, now, i, duplicates, blanks) && i < |before| && i < |now|
    requires s == Normalize(before[i])
    requires |s.subsections| + merged + Blanks(before[i].subsections) == |before[i].subsections|
    ensures NormalizedUpTo(before, now[i := s], i + 1, duplicates + merged, blanks + Blanks(before[i].subsections))
  {
    NormalizeAllNext(before, i);
    HeadingsNext(before, i);
    ReplaceInTail(NormalizeAll(before[..i]), before, i, s);
  }

  lemma {:induction false} ReplaceInTail<T>(a: seq<T>, b: seq<T>, i: nat, y: T)
    requires |a| == i < |b|
    ensures (a + b[i..])[i := y] == a + [y] + b[i + 1..]
  {
  }

  lemma {:induction false} HeadingsNext(sections: seq<Section>, i: nat)
    requires i < |sections|
    ensures Headings(sections[..i + 1]) == Headings(sections[..i]) + |sections[i].subsections|
    ensures BlankHeadings(sections[..i + 1]) == BlankHeadings(sections[..i]) + Blanks(sections[i].subsections)
    ensures Headings(NormalizeAll(sections[..i + 1])) == Headings(NormalizeAll(sections[..i])) + |Normalize(sections[i]).subsections|
  {
    assert Front(sections[..i + 1]) == sections[..i];
    NormalizeAllNext(sections, i);
    FrontOfAppend(NormalizeAll(sections[..i]), Normalize(sections[i]));
  }

  lemma {:induction false} NormalizeAllNext(sections: seq<Section>, i: nat)
    requires i < |sections|
    ensures NormalizeAll(sections[..i + 1]) == NormalizeAll(sections[..i]) + [Normalize(sections[i])]
  {
    var upTo := sections[..i + 1];
    assert Front(upTo) == sections[..i] && Last(upTo) == sections[i];
  }

  function DroppedCount(sections: seq<Section>, historical: set<seq<Line>>): nat {
    var u := FindUnreleased(sections);
    if u == |sections| then 0 else CountPicked(sections[u].subsections, InKeys(ReleasedKeys(sections) + historical))
  }
}
