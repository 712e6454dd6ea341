/**
 Moving bullets between sections in `fix-changelogs.ts`: unreleased bullets that a release already has
 are dropped, and bullets newly added to a release are promoted to the unreleased section.
 */
module ChangelogPromotion {
  import opened Wrappers
  import opened ChangelogText
  import opened ChangelogItems
  import opened ChangelogRemoval
  import opened ChangelogDocument
  import opened ChangelogOrder

  // ----- Keys of released bullets

  function KeySet(lines: seq<Line>): set<seq<Line>> {
    set key | key in KeysOf(lines)
  }

  function SubsectionKeys(subs: seq<Subsection>): set<seq<Line>> {
    if subs == [] then {} else SubsectionKeys(Front(subs)) + KeySet(Last(subs).lines)
  }

  function ReleasedKeys(sections: seq<Section>): set<seq<Line>> {
    if sections == [] then {}
    else ReleasedKeys(Front(sections)) + if Last(sections).title.Unreleased? then {} else SubsectionKeys(Last(sections).subsections)
  }

  method CollectKeys(subs: seq<Subsection>) returns (keys: set<seq<Line>>)
    ensures keys == SubsectionKeys(subs)
  {
    keys := {};
    for j := 0 to |subs|
      invariant keys == SubsectionKeys(subs[..j])
    {
      assert Front(subs[..j + 1]) == subs[..j];
      var items := ParseItems(subs[j].lines);
      var here := set i | 0 <= i < |items| :: items[i].lines;
      SameKeys(items, subs[j].lines, here);
      keys := keys + here;
    }
    assert subs[..|subs|] == subs;
  }

  lemma {:induction false} SameKeys(items: seq<Item>, lines: seq<Line>, here: set<seq<Line>>)
    requires Describe(items, Split(lines).items) && here == set i | 0 <= i < |items| :: items[i].lines
    ensures here == KeySet(lines)
  {
    forall i | 0 <= i < |items| ensures items[i].lines == KeysOf(lines)[i] {
    }
    forall key | key in KeySet(lines) ensures key in here {
      var i :| 0 <= i < |KeysOf(lines)| && KeysOf(lines)[i] == key;
      assert items[i].lines == key;
    }
  }

  method CollectReleasedItemKeys(sections: seq<Section>) returns (keys: set<seq<Line>>)
    ensures keys == ReleasedKeys(sections)
  {
    keys := {};
    for j := 0 to |sections|
      invariant keys == ReleasedKeys(sections[..j])
    {
      assert Front(sections[..j + 1]) == sections[..j];
      if !sections[j].title.Unreleased? {
        var here := CollectKeys(sections[j].subsections);
        keys := keys + here;
      }
    }
    assert sections[..|sections|] == sections;
  }

  // ----- Taking bullets out of a section

  function KeepSubsections(subs: seq<Subsection>, pick: Item -> bool): (r: seq<Subsection>)
    ensures |r| == |subs|
    ensures forall j :: 0 <= j < |r| ==> r[j] == Subsection(subs[j].title, RestOf(subs[j].lines, pick))
  {
    seq(|subs|, j requires 0 <= j < |subs| => Subsection(subs[j].title, RestOf(subs[j].lines, pick)))
  }

  function KeepIn(s: Section, pick: Item -> bool): Section {
    s.(subsections := KeepSubsections(s.subsections, pick))
  }

  function CountPicked(subs: seq<Subsection>, pick: Item -> bool): nat {
    if subs == [] then 0 else CountPicked(Front(subs), pick) + |Picked(Split(Last(subs).lines).items, pick)|
  }

  /** Removal by number is exact where numbers rise, and where there is nothing to remove. */
  ghost predicate Removable(subs: seq<Subsection>, pick: Item -> bool) {
    forall j :: 0 <= j < |subs| ==> Picked(Split(subs[j].lines).items, pick) == [] || Rising(subs[j].lines)
  }

  lemma {:induction false} KeepAppend(subs: seq<Subsection>, j: nat, pick: Item -> bool)
    requires j < |subs|
    ensures KeepSubsections(subs[..j + 1], pick)
            == KeepSubsections(subs[..j], pick) + [Subsection(subs[j].title, RestOf(subs[j].lines, pick))]
    ensures CountPicked(subs[..j + 1], pick) == CountPicked(subs[..j], pick) + |Picked(Split(subs[j].lines).items, pick)|
  {
    assert Front(subs[..j + 1]) == subs[..j];
  }

  // ----- Dropping

  function InKeys(keys: set<seq<Line>>): Item -> bool {
    (item: Item) => item.lines in keys
  }

  function DropDuplicates(sections: seq<Section>, historical: set<seq<Line>>): seq<Section> {
    var u := FindUnreleased(sections);
    if u == |sections| then sections
    else sections[u := KeepIn(sections[u], InKeys(ReleasedKeys(sections) + historical))]
  }

  method DropFrom(s: Section, keys: set<seq<Line>>) returns (kept: Section, dropped: nat)
    requires Removable(s.subsections, InKeys(keys))
    ensures kept == KeepIn(s, InKeys(keys)) && dropped == CountPicked(s.subsections, InKeys(keys))
  {
    var pick := InKeys(keys);
    var subs := [];
    dropped := 0;
    for j := 0 to |s.subsections|
      invariant subs == KeepSubsections(s.subsections[..j], pick) && dropped == CountPicked(s.subsections[..j], pick)
    {
      KeepAppend(s.subsections, j, pick);
      var rest, taken := TakeItems(s.subsections[j].lines, pick);
      subs := subs + [Subsection(s.subsections[j].title, rest)];
      dropped := dropped + |taken|;
    }
    assert s.subsections[..|s.subsections|] == s.subsections;
    kept := s.(subsections := subs);
  }

  // ----- Promoting

  const UNRELEASED: Section := Section("## [Unreleased]", Unreleased, [], [])

  function StartsOn(promotable: set<nat>): Item -> bool {
    (item: Item) => item.startLine in promotable
  }

  /** The last subsection with this title, or the end. */
  function FindLast(subs: seq<Subsection>, title: string): (i: nat)
    ensures i <= |subs|
    ensures i < |subs| ==> subs[i].title == title
  {
    if subs == [] then 0
    else if Last(subs).title == title then |subs| - 1
    else
      var i := FindLast(Front(subs), title);
      if i < |subs| - 1 then i else |subs|
  }

  function AddItems(lines: seq<Line>, keys: seq<seq<Line>>): seq<Line> {
    if keys == [] then lines
    else
      var before := AddItems(lines, Front(keys));
      if Last(keys) in KeysOf(before) then before else Append(before, Last(keys))
  }

  function BodyUnder(t: Section, title: string): seq<Line> {
    var i := FindLast(t.subsections, title);
    if i < |t.subsections| then t.subsections[i].lines else []
  }

  function PromoteInto(t: Section, title: string, keys: seq<seq<Line>>): Section {
    var i := FindLast(t.subsections, title);
    var sub := Subsection(title, AddItems(BodyUnder(t, title), keys));
    t.(subsections := if i < |t.subsections| then t.subsections[i := sub] else t.subsections + [sub])
  }

  /** The bullets of a subsection that start on a promotable line. */
  function PromotedKeys(sub: Subsection, promotable: set<nat>): seq<seq<Line>> {
    Keys(Picked(Split(sub.lines).items, StartsOn(promotable)))
  }

  function OrNew(target: Option<Section>): Section {
    if target.Some? then target.value else UNRELEASED
  }

  function PromoteSubsection(target: Option<Section>, sub: Subsection, promotable: set<nat>): Option<Section> {
    var keys := PromotedKeys(sub, promotable);
    if keys == [] then target else Some(PromoteInto(OrNew(target), sub.title, keys))
  }

  function PromoteSubsections(target: Option<Section>, subs: seq<Subsection>, promotable: set<nat>): Option<Section> {
    if subs == [] then target
    else PromoteSubsection(PromoteSubsections(target, Front(subs), promotable), Last(subs), promotable)
  }

  function PromoteSections(target: Option<Section>, sections: seq<Section>, promotable: set<nat>): Option<Section> {
    if sections == [] then target
    else
      var before, s := PromoteSections(target, Front(sections), promotable), Last(sections);
      if s.title.Unreleased? then before else PromoteSubsections(before, s.subsections, promotable)
  }

  function KeepSection(s: Section, promotable: set<nat>): Section {
    if s.title.Unreleased? then s else KeepIn(s, StartsOn(promotable))
  }

  function KeepReleased(sections: seq<Section>, promotable: set<nat>): (r: seq<Section>)
    ensures |r| == |sections| && forall j :: 0 <= j < |r| ==> r[j] == KeepSection(sections[j], promotable)
  {
    seq(|sections|, j requires 0 <= j < |sections| => KeepSection(sections[j], promotable))
  }

  /** Puts the unreleased section where it was, or on top if there was none. */
  function Assemble(sections: seq<Section>, u: nat, target: Option<Section>): seq<Section> {
    if target.None? then sections
    else if u < |sections| then sections[u := target.value]
    else [target.value] + sections
  }

  function FirstUnreleased(sections: seq<Section>): Option<Section> {
    var u := FindUnreleased(sections);
    if u < |sections| then Some(sections[u]) else None
  }

  function Promote(sections: seq<Section>, promotable: set<nat>): seq<Section> {
    Assemble(KeepReleased(sections, promotable), FindUnreleased(sections),
             PromoteSections(FirstUnreleased(sections), sections, promotable))
  }

  method SubsectionHasItem(lines: seq<Line>, key: seq<Line>) returns (found: bool)
    ensures found <==> key in KeysOf(lines)
  {
    var items := ParseItems(lines);
    for j := 0 to |items|
      invariant forall i :: 0 <= i < j ==> KeysOf(lines)[i] != key
    {
      if items[j].lines == key {
        assert KeysOf(lines)[j] == key;
        return true;
      }
    }
    return false;
  }

  /** Appends each promoted bullet unless the body has it. */
  method AppendMissing(lines: seq<Line>, items: seq<Item>, ghost raw: seq<seq<Line>>) returns (r: seq<Line>)
    requires Describe(items, raw)
    ensures r == AddItems(lines, Keys(raw))
  {
    r := lines;
    for j := 0 to |items|
      invariant r == AddItems(lines, Keys(raw)[..j])
    {
      assert Front(Keys(raw)[..j + 1]) == Keys(raw)[..j];
      var found := SubsectionHasItem(r, items[j].lines);
      if !found {
        r := AppendSubsectionLines(r, items[j].lines);
      }
    }
    assert Keys(raw)[..|items|] == Keys(raw);
  }

  method PromoteItems(target: Option<Section>, title: string, items: seq<Item>, ghost raw: seq<seq<Line>>) returns (t: Section)
    requires Describe(items, raw)
    ensures t == PromoteInto(OrNew(target), title, Keys(raw))
  {
    t := OrNew(target);
    var place := FindLast(t.subsections, title);
    var body := if place < |t.subsections| then t.subsections[place].lines else [];
    var lines := AppendMissing(body, items, raw);
    var sub := Subsection(title, lines);
    t := t.(subsections := if place < |t.subsections| then t.subsections[place := sub] else t.subsections + [sub]);
  }

  lemma {:induction false} PromoteNext(target: Option<Section>, subs: seq<Subsection>, j: nat, promotable: set<nat>)
    requires j < |subs|
    ensures PromoteSubsections(target, subs[..j + 1], promotable)
            == PromoteSubsection(PromoteSubsections(target, subs[..j], promotable), subs[j], promotable)
  {
    assert Front(subs[..j + 1]) == subs[..j];
  }

  /** The inner loop of the promotion: what leaves a released section arrives in the target. */
  method PromoteFrom(s: Section, target: Option<Section>, promotable: set<nat>)
    returns (kept: Section, t: Option<Section>, promoted: nat)
    requires Removable(s.subsections, StartsOn(promotable))
    ensures kept == KeepIn(s, StartsOn(promotable))
    ensures t == PromoteSubsections(target, s.subsections, promotable)
    ensures promoted == CountPicked(s.subsections, StartsOn(promotable))
  {
    var pick := StartsOn(promotable);
    var subs := [];
    t, promoted := target, 0;
    for j := 0 to |s.subsections|
      invariant subs == KeepSubsections(s.subsections[..j], pick) && promoted == CountPicked(s.subsections[..j], pick)
      invariant t == PromoteSubsections(target, s.subsections[..j], promotable)
    {
      KeepAppend(s.subsections, j, pick);
      PromoteNext(target, s.subsections, j, promotable);
      var rest, taken := TakeItems(s.subsections[j].lines, pick);
      subs := subs + [Subsection(s.subsections[j].title, rest)];
      if |taken| > 0 {
        var section := PromoteItems(t, s.subsections[j].title, taken, Picked(Split(s.subsections[j].lines).items, pick));
        t := Some(section);
      }
      promoted := promoted + |taken|;
    }
    assert s.subsections[..|s.subsections|] == s.subsections;
    kept := s.(subsections := subs);
  }
}
