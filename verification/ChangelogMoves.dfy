/**
 Which bullets `fix-changelogs.ts` drops from the unreleased section and which it moves there, said by the
 sections, headings and line numbers of the file.
 */
module ChangelogMoves {
  import opened Wrappers
  import opened ChangelogText
  import opened ChangelogLists
  import opened ChangelogItems
  import opened ChangelogRemoval
  import opened ChangelogDocument
  import opened ChangelogOrder
  import opened ChangelogPromotion
  import opened ChangelogFixer
  import opened ChangelogLaws
  import opened ChangelogArrival

  // ----- Dropping

  /** Some release has this bullet. */
  ghost predicate InRelease(sections: seq<Section>, key: seq<Line>) {
    exists k, j :: 0 <= k < |sections| && !sections[k].title.Unreleased? && 0 <= j < |sections[k].subsections|
                   && key in KeysOf(sections[k].subsections[j].lines)
  }

  ghost predicate InSubsections(subs: seq<Subsection>, key: seq<Line>) {
    exists j :: 0 <= j < |subs| && key in KeysOf(subs[j].lines)
  }

  lemma {:induction false} SubsectionKeysExactly(subs: seq<Subsection>, key: seq<Line>)
    ensures key in SubsectionKeys(subs) <==> InSubsections(subs, key)
  {
    if subs != [] {
      var n := |subs| - 1;
      SubsectionKeysExactly(Front(subs), key);
      if InSubsections(Front(subs), key) {
        var j :| 0 <= j < n && key in KeysOf(Front(subs)[j].lines);
        assert key in KeysOf(subs[j].lines);
      }
      if InSubsections(subs, key) {
        var j :| 0 <= j < |subs| && key in KeysOf(subs[j].lines);
        assert j < n ==> key in KeysOf(Front(subs)[j].lines);
      }
    }
  }

  lemma {:induction false} ReleasedKeysExactly(sections: seq<Section>, key: seq<Line>)
    ensures key in ReleasedKeys(sections) <==>
            exists k :: 0 <= k < |sections| && !sections[k].title.Unreleased? && InSubsections(sections[k].subsections, key)
  {
    if sections != [] {
      var n := |sections| - 1;
      ReleasedKeysExactly(Front(sections), key);
      SubsectionKeysExactly(sections[n].subsections, key);
      if k :| 0 <= k < n && !sections[k].title.Unreleased? && InSubsections(sections[k].subsections, key) {
        assert Front(sections)[k] == sections[k];
      }
    }
  }

  lemma {:induction false} ReleasedExactly(sections: seq<Section>, key: seq<Line>)
    ensures key in ReleasedKeys(sections) <==> InRelease(sections, key)
  {
    ReleasedKeysExactly(sections, key);
    if k :| 0 <= k < |sections| && !sections[k].title.Unreleased? && InSubsections(sections[k].subsections, key) {
      var j :| 0 <= j < |sections[k].subsections| && key in KeysOf(sections[k].subsections[j].lines);
    }
    if k, j :| 0 <= k < |sections| && !sections[k].title.Unreleased? && 0 <= j < |sections[k].subsections|
               && key in KeysOf(sections[k].subsections[j].lines) {
      assert InSubsections(sections[k].subsections, key);
    }
  }

  /** The bullets, in order, that no release has and that are not historical. */
  ghost function Remaining(items: seq<seq<Line>>, sections: seq<Section>, historical: set<seq<Line>>): seq<seq<Line>> {
    if items == [] then []
    else
      var n := |items| - 1;
      var before := Remaining(items[..n], sections, historical);
      if InRelease(sections, Key(items[n])) || Key(items[n]) in historical then before else before + [items[n]]
  }

  lemma {:induction false} RemainingIsUnpicked(items: seq<seq<Line>>, sections: seq<Section>, historical: set<seq<Line>>)
    requires AreItems(items)
    ensures Unpicked(items, InKeys(ReleasedKeys(sections) + historical)) == Remaining(items, sections, historical)
  {
    if items != [] {
      var n := |items| - 1;
      assert IsItem(items[n]);
      RemainingIsUnpicked(items[..n], sections, historical);
      ReleasedExactly(sections, Key(items[n]));
    }
  }

  /** Subsection `r` is `sub` without the bullets that some release or the history has. */
  ghost predicate Dropped(sub: Subsection, r: Subsection, sections: seq<Section>, historical: set<seq<Line>>) {
    && r.title == sub.title
    && Split(r.lines) == Parts(Split(sub.lines).preamble, Remaining(Split(sub.lines).items, sections, historical))
  }

  /** The first unreleased section loses exactly its bullets that some release or the history has, and no
      other section changes. */
  lemma {:induction false} DropsExactly(sections: seq<Section>, historical: set<seq<Line>>, u: nat)
    requires u < |sections| && forall k :: 0 <= k < u ==> !sections[k].title.Unreleased?
    ensures var after := DropDuplicates(sections, historical);
            && |after| == |sections|
            && (!sections[u].title.Unreleased? ==> after[u] == sections[u])
            && (sections[u].title.Unreleased? ==>
                  && after == sections[u := after[u]] && |after[u].subsections| == |sections[u].subsections|
                  && after[u] == sections[u].(subsections := after[u].subsections)
                  && forall j :: 0 <= j < |sections[u].subsections| ==>
                       Dropped(sections[u].subsections[j], after[u].subsections[j], sections, historical))
  {
    if sections[u].title.Unreleased? {
      FirstIs(sections, u);
      var pick := InKeys(ReleasedKeys(sections) + historical);
      forall j | 0 <= j < |sections[u].subsections|
        ensures Dropped(sections[u].subsections[j], KeepSubsections(sections[u].subsections, pick)[j], sections, historical)
      {
        RestSplits(sections[u].subsections[j].lines, pick);
        SplitCuts(sections[u].subsections[j].lines);
        RemainingIsUnpicked(Split(sections[u].subsections[j].lines).items, sections, historical);
      }
    }
  }

  // ----- What leaves the releases

  /** The bullets that start on a promotable line. */
  function Going(items: seq<seq<Line>>, promotable: set<nat>): seq<seq<Line>> {
    if items == [] then []
    else
      var n := |items| - 1;
      var before := Going(items[..n], promotable);
      if items[n] != [] && items[n][0].number in promotable then before + [Key(items[n])] else before
  }

  /** The bullets that do not. */
  function Staying(items: seq<seq<Line>>, promotable: set<nat>): seq<seq<Line>> {
    if items == [] then []
    else
      var n := |items| - 1;
      var before := Staying(items[..n], promotable);
      if items[n] != [] && items[n][0].number in promotable then before else before + [items[n]]
  }

  lemma {:induction false} GoingArePicked(items: seq<seq<Line>>, promotable: set<nat>)
    ensures Keys(Picked(items, StartsOn(promotable))) == Going(items, promotable)
    ensures Unpicked(items, StartsOn(promotable)) == Staying(items, promotable)
  {
    if items != [] {
      var n := |items| - 1;
      GoingArePicked(items[..n], promotable);
      if IsPicked(items[n], StartsOn(promotable)) {
        KeysAndOne(Picked(items[..n], StartsOn(promotable)), items[n]);
      }
    }
  }

  ghost predicate Thinned(sub: Subsection, r: Subsection, promotable: set<nat>) {
    && r.title == sub.title
    && Split(r.lines) == Parts(Split(sub.lines).preamble, Staying(Split(sub.lines).items, promotable))
  }

  /** A release keeps exactly the bullets that do not start on a promotable line; an unreleased section
      loses none. */
  lemma {:induction false} KeepsExactly(s: Section, promotable: set<nat>)
    ensures s.title.Unreleased? ==> KeepSection(s, promotable) == s
    ensures !s.title.Unreleased? ==>
              var r := KeepSection(s, promotable);
              && r == s.(subsections := r.subsections) && |r.subsections| == |s.subsections|
              && forall j :: 0 <= j < |r.subsections| ==> Thinned(s.subsections[j], r.subsections[j], promotable)
  {
    forall j | 0 <= j < |s.subsections| && !s.title.Unreleased?
      ensures Thinned(s.subsections[j], KeepSubsections(s.subsections, StartsOn(promotable))[j], promotable)
    {
      RestSplits(s.subsections[j].lines, StartsOn(promotable));
      GoingArePicked(Split(s.subsections[j].lines).items, promotable);
    }
  }

  // ----- What arrives

  datatype Arrival = Arrival(title: string, key: seq<Line>)

  function Titled(title: string, keys: seq<seq<Line>>): seq<Arrival> {
    seq(|keys|, i requires 0 <= i < |keys| => Arrival(title, keys[i]))
  }

  function ArrivalsOf(subs: seq<Subsection>, promotable: set<nat>): seq<Arrival> {
    if subs == [] then []
    else
      var n := |subs| - 1;
      ArrivalsOf(subs[..n], promotable) + Titled(subs[n].title, Going(Split(subs[n].lines).items, promotable))
  }

  /** All promotable bullets of releases with their headings, in the order of the file. */
  function Arrivals(sections: seq<Section>, promotable: set<nat>): seq<Arrival> {
    if sections == [] then []
    else
      var n := |sections| - 1;
      Arrivals(sections[..n], promotable) +
      if sections[n].title.Unreleased? then [] else ArrivalsOf(sections[n].subsections, promotable)
  }

  function Under(arrivals: seq<Arrival>, title: string): seq<seq<Line>> {
    if arrivals == [] then []
    else
      var n := |arrivals| - 1;
      Under(arrivals[..n], title) + if arrivals[n].title == title then [arrivals[n].key] else []
  }

  /** Each bullet that is not there yet is added behind. */
  function AddNew(have: seq<seq<Line>>, come: seq<seq<Line>>): seq<seq<Line>> {
    if come == [] then have
    else
      var n := |come| - 1;
      var before := AddNew(have, come[..n]);
      if come[n] in before then before else before + [come[n]]
  }

  lemma {:induction false} UnderMore(a: seq<Arrival>, b: seq<Arrival>, title: string)
    ensures Under(a + b, title) == Under(a, title) + Under(b, title)
  {
    if b == [] {
      assert a + b == a;
    } else {
      var n := |b| - 1;
      assert (a + b)[..|a + b| - 1] == a + b[..n];
      UnderMore(a, b[..n], title);
    }
  }

  lemma {:induction false} UnderTitled(name: string, keys: seq<seq<Line>>, title: string)
    ensures Under(Titled(name, keys), title) == if name == title then keys else []
  {
    if keys != [] {
      var n := |keys| - 1;
      UnderTitled(name, keys[..n], title);
      assert Titled(name, keys)[..n] == Titled(name, keys[..n]);
      assert keys[..n] + [keys[n]] == keys;
    }
  }

  lemma {:induction false} UnderNext(arr: seq<Arrival>, name: string, keys: seq<seq<Line>>, title: string)
    ensures Under(arr + Titled(name, keys), title) == if name == title then Under(arr, title) + keys else Under(arr, title)
  {
    UnderMore(arr, Titled(name, keys), title);
    UnderTitled(name, keys, title);
  }

  lemma {:induction false} AddNewMore(have: seq<seq<Line>>, a: seq<seq<Line>>, b: seq<seq<Line>>)
    ensures AddNew(have, a + b) == AddNew(AddNew(have, a), b)
  {
    if b == [] {
      assert a + b == a;
    } else {
      var n := |b| - 1;
      assert (a + b)[..|a + b| - 1] == a + b[..n];
      AddNewMore(have, a, b[..n]);
    }
  }

  lemma {:induction false} AddItemsAdds(lines: seq<Line>, keys: seq<seq<Line>>)
    requires AreKeys(keys)
    ensures KeysOf(AddItems(lines, keys)) == AddNew(KeysOf(lines), keys)
  {
    if keys != [] {
      var n := |keys| - 1;
      AddItemsAdds(lines, keys[..n]);
      assert IsItem(keys[n]) && Tidy(keys[n]);
      AppendItem(AddItems(lines, keys[..n]), keys[n]);
    }
  }

  /** No later heading has the same title. */
  ghost predicate LastOfTitle(subs: seq<Subsection>, i: nat)
    requires i < |subs|
  {
    forall h :: i < h < |subs| ==> subs[h].title != subs[i].title
  }

  /** Heading `i` of the unreleased section after these arrivals: the last of its title has taken in the new
      bullets among them, earlier ones are as before, and further ones are made for titles without one. */
  ghost predicate Grown(before: seq<Subsection>, after: seq<Subsection>, arr: seq<Arrival>, i: nat)
    requires i < |after|
  {
    var title := after[i].title;
    if i < |before| then
      && title == before[i].title
      && if LastOfTitle(before, i) && Under(arr, title) != [] then
           KeysOf(after[i].lines) == AddNew(KeysOf(before[i].lines), Under(arr, title))
         else after[i] == before[i]
    else
      && Under(arr, title) != [] && KeysOf(after[i].lines) == AddNew([], Under(arr, title))
      && forall h :: 0 <= h < i ==> after[h].title != title
  }

  ghost predicate HasTitle(subs: seq<Subsection>, title: string) {
    exists i :: 0 <= i < |subs| && subs[i].title == title
  }

  ghost predicate Arrived(before: seq<Subsection>, after: seq<Subsection>, arr: seq<Arrival>) {
    && |before| <= |after| && (forall i :: 0 <= i < |after| ==> Grown(before, after, arr, i))
    && forall title :: Under(arr, title) != [] ==> HasTitle(after, title)
  }

  lemma {:induction false} FindLastExactly(subs: seq<Subsection>, title: string)
    ensures var i := FindLast(subs, title);
            if i < |subs| then subs[i].title == title && LastOfTitle(subs, i) else !HasTitle(subs, title)
  {
    if subs != [] {
      var n := |subs| - 1;
      FindLastExactly(Front(subs), title);
    }
  }

  lemma {:induction false} GrowsThere(before: seq<Subsection>, after: seq<Subsection>, arr: seq<Arrival>, i: nat, keys: seq<seq<Line>>)
    requires Arrived(before, after, arr) && i < |after| && LastOfTitle(after, i) && AreKeys(keys) && keys != []
    ensures Grown(before, after[i := Subsection(after[i].title, AddItems(after[i].lines, keys))], arr + Titled(after[i].title, keys), i)
  {
    assert Grown(before, after, arr, i);
    AddItemsAdds(after[i].lines, keys);
    UnderNext(arr, after[i].title, keys, after[i].title);
    AddNewMore(if i < |before| then KeysOf(before[i].lines) else [], Under(arr, after[i].title), keys);
    StillLast(before, after, arr, i);
  }

  lemma {:induction false} ArrivesInOld(before: seq<Subsection>, after: seq<Subsection>, arr: seq<Arrival>, i: nat, keys: seq<seq<Line>>)
    requires Arrived(before, after, arr) && i < |after| && LastOfTitle(after, i) && AreKeys(keys) && keys != []
    ensures Arrived(before, after[i := Subsection(after[i].title, AddItems(after[i].lines, keys))],
                    arr + Titled(after[i].title, keys))
  {
    var title := after[i].title;
    var sub := Subsection(title, AddItems(after[i].lines, keys));
    var now, more := after[i := sub], arr + Titled(title, keys);
    GrowsThere(before, after, arr, i, keys);
    forall h | 0 <= h < |now| ensures Grown(before, now, more, h) {
      if h != i {
        assert Grown(before, after, arr, h);
        UnderNext(arr, title, keys, after[h].title);
        if after[h].title == title {
          NotLast(before, after, arr, h, i);
        }
      }
    }
    forall t | Under(more, t) != [] ensures HasTitle(now, t) {
      UnderNext(arr, title, keys, t);
      if t == title {
        assert now[i].title == t;
      } else {
        var h :| 0 <= h < |after| && after[h].title == t;
        assert now[h].title == t;
      }
    }
  }

  lemma {:induction false} StillLast(before: seq<Subsection>, after: seq<Subsection>, arr: seq<Arrival>, i: nat)
    requires Arrived(before, after, arr) && i < |after| && LastOfTitle(after, i)
    ensures i < |before| ==> LastOfTitle(before, i)
  {
    forall h | i < h < |before| ensures before[h].title != after[i].title {
      assert Grown(before, after, arr, h);
    }
    if i < |before| {
      assert Grown(before, after, arr, i);
    }
  }

  lemma {:induction false} NotLast(before: seq<Subsection>, after: seq<Subsection>, arr: seq<Arrival>, h: nat, i: nat)
    requires Arrived(before, after, arr) && h < i < |after| && after[h].title == after[i].title
    ensures i < |before| && !LastOfTitle(before, h)
  {
    assert Grown(before, after, arr, i) && Grown(before, after, arr, h);
  }

  lemma {:induction false} BeginsNew(before: seq<Subsection>, after: seq<Subsection>, arr: seq<Arrival>, title: string, keys: seq<seq<Line>>)
    requires Arrived(before, after, arr) && !HasTitle(after, title) && AreKeys(keys) && keys != []
    ensures Grown(before, after + [Subsection(title, AddItems([], keys))], arr + Titled(title, keys), |after|)
  {
    AddItemsAdds([], keys);
    assert KeysOf([]) == [];
    UnderNext(arr, title, keys, title);
    assert Under(arr, title) == [];
    assert [] + keys == keys;
    forall h | 0 <= h < |after| ensures after[h].title != title {
    }
  }

  lemma {:induction false} ArrivesInNew(before: seq<Subsection>, after: seq<Subsection>, arr: seq<Arrival>, title: string, keys: seq<seq<Line>>)
    requires Arrived(before, after, arr) && !HasTitle(after, title) && AreKeys(keys) && keys != []
    ensures Arrived(before, after + [Subsection(title, AddItems([], keys))], arr + Titled(title, keys))
  {
    var now, more := after + [Subsection(title, AddItems([], keys))], arr + Titled(title, keys);
    BeginsNew(before, after, arr, title, keys);
    forall h | 0 <= h < |now| ensures Grown(before, now, more, h) {
      if h < |after| {
        assert Grown(before, after, arr, h);
        UnderNext(arr, title, keys, after[h].title);
        assert HasTitle(after, after[h].title);
      }
    }
    forall t | Under(more, t) != [] ensures HasTitle(now, t) {
      UnderNext(arr, title, keys, t);
      if t == title {
        assert now[|after|].title == t;
      } else {
        var h :| 0 <= h < |after| && after[h].title == t;
        assert now[h].title == t;
      }
    }
  }

  lemma {:induction false} PromoteIntoArrives(before: seq<Subsection>, t: Section, arr: seq<Arrival>, title: string, keys: seq<seq<Line>>)
    requires Arrived(before, t.subsections, arr) && AreKeys(keys) && keys != []
    ensures var r := PromoteInto(t, title, keys);
            r == t.(subsections := r.subsections) && Arrived(before, r.subsections, arr + Titled(title, keys))
  {
    var i := FindLast(t.subsections, title);
    FindLastExactly(t.subsections, title);
    if i < |t.subsections| {
      ArrivesInOld(before, t.subsections, arr, i, keys);
    } else {
      ArrivesInNew(before, t.subsections, arr, title, keys);
    }
  }

  /** The target of the promotion after these arrivals; without any it is not made. */
  ghost predicate Took(start: Option<Section>, now: Option<Section>, arr: seq<Arrival>) {
    if arr == [] then now == start
    else
      var from := if start.Some? then start.value else Section("## [Unreleased]", Unreleased, [], []);
      && now.Some? && now.value == from.(subsections := now.value.subsections)
      && Arrived(from.subsections, now.value.subsections, arr)
  }

  lemma {:induction false} NothingArrived(subs: seq<Subsection>)
    ensures Arrived(subs, subs, [])
  {
  }

  lemma {:induction false} TakesSubsection(start: Option<Section>, now: Option<Section>, arr: seq<Arrival>, sub: Subsection, promotable: set<nat>)
    requires Took(start, now, arr)
    ensures Took(start, PromoteSubsection(now, sub, promotable), arr + Titled(sub.title, Going(Split(sub.lines).items, promotable)))
  {
    var keys := PromotedKeys(sub, promotable);
    SplitCuts(sub.lines);
    PickedKeysAreKeys(Split(sub.lines).items, StartsOn(promotable));
    GoingArePicked(Split(sub.lines).items, promotable);
    if keys == [] {
      assert arr + Titled(sub.title, keys) == arr;
    } else {
      var from := if start.Some? then start.value else Section("## [Unreleased]", Unreleased, [], []);
      NothingArrived(from.subsections);
      PromoteIntoArrives(from.subsections, OrNew(now), arr, sub.title, keys);
      assert |arr + Titled(sub.title, keys)| > 0;
    }
  }

  lemma {:induction false} LastArrivals(arr: seq<Arrival>, subs: seq<Subsection>, promotable: set<nat>)
    requires subs != []
    ensures var n := |subs| - 1;
            arr + ArrivalsOf(subs, promotable)
            == arr + ArrivalsOf(subs[..n], promotable) + Titled(subs[n].title, Going(Split(subs[n].lines).items, promotable))
  {
  }

  lemma {:induction false} TakesSubsections(start: Option<Section>, now: Option<Section>, arr: seq<Arrival>, subs: seq<Subsection>, promotable: set<nat>)
    requires Took(start, now, arr)
    ensures Took(start, PromoteSubsections(now, subs, promotable), arr + ArrivalsOf(subs, promotable))
  {
    if subs == [] {
      assert arr + [] == arr;
    } else {
      var n := |subs| - 1;
      var before := arr + ArrivalsOf(subs[..n], promotable);
      var more := Titled(subs[n].title, Going(Split(subs[n].lines).items, promotable));
      TakesSubsections(start, now, arr, subs[..n], promotable);
      TakesSubsection(start, PromoteSubsections(now, subs[..n], promotable), before, subs[n], promotable);
      LastArrivals(arr, subs, promotable);
      assert PromoteSubsections(now, subs, promotable)
             == PromoteSubsection(PromoteSubsections(now, subs[..n], promotable), subs[n], promotable);
    }
  }

  lemma {:induction false} TakesSections(start: Option<Section>, sections: seq<Section>, promotable: set<nat>)
    ensures Took(start, PromoteSections(start, sections, promotable), Arrivals(sections, promotable))
  {
    if sections != [] {
      var n := |sections| - 1;
      TakesSections(start, sections[..n], promotable);
      if !sections[n].title.Unreleased? {
        TakesSubsections(start, PromoteSections(start, sections[..n], promotable), Arrivals(sections[..n], promotable),
                         sections[n].subsections, promotable);
      } else {
        assert Arrivals(sections[..n], promotable) + [] == Arrivals(sections[..n], promotable);
      }
    }
  }

  /** With an unreleased section, the first one takes in what arrives. */
  lemma {:induction false} PromotesIntoFirst(sections: seq<Section>, promotable: set<nat>, u: nat)
    requires u < |sections| && sections[u].title.Unreleased? && forall k :: 0 <= k < u ==> !sections[k].title.Unreleased?
    ensures var after := Promote(sections, promotable);
            && |after| == |sections|
            && Took(Some(sections[u]), Some(after[u]), Arrivals(sections, promotable))
            && forall k :: 0 <= k < |sections| && k != u ==> after[k] == KeepSection(sections[k], promotable)
  {
    FirstIs(sections, u);
    TakesSections(Some(sections[u]), sections, promotable);
  }

  /** Without one, a section is made on top if anything arrives. */
  lemma {:induction false} PromotesOnTop(sections: seq<Section>, promotable: set<nat>)
    requires forall k :: 0 <= k < |sections| ==> !sections[k].title.Unreleased?
    ensures var after, arr := Promote(sections, promotable), Arrivals(sections, promotable);
            var releases := if arr == [] then after else after[|after| - |sections|..];
            && |after| == |sections| + (if arr == [] then 0 else 1)
            && Took(None, if arr == [] then None else Some(after[0]), arr)
            && |releases| == |sections| && forall k :: 0 <= k < |sections| ==> releases[k] == KeepSection(sections[k], promotable)
  {
    var t, kept := PromoteSections(None, sections, promotable), KeepReleased(sections, promotable);
    TakesSections(None, sections, promotable);
    NoneToFind(sections, promotable);
    MadeExactly(t, Arrivals(sections, promotable));
    if t.Some? {
      assert ([t.value] + kept)[1..] == kept;
    }
  }

  lemma {:induction false} MadeExactly(t: Option<Section>, arr: seq<Arrival>)
    requires Took(None, t, arr)
    ensures t.None? <==> arr == []
  {
  }

  lemma {:induction false} NoneToFind(sections: seq<Section>, promotable: set<nat>)
    requires forall k :: 0 <= k < |sections| ==> !sections[k].title.Unreleased?
    ensures var t := PromoteSections(None, sections, promotable);
            Promote(sections, promotable) ==
            if t.None? then KeepReleased(sections, promotable) else [t.value] + KeepReleased(sections, promotable)
  {
    assert FindUnreleased(sections) == |sections|;
  }

  // ----- Counts and numbers

  lemma {:induction false} GoingAreCounted(subs: seq<Subsection>, promotable: set<nat>)
    ensures |ArrivalsOf(subs, promotable)| == CountPicked(subs, StartsOn(promotable))
  {
    if subs != [] {
      var n := |subs| - 1;
      GoingAreCounted(subs[..n], promotable);
      GoingArePicked(Split(subs[n].lines).items, promotable);
    }
  }

  /** The number of promoted bullets reported is the number of those that arrive. */
  lemma {:induction false} ArrivalsAreCounted(sections: seq<Section>, promotable: set<nat>)
    ensures PromotedCount(sections, promotable) == |Arrivals(sections, promotable)|
  {
    if sections != [] {
      var n := |sections| - 1;
      ArrivalsAreCounted(sections[..n], promotable);
      GoingAreCounted(sections[n].subsections, promotable);
    }
  }

  function Bullets(subs: seq<Subsection>): nat {
    if subs == [] then 0 else Bullets(subs[..|subs| - 1]) + |Split(subs[|subs| - 1].lines).items|
  }

  lemma {:induction false} PickedAndUnpicked(items: seq<seq<Line>>, pick: Item -> bool)
    ensures |Picked(items, pick)| + |Unpicked(items, pick)| == |items|
  {
    if items != [] {
      PickedAndUnpicked(Front(items), pick);
    }
  }

  lemma {:induction false} KeptAreCounted(subs: seq<Subsection>, pick: Item -> bool)
    ensures CountPicked(subs, pick) + Bullets(KeepSubsections(subs, pick)) == Bullets(subs)
  {
    if subs != [] {
      var n := |subs| - 1;
      KeptAreCounted(subs[..n], pick);
      assert KeepSubsections(subs, pick)[..n] == KeepSubsections(subs[..n], pick);
      PickedAndUnpicked(Split(subs[n].lines).items, pick);
      RestSplits(subs[n].lines, pick);
    }
  }

  /** The number of dropped bullets reported is the number by which the first unreleased section has fewer. */
  lemma {:induction false} DropsAreCounted(sections: seq<Section>, historical: set<seq<Line>>, u: nat)
    requires u < |sections| && sections[u].title.Unreleased? && forall k :: 0 <= k < u ==> !sections[k].title.Unreleased?
    ensures DroppedCount(sections, historical) + Bullets(DropDuplicates(sections, historical)[u].subsections)
            == Bullets(sections[u].subsections)
  {
    FirstIs(sections, u);
    KeptAreCounted(sections[u].subsections, InKeys(ReleasedKeys(sections) + historical));
  }

  /** The line stands in the file where its number says. */
  ghost predicate Placed(content: seq<Text>, l: Line) {
    1 <= l.number <= |content| && content[l.number - 1] == l.text
  }

  ghost predicate AllPlaced(content: seq<Text>, lines: seq<Line>) {
    forall i :: 0 <= i < |lines| ==> Placed(content, lines[i])
  }

  ghost predicate SectionPlaced(content: seq<Text>, s: Section) {
    AllPlaced(content, s.leading) && forall j :: 0 <= j < |s.subsections| ==> AllPlaced(content, s.subsections[j].lines)
  }

  ghost predicate DocumentPlaced(content: seq<Text>, d: Document) {
    AllPlaced(content, d.prefix) && forall k :: 0 <= k < |d.sections| ==> SectionPlaced(content, d.sections[k])
  }

  lemma {:induction false} AddToSectionPlaced(content: seq<Text>, s: Section, l: Line)
    requires SectionPlaced(content, s) && Placed(content, l)
    ensures SectionPlaced(content, AddToSection(s, l))
  {
    if !l.text.Subheading? && s.subsections != [] {
      assert AllPlaced(content, s.subsections[|s.subsections| - 1].lines);
    }
  }

  lemma {:induction false} AddToDocumentPlaced(content: seq<Text>, d: Document, l: Line)
    requires DocumentPlaced(content, d) && Placed(content, l)
    ensures DocumentPlaced(content, AddToDocument(d, l))
  {
    if !l.text.Release? && d.sections != [] {
      assert SectionPlaced(content, d.sections[|d.sections| - 1]);
      AddToSectionPlaced(content, Last(d.sections), l);
    }
  }

  lemma {:induction false} FeedPlaced(content: seq<Text>, n: nat)
    requires n <= |content|
    ensures DocumentPlaced(content, Feed(EMPTY, Number(content)[..n]))
  {
    if n > 0 {
      FeedPlaced(content, n - 1);
      assert Front(Number(content)[..n]) == Number(content)[..n - 1];
      AddToDocumentPlaced(content, Feed(EMPTY, Number(content)[..n - 1]), Number(content)[n - 1]);
    }
  }

  /** Every line of the document read carries its number in the file, counted from one. */
  lemma {:induction false} LinesKeepTheirNumber(content: seq<Text>)
    ensures DocumentPlaced(content, Parse(content))
  {
    FeedPlaced(content, |content|);
    assert Number(content)[..|content|] == Number(content);
  }
}
