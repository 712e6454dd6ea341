/**
 How a file written by `fix-changelogs.ts` is laid out: its releases, and the headings within each.
 */
module ChangelogOutput {
  import opened ChangelogText
  import opened ChangelogLists
  import opened ChangelogDocument
  import opened ChangelogNormal
  import opened StableSort
  import opened ChangelogOrder
  import opened ChangelogFixer
  import opened ChangelogLaws
  import Counting

  // ----- Releases

  lemma {:induction false} OrderedReleases(sections: seq<Section>, i: nat, j: nat)
    requires InReleaseOrder(sections) && i < j < |sections|
    ensures sections[j].title.Unreleased? ==> sections[i].title.Unreleased?
    ensures !sections[i].title.Unreleased? ==>
              !sections[j].title.Unreleased? && !exists k: nat :: GreaterAt(sections[j].title.parts, sections[i].title.parts, k)
  {
    var n: nat :| InOrderFrom(sections, n);
    if j < n {
      assert sections[..n][i].title.Unreleased? && sections[..n][j].title.Unreleased?;
    } else {
      assert sections[n..][j - n] == sections[j];
      assert !sections[n..][j - n].title.Unreleased?;
      if i < n {
        assert sections[..n][i].title.Unreleased?;
      } else {
        assert sections[n..][i - n] == sections[i];
        assert !NEWER(sections[n..][j - n], sections[n..][i - n]);
        GreaterComesFirst(sections[j].title.parts, sections[i].title.parts);
      }
    }
  }

  /** Unreleased sections come first, and no release comes before one with a greater version: one that is
      greater at the first part where the two differ, a missing part counting as zero. */
  lemma {:induction false} ReleasesRunFromNewToOld(content: seq<Text>, promotable: set<nat>, historical: set<seq<Line>>, i: nat, j: nat)
    requires i < j < |FixedDocument(content, promotable, historical).sections|
    ensures var sections := FixedDocument(content, promotable, historical).sections;
            && (sections[j].title.Unreleased? ==> sections[i].title.Unreleased?)
            && (!sections[i].title.Unreleased? ==>
                  !sections[j].title.Unreleased? && !exists k: nat :: GreaterAt(sections[j].title.parts, sections[i].title.parts, k))
  {
    SortSectionsOrders(NormalizeAll(Prepared(content, promotable, historical)));
    OrderedReleases(FixedDocument(content, promotable, historical).sections, i, j);
  }

  /** Unreleased sections stay in the order of the file, and so do releases of equal version. */
  lemma {:induction false} EqualVersionsKeepTheirOrder(content: seq<Text>, promotable: set<nat>, historical: set<seq<Line>>, parts: seq<int>)
    ensures var before, after := NormalizeAll(Prepared(content, promotable, historical)),
                                 FixedDocument(content, promotable, historical).sections;
            && Only(after, IS_UNRELEASED) == Only(before, IS_UNRELEASED)
            && Only(after, SameVersion(parts)) == Only(before, SameVersion(parts))
  {
    SortKeepsTies(NormalizeAll(Prepared(content, promotable, historical)), parts);
  }

  // ----- The headings of a section

  predicate HasText(sub: Subsection) {
    exists i :: 0 <= i < |sub.lines| && !sub.lines[i].text.Blank?
  }

  lemma {:induction false} CompactIsNothing(sub: Subsection)
    ensures Compact(sub.lines) == [] <==> !HasText(sub)
  {
    CompactSettles(sub.lines);
    var a, b := TrimSplits(sub.lines);
    if Trim(sub.lines) != [] {
      assert sub.lines[|a|] == Trim(sub.lines)[0];
      assert !sub.lines[|a|].text.Blank?;
    } else {
      forall i | 0 <= i < |sub.lines| ensures sub.lines[i].text.Blank? {
        assert sub.lines[i] == if i < |a| then a[i] else b[i - |a|];
      }
    }
  }

  /** The first heading of this title that has text below it, or the end. */
  function FirstText(subs: seq<Subsection>, title: string): (i: nat)
    ensures i <= |subs|
    ensures i < |subs| ==> subs[i].title == title && HasText(subs[i])
    ensures forall j :: 0 <= j < i && subs[j].title == title ==> !HasText(subs[j])
  {
    if subs == [] then 0
    else
      var i := FirstText(Front(subs), title);
      if i < |subs| - 1 || (Last(subs).title == title && HasText(Last(subs))) then i else |subs|
  }

  lemma {:induction false} FirstTextNext(subs: seq<Subsection>, title: string)
    requires subs != []
    ensures FirstText(subs, title) ==
            if FirstText(Front(subs), title) < |subs| - 1 then FirstText(Front(subs), title)
            else if Last(subs).title == title && HasText(Last(subs)) then |subs| - 1 else |subs|
  {
  }

  /** These are the titles with text, in the order in which they first have some. */
  ghost predicate InFirstOrder(merged: seq<Subsection>, subs: seq<Subsection>) {
    && (forall p :: 0 <= p < |merged| ==> FirstText(subs, merged[p].title) < |subs|)
    && (forall p, q :: 0 <= p < q < |merged| ==> FirstText(subs, merged[p].title) < FirstText(subs, merged[q].title))
    && (forall t :: FirstText(subs, t) < |subs| ==> Find(merged, t) < |merged|)
  }

  lemma {:induction false} SameTitlesSameFind(a: seq<Subsection>, b: seq<Subsection>, title: string)
    requires |a| == |b| && forall p :: 0 <= p < |a| ==> a[p].title == b[p].title
    ensures Find(a, title) == Find(b, title)
  {
    if a != [] {
      SameTitlesSameFind(Front(a), Front(b), title);
    }
  }

  lemma {:induction false} FindOneMore(merged: seq<Subsection>, sub: Subsection, title: string)
    ensures Find(merged + [sub], title) ==
            if Find(merged, title) < |merged| then Find(merged, title) else if sub.title == title then |merged| else |merged| + 1
  {
    FrontOfAppend(merged, sub);
  }

  lemma {:induction false} NothingNew(merged: seq<Subsection>, after: seq<Subsection>, subs: seq<Subsection>)
    requires subs != [] && InFirstOrder(merged, Front(subs))
    requires |after| == |merged| && forall p :: 0 <= p < |merged| ==> after[p].title == merged[p].title
    requires !HasText(Last(subs)) || Find(merged, Last(subs).title) < |merged|
    ensures InFirstOrder(after, subs)
  {
    forall p | 0 <= p < |after| ensures FirstText(subs, after[p].title) == FirstText(Front(subs), merged[p].title) < |subs| - 1 {
      FirstTextNext(subs, after[p].title);
    }
    forall t | FirstText(subs, t) < |subs| ensures Find(after, t) < |after| {
      FirstTextNext(subs, t);
      SameTitlesSameFind(after, merged, t);
    }
  }

  lemma {:induction false} OneNew(merged: seq<Subsection>, sub: Subsection, subs: seq<Subsection>)
    requires subs != [] && InFirstOrder(merged, Front(subs)) && sub.title == Last(subs).title
    requires HasText(Last(subs)) && Find(merged, sub.title) == |merged|
    ensures InFirstOrder(merged + [sub], subs)
  {
    var after := merged + [sub];
    FirstTextNext(subs, sub.title);
    forall p | 0 <= p < |merged| ensures FirstText(subs, after[p].title) == FirstText(Front(subs), merged[p].title) < |subs| - 1 {
      FirstTextNext(subs, after[p].title);
    }
    forall t | FirstText(subs, t) < |subs| ensures Find(after, t) < |after| {
      FirstTextNext(subs, t);
      FindOneMore(merged, sub, t);
    }
  }

  /** Merging leaves each title with text once, where its first text was. */
  lemma {:induction false} MergeKeepsFirstOrder(subs: seq<Subsection>)
    ensures InFirstOrder(Merge(subs), subs)
  {
    if subs != [] {
      var merged, last := Merge(Front(subs)), Last(subs);
      MergeKeepsFirstOrder(Front(subs));
      CompactIsNothing(last);
      var i := Find(merged, last.title);
      if HasText(last) && i == |merged| {
        OneNew(merged, Subsection(last.title, Compact(last.lines)), subs);
      } else {
        NothingNew(merged, Merge(subs), subs);
      }
    }
  }

  /** The place of a title among the headings of an unreleased section. */
  function Rank(title: string): nat {
    if title == "Breaking Changes" then 0
    else if title == "Added" then 1
    else if title == "Changed" then 2
    else if title == "Fixed" then 3
    else if title == "Removed" then 4
    else 5
  }

  lemma {:induction false} RankIsOrder(title: string)
    ensures TitleOrder(title) == Rank(title)
  {
    var t := ORDERED_TITLES;
    assert t[1..] == ["Added", "Changed", "Fixed", "Removed"];
    assert t[1..][1..] == ["Changed", "Fixed", "Removed"];
    assert t[1..][1..][1..] == ["Fixed", "Removed"];
    assert t[1..][1..][1..][1..] == ["Removed"];
    assert t[1..][1..][1..][1..][1..] == [];
  }

  /** Normalising keeps the heading line and the title of a section; its headings are those with text, by
      rank in an unreleased section and in the order of their first text otherwise. */
  lemma {:induction false} NormalizedLayout(s: Section)
    ensures var r := Normalize(s);
            && r.heading == s.heading && r.title == s.title && r.leading == Strip(Trim(s.leading))
            && (!s.title.Unreleased? ==> InFirstOrder(r.subsections, s.subsections))
            && (s.title.Unreleased? ==>
                  forall p, q :: 0 <= p < q < |r.subsections| ==> Rank(r.subsections[p].title) <= Rank(r.subsections[q].title))
  {
    MergeKeepsFirstOrder(s.subsections);
    if s.title.Unreleased? {
      var merged := Merge(s.subsections);
      var sorted := Sort(merged, BY_TITLE);
      TitleOrderIsWeak();
      SortMeaning(merged, BY_TITLE);
      forall p, q | 0 <= p < q < |sorted| ensures Rank(sorted[p].title) <= Rank(sorted[q].title) {
        assert !BY_TITLE(sorted[q], sorted[p]);
        RankIsOrder(sorted[p].title);
        RankIsOrder(sorted[q].title);
      }
    }
  }

  // ----- The whole output

  lemma {:induction false} FixedFrom(prepared: seq<Section>, j: nat) returns (k: nat)
    requires j < |SortSections(NormalizeAll(prepared))|
    ensures k < |prepared| && SortSections(NormalizeAll(prepared))[j] == Normalize(prepared[k])
  {
    var normal := NormalizeAll(prepared);
    var fixed := SortSections(normal);
    SortSectionsOrders(normal);
    assert fixed[j] in multiset(normal);
    assert fixed[j] in normal;
    k :| 0 <= k < |normal| && normal[k] == fixed[j];
    NormalizeEach(prepared, k);
  }

  lemma {:induction false} IsInFixed(prepared: seq<Section>, k: nat)
    requires k < |prepared|
    ensures Normalize(prepared[k]) in SortSections(NormalizeAll(prepared))
    ensures |SortSections(NormalizeAll(prepared))| == |prepared|
  {
    var normal := NormalizeAll(prepared);
    var fixed := SortSections(normal);
    SortSectionsOrders(normal);
    NormalizeEach(prepared, k);
    assert normal[k] in multiset(fixed);
    assert |fixed| == |multiset(fixed)| == |multiset(normal)| == |normal|;
  }

  /** Every section of the output is one of the prepared document, normalised. */
  lemma {:induction false} OutputIsLaidOut(content: seq<Text>, promotable: set<nat>, historical: set<seq<Line>>, j: nat) returns (k: nat)
    requires j < |FixedDocument(content, promotable, historical).sections|
    ensures k < |Prepared(content, promotable, historical)|
    ensures var s, r := Prepared(content, promotable, historical)[k], FixedDocument(content, promotable, historical).sections[j];
            && r.heading == s.heading && r.title == s.title && r.leading == Strip(Trim(s.leading))
            && (!s.title.Unreleased? ==> InFirstOrder(r.subsections, s.subsections))
            && (s.title.Unreleased? ==>
                  forall p, q :: 0 <= p < q < |r.subsections| ==> Rank(r.subsections[p].title) <= Rank(r.subsections[q].title))
  {
    k := FixedFrom(Prepared(content, promotable, historical), j);
    NormalizedLayout(Prepared(content, promotable, historical)[k]);
  }

  /** And none is lost. */
  lemma {:induction false} NoSectionIsLost(content: seq<Text>, promotable: set<nat>, historical: set<seq<Line>>)
    ensures var prepared, fixed := Prepared(content, promotable, historical), FixedDocument(content, promotable, historical).sections;
            |fixed| == |prepared| && forall k :: 0 <= k < |prepared| ==> Normalize(prepared[k]) in fixed
  {
    var prepared := Prepared(content, promotable, historical);
    SortSectionsOrders(NormalizeAll(prepared));
    assert |SortSections(NormalizeAll(prepared))| == |multiset(SortSections(NormalizeAll(prepared)))| == |multiset(NormalizeAll(prepared))|;
    forall k | 0 <= k < |prepared| ensures Normalize(prepared[k]) in SortSections(NormalizeAll(prepared)) {
      IsInFixed(prepared, k);
    }
  }

  // ----- The headings counted

  ghost function WithoutText(subs: seq<Subsection>): set<nat> {
    set j: nat | j < |subs| && !HasText(subs[j])
  }

  lemma {:induction false} BlanksExactly(subs: seq<Subsection>)
    ensures Blanks(subs) == |WithoutText(subs)|
  {
    if subs == [] {
      assert WithoutText(subs) == {};
    } else {
      var n := |subs| - 1;
      BlanksExactly(subs[..n]);
      CompactIsNothing(subs[n]);
      Counting.OneMore(n, WithoutText(subs[..n]), WithoutText(subs), !HasText(subs[n]));
    }
  }

  /** The headings without text of all sections, by section and place. */
  ghost function AllWithoutText(sections: seq<Section>): set<(nat, nat)> {
    set k: nat, j: nat | k < |sections| && j < |sections[k].subsections| && !HasText(sections[k].subsections[j]) :: (k, j)
  }

  lemma {:induction false} IsWithoutText(sections: seq<Section>, k: nat, j: nat)
    ensures (k, j) in AllWithoutText(sections) <==> k < |sections| && j in WithoutText(sections[k].subsections)
  {
  }

  lemma {:induction false} OneMoreSection(sections: seq<Section>)
    requires sections != []
    ensures var n := |sections| - 1;
            |AllWithoutText(sections)| == |AllWithoutText(sections[..n])| + |WithoutText(sections[n].subsections)|
  {
    var n := |sections| - 1;
    var before, now, last := AllWithoutText(sections[..n]), AllWithoutText(sections), WithoutText(sections[n].subsections);
    forall p: (nat, nat) ensures p in now <==> p in before || (p.0 == n && p.1 in last) {
      IsWithoutText(sections, p.0, p.1);
      IsWithoutText(sections[..n], p.0, p.1);
    }
    Counting.OneMoreGroup(n, before, now, last);
  }

  /** The removed headings reported are exactly those without any text, counted one by one. */
  lemma {:induction false} BlankHeadingsExactly(sections: seq<Section>)
    ensures BlankHeadings(sections) == |AllWithoutText(sections)|
  {
    if sections == [] {
      assert AllWithoutText(sections) == {};
    } else {
      var n := |sections| - 1;
      BlankHeadingsExactly(sections[..n]);
      BlanksExactly(sections[n].subsections);
      OneMoreSection(sections);
    }
  }
}
