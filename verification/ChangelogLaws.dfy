/**
 What `fixChangelogContent` of `fix-changelogs.ts` guarantees of its output: it is in normal form, it
 has lost no text, and promoted bullets have arrived under their heading.
 */
module ChangelogLaws {
  import opened ChangelogText
  import opened ChangelogLists
  import opened ChangelogRemoval
  import opened ChangelogDocument
  import opened ChangelogNormal
  import opened ChangelogOrder
  import opened ChangelogPromotion
  import opened ChangelogConservation
  import opened ChangelogFixer

  datatype Fixed = Fixed(
    content: seq<Text>, promotedItems: nat, mergedDuplicateHeadings: nat, removedEmptyHeadings: nat,
    droppedReleasedDuplicates: nat)

  /** The sections once bullets have been dropped and promoted. */
  function Prepared(content: seq<Text>, promotable: set<nat>, historical: set<seq<Line>>): seq<Section> {
    Promote(DropDuplicates(Parse(content).sections, historical), promotable)
  }

  function FixedDocument(content: seq<Text>, promotable: set<nat>, historical: set<seq<Line>>): Document {
    Document(Strip(Trim(Parse(content).prefix)), SortSections(NormalizeAll(Prepared(content, promotable, historical))))
  }

  function Fix(content: seq<Text>, promotable: set<nat>, historical: set<seq<Line>>): seq<Text> {
    Render(FixedDocument(content, promotable, historical))
  }

  lemma {:induction false} RenderTrimsPrefix(prefix: seq<Line>, sections: seq<Section>)
    ensures Render(Document(Strip(Trim(prefix)), sections)) == Render(Document(prefix, sections))
  {
    TidyTrim(prefix);
    TidyTrim(Strip(Trim(prefix)));
  }

  /** `fixChangelogContent`. */
  method FixChangelogContent(content: seq<Text>, promotable: set<nat>, historical: set<seq<Line>>) returns (r: Fixed)
    ensures r.content == Fix(content, promotable, historical)
    ensures r.droppedReleasedDuplicates == DroppedCount(Parse(content).sections, historical)
    ensures r.promotedItems == PromotedCount(DropDuplicates(Parse(content).sections, historical), promotable)
    ensures r.removedEmptyHeadings == BlankHeadings(Prepared(content, promotable, historical))
    ensures Headings(NormalizeAll(Prepared(content, promotable, historical)))
            + r.mergedDuplicateHeadings + r.removedEmptyHeadings == Headings(Prepared(content, promotable, historical))
  {
    var document := new Changelog(content);
    ParseRises(content);
    var dropped := document.DropUnreleasedDuplicatesOfReleased(historical);
    var promoted := document.PromoteAddedItems(promotable);
    var merged, removed := document.NormalizeSections();
    document.SortReleases();
    RenderTrimsPrefix(document.prefix, document.sections);
    var rendered := RenderChangelog(Document(document.prefix, document.sections));
    r := Fixed(rendered, promoted, merged, removed, dropped);
  }

  // ----- What parsing gives

  ghost predicate RiseTo(s: Section, n: nat) {
    forall j :: 0 <= j < |s.subsections| ==> RisesTo(s.subsections[j].lines, n)
  }

  ghost predicate RisesTo(lines: seq<Line>, n: nat) {
    Rising(lines) && forall i :: 0 <= i < |lines| ==> lines[i].number <= n
  }

  ghost predicate AllRiseTo(sections: seq<Section>, n: nat) {
    forall j :: 0 <= j < |sections| ==> RiseTo(sections[j], n)
  }

  lemma {:induction false} AddRises(s: Section, l: Line, n: nat)
    requires RiseTo(s, n) && l.number == n + 1
    ensures RiseTo(AddToSection(s, l), n + 1)
  {
    var r := AddToSection(s, l);
    forall j | 0 <= j < |r.subsections| ensures RisesTo(r.subsections[j].lines, n + 1) {
      if j < |s.subsections| {
        assert RisesTo(s.subsections[j].lines, n);
      }
    }
  }

  lemma {:induction false} AddToDocumentRises(d: Document, l: Line, n: nat)
    requires AllRiseTo(d.sections, n) && l.number == n + 1
    ensures AllRiseTo(AddToDocument(d, l).sections, n + 1)
  {
    var r := AddToDocument(d, l);
    forall j | 0 <= j < |r.sections| ensures RiseTo(r.sections[j], n + 1) {
      if j < |d.sections| {
        assert RiseTo(d.sections[j], n);
        if j == |d.sections| - 1 && !l.text.Release? {
          AddRises(d.sections[j], l, n);
        }
      }
    }
  }

  lemma {:induction false} FeedRises(content: seq<Text>, n: nat)
    requires n <= |content|
    ensures AllRiseTo(Feed(EMPTY, Number(content)[..n]).sections, n)
  {
    if n > 0 {
      FeedRises(content, n - 1);
      FeedNext(EMPTY, Number(content), n - 1);
      AddToDocumentRises(Feed(EMPTY, Number(content)[..n - 1]), Number(content)[n - 1], n - 1);
    }
  }

  /** Line numbers rise in every section that is not the first unreleased one, which dropping may have
      changed. */
  lemma {:induction false} ParseRises(content: seq<Text>)
    ensures forall j :: 0 <= j < |Parse(content).sections| ==> RisingSection(Parse(content).sections[j])
    ensures forall historical :: ReleasesRise(DropDuplicates(Parse(content).sections, historical))
  {
    var sections := Parse(content).sections;
    FeedRises(content, |content|);
    assert Number(content)[..|content|] == Number(content);
    forall j | 0 <= j < |sections| ensures RisingSection(sections[j]) {
      assert RiseTo(sections[j], |content|);
    }
  }

  predicate IsHeading(t: Text) {
    t.Release? || t.Subheading?
  }

  lemma {:induction false} AddCountsSection(s: Section, l: Line, t: Text)
    ensures CountSection(AddToSection(s, l), t) == CountSection(s, t) + if l.text == t && !l.text.Subheading? then 1 else 0
  {
    if l.text.Subheading? {
      FrontOfAppend(s.subsections, Subsection(l.text.name, []));
    } else if s.subsections == [] {
      CountOneMore(s.leading, l, t);
    } else {
      var last := Last(s.subsections);
      CountOneMore(last.lines, l, t);
      FrontOfAppend(Front(s.subsections), last.(lines := last.lines + [l]));
    }
  }

  lemma {:induction false} AddCounts(d: Document, l: Line, t: Text)
    requires !t.Blank?
    ensures CountSections(AddToDocument(d, l).sections, t)
            == CountSections(d.sections, t) + if l.text == t && !IsHeading(t) && d.sections != [] then 1 else 0
    ensures Count(AddToDocument(d, l).prefix, t)
            == Count(d.prefix, t) + if l.text == t && !t.Release? && d.sections == [] then 1 else 0
  {
    if l.text.Release? {
      FrontOfAppend(d.sections, Section(l.text.heading, l.text.title, [], []));
    } else if d.sections == [] {
      CountOneMore(d.prefix, l, t);
    } else {
      var last := Last(d.sections);
      AddCountsSection(last, l, t);
      FrontOfAppend(Front(d.sections), AddToSection(last, l));
    }
  }

  lemma {:induction false} FeedCounts(lines: seq<Line>, t: Text)
    requires !t.Blank?
    ensures IsBody(t) ==> CountDocument(Feed(EMPTY, lines), t) == Count(lines, t)
    ensures IsHeading(t) ==> CountSections(Feed(EMPTY, lines).sections, t) == 0
    ensures t.Release? ==> Count(Feed(EMPTY, lines).prefix, t) == 0
  {
    if lines != [] {
      FeedCounts(Front(lines), t);
      AddCounts(Feed(EMPTY, Front(lines)), Last(lines), t);
    }
  }

  /** How often a line occurs in a file. */
  function Occurrences(content: seq<Text>, t: Text): nat {
    Count(Number(content), t)
  }

  // ----- Counting through the passes

  lemma {:induction false} NormalizeAllKeepsText(sections: seq<Section>, t: Text)
    requires !t.Blank?
    ensures CountSections(NormalizeAll(sections), t) == CountSections(sections, t)
  {
    if sections != [] {
      NormalizeAllKeepsText(Front(sections), t);
      NormalizeKeepsText(Last(sections), t);
      FrontOfAppend(NormalizeAll(Front(sections)), Normalize(Last(sections)));
    }
  }

  lemma {:induction false} CountSectionTakenOut(b: seq<Section>, k: nat, t: Text)
    requires k < |b|
    ensures CountSections(b, t) == CountSections(b[..k] + b[k + 1..], t) + CountSection(b[k], t)
  {
    var rest := b[..k] + b[k + 1..];
    if k == |b| - 1 {
      assert rest == Front(b);
    } else {
      assert Front(rest) == Front(b)[..k] + Front(b)[k + 1..];
      assert Last(rest) == Last(b);
      CountSectionTakenOut(Front(b), k, t);
    }
  }

  lemma {:induction false} CountSectionsPermuted(a: seq<Section>, b: seq<Section>, t: Text)
    requires multiset(a) == multiset(b)
    ensures CountSections(a, t) == CountSections(b, t)
    decreases |a|
  {
    if a == [] {
      assert |b| == |multiset(b)| == 0;
    } else {
      var k := TakenOut(a, b);
      CountSectionsPermuted(Front(a), b[..k] + b[k + 1..], t);
      CountSectionTakenOut(b, k, t);
    }
  }

  /** What happens to a line of text on the way to the fixed document. */
  lemma {:induction false} FixedDocumentKeepsText(content: seq<Text>, promotable: set<nat>, historical: set<seq<Line>>, t: Text)
    requires !t.Blank?
    ensures var sections := Parse(content).sections;
            CountSections(FixedDocument(content, promotable, historical).sections, t)
            + DroppedText(sections, historical, t) + AlreadyThere(DropDuplicates(sections, historical), promotable, t)
            == CountSections(sections, t)
  {
    var sections, prepared := Parse(content).sections, Prepared(content, promotable, historical);
    DropKeepsText(sections, historical, t);
    PromoteKeepsText(DropDuplicates(sections, historical), promotable, t);
    NormalizeAllKeepsText(prepared, t);
    SortSectionsOrders(NormalizeAll(prepared));
    CountSectionsPermuted(SortSections(NormalizeAll(prepared)), NormalizeAll(prepared), t);
  }

  // ----- The fixed document is normal

  lemma {:induction false} CountPositive(lines: seq<Line>, i: nat)
    requires i < |lines|
    ensures Count(lines, lines[i].text) > 0
  {
    if i < |lines| - 1 {
      CountPositive(Front(lines), i);
    }
  }

  lemma {:induction false} CountInAtLeast(subs: seq<Subsection>, j: nat, t: Text)
    requires j < |subs|
    ensures Count(subs[j].lines, t) <= CountIn(subs, t)
  {
    if j < |subs| - 1 {
      CountInAtLeast(Front(subs), j, t);
    }
  }

  lemma {:induction false} CountSectionsAtLeast(sections: seq<Section>, j: nat, t: Text)
    requires j < |sections|
    ensures CountSection(sections[j], t) <= CountSections(sections, t)
  {
    if j < |sections| - 1 {
      CountSectionsAtLeast(Front(sections), j, t);
    }
  }

  ghost predicate HasNoHeading(s: Section) {
    forall t :: IsHeading(t) ==> CountSection(s, t) == 0
  }

  lemma {:induction false} NoHeadingInside(s: Section)
    requires HasNoHeading(s)
    ensures NoHeading(s.leading) && forall j :: 0 <= j < |s.subsections| ==> NoHeading(s.subsections[j].lines)
  {
    forall i | 0 <= i < |s.leading| && IsHeading(s.leading[i].text) ensures false {
      assert CountSection(s, s.leading[i].text) == 0;
      CountPositive(s.leading, i);
    }
    forall j | 0 <= j < |s.subsections| ensures NoHeading(s.subsections[j].lines) {
      NoHeadingIn(s, j);
    }
  }

  lemma {:induction false} NoHeadingIn(s: Section, j: nat)
    requires HasNoHeading(s) && j < |s.subsections|
    ensures NoHeading(s.subsections[j].lines)
  {
    var lines := s.subsections[j].lines;
    forall i | 0 <= i < |lines| && IsHeading(lines[i].text) ensures false {
      assert CountSection(s, lines[i].text) == 0;
      CountInAtLeast(s.subsections, j, lines[i].text);
      CountPositive(lines, i);
    }
  }

  ghost predicate AllInForm(sections: seq<Section>) {
    forall j :: 0 <= j < |sections| ==> InForm(sections[j])
  }

  lemma {:induction false} FixedInForm(content: seq<Text>, promotable: set<nat>, historical: set<seq<Line>>)
    ensures AllInForm(FixedDocument(content, promotable, historical).sections)
  {
    var normal := NormalizeAll(Prepared(content, promotable, historical));
    forall j | 0 <= j < |normal| ensures InForm(normal[j]) {
      NormalizeEach(Prepared(content, promotable, historical), j);
      NormalizeForms(Prepared(content, promotable, historical)[j]);
    }
    SortSectionsOrders(normal);
    InFormPermuted(normal, SortSections(normal));
  }

  lemma {:induction false} InFormPermuted(a: seq<Section>, b: seq<Section>)
    requires multiset(a) == multiset(b) && AllInForm(a)
    ensures AllInForm(b)
  {
    forall j | 0 <= j < |b| ensures InForm(b[j]) {
      assert b[j] in multiset(b);
      assert b[j] in a;
    }
  }

  lemma {:induction false} FixedHasNoHeading(content: seq<Text>, promotable: set<nat>, historical: set<seq<Line>>, j: nat)
    requires j < |FixedDocument(content, promotable, historical).sections|
    ensures HasNoHeading(FixedDocument(content, promotable, historical).sections[j])
  {
    var sections := FixedDocument(content, promotable, historical).sections;
    forall t | IsHeading(t) ensures CountSection(sections[j], t) == 0 {
      FixedDocumentKeepsText(content, promotable, historical, t);
      FeedCounts(Number(content), t);
      CountSectionsAtLeast(sections, j, t);
    }
  }

  lemma {:induction false} PrefixIsNormal(content: seq<Text>)
    ensures Tidy(Strip(Trim(Parse(content).prefix))) && NoRelease(Strip(Trim(Parse(content).prefix)))
  {
    var prefix := Strip(Trim(Parse(content).prefix));
    TidyTrim(Parse(content).prefix);
    forall i | 0 <= i < |prefix| && prefix[i].text.Release? ensures false {
      CountPositive(prefix, i);
      CountTrim(Parse(content).prefix, prefix[i].text);
      FeedCounts(Number(content), prefix[i].text);
    }
  }

  /** The fixer writes normal documents, whose headings are distinct within every section. */
  lemma {:induction false} FixedIsNormal(content: seq<Text>, promotable: set<nat>, historical: set<seq<Line>>)
    ensures NormalDocument(FixedDocument(content, promotable, historical))
  {
    var d := FixedDocument(content, promotable, historical);
    PrefixIsNormal(content);
    FixedInForm(content, promotable, historical);
    forall j | 0 <= j < |d.sections| ensures NormalSection(d.sections[j]) {
      FixedHasNoHeading(content, promotable, historical, j);
      NoHeadingInside(d.sections[j]);
    }
  }

  // ----- Conservation of text

  lemma {:induction false} TidySectionsKeepText(sections: seq<Section>, t: Text)
    requires !t.Blank?
    ensures CountSections(TidySections(sections), t) == CountSections(sections, t)
  {
    if sections != [] {
      TidySectionsKeepText(Front(sections), t);
      assert Front(TidySections(sections)) == TidySections(Front(sections));
      CountTrim(Last(sections).leading, t);
      TidySubsectionsKeepText(Last(sections).subsections, t);
    }
  }

  lemma {:induction false} TidySubsectionsKeepText(subs: seq<Subsection>, t: Text)
    requires !t.Blank?
    ensures CountIn(TidySubsections(subs), t) == CountIn(subs, t)
  {
    if subs != [] {
      TidySubsectionsKeepText(Front(subs), t);
      assert Front(TidySubsections(subs)) == TidySubsections(Front(subs));
      CountTrim(Last(subs).lines, t);
    }
  }

  /** Writing a normal document writes each line of text as often as the document has it. */
  lemma {:induction false} RenderKeepsText(d: Document, t: Text)
    requires NormalDocument(d) && IsBody(t)
    ensures Occurrences(Render(d), t) == CountDocument(d, t)
  {
    ParseInvertsRender(d);
    var back := Parse(Render(d));
    FeedCounts(Number(Render(d)), t);
    CountTrim(back.prefix, t);
    TidySectionsKeepText(back.sections, t);
  }

  /** Every line of text of the input is in the output, just as often, but for those of dropped bullets
      and of promoted bullets that were already there. */
  lemma {:induction false} TextIsConserved(content: seq<Text>, promotable: set<nat>, historical: set<seq<Line>>, t: Text)
    requires IsBody(t)
    ensures var sections := Parse(content).sections;
            Occurrences(Fix(content, promotable, historical), t)
            + DroppedText(sections, historical, t) + AlreadyThere(DropDuplicates(sections, historical), promotable, t)
            == Occurrences(content, t)
  {
    FixedIsNormal(content, promotable, historical);
    RenderKeepsText(FixedDocument(content, promotable, historical), t);
    FixedDocumentKeepsText(content, promotable, historical, t);
    CountTrim(Parse(content).prefix, t);
    FeedCounts(Number(content), t);
  }
}
