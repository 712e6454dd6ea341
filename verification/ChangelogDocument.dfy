/**
 The changelog as sections and subsections: `fix-changelogs.ts` reads it line by line and writes it
 back, and reading is the inverse of writing.
 */
module ChangelogDocument {
  import opened ChangelogText
  import opened ChangelogLists

  datatype Subsection = Subsection(title: string, lines: seq<Line>)

  datatype Section = Section(heading: string, title: Title, leading: seq<Line>, subsections: seq<Subsection>)

  datatype Document = Document(prefix: seq<Line>, sections: seq<Section>)

  // ----- Reading

  /** A line goes to the last container that is open. */
  function AddToSection(s: Section, l: Line): Section {
    if l.text.Subheading? then s.(subsections := s.subsections + [Subsection(l.text.name, [])])
    else if s.subsections == [] then s.(leading := s.leading + [l])
    else
      var last := Last(s.subsections);
      s.(subsections := Front(s.subsections) + [last.(lines := last.lines + [l])])
  }

  function AddToDocument(d: Document, l: Line): Document {
    if l.text.Release? then d.(sections := d.sections + [Section(l.text.heading, l.text.title, [], [])])
    else if d.sections == [] then d.(prefix := d.prefix + [l])
    else d.(sections := Front(d.sections) + [AddToSection(Last(d.sections), l)])
  }

  function FeedSection(s: Section, lines: seq<Line>): Section {
    if lines == [] then s else AddToSection(FeedSection(s, Front(lines)), Last(lines))
  }

  function Feed(d: Document, lines: seq<Line>): Document {
    if lines == [] then d else AddToDocument(Feed(d, Front(lines)), Last(lines))
  }

  function Number(content: seq<Text>): (r: seq<Line>)
    ensures |r| == |content| && forall i :: 0 <= i < |r| ==> r[i] == Line(content[i], i + 1)
  {
    seq(|content|, i requires 0 <= i < |content| => Line(content[i], i + 1))
  }

  const EMPTY: Document := Document([], [])

  function Parse(content: seq<Text>): Document {
    Feed(EMPTY, Number(content))
  }

  lemma {:induction false} FeedSectionNext(s: Section, lines: seq<Line>, n: nat)
    requires n < |lines|
    ensures FeedSection(s, lines[..n + 1]) == AddToSection(FeedSection(s, lines[..n]), lines[n])
  {
    assert Front(lines[..n + 1]) == lines[..n];
  }

  lemma {:induction false} FeedNext(d: Document, lines: seq<Line>, n: nat)
    requires n < |lines|
    ensures Feed(d, lines[..n + 1]) == AddToDocument(Feed(d, lines[..n]), lines[n])
  {
    assert Front(lines[..n + 1]) == lines[..n];
  }

  predicate AtSubheading(lines: seq<Line>, i: nat) {
    i >= |lines| || lines[i].text.Subheading?
  }

  predicate AtRelease(lines: seq<Line>, i: nat) {
    i >= |lines| || lines[i].text.Release?
  }

  function WithLines(s: Section, title: string, lines: seq<Line>): Section {
    s.(subsections := s.subsections + [Subsection(title, lines)])
  }

  lemma {:induction false} AddToNewest(s: Section, title: string, lines: seq<Line>, l: Line)
    requires !l.text.Subheading?
    ensures AddToSection(WithLines(s, title, lines), l) == WithLines(s, title, lines + [l])
  {
    FrontOfAppend(s.subsections, Subsection(title, lines));
  }

  /** The lines up to the next heading. */
  method ReadSubsection(ghost s: Section, ghost read: Section, body: seq<Line>, start: nat)
    returns (subsection: Subsection, index: nat)
    requires start < |body| && body[start].text.Subheading? && FeedSection(s, body[..start]) == read
    ensures start < index <= |body| && AtSubheading(body, index)
    ensures FeedSection(s, body[..index]) == WithLines(read, subsection.title, subsection.lines)
  {
    var title, lines := body[start].text.name, [];
    FeedSectionNext(s, body, start);
    index := start + 1;
    while index < |body| && !body[index].text.Subheading?
      invariant start < index <= |body|
      invariant FeedSection(s, body[..index]) == WithLines(read, title, lines)
    {
      FeedSectionNext(s, body, index);
      AddToNewest(read, title, lines, body[index]);
      lines := lines + [body[index]];
      index := index + 1;
    }
    subsection := Subsection(title, lines);
  }

  method ParseReleaseSection(heading: string, title: Title, body: seq<Line>) returns (r: Section)
    ensures r == FeedSection(Section(heading, title, [], []), body)
  {
    var leading, subsections := [], [];
    var index := 0;
    ghost var s := Section(heading, title, [], []);
    while index < |body| && !body[index].text.Subheading?
      invariant 0 <= index <= |body|
      invariant FeedSection(s, body[..index]) == Section(heading, title, leading, [])
    {
      FeedSectionNext(s, body, index);
      leading := leading + [body[index]];
      index := index + 1;
    }
    while index < |body|
      invariant 0 <= index <= |body| && AtSubheading(body, index)
      invariant FeedSection(s, body[..index]) == Section(heading, title, leading, subsections)
    {
      var subsection, end :=
        ReadSubsection(Section(heading, title, [], []), Section(heading, title, leading, subsections), body, index);
      subsections := subsections + [subsection];
      index := end;
    }
    assert body[..|body|] == body;
    r := Section(heading, title, leading, subsections);
  }

  ghost predicate NoRelease(lines: seq<Line>) {
    forall i :: 0 <= i < |lines| ==> !lines[i].text.Release?
  }

  function WithSection(d: Document, s: Section): Document {
    d.(sections := d.sections + [s])
  }

  /** Lines without a release heading all go to the section just begun. */
  lemma {:induction false} FeedToNewest(d: Document, s: Section, lines: seq<Line>)
    requires NoRelease(lines)
    ensures Feed(WithSection(d, s), lines) == WithSection(d, FeedSection(s, lines))
  {
    if lines != [] {
      FeedToNewest(d, s, Front(lines));
      FrontOfAppend(d.sections, FeedSection(s, Front(lines)));
    }
  }

  lemma {:induction false} FeedConcat(d: Document, x: seq<Line>, y: seq<Line>)
    ensures Feed(d, x + y) == Feed(Feed(d, x), y)
  {
    if y == [] {
      assert x + y == x;
    } else {
      assert Front(x + y) == x + Front(y);
      FeedConcat(d, x, Front(y));
    }
  }

  lemma {:induction false} FeedSectionConcat(s: Section, x: seq<Line>, y: seq<Line>)
    ensures FeedSection(s, x + y) == FeedSection(FeedSection(s, x), y)
  {
    if y == [] {
      assert x + y == x;
    } else {
      assert Front(x + y) == x + Front(y);
      FeedSectionConcat(s, x, Front(y));
    }
  }

  lemma {:induction false} SectionRead(d: Document, lines: seq<Line>, start: nat, end: nat)
    requires start < end <= |lines| && lines[start].text.Release? && NoRelease(lines[start + 1..end])
    ensures Feed(d, lines[..end]) ==
            WithSection(Feed(d, lines[..start]),
                        FeedSection(Section(lines[start].text.heading, lines[start].text.title, [], []), lines[start + 1..end]))
  {
    FeedNext(d, lines, start);
    assert lines[..end] == lines[..start + 1] + lines[start + 1..end];
    FeedConcat(d, lines[..start + 1], lines[start + 1..end]);
    FeedToNewest(Feed(d, lines[..start]), Section(lines[start].text.heading, lines[start].text.title, [], []),
                 lines[start + 1..end]);
  }

  /** The lines from `start` up to the next release heading. */
  method BodyLines(lines: seq<Line>, start: nat) returns (body: seq<Line>)
    requires start <= |lines|
    ensures start + |body| <= |lines| && body == lines[start..start + |body|]
    ensures NoRelease(body) && AtRelease(lines, start + |body|)
  {
    body := [];
    var index := start;
    while index < |lines| && !lines[index].text.Release?
      invariant start <= index <= |lines| && body == lines[start..index] && NoRelease(body)
    {
      body := body + [lines[index]];
      index := index + 1;
    }
  }

  lemma {:induction false} PrefixRead(lines: seq<Line>, index: nat, prefix: seq<Line>)
    requires index < |lines| && !lines[index].text.Release? && Feed(EMPTY, lines[..index]) == Document(prefix, [])
    ensures Feed(EMPTY, lines[..index + 1]) == Document(prefix + [lines[index]], [])
  {
    FeedNext(EMPTY, lines, index);
  }

  /** The lines before `index` read as these containers, and the next line begins a section. */
  ghost predicate ReadUpTo(lines: seq<Line>, index: nat, prefix: seq<Line>, sections: seq<Section>) {
    index <= |lines| && AtRelease(lines, index) && Feed(EMPTY, lines[..index]) == Document(prefix, sections)
  }

  lemma {:induction false} NextSectionRead(lines: seq<Line>, index: nat, body: seq<Line>, prefix: seq<Line>, sections: seq<Section>,
                                           section: Section)
    requires ReadUpTo(lines, index, prefix, sections) && index + 1 + |body| <= |lines|
    requires body == lines[index + 1..index + 1 + |body|] && NoRelease(body) && AtRelease(lines, index + 1 + |body|)
    requires section == FeedSection(Section(lines[index].text.heading, lines[index].text.title, [], []), body)
    ensures ReadUpTo(lines, index + 1 + |body|, prefix, sections + [section])
  {
    SectionRead(EMPTY, lines, index, index + 1 + |body|);
  }

  lemma {:induction false} AllRead(lines: seq<Line>, prefix: seq<Line>, sections: seq<Section>)
    requires ReadUpTo(lines, |lines|, prefix, sections)
    ensures Feed(EMPTY, lines) == Document(prefix, sections)
  {
    assert lines[..|lines|] == lines;
  }

  method ReadPrefix(lines: seq<Line>) returns (prefix: seq<Line>, index: nat)
    ensures ReadUpTo(lines, index, prefix, [])
  {
    prefix, index := [], 0;
    while index < |lines| && !lines[index].text.Release?
      invariant 0 <= index <= |lines|
      invariant Feed(EMPTY, lines[..index]) == Document(prefix, [])
    {
      PrefixRead(lines, index, prefix);
      prefix := prefix + [lines[index]];
      index := index + 1;
    }
  }

  method ParseChangelog(content: seq<Text>) returns (d: Document)
    ensures d == Parse(content)
  {
    var lines := Number(content);
    var prefix, index := ReadPrefix(lines);
    var sections := [];
    while index < |lines|
      invariant ReadUpTo(lines, index, prefix, sections)
    {
      var body := BodyLines(lines, index + 1);
      var section := ParseReleaseSection(lines[index].text.heading, lines[index].text.title, body);
      NextSectionRead(lines, index, body, prefix, sections, section);
      sections := sections + [section];
      index := index + 1 + |body|;
    }
    AllRead(lines, prefix, sections);
    d := Document(prefix, sections);
  }

  // ----- Writing

  function Texts(lines: seq<Line>): (r: seq<Text>)
    ensures |r| == |lines| && forall i :: 0 <= i < |r| ==> r[i] == lines[i].text
  {
    seq(|lines|, i requires 0 <= i < |lines| => lines[i].text)
  }

  function SubsectionLines(sub: Subsection): seq<Line> {
    var lines := Strip(Trim(sub.lines));
    if lines == [] then [] else [GAP, Made(Subheading(sub.title, "")), GAP] + lines
  }

  function SubsectionsLines(subs: seq<Subsection>): seq<Line> {
    if subs == [] then [] else SubsectionsLines(Front(subs)) + SubsectionLines(Last(subs))
  }

  function LeadingLines(leading: seq<Line>): seq<Line> {
    var lines := Strip(Trim(leading));
    if lines == [] then [] else [GAP] + lines
  }

  function SectionLines(s: Section): seq<Line> {
    [Made(Release(s.title, s.heading))] + LeadingLines(s.leading) + SubsectionsLines(s.subsections) + [GAP]
  }

  function SectionsLines(sections: seq<Section>): seq<Line> {
    if sections == [] then [] else SectionsLines(Front(sections)) + SectionLines(Last(sections))
  }

  function PrefixLines(prefix: seq<Line>): seq<Line> {
    var lines := Strip(Trim(prefix));
    if lines == [] then [] else lines + [GAP]
  }

  /** Everything written, before the blank end is cut. */
  function AllLines(d: Document): seq<Line> {
    PrefixLines(d.prefix) + SectionsLines(d.sections)
  }

  function CutEnd(lines: seq<Line>): seq<Line> {
    if lines != [] && Last(lines) == GAP then CutEnd(Front(lines)) else lines
  }

  /** A file has at least one line, if only an empty one. */
  function Render(d: Document): seq<Text> {
    if CutEnd(AllLines(d)) == [] then [Blank("")] else Texts(CutEnd(AllLines(d)))
  }

  lemma {:induction false} SubsectionsNext(subs: seq<Subsection>, j: nat)
    requires j < |subs|
    ensures SubsectionsLines(subs[..j + 1]) == SubsectionsLines(subs[..j]) + SubsectionLines(subs[j])
  {
    var upTo := subs[..j + 1];
    assert Front(upTo) == subs[..j] && Last(upTo) == subs[j];
    assert SubsectionsLines(upTo) == SubsectionsLines(Front(upTo)) + SubsectionLines(Last(upTo));
  }

  lemma {:induction false} SectionsNext(sections: seq<Section>, j: nat)
    requires j < |sections|
    ensures SectionsLines(sections[..j + 1]) == SectionsLines(sections[..j]) + SectionLines(sections[j])
  {
    assert Front(sections[..j + 1]) == sections[..j];
  }

  method RenderSubsection(sub: Subsection) returns (r: seq<Line>)
    ensures r == SubsectionLines(sub)
  {
    var lines := TrimBlankLines(sub.lines);
    lines := Strip(lines);
    if |lines| == 0 {
      return [];
    }
    r := [GAP, Made(Subheading(sub.title, "")), GAP] + lines;
  }

  method RenderSubsections(subs: seq<Subsection>) returns (r: seq<Line>)
    ensures r == SubsectionsLines(subs)
  {
    r := [];
    for j := 0 to |subs|
      invariant r == SubsectionsLines(subs[..j])
    {
      SubsectionsNext(subs, j);
      var lines := RenderSubsection(subs[j]);
      r := r + lines;
    }
    assert subs[..|subs|] == subs;
  }

  method RenderSection(section: Section) returns (r: seq<Line>)
    ensures r == SectionLines(section)
  {
    r := [Made(Release(section.title, section.heading))];
    var leading := TrimBlankLines(section.leading);
    leading := Strip(leading);
    if |leading| > 0 {
      leading := [GAP] + leading;
    }
    var rest := RenderSubsections(section.subsections);
    r := r + leading + rest + [GAP];
  }

  method RenderSections(sections: seq<Section>) returns (r: seq<Line>)
    ensures r == SectionsLines(sections)
  {
    r := [];
    for j := 0 to |sections|
      invariant r == SectionsLines(sections[..j])
    {
      SectionsNext(sections, j);
      var lines := RenderSection(sections[j]);
      r := r + lines;
    }
    assert sections[..|sections|] == sections;
  }

  method CutBlankEnd(lines: seq<Line>) returns (r: seq<Line>)
    ensures r == CutEnd(lines)
  {
    r := lines;
    while |r| > 0 && r[|r| - 1] == GAP
      invariant CutEnd(r) == CutEnd(lines)
    {
      r := r[..|r| - 1];
    }
  }

  method RenderChangelog(d: Document) returns (content: seq<Text>)
    ensures content == Render(d)
  {
    var prefix := TrimBlankLines(d.prefix);
    prefix := Strip(prefix);
    if |prefix| > 0 {
      prefix := prefix + [GAP];
    }
    var rest := RenderSections(d.sections);
    var output := CutBlankEnd(prefix + rest);
    content := if |output| == 0 then [Blank("")] else Texts(output);
  }

  // ----- Reading back

  function StripSubsections(subs: seq<Subsection>): (r: seq<Subsection>)
    ensures |r| == |subs| && forall j :: 0 <= j < |r| ==> r[j] == Subsection(subs[j].title, Strip(subs[j].lines))
  {
    seq(|subs|, j requires 0 <= j < |subs| => Subsection(subs[j].title, Strip(subs[j].lines)))
  }

  function StripSection(s: Section): Section {
    Section(s.heading, s.title, Strip(s.leading), StripSubsections(s.subsections))
  }

  function StripDocument(d: Document): (r: Document)
  {
    Document(Strip(d.prefix), StripSections(d.sections))
  }

  function StripSections(sections: seq<Section>): (r: seq<Section>)
    ensures |r| == |sections| && forall j :: 0 <= j < |r| ==> r[j] == StripSection(sections[j])
  {
    seq(|sections|, j requires 0 <= j < |sections| => StripSection(sections[j]))
  }

  lemma {:induction false} StripAppend(lines: seq<Line>, l: Line)
    ensures Strip(lines + [l]) == Strip(lines) + [Made(l.text)]
  {
  }

  lemma {:induction false} AddToStrippedSection(s: Section, l: Line)
    ensures AddToSection(StripSection(s), Made(l.text)) == StripSection(AddToSection(s, l))
  {
    if l.text.Subheading? {
      assert StripSubsections(AddToSection(s, l).subsections) == StripSubsections(s.subsections) + [Subsection(l.text.name, [])];
    } else if s.subsections == [] {
      StripAppend(s.leading, l);
    } else {
      var last := Last(s.subsections);
      StripAppend(last.lines, l);
      assert Front(StripSubsections(s.subsections)) == StripSubsections(Front(s.subsections));
      assert StripSubsections(AddToSection(s, l).subsections)
          == StripSubsections(Front(s.subsections)) + [Subsection(last.title, Strip(last.lines + [l]))];
    }
  }

  lemma {:induction false} AddToStripped(d: Document, l: Line)
    ensures AddToDocument(StripDocument(d), Made(l.text)) == StripDocument(AddToDocument(d, l))
  {
    if l.text.Release? {
      assert StripSections(AddToDocument(d, l).sections)
          == StripSections(d.sections) + [StripSection(Section(l.text.heading, l.text.title, [], []))];
    } else if d.sections == [] {
      StripAppend(d.prefix, l);
    } else {
      AddToStrippedSection(Last(d.sections), l);
      assert Front(StripSections(d.sections)) == StripSections(Front(d.sections));
      assert StripSections(AddToDocument(d, l).sections)
          == StripSections(Front(d.sections)) + [StripSection(AddToSection(Last(d.sections), l))];
    }
  }

  lemma {:induction false} FeedStripped(d: Document, lines: seq<Line>)
    ensures Feed(StripDocument(d), Strip(lines)) == StripDocument(Feed(d, lines))
  {
    if lines != [] {
      FeedStripped(d, Front(lines));
      AddToStripped(Feed(d, Front(lines)), Last(lines));
      assert Front(Strip(lines)) == Strip(Front(lines));
    }
  }

  // The shape of what is read back

  /** A document without line numbers and blank ends. */
  function TidySubsections(subs: seq<Subsection>): (r: seq<Subsection>)
    ensures |r| == |subs| && forall j :: 0 <= j < |r| ==> r[j] == Subsection(subs[j].title, Strip(Trim(subs[j].lines)))
  {
    seq(|subs|, j requires 0 <= j < |subs| => Subsection(subs[j].title, Strip(Trim(subs[j].lines))))
  }

  function TidySection(s: Section): Section {
    Section(s.heading, s.title, Strip(Trim(s.leading)), TidySubsections(s.subsections))
  }

  function TidySections(sections: seq<Section>): (r: seq<Section>)
    ensures |r| == |sections| && forall j :: 0 <= j < |r| ==> r[j] == TidySection(sections[j])
  {
    seq(|sections|, j requires 0 <= j < |sections| => TidySection(sections[j]))
  }

  function TidyDocument(d: Document): Document {
    Document(Strip(Trim(d.prefix)), TidySections(d.sections))
  }

  ghost predicate NoHeading(lines: seq<Line>) {
    forall i :: 0 <= i < |lines| ==> !lines[i].text.Release? && !lines[i].text.Subheading?
  }

  ghost predicate NormalSection(s: Section) {
    && Tidy(s.leading) && NoHeading(s.leading)
    && forall j :: 0 <= j < |s.subsections| ==> NormalBody(s.subsections[j].lines)
  }

  ghost predicate NormalBody(lines: seq<Line>) {
    Tidy(lines) && lines != [] && NoHeading(lines)
  }

  /** The form every written document has. */
  ghost predicate NormalDocument(d: Document) {
    && Tidy(d.prefix) && NoRelease(d.prefix)
    && NormalSections(d.sections)
  }

  ghost predicate NormalSections(sections: seq<Section>) {
    forall j :: 0 <= j < |sections| ==> NormalSection(sections[j])
  }

  function Padded(lines: seq<Line>): seq<Line> {
    [GAP] + lines + [GAP]
  }

  function PaddedSubsections(subs: seq<Subsection>): (r: seq<Subsection>)
    ensures |r| == |subs| && forall j :: 0 <= j < |r| ==> r[j] == Subsection(subs[j].title, Padded(subs[j].lines))
  {
    seq(|subs|, j requires 0 <= j < |subs| => Subsection(subs[j].title, Padded(subs[j].lines)))
  }

  /** A written section as it is read back. */
  function PaddedSection(s: Section): Section {
    Section(s.heading, s.title, if s.leading == [] then [GAP] else Padded(s.leading), PaddedSubsections(s.subsections))
  }

  lemma {:induction false} FeedLeading(s: Section, lines: seq<Line>)
    requires s.subsections == [] && NoHeading(lines)
    ensures FeedSection(s, lines) == s.(leading := s.leading + lines)
  {
    if lines == [] {
      assert s.leading + lines == s.leading;
    } else {
      FeedLeading(s, Front(lines));
      assert s.leading + lines == s.leading + Front(lines) + [Last(lines)];
    }
  }

  lemma {:induction false} FeedBody(s: Section, title: string, before: seq<Line>, lines: seq<Line>)
    requires NoHeading(lines)
    ensures FeedSection(WithLines(s, title, before), lines) == WithLines(s, title, before + lines)
  {
    if lines == [] {
      assert before + lines == before;
    } else {
      FeedBody(s, title, before, Front(lines));
      AddToNewest(s, title, before + Front(lines), Last(lines));
      assert before + lines == before + Front(lines) + [Last(lines)];
    }
  }

  /** A written subsection closes the container before it with a blank line and opens its own. */
  lemma {:induction false} FeedSubsection(s: Section, sub: Subsection)
    requires NormalBody(sub.lines)
    ensures AddToSection(FeedSection(s, SubsectionLines(sub)), GAP)
            == WithLines(AddToSection(s, GAP), sub.title, Padded(sub.lines))
  {
    TidyTrim(sub.lines);
    var head := [GAP, Made(Subheading(sub.title, "")), GAP];
    FeedSectionConcat(s, head, sub.lines);
    FeedHead(s, sub.title);
    var closed := AddToSection(s, GAP);
    FeedBody(closed, sub.title, [GAP], sub.lines);
    AddToNewest(closed, sub.title, [GAP] + sub.lines, GAP);
  }

  lemma {:induction false} FeedHead(s: Section, title: string)
    ensures FeedSection(s, [GAP, Made(Subheading(title, "")), GAP]) == WithLines(AddToSection(s, GAP), title, [GAP])
  {
    var one, two := [GAP], [GAP, Made(Subheading(title, ""))];
    assert Front([GAP, Made(Subheading(title, "")), GAP]) == two && Front(two) == one && Front(one) == [];
    assert FeedSection(s, one) == AddToSection(s, GAP);
    assert FeedSection(s, two) == WithLines(AddToSection(s, GAP), title, []);
    AddToNewest(AddToSection(s, GAP), title, [], GAP);
    assert [] + [GAP] == [GAP];
  }

  /** Whether these lines, closed by a blank line, read back as the subsections. */
  ghost predicate ReadsAs(s: Section, lines: seq<Line>, subs: seq<Subsection>) {
    AddToSection(FeedSection(s, lines), GAP) == Section(s.heading, s.title, s.leading + [GAP], PaddedSubsections(subs))
  }

  lemma {:induction false} OneMoreSubsection(s: Section, lines: seq<Line>, subs: seq<Subsection>, sub: Subsection)
    requires ReadsAs(s, lines, subs) && NormalBody(sub.lines)
    ensures ReadsAs(s, lines + SubsectionLines(sub), subs + [sub])
  {
    FeedSectionConcat(s, lines, SubsectionLines(sub));
    FeedSubsection(FeedSection(s, lines), sub);
    assert PaddedSubsections(subs + [sub]) == PaddedSubsections(subs) + [Subsection(sub.title, Padded(sub.lines))];
  }

  lemma {:induction false} FeedSubsections(s: Section, subs: seq<Subsection>)
    requires s.subsections == []
    requires forall j :: 0 <= j < |subs| ==> NormalBody(subs[j].lines)
    ensures ReadsAs(s, SubsectionsLines(subs), subs)
  {
    if subs != [] {
      FrontAndLast(subs);
      FeedSubsections(s, Front(subs));
      OneMoreSubsection(s, SubsectionsLines(Front(subs)), Front(subs), Last(subs));
    }
  }

  function InsideSection(s: Section): seq<Line> {
    LeadingLines(s.leading) + SubsectionsLines(s.subsections) + [GAP]
  }

  lemma {:induction false} FeedInside(s: Section)
    requires NormalSection(s)
    ensures FeedSection(Section(s.heading, s.title, [], []), InsideSection(s)) == PaddedSection(s)
  {
    TidyTrim(s.leading);
    var blank, lead, rest := Section(s.heading, s.title, [], []), LeadingLines(s.leading), SubsectionsLines(s.subsections);
    FeedLeading(blank, lead);
    assert [] + lead == lead;
    FeedSectionConcat(blank, lead, rest);
    FeedSectionNextLine(blank, lead + rest, GAP);
    FeedSubsections(Section(s.heading, s.title, lead, []), s.subsections);
  }

  lemma {:induction false} InsideHasNoRelease(s: Section)
    requires NormalSection(s)
    ensures NoRelease(InsideSection(s))
  {
    TidyTrim(s.leading);
    SubsectionsHaveNoRelease(s.subsections);
  }

  lemma {:induction false} SectionIsHeaded(s: Section)
    ensures SectionLines(s) == [Made(Release(s.title, s.heading))] + InsideSection(s)
  {
    var heading, lead, rest := [Made(Release(s.title, s.heading))], LeadingLines(s.leading), SubsectionsLines(s.subsections);
    Associates(heading, lead, rest);
    Associates(heading, lead + rest, [GAP]);
  }

  lemma {:induction false} FeedWrittenSection(d: Document, s: Section)
    requires NormalSection(s)
    ensures Feed(d, SectionLines(s)) == WithSection(d, PaddedSection(s))
  {
    var heading := Made(Release(s.title, s.heading));
    SectionIsHeaded(s);
    FeedConcat(d, [heading], InsideSection(s));
    FeedOne(d, heading);
    InsideHasNoRelease(s);
    FeedToNewest(d, Section(s.heading, s.title, [], []), InsideSection(s));
    FeedInside(s);
  }

  lemma {:induction false} FeedOne(d: Document, l: Line)
    ensures Feed(d, [l]) == AddToDocument(d, l)
  {
    assert Front([l]) == [];
  }

  lemma {:induction false} FeedSectionNextLine(s: Section, lines: seq<Line>, l: Line)
    ensures FeedSection(s, lines + [l]) == AddToSection(FeedSection(s, lines), l)
  {
    FrontOfAppend(lines, l);
  }

  lemma {:induction false} SubsectionsHaveNoRelease(subs: seq<Subsection>)
    requires forall j :: 0 <= j < |subs| ==> NormalBody(subs[j].lines)
    ensures NoRelease(SubsectionsLines(subs))
  {
    if subs != [] {
      SubsectionsHaveNoRelease(Front(subs));
      TidyTrim(Last(subs).lines);
    }
  }

  function PaddedSections(sections: seq<Section>): (r: seq<Section>)
    ensures |r| == |sections| && forall j :: 0 <= j < |r| ==> r[j] == PaddedSection(sections[j])
  {
    seq(|sections|, j requires 0 <= j < |sections| => PaddedSection(sections[j]))
  }

  function WithSections(d: Document, sections: seq<Section>): Document {
    Document(d.prefix, d.sections + sections)
  }

  lemma {:induction false} WithOneMore(d: Document, sections: seq<Section>, s: Section)
    ensures WithSection(WithSections(d, sections), s) == WithSections(d, sections + [s])
  {
    Associates(d.sections, sections, [s]);
  }

  lemma {:induction false} FeedOneMore(d: Document, lines: seq<Line>, sections: seq<Section>, s: Section)
    requires Feed(d, lines) == WithSections(d, sections) && NormalSection(s)
    ensures Feed(d, lines + SectionLines(s)) == WithSections(d, sections + [PaddedSection(s)])
  {
    FeedConcat(d, lines, SectionLines(s));
    FeedWrittenSection(WithSections(d, sections), s);
    WithOneMore(d, sections, PaddedSection(s));
  }

  lemma {:induction false} PaddedOneMore(sections: seq<Section>)
    requires sections != []
    ensures PaddedSections(sections) == PaddedSections(Front(sections)) + [PaddedSection(Last(sections))]
  {
  }

  lemma {:induction false} NormalParts(sections: seq<Section>)
    requires NormalSections(sections) && sections != []
    ensures NormalSections(Front(sections)) && NormalSection(Last(sections))
  {
  }

  lemma {:induction false} FeedWrittenSections(d: Document, sections: seq<Section>)
    requires NormalSections(sections)
    ensures Feed(d, SectionsLines(sections)) == WithSections(d, PaddedSections(sections))
  {
    if sections == [] {
      assert d.sections + PaddedSections(sections) == d.sections;
    } else {
      NormalParts(sections);
      FeedWrittenSections(d, Front(sections));
      FeedOneMore(d, SectionsLines(Front(sections)), PaddedSections(Front(sections)), Last(sections));
      PaddedOneMore(sections);
    }
  }

  lemma {:induction false} FeedPrefix(prefix: seq<Line>, lines: seq<Line>)
    requires NoRelease(lines)
    ensures Feed(Document(prefix, []), lines) == Document(prefix + lines, [])
  {
    if lines == [] {
      assert prefix + lines == prefix;
    } else {
      FeedPrefix(prefix, Front(lines));
      assert prefix + lines == prefix + Front(lines) + [Last(lines)];
    }
  }

  lemma {:induction false} PaddedIsTidy(lines: seq<Line>)
    requires Tidy(lines)
    ensures Strip(Trim(Padded(lines))) == lines && Strip(Trim([GAP])) == []
    ensures Strip(Trim(lines + [GAP])) == lines
  {
    TrimUnique([GAP], lines, [GAP]);
    TrimUnique([GAP], [], []);
    TrimUnique([], lines, [GAP]);
    assert [GAP] + [] + [] == [GAP] && [] + lines + [GAP] == lines + [GAP];
  }

  lemma {:induction false} PaddedSectionIsTidy(s: Section)
    requires NormalSection(s)
    ensures TidySection(PaddedSection(s)) == s
  {
    PaddedIsTidy(s.leading);
    var back := TidySubsections(PaddedSubsections(s.subsections));
    forall j | 0 <= j < |back| ensures back[j] == s.subsections[j] {
      assert NormalBody(s.subsections[j].lines);
      PaddedIsTidy(s.subsections[j].lines);
    }
  }

  lemma {:induction false} PaddedSectionsAreTidy(sections: seq<Section>)
    requires NormalSections(sections)
    ensures TidySections(PaddedSections(sections)) == sections
  {
    forall j | 0 <= j < |sections| ensures TidySection(PaddedSection(sections[j])) == sections[j] {
      PaddedSectionIsTidy(sections[j]);
    }
  }

  lemma {:induction false} PrefixReadsBack(prefix: seq<Line>)
    requires Tidy(prefix) && NoRelease(prefix)
    ensures Feed(EMPTY, PrefixLines(prefix)) == Document(PrefixLines(prefix), [])
    ensures Strip(Trim(PrefixLines(prefix))) == prefix
  {
    TidyTrim(prefix);
    PaddedIsTidy(prefix);
    FeedPrefix([], PrefixLines(prefix));
    assert [] + PrefixLines(prefix) == PrefixLines(prefix);
  }

  lemma {:induction false} WithAllSections(prefix: seq<Line>, sections: seq<Section>)
    ensures WithSections(Document(prefix, []), sections) == Document(prefix, sections)
  {
    assert [] + sections == sections;
  }

  /** What all the lines read back as, before the blank end is cut. */
  lemma {:induction false} AllLinesReadBack(d: Document)
    requires NormalDocument(d)
    ensures TidyDocument(Feed(EMPTY, AllLines(d))) == d
  {
    var pre := PrefixLines(d.prefix);
    PrefixReadsBack(d.prefix);
    FeedConcat(EMPTY, pre, SectionsLines(d.sections));
    FeedWrittenSections(Document(pre, []), d.sections);
    WithAllSections(pre, PaddedSections(d.sections));
    PaddedSectionsAreTidy(d.sections);
  }

  // ----- The blank end

  /** Only the very last blank line is cut. */
  lemma {:induction false} EndOfConcat<T>(x: seq<T>, y: seq<T>)
    requires |y| >= 2
    ensures |x + y| >= 2 && Last(x + y) == Last(y) && Last(Front(x + y)) == Last(Front(y))
  {
  }

  lemma {:induction false} CutIsOneLine(d: Document)
    ensures AllLines(d) == [] ==> CutEnd(AllLines(d)) == []
    ensures AllLines(d) != [] ==> CutEnd(AllLines(d)) != [] && AllLines(d) == CutEnd(AllLines(d)) + [GAP]
  {
    if d.sections != [] {
      var before, s := PrefixLines(d.prefix) + SectionsLines(Front(d.sections)), SectionLines(Last(d.sections));
      SectionEnds(Last(d.sections));
      Associates(PrefixLines(d.prefix), SectionsLines(Front(d.sections)), s);
      EndOfConcat(before, s);
      CutAfterText(AllLines(d));
    } else {
      assert AllLines(d) == PrefixLines(d.prefix);
      PrefixEnds(d.prefix);
    }
  }

  lemma {:induction false} PrefixEnds(prefix: seq<Line>)
    ensures var lines := PrefixLines(prefix); lines == [] || (CutEnd(lines) != [] && lines == CutEnd(lines) + [GAP])
  {
    TrimIsTrimmed(prefix);
    if PrefixLines(prefix) != [] {
      CutAfterText(PrefixLines(prefix));
    }
  }

  lemma {:induction false} CutAfterText(lines: seq<Line>)
    requires |lines| >= 2 && Last(lines) == GAP && !IsBlank(Last(Front(lines)))
    ensures CutEnd(lines) == Front(lines) && lines == Front(lines) + [GAP]
  {
  }

  lemma {:induction false} SectionEnds(s: Section)
    ensures var lines := SectionLines(s); |lines| >= 2 && Last(lines) == GAP && !IsBlank(Last(Front(lines)))
  {
    var heading, lead, subs := [Made(Release(s.title, s.heading))], LeadingLines(s.leading), SubsectionsLines(s.subsections);
    assert Front(SectionLines(s)) == heading + lead + subs;
    SubsectionsEnd(s.subsections);
    TrimIsTrimmed(s.leading);
    if subs != [] {
      assert Last(heading + lead + subs) == Last(subs);
    } else {
      assert heading + lead + subs == heading + lead;
      assert lead != [] ==> Last(heading + lead) == Last(lead);
    }
  }

  ghost predicate EndsInText(lines: seq<Line>) {
    lines != [] ==> !IsBlank(Last(lines))
  }

  lemma {:induction false} SubsectionEnds(sub: Subsection)
    ensures EndsInText(SubsectionLines(sub))
  {
    TrimIsTrimmed(sub.lines);
  }

  lemma {:induction false} EndsConcat(x: seq<Line>, y: seq<Line>)
    requires EndsInText(x) && EndsInText(y)
    ensures EndsInText(x + y)
  {
    if y == [] {
      assert x + y == x;
    } else {
      assert Last(x + y) == Last(y);
    }
  }

  lemma {:induction false} SubsectionsEnd(subs: seq<Subsection>)
    ensures EndsInText(SubsectionsLines(subs))
  {
    if subs != [] {
      SubsectionsEnd(Front(subs));
      SubsectionEnds(Last(subs));
      EndsConcat(SubsectionsLines(Front(subs)), SubsectionLines(Last(subs)));
    }
  }

  // ----- Round trips

  lemma {:induction false} TidyOfStripped(d: Document)
    ensures TidyDocument(StripDocument(d)) == TidyDocument(d)
  {
    TrimStrip(d.prefix);
    forall j | 0 <= j < |d.sections| ensures TidySection(StripSection(d.sections[j])) == TidySection(d.sections[j]) {
      TidyOfStrippedSection(d.sections[j]);
    }
  }

  lemma {:induction false} TidyOfStrippedSection(s: Section)
    ensures TidySection(StripSection(s)) == TidySection(s)
  {
    TrimStrip(s.leading);
    forall j | 0 <= j < |s.subsections|
      ensures Strip(Trim(Strip(s.subsections[j].lines))) == Strip(Trim(s.subsections[j].lines))
    {
      TrimStrip(s.subsections[j].lines);
    }
    assert TidySubsections(StripSubsections(s.subsections)) == TidySubsections(s.subsections);
  }

  /** A blank line at the end of the file is part of no text. */
  lemma {:induction false} BlankEndDoesNotMatter(d: Document)
    ensures TidyDocument(AddToDocument(d, GAP)) == TidyDocument(d)
  {
    if d.sections == [] {
      TrimWithGap(d.prefix);
    } else {
      var last := Last(d.sections);
      BlankEndOfSection(last);
      assert TidySections(AddToDocument(d, GAP).sections) == TidySections(Front(d.sections)) + [TidySection(last)];
      assert Front(d.sections) + [last] == d.sections;
    }
  }

  lemma {:induction false} TrimWithGap(lines: seq<Line>)
    ensures Strip(Trim(lines + [GAP])) == Strip(Trim(lines))
  {
    var a, b := TrimSplits(lines);
    assert lines + [GAP] == a + Trim(lines) + (b + [GAP]);
    TrimUnique(a, Trim(lines), b + [GAP]);
  }

  lemma {:induction false} BlankEndOfSection(s: Section)
    ensures TidySection(AddToSection(s, GAP)) == TidySection(s)
  {
    if s.subsections == [] {
      TrimWithGap(s.leading);
    } else {
      var last := Last(s.subsections);
      TrimWithGap(last.lines);
      assert TidySubsections(AddToSection(s, GAP).subsections)
          == TidySubsections(Front(s.subsections)) + [Subsection(last.title, Strip(Trim(last.lines)))];
      assert Front(s.subsections) + [last] == s.subsections;
    }
  }

  lemma {:induction false} ParseStripped(content: seq<Text>, lines: seq<Line>)
    requires lines == Strip(lines) && content == Texts(lines)
    ensures TidyDocument(Parse(content)) == TidyDocument(Feed(EMPTY, lines))
  {
    assert Strip(Number(content)) == lines;
    FeedStripped(EMPTY, Number(content));
    assert StripDocument(EMPTY) == EMPTY;
    TidyOfStripped(Parse(content));
  }

  /** Every written line has the number 0. */
  lemma {:induction false} AllLinesAreStripped(d: Document)
    ensures AllLines(d) == Strip(AllLines(d))
  {
    SectionsAreStripped(d.sections);
  }

  lemma {:induction false} SectionIsStripped(s: Section)
    ensures SectionLines(s) == Strip(SectionLines(s))
  {
    SubsectionsAreStripped(s.subsections);
  }

  lemma {:induction false} SectionsAreStripped(sections: seq<Section>)
    ensures SectionsLines(sections) == Strip(SectionsLines(sections))
  {
    if sections != [] {
      SectionsAreStripped(Front(sections));
      SectionIsStripped(Last(sections));
      StripConcat(SectionsLines(Front(sections)), SectionLines(Last(sections)));
    }
  }

  lemma {:induction false} SubsectionsAreStripped(subs: seq<Subsection>)
    ensures SubsectionsLines(subs) == Strip(SubsectionsLines(subs))
  {
    if subs != [] {
      SubsectionsAreStripped(Front(subs));
      StripConcat(SubsectionsLines(Front(subs)), SubsectionLines(Last(subs)));
    }
  }

  /** Reading what was written gives back the document, up to line numbers and blank ends. */
  lemma {:induction false} ParseInvertsRender(d: Document)
    requires NormalDocument(d)
    ensures TidyDocument(Parse(Render(d))) == d
  {
    var all := AllLines(d);
    AllLinesReadBack(d);
    CutIsOneLine(d);
    AllLinesAreStripped(d);
    if all == [] {
      ParseStripped(Render(d), [GAP]);
      FeedOne(EMPTY, GAP);
      BlankEndDoesNotMatter(EMPTY);
    } else {
      var written := CutEnd(all);
      StripParts(written, [GAP]);
      ParseStripped(Render(d), written);
      FeedConcat(EMPTY, written, [GAP]);
      FeedOne(Feed(EMPTY, written), GAP);
      BlankEndDoesNotMatter(Feed(EMPTY, written));
    }
  }

  /** Different documents are written differently. */
  lemma {:induction false} RenderIsInjective(c: Document, d: Document)
    requires NormalDocument(c) && NormalDocument(d) && Render(c) == Render(d)
    ensures c == d
  {
    ParseInvertsRender(c);
    ParseInvertsRender(d);
  }
}
