/**
 Where blank lines stand in what `fix-changelogs.ts` writes: the file is a row of blocks with one blank
 line between any two.
 */
module ChangelogLayout {
  import opened ChangelogText
  import opened ChangelogDocument

  /** The lines of a body without blank ends, if there are any. */
  function BodyBlocks(lines: seq<Line>): seq<seq<Text>> {
    if Trim(lines) == [] then [] else [Texts(Trim(lines))]
  }

  function SubsectionBlocks(sub: Subsection): seq<seq<Text>> {
    if Trim(sub.lines) == [] then [] else [[Subheading(sub.title, "")], Texts(Trim(sub.lines))]
  }

  function SubsectionsBlocks(subs: seq<Subsection>): seq<seq<Text>> {
    if subs == [] then [] else SubsectionsBlocks(Front(subs)) + SubsectionBlocks(Last(subs))
  }

  function SectionBlocks(s: Section): seq<seq<Text>> {
    [[Release(s.title, s.heading)]] + BodyBlocks(s.leading) + SubsectionsBlocks(s.subsections)
  }

  function SectionsBlocks(sections: seq<Section>): seq<seq<Text>> {
    if sections == [] then [] else SectionsBlocks(Front(sections)) + SectionBlocks(Last(sections))
  }

  /** Text above the first release, and then for each release its heading, its text and, for each of its
      headings with text, that heading and the text. */
  function Blocks(d: Document): seq<seq<Text>> {
    BodyBlocks(d.prefix) + SectionsBlocks(d.sections)
  }

  /** The blocks with one blank line between any two. */
  function Spaced(blocks: seq<seq<Text>>): seq<Text> {
    if blocks == [] then []
    else if |blocks| == 1 then blocks[0]
    else Spaced(blocks[..|blocks| - 1]) + [Blank("")] + blocks[|blocks| - 1]
  }

  /** The blocks with a blank line behind each. */
  function Padded(blocks: seq<seq<Text>>): seq<Text> {
    if blocks == [] then [] else Padded(blocks[..|blocks| - 1]) + blocks[|blocks| - 1] + [Blank("")]
  }

  lemma {:induction false} PaddedIsSpaced(blocks: seq<seq<Text>>)
    requires blocks != []
    ensures Padded(blocks) == Spaced(blocks) + [Blank("")]
  {
    var front := blocks[..|blocks| - 1];
    if front == [] {
      assert Padded(front) == [];
    } else {
      PaddedIsSpaced(front);
    }
  }

  lemma {:induction false} PaddedConcat(a: seq<seq<Text>>, b: seq<seq<Text>>)
    ensures Padded(a + b) == Padded(a) + Padded(b)
  {
    if b == [] {
      assert a + b == a;
    } else {
      var n := |b| - 1;
      assert (a + b)[..|a + b| - 1] == a + b[..n];
      PaddedConcat(a, b[..n]);
    }
  }

  lemma {:induction false} PaddedOne(block: seq<Text>)
    ensures Padded([block]) == block + [Blank("")]
  {
    assert [block][..0] == [];
  }

  lemma {:induction false} PaddedTwo(x: seq<Text>, y: seq<Text>)
    ensures Padded([x, y]) == x + [Blank("")] + y + [Blank("")]
  {
    assert [x, y] == [x] + [y];
    PaddedConcat([x], [y]);
    PaddedOne(x);
    PaddedOne(y);
  }

  lemma {:induction false} TextsConcat(x: seq<Line>, y: seq<Line>)
    ensures Texts(x + y) == Texts(x) + Texts(y)
  {
  }

  lemma {:induction false} TextsOfStrip(lines: seq<Line>)
    ensures Texts(Strip(lines)) == Texts(lines)
  {
  }

  lemma {:induction false} TextsOfOne(t: Text)
    ensures Texts([Made(t)]) == [t]
  {
  }

  /** What a subsection adds behind a blank line is its blocks, with a blank line behind each. */
  lemma {:induction false} SubsectionPadded(sub: Subsection)
    ensures [Blank("")] + Padded(SubsectionBlocks(sub)) == Texts(SubsectionLines(sub)) + [Blank("")]
  {
    var lines := Trim(sub.lines);
    if lines != [] {
      TextsConcat([GAP, Made(Subheading(sub.title, "")), GAP], Strip(lines));
      TextsOfStrip(lines);
      PaddedTwo([Subheading(sub.title, "")], Texts(lines));
      assert Texts([GAP, Made(Subheading(sub.title, "")), GAP]) == [Blank(""), Subheading(sub.title, ""), Blank("")];
    }
  }

  lemma {:induction false} SubsectionsPadded(subs: seq<Subsection>)
    ensures [Blank("")] + Padded(SubsectionsBlocks(subs)) == Texts(SubsectionsLines(subs)) + [Blank("")]
  {
    if subs != [] {
      var front, last := Front(subs), Last(subs);
      SubsectionsPadded(front);
      SubsectionPadded(last);
      PaddedConcat(SubsectionsBlocks(front), SubsectionBlocks(last));
      TextsConcat(SubsectionsLines(front), SubsectionLines(last));
      Reordered([Blank("")], Padded(SubsectionsBlocks(front)), Padded(SubsectionBlocks(last)),
                Texts(SubsectionsLines(front)), Texts(SubsectionLines(last)));
    }
  }

  lemma {:induction false} Reordered<T>(gap: seq<T>, a: seq<T>, b: seq<T>, x: seq<T>, y: seq<T>)
    requires gap + a == x + gap && gap + b == y + gap
    ensures gap + (a + b) == (x + y) + gap
  {
    assert gap + (a + b) == (gap + a) + b;
    assert (x + gap) + b == x + (gap + b);
    assert x + (y + gap) == (x + y) + gap;
  }

  lemma {:induction false} LeadingPadded(leading: seq<Line>)
    ensures [Blank("")] + Padded(BodyBlocks(leading)) == Texts(LeadingLines(leading)) + [Blank("")]
  {
    var lines := Trim(leading);
    if lines != [] {
      TextsConcat([GAP], Strip(lines));
      TextsOfStrip(lines);
      PaddedOne(Texts(lines));
      assert Texts([GAP]) == [Blank("")];
    }
  }

  lemma {:induction false} PrefixPadded(prefix: seq<Line>)
    ensures Padded(BodyBlocks(prefix)) == Texts(PrefixLines(prefix))
  {
    var lines := Trim(prefix);
    if lines != [] {
      TextsConcat(Strip(lines), [GAP]);
      TextsOfStrip(lines);
      PaddedOne(Texts(lines));
      assert Texts([GAP]) == [Blank("")];
    }
  }

  lemma {:induction false} TextsOfSection(s: Section)
    ensures Texts(SectionLines(s)) ==
            [Release(s.title, s.heading)] + (Texts(LeadingLines(s.leading)) + Texts(SubsectionsLines(s.subsections)) + [Blank("")])
  {
    var heading, leading, rest := [Made(Release(s.title, s.heading))], LeadingLines(s.leading), SubsectionsLines(s.subsections);
    TextsOfOne(Release(s.title, s.heading));
    TextsOfOne(Blank(""));
    TextsConcat(heading, leading);
    TextsConcat(heading + leading, rest);
    TextsConcat(heading + leading + rest, [GAP]);
    Regrouped([Release(s.title, s.heading)], Texts(leading), Texts(rest), [Blank("")]);
  }

  lemma {:induction false} PaddedSection(s: Section)
    ensures Padded(SectionBlocks(s)) ==
            [Release(s.title, s.heading)] + ([Blank("")] + (Padded(BodyBlocks(s.leading)) + Padded(SubsectionsBlocks(s.subsections))))
  {
    var heading: seq<Text> := [Release(s.title, s.heading)];
    PaddedOne(heading);
    PaddedConcat([heading], BodyBlocks(s.leading));
    PaddedConcat([heading] + BodyBlocks(s.leading), SubsectionsBlocks(s.subsections));
    Associated(heading, [Blank("")], Padded(BodyBlocks(s.leading)), Padded(SubsectionsBlocks(s.subsections)));
  }

  lemma {:induction false} Regrouped<T>(a: seq<T>, b: seq<T>, c: seq<T>, d: seq<T>)
    ensures a + b + c + d == a + (b + c + d)
  {
  }

  lemma {:induction false} Associated<T>(a: seq<T>, b: seq<T>, c: seq<T>, d: seq<T>)
    ensures a + b + c + d == a + (b + (c + d))
  {
  }

  lemma {:induction false} SectionPadded(s: Section)
    ensures Padded(SectionBlocks(s)) == Texts(SectionLines(s))
  {
    LeadingPadded(s.leading);
    SubsectionsPadded(s.subsections);
    Reordered([Blank("")], Padded(BodyBlocks(s.leading)), Padded(SubsectionsBlocks(s.subsections)),
              Texts(LeadingLines(s.leading)), Texts(SubsectionsLines(s.subsections)));
    PaddedSection(s);
    TextsOfSection(s);
  }

  lemma {:induction false} SectionsPadded(sections: seq<Section>)
    ensures Padded(SectionsBlocks(sections)) == Texts(SectionsLines(sections))
  {
    if sections != [] {
      SectionsPadded(Front(sections));
      SectionPadded(Last(sections));
      PaddedConcat(SectionsBlocks(Front(sections)), SectionBlocks(Last(sections)));
      TextsConcat(SectionsLines(Front(sections)), SectionLines(Last(sections)));
    }
  }

  /** Every document is written as its blocks, with exactly one blank line between any two of them and none
      at the ends; an empty document is one blank line. */
  lemma {:induction false} RenderIsSpaced(d: Document)
    ensures Render(d) == if Blocks(d) == [] then [Blank("")] else Spaced(Blocks(d))
  {
    PrefixPadded(d.prefix);
    SectionsPadded(d.sections);
    PaddedConcat(BodyBlocks(d.prefix), SectionsBlocks(d.sections));
    TextsConcat(PrefixLines(d.prefix), SectionsLines(d.sections));
    CutIsOneLine(d);
    assert Padded(Blocks(d)) == Texts(AllLines(d));
    if Blocks(d) != [] {
      PaddedIsSpaced(Blocks(d));
    }
  }
}
