/**
 Two families of changelogs that need a second pass of `fix-changelogs.ts` to drop a bullet: one for
 each cause.
 */
module ChangelogLate {
  import opened Wrappers
  import opened ChangelogText
  import opened ChangelogLists
  import opened ChangelogItems
  import opened ChangelogRemoval
  import opened ChangelogDocument
  import opened ChangelogOrder
  import opened ChangelogPromotion
  import opened ChangelogLaws
  import opened ChangelogArrival
  import opened ChangelogIdempotence
  import opened ChangelogPasses
  import opened ChangelogGrowth
  import opened ChangelogAgain

  // ----- Reading a section with one heading

  function Headed(title: Title, heading: string, subs: seq<Subsection>): Section {
    Section(heading, title, [], subs)
  }

  lemma {:induction false} FeedHeaded(d: Document, title: Title, heading: string, head: Line, sub: Line, body: seq<Line>)
    requires head.text == Release(title, heading) && sub.text.Subheading? && NoHeading(body)
    ensures Feed(d, [head, sub] + body) == WithSection(d, Headed(title, heading, [Subsection(sub.text.name, body)]))
  {
    var s := Headed(title, heading, []);
    FeedConcat(d, [head, sub], body);
    assert Front([head, sub]) == [head] && Front([head]) == [];
    assert Feed(d, []) == d;
    assert Feed(d, [head]) == WithSection(d, s);
    var t := WithLines(s, sub.text.name, []);
    FrontOfAppend(d.sections, s);
    assert Feed(d, [head, sub]) == WithSection(d, t);
    FeedToNewest(d, t, body);
    FeedBody(s, sub.text.name, [], body);
    assert [] + body == body;
    assert [] + [Subsection(sub.text.name, body)] == [Subsection(sub.text.name, body)];
  }

  lemma {:induction false} FeedTwoHeaded(newer: Section, x: seq<Line>, head: Line, sub: Line, body: seq<Line>)
    requires Feed(EMPTY, x) == WithSection(EMPTY, newer)
    requires head.text.Release? && sub.text.Subheading? && NoHeading(body)
    ensures Feed(EMPTY, x + ([head, sub] + body)).sections
            == [newer, Headed(head.text.title, head.text.heading, [Subsection(sub.text.name, body)])]
  {
    FeedConcat(EMPTY, x, [head, sub] + body);
    FeedHeaded(Feed(EMPTY, x), head.text.title, head.text.heading, head, sub, body);
  }

  // ----- Bullets of a few lines

  lemma {:induction false} OneBullet(l: Line)
    requires IsBullet(l)
    ensures Split([l]) == Parts([], [[l]]) && KeysOf([l]) == [[Made(l.text)]] && Intro([l]) == []
  {
    assert Front([l]) == [];
    assert Split([]) == Parts([], []);
    TrimKeepsTrimmed([l]);
    assert Strip([l]) == [Made(l.text)];
  }

  lemma {:induction false} OneText(l: Line)
    requires l.text.Plain?
    ensures KeysOf([l]) == [] && Intro([l]) == [Made(l.text)]
  {
    assert Front([l]) == [];
    assert Split([]) == Parts([], []);
    assert Split([l]).preamble == [l];
    TrimKeepsTrimmed([l]);
  }

  lemma {:induction false} SingleItem(item: seq<Line>)
    requires IsItem(item) && Trimmed(item)
    ensures KeysOf(item) == [Strip(item)] && Intro(item) == []
  {
    SplitAddsItem([], item);
    assert [] + item == item;
    assert Split(item) == Parts([], [item]);
    TrimKeepsTrimmed(item);
  }

  lemma {:induction false} LongBullet(x: Line, y: Line, z: Line)
    requires IsBullet(x) && y.text == Blank("") && z.text.Plain?
    ensures KeysOf([x, y, z]) == [[Made(x.text), GAP, Made(z.text)]] && Intro([x, y, z]) == []
  {
    var item := [x, y, z];
    SingleItem(item);
    assert Strip(item) == [Made(x.text), GAP, Made(z.text)];
  }

  lemma {:induction false} KeysOfOne(sub: Subsection)
    ensures KeysUnder([sub], sub.title) == KeysOf(sub.lines)
    ensures SubsectionKeys([sub]) == KeySet(sub.lines)
  {
    assert Front([sub]) == [];
    assert KeysUnder([], sub.title) == [];
    assert [] + KeysOf(sub.lines) == KeysOf(sub.lines);
    assert SubsectionKeys([]) == {};
  }

  // ----- A bullet promoted out of one of two releases that have it

  const NEWEST: Text := Release(Version([2, 0]), "## [2.0]")

  /** Two releases with the same bullet. */
  function InTwoReleases(bullet: Text): seq<Text> {
    [NEWEST, ADDED, bullet, RELEASE, ADDED, bullet]
  }

  function TwoReleases(bullet: Text): seq<Section> {
    [Headed(Version([2, 0]), "## [2.0]", [Subsection("Added", [Line(bullet, 3)])]),
     Headed(Version([1, 0]), "## [1.0]", [Subsection("Added", [Line(bullet, 6)])])]
  }

  lemma {:induction false} NumberedTwoReleases(bullet: Text)
    ensures Number(InTwoReleases(bullet))
            == ([Line(NEWEST, 1), Line(ADDED, 2)] + [Line(bullet, 3)]) + ([Line(RELEASE, 4), Line(ADDED, 5)] + [Line(bullet, 6)])
  {
    assert |InTwoReleases(bullet)| == 6;
  }

  lemma {:induction false} ParseTwoReleases(bullet: Text)
    requires bullet.Bullet?
    ensures Parse(InTwoReleases(bullet)).sections == TwoReleases(bullet)
  {
    NumberedTwoReleases(bullet);
    FeedHeaded(EMPTY, Version([2, 0]), "## [2.0]", Line(NEWEST, 1), Line(ADDED, 2), [Line(bullet, 3)]);
    FeedTwoHeaded(TwoReleases(bullet)[0], [Line(NEWEST, 1), Line(ADDED, 2)] + [Line(bullet, 3)],
                  Line(RELEASE, 4), Line(ADDED, 5), [Line(bullet, 6)]);
  }

  function NewUnreleased(bullet: Text): Section {
    UNRELEASED.(subsections := [Subsection("Added", [Made(bullet)])])
  }

  lemma {:induction false} PromotedAt(l: Line, n: nat)
    requires IsBullet(l)
    ensures PromotedKeys(Subsection("Added", [l]), {n}) == if l.number == n then [[Made(l.text)]] else []
  {
    OneBullet(l);
    PickOne([l], StartsOn({n}));
    assert KeysOf([l]) == Keys([[l]]);
  }

  lemma {:induction false} PromotedHere(bullet: Text)
    requires bullet.Bullet?
    ensures PromotedKeys(Subsection("Added", [Line(bullet, 3)]), {3}) == [[Made(bullet)]]
    ensures PromotedKeys(Subsection("Added", [Line(bullet, 6)]), {3}) == []
  {
    PromotedAt(Line(bullet, 3), 3);
    PromotedAt(Line(bullet, 6), 3);
  }

  lemma {:induction false} PickOne(item: seq<Line>, pick: Item -> bool)
    ensures Picked([item], pick) == if IsPicked(item, pick) then [item] else []
  {
    assert Front([item]) == [];
    assert Picked([], pick) == [];
  }

  lemma {:induction false} FirstPromotion(bullet: Text)
    requires bullet.Bullet?
    ensures PromoteInto(UNRELEASED, "Added", [[Made(bullet)]]) == NewUnreleased(bullet)
  {
    var key := [Made(bullet)];
    assert Front([key]) == [];
    assert AddItems([], []) == [];
    assert KeysOf([]) == [];
    TrimKeepsTrimmed(key);
    assert Strip(key) == key;
    assert Append([], key) == key;
    assert AddItems([], [key]) == key;
  }

  lemma {:induction false} PromoteOne(target: Option<Section>, sub: Subsection, promotable: set<nat>)
    ensures PromoteSubsections(target, [sub], promotable) == PromoteSubsection(target, sub, promotable)
  {
    assert Front([sub]) == [];
    assert PromoteSubsections(target, [], promotable) == target;
  }

  lemma {:induction false} PromotionOfTwo(bullet: Text)
    requires bullet.Bullet?
    ensures PromoteSections(None, TwoReleases(bullet), {3}) == Some(NewUnreleased(bullet))
  {
    var sections := TwoReleases(bullet);
    var x, y := sections[0], sections[1];
    PromotedHere(bullet);
    FirstPromotion(bullet);
    assert Front(sections) == [x] && Front([x]) == [];
    assert PromoteSections(None, [], {3}) == None;
    PromoteOne(None, x.subsections[0], {3});
    PromoteOne(Some(NewUnreleased(bullet)), y.subsections[0], {3});
  }

  lemma {:induction false} OtherStays(bullet: Text)
    requires bullet.Bullet?
    ensures var y := TwoReleases(bullet)[1]; KeepIn(y, StartsOn({3})) == y
  {
    var y := TwoReleases(bullet)[1];
    OneBullet(Line(bullet, 6));
    PickOne([Line(bullet, 6)], StartsOn({3}));
    KeepAllIn(y, StartsOn({3}));
  }

  lemma {:induction false} NewOnTop(sections: seq<Section>, promotable: set<nat>, t: Section)
    requires FindUnreleased(sections) == |sections| && PromoteSections(None, sections, promotable) == Some(t)
    ensures Promote(sections, promotable) == [t] + KeepReleased(sections, promotable)
  {
  }

  lemma {:induction false} OneFurtherDown<T>(x: T, s: seq<T>, i: nat)
    requires i < |s|
    ensures |[x] + s| == |s| + 1 && ([x] + s)[0] == x && ([x] + s)[i + 1] == s[i]
  {
  }

  lemma {:induction false} PreparedTwo(bullet: Text)
    requires bullet.Bullet?
    ensures var prepared := Promote(TwoReleases(bullet), {3});
            |prepared| == 3 && prepared[0] == NewUnreleased(bullet) && prepared[2] == TwoReleases(bullet)[1]
  {
    var sections := TwoReleases(bullet);
    PromotionOfTwo(bullet);
    OtherStays(bullet);
    assert FindUnreleased(sections) == |sections|;
    var kept := KeepReleased(sections, {3});
    NewOnTop(sections, {3}, NewUnreleased(bullet));
    assert kept[1] == sections[1];
    OneFurtherDown(NewUnreleased(bullet), kept, 1);
  }

  lemma {:induction false} MergesOne(sub: Subsection, key: seq<Line>)
    requires key in KeysOf(sub.lines)
    ensures Merges([sub], key)
  {
    KeysOfOne(sub);
    assert key in KeysUnder([sub], [sub][0].title);
  }

  lemma {:induction false} TwoCollide(bullet: Text)
    requires bullet.Bullet?
    ensures Collides(Promote(TwoReleases(bullet), {3}), {}, [Made(bullet)])
  {
    var prepared := Promote(TwoReleases(bullet), {3});
    PreparedTwo(bullet);
    FirstIs(prepared, 0);
    OneBullet(Made(bullet));
    OneBullet(Line(bullet, 6));
    MergesOne(prepared[0].subsections[0], [Made(bullet)]);
    MergesOne(prepared[2].subsections[0], [Made(bullet)]);
    assert !prepared[2].title.Unreleased?;
  }

  /** The bullet is promoted out of the newer release, and dropped again because of the older. */
  lemma {:induction false} PromotedBulletIsDroppedAgain(bullet: Text)
    requires bullet.Bullet?
    ensures var once := Fix(InTwoReleases(bullet), {3}, {}); Fix(once, {}, {}) != once
  {
    var content, sections := InTwoReleases(bullet), TwoReleases(bullet);
    ParseTwoReleases(bullet);
    assert FindUnreleased(sections) == |sections|;
    assert Prepared(content, {3}, {}) == Promote(sections, {3});
    TwoCollide(bullet);
    PromotedHere(bullet);
    assert [Made(bullet)] in PromotedKeys(sections[0].subsections[0], {3});
    assert IsPromoted(sections, {3}, [Made(bullet)]);
    FixingTwiceIsFixingOnceExactly(content, {3}, {});
  }

  // ----- A bullet that grows into another

  const TOP: Text := Release(Unreleased, "## [Unreleased]")

  /** The unreleased bullet takes in the text of the next heading and then is the released one. */
  function Growing(bullet: Text, text: Text): seq<Text> {
    [TOP, ADDED, bullet, ADDED, text, RELEASE, ADDED, bullet, Blank(""), text]
  }

  function GrowingSections(bullet: Text, text: Text): seq<Section> {
    [Headed(Unreleased, "## [Unreleased]", [Subsection("Added", [Line(bullet, 3)]), Subsection("Added", [Line(text, 5)])]),
     Headed(Version([1, 0]), "## [1.0]", [Subsection("Added", Released(bullet, text))])]
  }

  function Released(bullet: Text, text: Text): seq<Line> {
    [Line(bullet, 8), Line(Blank(""), 9), Line(text, 10)]
  }

  function Top(bullet: Text, text: Text): seq<Line> {
    [Line(TOP, 1), Line(ADDED, 2)] + [Line(bullet, 3)] + [Line(ADDED, 4), Line(text, 5)]
  }

  lemma {:induction false} NumberedGrowing(bullet: Text, text: Text)
    ensures Number(Growing(bullet, text)) == Top(bullet, text) + ([Line(RELEASE, 6), Line(ADDED, 7)] + Released(bullet, text))
  {
    assert |Growing(bullet, text)| == 10;
  }

  lemma {:induction false} FeedTwoBodies(head: Line, sub: Line, body: seq<Line>, again: Line, l: Line)
    requires head.text.Release? && sub.text.Subheading? && again.text.Subheading? && NoHeading(body) && !IsHeading(l.text)
    ensures Feed(EMPTY, [head, sub] + body + [again, l])
            == WithSection(EMPTY, Headed(head.text.title, head.text.heading,
                                         [Subsection(sub.text.name, body), Subsection(again.text.name, [l])]))
  {
    var s := Headed(head.text.title, head.text.heading, [Subsection(sub.text.name, body)]);
    FeedConcat(EMPTY, [head, sub] + body, [again, l]);
    FeedHeaded(EMPTY, head.text.title, head.text.heading, head, sub, body);
    FeedSecondHeading(again, l, s);
    assert s.subsections + [Subsection(again.text.name, [l])]
           == [Subsection(sub.text.name, body), Subsection(again.text.name, [l])];
  }

  lemma {:induction false} FeedTop(bullet: Text, text: Text)
    requires bullet.Bullet? && text.Plain?
    ensures Feed(EMPTY, Top(bullet, text)) == WithSection(EMPTY, GrowingSections(bullet, text)[0])
  {
    FeedTwoBodies(Line(TOP, 1), Line(ADDED, 2), [Line(bullet, 3)], Line(ADDED, 4), Line(text, 5));
  }

  lemma {:induction false} ReleasedHasNoHeading(bullet: Text, text: Text)
    requires bullet.Bullet? && text.Plain?
    ensures NoHeading(Released(bullet, text))
  {
  }

  lemma {:induction false} ParseGrowing(bullet: Text, text: Text)
    requires bullet.Bullet? && text.Plain?
    ensures Parse(Growing(bullet, text)).sections == GrowingSections(bullet, text)
  {
    NumberedGrowing(bullet, text);
    FeedTop(bullet, text);
    ReleasedHasNoHeading(bullet, text);
    var top, rest := Top(bullet, text), Released(bullet, text);
    FeedTwoHeaded(GrowingSections(bullet, text)[0], top, Line(RELEASE, 6), Line(ADDED, 7), rest);
  }

  lemma {:induction false} FeedSecondHeading(sub: Line, l: Line, s: Section)
    requires sub.text.Subheading? && !IsHeading(l.text)
    ensures Feed(WithSection(EMPTY, s), [sub, l]) == WithSection(EMPTY, WithLines(s, sub.text.name, [l]))
  {
    FeedToNewest(EMPTY, s, [sub, l]);
    assert Front([sub, l]) == [sub] && Front([sub]) == [];
    assert FeedSection(s, []) == s;
    assert FeedSection(s, [sub]) == WithLines(s, sub.text.name, []);
    AddToNewest(s, sub.text.name, [], l);
    assert [] + [l] == [l];
  }

  lemma {:induction false} KeysOfTwo(a: Subsection, b: Subsection)
    requires a.title == b.title
    ensures KeysUnder([a, b], a.title) == Grown(KeysOf(a.lines), Intro(b.lines)) + KeysOf(b.lines)
    ensures SubsectionKeys([a, b]) == KeySet(a.lines) + KeySet(b.lines)
  {
    assert Front([a, b]) == [a];
    KeysOfOne(a);
  }

  lemma {:induction false} GrownOne(key: seq<Line>, text: seq<Line>)
    requires text != []
    ensures Grown([key], text) == [key + [GAP] + text]
  {
    assert Front([key]) == [];
  }

  lemma {:induction false} GrowingTop(a: Subsection, b: Subsection, l: Line, t: Line)
    requires a.title == b.title && a.lines == [l] && b.lines == [t] && IsBullet(l) && t.text.Plain?
    ensures SubsectionKeys([a, b]) == {[Made(l.text)]}
    ensures KeysUnder([a, b], a.title) == [[Made(l.text), GAP, Made(t.text)]]
  {
    OneBullet(l);
    OneText(t);
    KeysOfTwo(a, b);
    GrownOne([Made(l.text)], [Made(t.text)]);
    assert [Made(l.text)] + [GAP] + [Made(t.text)] == [Made(l.text), GAP, Made(t.text)];
  }

  lemma {:induction false} OneRelease(x: Section, y: Section)
    requires x.title.Unreleased? && !y.title.Unreleased?
    ensures ReleasedKeys([x, y]) == SubsectionKeys(y.subsections)
  {
    assert Front([x, y]) == [x] && Front([x]) == [];
    assert ReleasedKeys([]) == {};
  }

  lemma {:induction false} GrowingKeys(bullet: Text, text: Text)
    requires bullet.Bullet? && text.Plain?
    ensures var s := GrowingSections(bullet, text);
            && SubsectionKeys(s[0].subsections) == {[Made(bullet)]}
            && ReleasedKeys(s) == {[Made(bullet), GAP, Made(text)]}
            && KeysUnder(s[0].subsections, "Added") == [[Made(bullet), GAP, Made(text)]]
  {
    var s := GrowingSections(bullet, text);
    GrowingTop(s[0].subsections[0], s[0].subsections[1], Line(bullet, 3), Line(text, 5));
    LongBullet(Line(bullet, 8), Line(Blank(""), 9), Line(text, 10));
    KeysOfOne(s[1].subsections[0]);
    OneRelease(s[0], s[1]);
  }

  lemma {:induction false} NothingToDropYet(bullet: Text, text: Text)
    requires bullet.Bullet? && text.Plain?
    ensures DropDuplicates(GrowingSections(bullet, text), {}) == GrowingSections(bullet, text)
  {
    var s := GrowingSections(bullet, text);
    GrowingKeys(bullet, text);
    FirstIs(s, 0);
    assert |[Made(bullet)]| != |[Made(bullet), GAP, Made(text)]|;
    DroppedCountZero(s, {});
    DropNothing(s, {});
  }

  lemma {:induction false} GrowingCollides(bullet: Text, text: Text)
    requires bullet.Bullet? && text.Plain?
    ensures Collides(GrowingSections(bullet, text), {}, [Made(bullet), GAP, Made(text)])
    ensures HasGrown(GrowingSections(bullet, text), {}, [Made(bullet), GAP, Made(text)])
  {
    var s, key := GrowingSections(bullet, text), [Made(bullet), GAP, Made(text)];
    GrowingKeys(bullet, text);
    LongBullet(Line(bullet, 8), Line(Blank(""), 9), Line(text, 10));
    FirstIs(s, 0);
    assert key in KeysUnder(s[0].subsections, s[0].subsections[0].title);
    MergesOne(s[1].subsections[0], key);
    assert !s[1].title.Unreleased?;
    assert |[Made(bullet)]| != |key|;
  }

  /** Merging makes the unreleased bullet equal to the released one, which only the next pass sees. */
  lemma {:induction false} GrownBulletIsDroppedLate(bullet: Text, text: Text)
    requires bullet.Bullet? && text.Plain?
    ensures var once := Fix(Growing(bullet, text), {}, {}); Fix(once, {}, {}) != once
  {
    var content, sections := Growing(bullet, text), GrowingSections(bullet, text);
    ParseGrowing(bullet, text);
    NothingToDropYet(bullet, text);
    PromoteNothing(sections);
    GrowingCollides(bullet, text);
    FixingTwiceIsFixingOnceExactly(content, {}, {});
  }
}
