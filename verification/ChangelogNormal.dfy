/**
 How `fix-changelogs.ts` puts a release section into normal form: empty headings go, duplicate
 headings are merged, and the subsections of the unreleased section are sorted.
 */
module ChangelogNormal {
  import opened ChangelogText
  import opened ChangelogLists
  import opened ChangelogItems
  import opened ChangelogDocument
  import opened StableSort

  const ORDERED_TITLES: seq<string> := ["Breaking Changes", "Added", "Changed", "Fixed", "Removed"]

  function IndexOf(titles: seq<string>, title: string): (i: nat)
    ensures i <= |titles|
    ensures i < |titles| ==> titles[i] == title
  {
    if titles == [] || titles[0] == title then 0 else 1 + IndexOf(titles[1..], title)
  }

  function TitleOrder(title: string): nat {
    IndexOf(ORDERED_TITLES, title)
  }

  const BY_TITLE: (Subsection, Subsection) -> bool :=
    (x: Subsection, y: Subsection) => TitleOrder(x.title) < TitleOrder(y.title)

  /** The subsection with this title, or the end. */
  function Find(subs: seq<Subsection>, title: string): (i: nat)
    ensures i <= |subs|
    ensures i < |subs| ==> subs[i].title == title
    ensures i == |subs| ==> forall j :: 0 <= j < |subs| ==> subs[j].title != title
  {
    if subs == [] then 0
    else
      var i := Find(Front(subs), title);
      if i < |subs| - 1 || Last(subs).title == title then i else |subs|
  }

  /** One round of the merge: nothing for an empty body, else into the subsection of that title. */
  function MergeOne(merged: seq<Subsection>, sub: Subsection): seq<Subsection> {
    var lines := Compact(sub.lines);
    if lines == [] then merged
    else
      var i := Find(merged, sub.title);
      if i < |merged| then merged[i := Subsection(sub.title, Append(merged[i].lines, lines))]
      else merged + [Subsection(sub.title, lines)]
  }

  function Merge(subs: seq<Subsection>): seq<Subsection> {
    if subs == [] then [] else MergeOne(Merge(Front(subs)), Last(subs))
  }

  function Normalize(s: Section): Section {
    Section(s.heading, s.title, Strip(Trim(s.leading)),
            if s.title.Unreleased? then Sort(Merge(s.subsections), BY_TITLE) else Merge(s.subsections))
  }

  function Blanks(subs: seq<Subsection>): nat {
    if subs == [] then 0 else Blanks(Front(subs)) + if Compact(Last(subs).lines) == [] then 1 else 0
  }

  ghost predicate Distinct(subs: seq<Subsection>) {
    forall j, k :: 0 <= j < k < |subs| ==> subs[j].title != subs[k].title
  }

  lemma {:induction false} MergeOneDistinct(merged: seq<Subsection>, sub: Subsection)
    requires Distinct(merged)
    ensures Distinct(MergeOne(merged, sub))
  {
  }

  /** Whatever the input, no two subsections of the result share a title. */
  lemma {:induction false} MergeIsDistinct(subs: seq<Subsection>)
    ensures Distinct(Merge(subs))
  {
    if subs != [] {
      MergeIsDistinct(Front(subs));
      MergeOneDistinct(Merge(Front(subs)), Last(subs));
    }
  }

  // ----- The code

  /** The map of the code holds for every title the place of its subsection. */
  ghost predicate Indexes(byTitle: map<string, nat>, merged: seq<Subsection>) {
    && (forall t :: t in byTitle ==> byTitle[t] < |merged| && merged[byTitle[t]].title == t)
    && (forall j :: 0 <= j < |merged| ==> merged[j].title in byTitle)
  }

  lemma {:induction false} IndexedPlace(byTitle: map<string, nat>, merged: seq<Subsection>, title: string)
    requires Indexes(byTitle, merged) && Distinct(merged)
    ensures title in byTitle ==> byTitle[title] == Find(merged, title)
    ensures title !in byTitle ==> Find(merged, title) == |merged|
  {
  }

  lemma {:induction false} CompactOfTrimmed(lines: seq<Line>)
    ensures Compact(Strip(Trim(lines))) == Compact(lines)
  {
    TidyTrim(lines);
    TidyTrim(Strip(Trim(lines)));
  }

  method MergeInto(merged: seq<Subsection>, byTitle: map<string, nat>, sub: Subsection)
    returns (r: seq<Subsection>, index: map<string, nat>, duplicate: bool, empty: bool)
    requires Indexes(byTitle, merged) && Distinct(merged)
    ensures r == MergeOne(merged, sub) && Indexes(index, r)
    ensures empty == (Compact(sub.lines) == []) && !(empty && duplicate)
    ensures |r| == |merged| + if duplicate || empty then 0 else 1
  {
    var trimmed := TrimBlankLines(sub.lines);
    CompactOfTrimmed(sub.lines);
    var lines := CompactAdjacentListSpacing(Strip(trimmed));
    IndexedPlace(byTitle, merged, sub.title);
    if |lines| == 0 {
      return merged, byTitle, false, true;
    }
    if sub.title in byTitle {
      var place := byTitle[sub.title];
      var joined := AppendSubsectionLines(merged[place].lines, lines);
      return merged[place := Subsection(sub.title, joined)], byTitle, true, false;
    }
    return merged + [Subsection(sub.title, lines)], byTitle[sub.title := |merged|], false, false;
  }

  /** The loop of `normalizeSection`; its counters account for every heading that is gone. */
  method MergeSubsections(subs: seq<Subsection>)
    returns (merged: seq<Subsection>, mergedDuplicateHeadings: nat, removedEmptyHeadings: nat)
    ensures merged == Merge(subs) && removedEmptyHeadings == Blanks(subs)
    ensures |merged| + mergedDuplicateHeadings + removedEmptyHeadings == |subs|
  {
    merged, mergedDuplicateHeadings, removedEmptyHeadings := [], 0, 0;
    var byTitle := map[];
    for j := 0 to |subs|
      invariant merged == Merge(subs[..j]) && Indexes(byTitle, merged) && Distinct(merged)
      invariant removedEmptyHeadings == Blanks(subs[..j])
      invariant |merged| + mergedDuplicateHeadings + removedEmptyHeadings == j
    {
      assert Front(subs[..j + 1]) == subs[..j];
      MergeOneDistinct(merged, subs[j]);
      var duplicate, empty;
      merged, byTitle, duplicate, empty := MergeInto(merged, byTitle, subs[j]);
      if empty {
        removedEmptyHeadings := removedEmptyHeadings + 1;
      } else if duplicate {
        mergedDuplicateHeadings := mergedDuplicateHeadings + 1;
      }
    }
    assert subs[..|subs|] == subs;
  }

  method NormalizeSection(s: Section) returns (r: Section, mergedDuplicateHeadings: nat, removedEmptyHeadings: nat)
    ensures r == Normalize(s)
    ensures removedEmptyHeadings == Blanks(s.subsections)
    ensures |r.subsections| + mergedDuplicateHeadings + removedEmptyHeadings == |s.subsections|
  {
    var merged;
    merged, mergedDuplicateHeadings, removedEmptyHeadings := MergeSubsections(s.subsections);
    if s.title.Unreleased? {
      SortKeepsLength(merged);
      merged := Sort(merged, BY_TITLE);
    }
    var leading := TrimBlankLines(s.leading);
    r := Section(s.heading, s.title, Strip(leading), merged);
  }

  lemma {:induction false} SortKeepsLength(subs: seq<Subsection>)
    ensures |Sort(subs, BY_TITLE)| == |subs|
  {
    TitleOrderIsWeak();
    SortMeaning(subs, BY_TITLE);
    assert |Sort(subs, BY_TITLE)| == |multiset(Sort(subs, BY_TITLE))| == |multiset(subs)|;
  }

  lemma {:induction false} TitleOrderIsWeak()
    ensures WeakOrder(BY_TITLE)
  {
  }

  // ----- Settled sections

  ghost predicate AllSettled(subs: seq<Subsection>) {
    forall j :: 0 <= j < |subs| ==> Settled(subs[j].lines)
  }

  ghost predicate AllTidy(subs: seq<Subsection>) {
    forall j :: 0 <= j < |subs| ==> Tidy(subs[j].lines) && subs[j].lines != []
  }

  /** Every duplicate heading with text is joined to the text before it without leaving a gap. */
  ghost predicate CleanMerges(subs: seq<Subsection>) {
    subs != [] ==> CleanMerges(Front(subs)) && CleanMerge(Merge(Front(subs)), Last(subs))
  }

  ghost predicate CleanMerge(merged: seq<Subsection>, sub: Subsection) {
    var lines, i := Compact(sub.lines), Find(merged, sub.title);
    lines != [] && i < |merged| && merged[i].lines != [] ==> CleanJoin(merged[i].lines, lines)
  }

  lemma {:induction false} MergeOneSettles(merged: seq<Subsection>, sub: Subsection)
    requires AllTidy(merged)
    ensures AllTidy(MergeOne(merged, sub))
    ensures AllSettled(MergeOne(merged, sub)) <==> (AllSettled(merged) && CleanMerge(merged, sub))
  {
    var lines, i := Compact(sub.lines), Find(merged, sub.title);
    CompactSettles(sub.lines);
    if lines != [] {
      if i < |merged| {
        var e := merged[i].lines;
        AppendTidy(e, lines);
        if Settled(e) {
          AppendSettles(e, lines);
        } else {
          AppendKeepsGap(e, lines);
        }
        JoinedSettles(merged, i, Subsection(sub.title, Append(e, lines)));
      } else {
        JoinedNewSettles(merged, Subsection(sub.title, lines));
      }
    }
  }

  lemma {:induction false} JoinedSettles(merged: seq<Subsection>, i: nat, sub: Subsection)
    requires i < |merged|
    ensures AllSettled(merged[i := sub]) <==>
            (Settled(sub.lines) && forall j :: 0 <= j < |merged| && j != i ==> Settled(merged[j].lines))
  {
    var after := merged[i := sub];
    if AllSettled(after) {
      assert after[i] == sub;
      forall j | 0 <= j < |merged| && j != i ensures Settled(merged[j].lines) {
        assert after[j] == merged[j];
      }
    }
  }

  lemma {:induction false} JoinedNewSettles(merged: seq<Subsection>, sub: Subsection)
    ensures AllSettled(merged + [sub]) <==> (Settled(sub.lines) && AllSettled(merged))
  {
    var after := merged + [sub];
    if AllSettled(after) {
      assert after[|merged|] == sub;
      forall j | 0 <= j < |merged| ensures Settled(merged[j].lines) {
        assert after[j] == merged[j];
      }
    }
  }

  /** The merged section is settled exactly when every merge was clean. */
  lemma {:induction false} MergeSettles(subs: seq<Subsection>)
    ensures AllTidy(Merge(subs))
    ensures AllSettled(Merge(subs)) <==> CleanMerges(subs)
  {
    if subs != [] {
      MergeSettles(Front(subs));
      MergeOneSettles(Merge(Front(subs)), Last(subs));
    }
  }

  // ----- Distinct headings

  /** What merging does when no title comes twice. */
  function CompactAll(subs: seq<Subsection>): seq<Subsection> {
    if subs == [] then []
    else if Compact(Last(subs).lines) == [] then CompactAll(Front(subs))
    else CompactAll(Front(subs)) + [Subsection(Last(subs).title, Compact(Last(subs).lines))]
  }

  lemma {:induction false} CompactAllTitles(subs: seq<Subsection>, title: string)
    requires forall j :: 0 <= j < |subs| ==> subs[j].title != title
    ensures forall j :: 0 <= j < |CompactAll(subs)| ==> CompactAll(subs)[j].title != title
  {
    if subs != [] {
      CompactAllTitles(Front(subs), title);
    }
  }

  lemma {:induction false} MergeOfDistinct(subs: seq<Subsection>)
    requires Distinct(subs)
    ensures Merge(subs) == CompactAll(subs) && CleanMerges(subs)
  {
    if subs != [] {
      MergeOfDistinct(Front(subs));
      CompactAllTitles(Front(subs), Last(subs).title);
    }
  }

  lemma {:induction false} CompactAllAppend(subs: seq<Subsection>, sub: Subsection)
    requires Settled(sub.lines)
    ensures CompactAll(subs + [sub]) == CompactAll(subs) + [sub]
  {
    FrontOfAppend(subs, sub);
    CompactKeepsExactlySettled(sub.lines);
  }

  lemma {:induction false} CompactAllKeepsSettled(subs: seq<Subsection>)
    requires AllSettled(subs)
    ensures CompactAll(subs) == subs
  {
    if subs != [] {
      var front, last := Front(subs), Last(subs);
      assert front + [last] == subs;
      assert Settled(last.lines) && AllSettled(front);
      CompactAllKeepsSettled(front);
      CompactAllAppend(front, last);
    }
  }

  lemma {:induction false} SettledEach(a: seq<Subsection>, b: seq<Subsection>)
    requires multiset(a) == multiset(b) && AllSettled(a)
    ensures AllSettled(b)
  {
    forall j | 0 <= j < |b| ensures Settled(b[j].lines) {
      assert b[j] in multiset(b);
      assert b[j] in a;
    }
  }

  /** A section the fixer has nothing more to do to. */
  ghost predicate InForm(s: Section) {
    && Tidy(s.leading) && Distinct(s.subsections) && AllTidy(s.subsections)
    && (s.title.Unreleased? ==> Ordered(s.subsections, BY_TITLE))
  }

  /** Normal form is reached in one step, up to gaps left by a merge. */
  lemma {:induction false} NormalizeForms(s: Section)
    ensures InForm(Normalize(s))
    ensures AllSettled(Normalize(s).subsections) <==> CleanMerges(s.subsections)
  {
    TidyTrim(s.leading);
    MergeSettles(s.subsections);
    MergeIsDistinct(s.subsections);
    if s.title.Unreleased? {
      var merged := Merge(s.subsections);
      TitleOrderIsWeak();
      SortMeaning(merged, BY_TITLE);
      SortKeepsForm(merged, Sort(merged, BY_TITLE));
    }
  }

  lemma {:induction false} SortKeepsForm(a: seq<Subsection>, b: seq<Subsection>)
    requires multiset(a) == multiset(b) && Distinct(a) && AllTidy(a)
    ensures Distinct(b) && AllTidy(b) && (AllSettled(a) <==> AllSettled(b))
  {
    if AllSettled(a) { SettledEach(a, b); }
    if AllSettled(b) { SettledEach(b, a); }
    forall j | 0 <= j < |b| ensures Tidy(b[j].lines) && b[j].lines != [] {
      assert b[j] in multiset(b);
      assert b[j] in a;
    }
    DistinctPermuted(a, b);
  }

  lemma {:induction false} DistinctPermuted(a: seq<Subsection>, b: seq<Subsection>)
    requires multiset(a) == multiset(b) && Distinct(a)
    ensures Distinct(b)
  {
    forall j, k | 0 <= j < k < |b| && b[j].title == b[k].title ensures false {
      assert b[j] in multiset(b) && b[k] in multiset(b);
      assert b[j] in multiset(a) && b[k] in multiset(a);
      var p :| 0 <= p < |a| && a[p] == b[j];
      var q :| 0 <= q < |a| && a[q] == b[k];
      assert p == q;
      OnceIn(a, b[j]);
      TwiceIn(b, j, k);
    }
  }

  lemma {:induction false} TwiceIn(s: seq<Subsection>, j: nat, k: nat)
    requires j < k < |s| && s[j] == s[k]
    ensures multiset(s)[s[j]] >= 2
  {
    assert s == s[..k] + [s[k]] + s[k + 1..];
    assert s[..k][j] == s[j];
  }

  lemma {:induction false} OnceIn(s: seq<Subsection>, x: Subsection)
    requires Distinct(s)
    ensures multiset(s)[x] <= 1
  {
    if s != [] {
      OnceIn(Front(s), x);
      assert s == Front(s) + [Last(s)];
      if x == Last(s) {
        assert x !in Front(s);
      }
    }
  }

  /** A section in form is left alone exactly when it is settled. */
  lemma {:induction false} NormalizeKeepsExactlySettled(s: Section)
    requires InForm(s)
    ensures Normalize(s) == s <==> AllSettled(s.subsections)
  {
    TidyTrim(s.leading);
    MergeOfDistinct(s.subsections);
    MergeSettles(s.subsections);
    if AllSettled(s.subsections) {
      CompactAllKeepsSettled(s.subsections);
      if s.title.Unreleased? {
        SortOfOrdered(s.subsections, BY_TITLE);
      }
    } else if s.title.Unreleased? {
      TitleOrderIsWeak();
      SortMeaning(Merge(s.subsections), BY_TITLE);
      if Normalize(s) == s {
        SettledEach(Merge(s.subsections), s.subsections);
      }
    }
  }

  /** Numbers and blank ends do not matter to the normal form. */
  lemma {:induction false} NormalizeOfTidy(s: Section)
    ensures Normalize(TidySection(s)) == Normalize(s)
  {
    TidyTrim(s.leading);
    TidyTrim(Strip(Trim(s.leading)));
    MergeOfTidy(s.subsections);
  }

  lemma {:induction false} MergeOfTidy(subs: seq<Subsection>)
    ensures Merge(TidySubsections(subs)) == Merge(subs)
  {
    if subs != [] {
      MergeOfTidy(Front(subs));
      assert Front(TidySubsections(subs)) == TidySubsections(Front(subs));
      CompactOfTrimmed(Last(subs).lines);
    }
  }

  // ----- Text is kept

  /** A line that is neither blank nor a heading. */
  predicate IsBody(t: Text) {
    t.Bullet? || t.Plain?
  }

  function Count(lines: seq<Line>, t: Text): nat {
    if lines == [] then 0 else Count(Front(lines), t) + if Last(lines).text == t then 1 else 0
  }

  lemma {:induction false} CountConcat(x: seq<Line>, y: seq<Line>, t: Text)
    ensures Count(x + y, t) == Count(x, t) + Count(y, t)
  {
    if y == [] {
      assert x + y == x;
    } else {
      assert Front(x + y) == x + Front(y);
      CountConcat(x, Front(y), t);
    }
  }

  lemma {:induction false} CountOneMore(lines: seq<Line>, l: Line, t: Text)
    ensures Count(lines + [l], t) == Count(lines, t) + if l.text == t then 1 else 0
  {
    FrontOfAppend(lines, l);
  }

  lemma {:induction false} CountNonBlank(lines: seq<Line>, t: Text)
    requires !t.Blank?
    ensures Count(NonBlank(lines), t) == Count(lines, t)
  {
    if lines != [] {
      var front, last := Front(lines), Last(lines);
      CountNonBlank(front, t);
      if IsBlank(last) {
        assert NonBlank(lines) == NonBlank(front);
      } else {
        assert NonBlank(lines) == NonBlank(front) + [last];
        CountOneMore(NonBlank(front), last, t);
      }
    }
  }

  lemma {:induction false} CountStrip(lines: seq<Line>, t: Text)
    ensures Count(Strip(lines), t) == Count(lines, t)
  {
    if lines != [] {
      CountStrip(Front(lines), t);
      assert Front(Strip(lines)) == Strip(Front(lines));
    }
  }

  lemma {:induction false} CountTrim(lines: seq<Line>, t: Text)
    requires !t.Blank?
    ensures Count(Strip(Trim(lines)), t) == Count(lines, t)
  {
    NonBlankTrim(lines);
    CountNonBlank(lines, t);
    CountNonBlank(Trim(lines), t);
    CountStrip(Trim(lines), t);
  }

  lemma {:induction false} CountCompact(lines: seq<Line>, t: Text)
    requires !t.Blank?
    ensures Count(Compact(lines), t) == Count(lines, t)
  {
    var trimmed := Strip(Trim(lines));
    CountTrim(lines, t);
    if StartsWithBullet(trimmed) {
      TidyTrim(lines);
      SqueezeKeepsText(trimmed);
      CountNonBlank(trimmed, t);
      CountNonBlank(Squeeze(trimmed), t);
    }
  }

  lemma {:induction false} CountGap(t: Text)
    requires !t.Blank?
    ensures Count([GAP], t) == 0
  {
  }

  lemma {:induction false} CountAppend(target: seq<Line>, source: seq<Line>, t: Text)
    requires !t.Blank?
    ensures Count(Append(target, source), t) == Count(target, t) + Count(source, t)
  {
    var s, e := Strip(Trim(source)), Strip(Trim(target));
    CountTrim(source, t);
    CountTrim(target, t);
    if s != [] && e != [] {
      var sep := Separator(e, s);
      CountConcat(e + sep, s, t);
      CountConcat(e, sep, t);
      CountGap(t);
    }
  }

  function CountIn(subs: seq<Subsection>, t: Text): nat {
    if subs == [] then 0 else CountIn(Front(subs), t) + Count(Last(subs).lines, t)
  }

  lemma {:induction false} CountReplaced(subs: seq<Subsection>, i: nat, sub: Subsection, t: Text)
    requires i < |subs|
    ensures CountIn(subs[i := sub], t) + Count(subs[i].lines, t) == CountIn(subs, t) + Count(sub.lines, t)
  {
    var after := subs[i := sub];
    if i == |subs| - 1 {
      assert Front(after) == Front(subs);
    } else {
      assert Front(after) == Front(subs)[i := sub];
      CountReplaced(Front(subs), i, sub, t);
    }
  }

  lemma {:induction false} MergeOneKeepsText(merged: seq<Subsection>, sub: Subsection, t: Text)
    requires !t.Blank?
    ensures CountIn(MergeOne(merged, sub), t) == CountIn(merged, t) + Count(sub.lines, t)
  {
    var lines, i := Compact(sub.lines), Find(merged, sub.title);
    CountCompact(sub.lines, t);
    if lines != [] {
      if i < |merged| {
        CountAppend(merged[i].lines, lines, t);
        CountReplaced(merged, i, Subsection(sub.title, Append(merged[i].lines, lines)), t);
      } else {
        FrontOfAppend(merged, Subsection(sub.title, lines));
      }
    }
  }

  lemma {:induction false} MergeKeepsText(subs: seq<Subsection>, t: Text)
    requires !t.Blank?
    ensures CountIn(Merge(subs), t) == CountIn(subs, t)
  {
    if subs != [] {
      MergeKeepsText(Front(subs), t);
      MergeOneKeepsText(Merge(Front(subs)), Last(subs), t);
    }
  }

  lemma {:induction false} CountTakenOut(b: seq<Subsection>, k: nat, t: Text)
    requires k < |b|
    ensures CountIn(b, t) == CountIn(b[..k] + b[k + 1..], t) + Count(b[k].lines, t)
  {
    var rest := b[..k] + b[k + 1..];
    if k == |b| - 1 {
      assert rest == Front(b);
    } else {
      assert Front(rest) == Front(b)[..k] + Front(b)[k + 1..];
      assert Last(rest) == Last(b);
      CountTakenOut(Front(b), k, t);
    }
  }

  lemma {:induction false} WithoutOne<T>(b: seq<T>, k: nat)
    requires k < |b|
    ensures multiset(b[..k] + b[k + 1..]) + multiset{b[k]} == multiset(b)
  {
    assert b == b[..k] + [b[k]] + b[k + 1..];
  }

  lemma {:induction false} WithoutLast<T>(a: seq<T>)
    requires a != []
    ensures multiset(Front(a)) + multiset{Last(a)} == multiset(a)
  {
    FrontAndLast(a);
    assert multiset(Front(a) + [Last(a)]) == multiset(Front(a)) + multiset{Last(a)};
  }

  lemma {:induction false} Cancel<T>(x: multiset<T>, y: multiset<T>, e: T)
    requires x + multiset{e} == y + multiset{e}
    ensures x == y
  {
    assert x == (x + multiset{e}) - multiset{e} && y == (y + multiset{e}) - multiset{e};
  }

  lemma {:induction false} PlaceOf<T>(b: seq<T>, x: T) returns (k: nat)
    requires x in multiset(b)
    ensures k < |b| && b[k] == x
  {
    assert x in b;
    k :| 0 <= k < |b| && b[k] == x;
  }

  lemma {:induction false} TakenOut<T>(a: seq<T>, b: seq<T>) returns (k: nat)
    requires multiset(a) == multiset(b) && a != []
    ensures k < |b| && b[k] == Last(a) && multiset(Front(a)) == multiset(b[..k] + b[k + 1..])
  {
    WithoutLast(a);
    k := PlaceOf(b, Last(a));
    WithoutOne(b, k);
    Cancel(multiset(Front(a)), multiset(b[..k] + b[k + 1..]), Last(a));
  }

  lemma {:induction false} CountPermuted(a: seq<Subsection>, b: seq<Subsection>, t: Text)
    requires multiset(a) == multiset(b)
    ensures CountIn(a, t) == CountIn(b, t)
    decreases |a|
  {
    if a == [] {
      assert |b| == |multiset(b)| == 0;
    } else {
      var k := TakenOut(a, b);
      CountPermuted(Front(a), b[..k] + b[k + 1..], t);
      CountTakenOut(b, k, t);
    }
  }

  function CountSection(s: Section, t: Text): nat {
    Count(s.leading, t) + CountIn(s.subsections, t)
  }

  /** Normalising loses no line of text and adds none. */
  lemma {:induction false} NormalizeKeepsText(s: Section, t: Text)
    requires !t.Blank?
    ensures CountSection(Normalize(s), t) == CountSection(s, t)
  {
    CountTrim(s.leading, t);
    MergeKeepsText(s.subsections, t);
    if s.title.Unreleased? {
      TitleOrderIsWeak();
      SortMeaning(Merge(s.subsections), BY_TITLE);
      CountPermuted(Sort(Merge(s.subsections), BY_TITLE), Merge(s.subsections), t);
    }
  }
}
