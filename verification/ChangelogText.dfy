/**
 Lines of a changelog, as `fix-changelogs.ts` tells them apart: trimming blank lines, splitting a
 subsection into its bullets, tightening a list and joining two subsections.
 */
module ChangelogText {

  /** Release titles are `Unreleased` or numeric versions. */
  datatype Title = Unreleased | Version(parts: seq<int>)

  datatype Text =
    | Release(title: Title, heading: string)
    | Subheading(name: string, spelling: string)
    | Bullet(text: string)
    | Blank(spaces: string)
    | Plain(text: string)

  /** A line with its number in the file; lines made up by the fixer are numbered 0. */
  datatype Line = Line(text: Text, number: nat)

  function Made(text: Text): Line { Line(text, 0) }

  /** The blank line the fixer writes. */
  const GAP: Line := Made(Blank(""))

  function Strip(lines: seq<Line>): (r: seq<Line>)
    ensures |r| == |lines| && forall i :: 0 <= i < |r| ==> r[i] == Made(lines[i].text)
  {
    seq(|lines|, i requires 0 <= i < |lines| => Made(lines[i].text))
  }

  predicate IsBlank(l: Line) { l.text.Blank? }
  predicate IsBullet(l: Line) { l.text.Bullet? }

  function Front<T>(s: seq<T>): seq<T>
    requires s != []
  {
    s[..|s| - 1]
  }

  function Last<T>(s: seq<T>): T
    requires s != []
  {
    s[|s| - 1]
  }

  // ----- Trimming

  function TrimStart(lines: seq<Line>): seq<Line> {
    if lines != [] && IsBlank(lines[0]) then TrimStart(lines[1..]) else lines
  }

  function TrimEnd(lines: seq<Line>): seq<Line> {
    if lines != [] && IsBlank(Last(lines)) then TrimEnd(Front(lines)) else lines
  }

  function Trim(lines: seq<Line>): seq<Line> {
    TrimEnd(TrimStart(lines))
  }

  ghost predicate AllBlank(lines: seq<Line>) {
    forall i :: 0 <= i < |lines| ==> IsBlank(lines[i])
  }

  /** No blank line at either end. */
  predicate Trimmed(lines: seq<Line>) {
    lines == [] || (!IsBlank(lines[0]) && !IsBlank(Last(lines)))
  }

  method TrimBlankLines(lines: seq<Line>) returns (r: seq<Line>)
    ensures r == Trim(lines)
  {
    var start, end := 0, |lines|;
    while start < end && IsBlank(lines[start])
      invariant 0 <= start <= end == |lines|
      invariant TrimStart(lines) == TrimStart(lines[start..])
    {
      assert lines[start..][1..] == lines[start + 1..];
      start := start + 1;
    }
    ghost var rest := lines[start..];
    assert rest == lines[start..end];
    assert TrimStart(rest) == rest;
    while end > start && IsBlank(lines[end - 1])
      invariant start <= end <= |lines|
      invariant TrimEnd(rest) == TrimEnd(lines[start..end])
    {
      assert Front(lines[start..end]) == lines[start..end - 1];
      end := end - 1;
    }
    r := lines[start..end];
  }

  lemma {:induction false} TrimStartSkips(a: seq<Line>, x: seq<Line>)
    requires AllBlank(a)
    ensures TrimStart(a + x) == TrimStart(x)
  {
    if a == [] {
      assert a + x == x;
    } else {
      assert (a + x)[1..] == a[1..] + x;
      TrimStartSkips(a[1..], x);
    }
  }

  lemma {:induction false} TrimEndSkips(x: seq<Line>, b: seq<Line>)
    requires AllBlank(b)
    ensures TrimEnd(x + b) == TrimEnd(x)
  {
    if b == [] {
      assert x + b == x;
    } else {
      assert Front(x + b) == x + Front(b);
      TrimEndSkips(x, Front(b));
    }
  }

  lemma {:induction false} TrimStartStops(m: seq<Line>, b: seq<Line>)
    requires m != [] && !IsBlank(m[0])
    ensures TrimStart(m + b) == m + b
  {
  }

  /** Trimming is the one way to drop blanks from both ends and be left with none there. */
  lemma {:induction false} TrimUnique(a: seq<Line>, m: seq<Line>, b: seq<Line>)
    requires AllBlank(a) && AllBlank(b) && Trimmed(m)
    ensures Trim(a + m + b) == m
  {
    assert a + m + b == a + (m + b);
    TrimStartSkips(a, m + b);
    if m == [] {
      assert m + b == b + [] && [] + b == b;
      TrimStartSkips(b, []);
    } else {
      TrimStartStops(m, b);
      TrimEndSkips(m, b);
    }
  }

  lemma {:induction false} Cons(lines: seq<Line>, a: seq<Line>, b: seq<Line>)
    requires lines != [] && lines[1..] == a + b
    ensures lines == [lines[0]] + a + b
  {
  }

  lemma {:induction false} TrimStartSplits(lines: seq<Line>) returns (a: seq<Line>)
    ensures AllBlank(a) && lines == a + TrimStart(lines)
    ensures TrimStart(lines) != [] ==> !IsBlank(TrimStart(lines)[0])
  {
    a := [];
    if lines != [] && IsBlank(lines[0]) {
      var rest := TrimStartSplits(lines[1..]);
      a := [lines[0]] + rest;
      Cons(lines, rest, TrimStart(lines));
    }
  }

  lemma {:induction false} TrimEndSplits(lines: seq<Line>) returns (b: seq<Line>)
    ensures AllBlank(b) && lines == TrimEnd(lines) + b
    ensures TrimEnd(lines) != [] ==> !IsBlank(Last(TrimEnd(lines)))
  {
    if lines != [] && IsBlank(Last(lines)) {
      var rest := TrimEndSplits(Front(lines));
      b := rest + [Last(lines)];
      assert lines == Front(lines) + [Last(lines)];
    } else {
      b := [];
    }
  }

  lemma {:induction false} TrimSplits(lines: seq<Line>) returns (a: seq<Line>, b: seq<Line>)
    ensures AllBlank(a) && AllBlank(b) && lines == a + Trim(lines) + b && Trimmed(Trim(lines))
  {
    a := TrimStartSplits(lines);
    b := TrimEndSplits(TrimStart(lines));
    assert a + (Trim(lines) + b) == a + Trim(lines) + b;
  }

  lemma {:induction false} TrimKeepsTrimmed(lines: seq<Line>)
    requires Trimmed(lines)
    ensures Trim(lines) == lines
  {
  }

  lemma {:induction false} TrimIsTrimmed(lines: seq<Line>)
    ensures Trimmed(Trim(lines))
    ensures Trimmed(lines) ==> Trim(lines) == lines
  {
    var a, b := TrimSplits(lines);
    if Trimmed(lines) {
      TrimKeepsTrimmed(lines);
    }
  }

  lemma {:induction false} StripConcat(x: seq<Line>, y: seq<Line>)
    ensures Strip(x + y) == Strip(x) + Strip(y)
  {
  }

  /** Numbers do not matter to trimming. */
  lemma {:induction false} TrimStrip(lines: seq<Line>)
    ensures Trim(Strip(lines)) == Strip(Trim(lines))
  {
    var a, b := TrimSplits(lines);
    StripConcat(a + Trim(lines), b);
    StripConcat(a, Trim(lines));
    TrimUnique(Strip(a), Strip(Trim(lines)), Strip(b));
  }

  // ----- The bullets of a subsection

  /** The lines before the first bullet, and for each bullet the lines up to the next. */
  datatype Parts = Parts(preamble: seq<Line>, items: seq<seq<Line>>)

  function AddLine(p: Parts, l: Line): Parts {
    if IsBullet(l) then p.(items := p.items + [[l]])
    else if p.items == [] then p.(preamble := p.preamble + [l])
    else p.(items := Front(p.items) + [Last(p.items) + [l]])
  }

  function Split(lines: seq<Line>): Parts {
    if lines == [] then Parts([], []) else AddLine(Split(Front(lines)), Last(lines))
  }

  function Flatten(items: seq<seq<Line>>): seq<Line> {
    if items == [] then [] else Flatten(Front(items)) + Last(items)
  }

  /** A bullet and no other bullet behind it. */
  predicate IsItem(item: seq<Line>) {
    item != [] && IsBullet(item[0]) && forall i :: 0 < i < |item| ==> !IsBullet(item[i])
  }

  ghost predicate Cuts(p: Parts, lines: seq<Line>) {
    && lines == p.preamble + Flatten(p.items)
    && (forall i :: 0 <= i < |p.preamble| ==> !IsBullet(p.preamble[i]))
    && (forall j :: 0 <= j < |p.items| ==> IsItem(p.items[j]))
  }

  lemma {:induction false} AddBehindCuts(p: Parts, l: Line)
    requires p.items != [] && !IsBullet(l) && IsItem(Last(p.items))
    ensures IsItem(Last(p.items) + [l]) && Flatten(p.items) + [l] == Flatten(Front(p.items)) + (Last(p.items) + [l])
  {
  }

  lemma {:induction false} AddLineCuts(p: Parts, lines: seq<Line>, l: Line)
    requires Cuts(p, lines)
    ensures Cuts(AddLine(p, l), lines + [l])
  {
    if IsBullet(l) {
      FrontOfAppend(p.items, [l]);
    } else if p.items != [] {
      AddBehindCuts(p, l);
      FrontOfAppend(Front(p.items), Last(p.items) + [l]);
    }
  }

  /** Splitting loses nothing and cuts exactly before each bullet. */
  lemma {:induction false} SplitCuts(lines: seq<Line>)
    ensures Cuts(Split(lines), lines)
  {
    if lines != [] {
      SplitCuts(Front(lines));
      AddLineCuts(Split(Front(lines)), Front(lines), Last(lines));
      assert Front(lines) + [Last(lines)] == lines;
    }
  }

  lemma {:induction false} SplitAppend(lines: seq<Line>, l: Line)
    ensures Split(lines + [l]) == AddLine(Split(lines), l)
  {
    assert Front(lines + [l]) == lines;
  }

  /** An item's text without the blank lines around it. */
  function Key(item: seq<Line>): seq<Line> {
    Strip(Trim(item))
  }

  function Keys(items: seq<seq<Line>>): (r: seq<seq<Line>>)
    ensures |r| == |items| && forall j :: 0 <= j < |r| ==> r[j] == Key(items[j])
  {
    seq(|items|, j requires 0 <= j < |items| => Key(items[j]))
  }

  /** What is known of one bullet. */
  datatype Item = Item(startLine: nat, endLine: nat, lines: seq<Line>)

  function ItemOf(item: seq<Line>): Item
    requires item != []
  {
    Item(item[0].number, Last(item).number, Key(item))
  }

  ghost predicate Describe(items: seq<Item>, raw: seq<seq<Line>>) {
    && |items| == |raw|
    && forall j :: 0 <= j < |raw| ==> raw[j] != [] && items[j] == ItemOf(raw[j])
  }

  lemma {:induction false} SplitNext(lines: seq<Line>, n: nat)
    requires n < |lines|
    ensures Split(lines[..n + 1]) == AddLine(Split(lines[..n]), lines[n])
  {
    SplitAppend(lines[..n], lines[n]);
    assert lines[..n + 1] == lines[..n] + [lines[n]];
  }

  /** Up to `end` the last item of the split is the one begun at `start`. */
  ghost predicate InItem(lines: seq<Line>, start: nat, end: nat) {
    && start < end <= |lines| && IsBullet(lines[start])
    && Split(lines[..end]) == AddItem(Split(lines[..start]), lines[start..end])
  }

  function AddItem(p: Parts, item: seq<Line>): Parts {
    Parts(p.preamble, p.items + [item])
  }

  lemma {:induction false} BeginItem(lines: seq<Line>, start: nat)
    requires start < |lines| && IsBullet(lines[start])
    ensures InItem(lines, start, start + 1)
  {
    SplitNext(lines, start);
    assert lines[start..start + 1] == [lines[start]];
  }

  lemma {:induction false} AddToLastItem(p: Parts, item: seq<Line>, l: Line)
    requires !IsBullet(l)
    ensures AddLine(AddItem(p, item), l) == AddItem(p, item + [l])
  {
    FrontOfAppend(p.items, item);
  }

  lemma {:induction false} SliceNext<T>(s: seq<T>, start: nat, end: nat)
    requires start <= end < |s|
    ensures s[start..end + 1] == s[start..end] + [s[end]]
  {
  }

  lemma {:induction false} ExtendItem(lines: seq<Line>, start: nat, end: nat)
    requires InItem(lines, start, end) && end < |lines| && !IsBullet(lines[end])
    ensures InItem(lines, start, end + 1)
  {
    SplitNext(lines, end);
    SliceNext(lines, start, end);
    AddToLastItem(Split(lines[..start]), lines[start..end], lines[end]);
  }

  lemma {:induction false} FrontAndLast<T>(s: seq<T>)
    requires s != []
    ensures s == Front(s) + [Last(s)]
  {
  }

  lemma {:induction false} FrontOfAppend<T>(s: seq<T>, x: T)
    ensures Front(s + [x]) == s && Last(s + [x]) == x
  {
  }

  /** The lines from a bullet up to the next. */
  method ItemEnd(lines: seq<Line>, start: nat) returns (end: nat)
    requires start < |lines| && IsBullet(lines[start])
    ensures InItem(lines, start, end) && (end == |lines| || IsBullet(lines[end]))
  {
    end := start + 1;
    BeginItem(lines, start);
    while end < |lines| && !IsBullet(lines[end])
      invariant InItem(lines, start, end)
    {
      ExtendItem(lines, start, end);
      end := end + 1;
    }
  }

  lemma {:induction false} DescribeNext(items: seq<Item>, raw: seq<seq<Line>>, item: seq<Line>)
    requires Describe(items, raw) && item != []
    ensures Describe(items + [ItemOf(item)], raw + [item])
  {
  }

  ghost predicate Parsed(lines: seq<Line>, index: nat, items: seq<Item>) {
    && index <= |lines| && Describe(items, Split(lines[..index]).items)
    && (items == [] || index == |lines| || IsBullet(lines[index]))
  }

  method ParseItems(lines: seq<Line>) returns (items: seq<Item>)
    ensures Describe(items, Split(lines).items)
  {
    items := [];
    var index := 0;
    while index < |lines|
      invariant Parsed(lines, index, items)
    {
      if !IsBullet(lines[index]) {
        SplitNext(lines, index);
        index := index + 1;
      } else {
        var start := index;
        index := ItemEnd(lines, start);
        var item := lines[start..index];
        DescribeNext(items, Split(lines[..start]).items, item);
        var trimmed := TrimBlankLines(item);
        items := items + [Item(item[0].number, Last(item).number, Strip(trimmed))];
      }
    }
    assert lines[..|lines|] == lines;
  }
}
