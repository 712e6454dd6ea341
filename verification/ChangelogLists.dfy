/**
 The list operations of `fix-changelogs.ts`: tightening the spacing of a list, joining two bodies and
 taking bullets out by line number, with what each keeps.
 */
module ChangelogLists {
  import opened ChangelogText

  // ----- Splitting once more

  ghost predicate NoBullets(lines: seq<Line>) {
    forall i :: 0 <= i < |lines| ==> !IsBullet(lines[i])
  }

  ghost predicate AreItems(items: seq<seq<Line>>) {
    forall j :: 0 <= j < |items| ==> IsItem(items[j])
  }

  lemma {:induction false} SplitPreamble(pre: seq<Line>)
    requires NoBullets(pre)
    ensures Split(pre) == Parts(pre, [])
  {
    if pre != [] {
      var front, l := Front(pre), Last(pre);
      assert front + [l] == pre && NoBullets(front) && !IsBullet(l);
      SplitPreamble(front);
      assert Split(pre) == AddLine(Parts(front, []), l);
    }
  }

  lemma {:induction false} SplitAddsItem(lines: seq<Line>, item: seq<Line>)
    requires IsItem(item)
    ensures Split(lines + item) == AddItem(Split(lines), item)
  {
    var front, last := Front(item), Last(item);
    assert lines + item == lines + front + [last] && item == front + [last];
    SplitAppend(lines + front, last);
    if front == [] {
      assert lines + front == lines;
    } else {
      assert IsItem(front);
      SplitAddsItem(lines, front);
      FrontOfAppend(Split(lines).items, front);
    }
  }

  lemma {:induction false} Associates<T>(x: seq<T>, y: seq<T>, z: seq<T>)
    ensures x + (y + z) == x + y + z
  {
  }

  /** There is one way to cut lines before their bullets. */
  lemma {:induction false} SplitUnique(pre: seq<Line>, items: seq<seq<Line>>)
    requires NoBullets(pre) && AreItems(items)
    ensures Split(pre + Flatten(items)) == Parts(pre, items)
  {
    if items == [] {
      SplitPreamble(pre);
      assert pre + Flatten(items) == pre;
    } else {
      SplitUnique(pre, Front(items));
      SplitAddsItem(pre + Flatten(Front(items)), Last(items));
      Associates(pre, Flatten(Front(items)), Last(items));
      assert Front(items) + [Last(items)] == items;
    }
  }

  // ----- Lines that are not blank

  function NonBlank(lines: seq<Line>): seq<Line> {
    if lines == [] then [] else NonBlank(Front(lines)) + if IsBlank(Last(lines)) then [] else [Last(lines)]
  }

  lemma {:induction false} FrontOfConcat<T>(x: seq<T>, y: seq<T>)
    requires y != []
    ensures Front(x + y) == x + Front(y) && Last(x + y) == Last(y)
  {
  }

  lemma {:induction false} NonBlankConcat(x: seq<Line>, y: seq<Line>)
    ensures NonBlank(x + y) == NonBlank(x) + NonBlank(y)
  {
    if y == [] {
      assert x + y == x;
    } else {
      FrontOfConcat(x, y);
      NonBlankConcat(x, Front(y));
      Associates(NonBlank(x), NonBlank(Front(y)), if IsBlank(Last(y)) then [] else [Last(y)]);
    }
  }

  lemma {:induction false} BlankIsNothing(b: seq<Line>)
    requires AllBlank(b)
    ensures NonBlank(b) == []
  {
    if b != [] {
      BlankIsNothing(Front(b));
    }
  }

  lemma {:induction false} NonBlankTrim(lines: seq<Line>)
    ensures NonBlank(Trim(lines)) == NonBlank(lines)
  {
    var a, b := TrimSplits(lines);
    NonBlankConcat(a + Trim(lines), b);
    NonBlankConcat(a, Trim(lines));
    BlankIsNothing(a);
    BlankIsNothing(b);
  }

  lemma {:induction false} NonBlankKeys(items: seq<seq<Line>>)
    requires Flatten(items) == Strip(Flatten(items))
    ensures NonBlank(Flatten(Keys(items))) == NonBlank(Flatten(items))
  {
    if items != [] {
      var front, last := Front(items), Last(items);
      StripParts(Flatten(front), last);
      NonBlankKeys(front);
      assert Front(Keys(items)) == Keys(front) && Last(Keys(items)) == Key(last);
      NonBlankConcat(Flatten(Keys(front)), Key(last));
      NonBlankConcat(Flatten(front), last);
      TrimStrip(last);
      NonBlankTrim(last);
    }
  }

  lemma {:induction false} StripParts(x: seq<Line>, y: seq<Line>)
    requires x + y == Strip(x + y)
    ensures x == Strip(x) && y == Strip(y)
  {
    StripConcat(x, y);
    assert |Strip(x)| == |x|;
    assert (x + y)[..|x|] == x && (Strip(x) + Strip(y))[..|x|] == Strip(x);
    assert (x + y)[|x|..] == y && (Strip(x) + Strip(y))[|x|..] == Strip(y);
  }

  // ----- Tightening a list

  /** Drops the blank lines in front of every bullet. */
  function Squeeze(lines: seq<Line>): seq<Line> {
    if lines == [] then []
    else if IsBullet(Last(lines)) then TrimEnd(Squeeze(Front(lines))) + [Last(lines)]
    else Squeeze(Front(lines)) + [Last(lines)]
  }

  function TrimItems(items: seq<seq<Line>>): (r: seq<seq<Line>>)
    ensures |r| == |items| && forall j :: 0 <= j < |r| ==> r[j] == Trim(items[j])
  {
    seq(|items|, j requires 0 <= j < |items| => Trim(items[j]))
  }

  lemma {:induction false} TrimEndConcat(x: seq<Line>, y: seq<Line>)
    requires y != [] && !IsBlank(y[0])
    ensures TrimEnd(x + y) == x + TrimEnd(y)
  {
    var b := TrimEndSplits(y);
    TrimEndSkips(x + TrimEnd(y), b);
    assert x + y == x + TrimEnd(y) + b;
    assert TrimEnd(y) != [];
    assert Last(x + TrimEnd(y)) == Last(TrimEnd(y));
  }

  lemma {:induction false} TrimItem(item: seq<Line>)
    requires IsItem(item)
    ensures Trim(item) == TrimEnd(item) && IsItem(Trim(item))
  {
    var b := TrimEndSplits(item);
    assert TrimEnd(item) != [];
    forall i | 0 < i < |TrimEnd(item)| ensures !IsBullet(TrimEnd(item)[i]) {
      assert item[i] == TrimEnd(item)[i];
    }
  }

  lemma {:induction false} FlattenTrimItems(items: seq<seq<Line>>)
    requires items != []
    ensures Flatten(TrimItems(items)) == Flatten(TrimItems(Front(items))) + Trim(Last(items))
  {
    assert Front(TrimItems(items)) == TrimItems(Front(items));
  }

  lemma {:induction false} SqueezeAddsBullet(lines: seq<Line>, items: seq<seq<Line>>, l: Line)
    requires items != [] && AreItems(items) && IsBullet(l)
    requires Squeeze(lines) == Flatten(TrimItems(Front(items))) + Last(items)
    ensures Squeeze(lines + [l]) == Flatten(TrimItems(items)) + [l]
  {
    assert Front(lines + [l]) == lines;
    TrimEndConcat(Flatten(TrimItems(Front(items))), Last(items));
    TrimItem(Last(items));
    FlattenTrimItems(items);
  }

  /** Squeezing trims every item but the last. */
  /** Squeezing the lines trims all of these items but the last. */
  ghost predicate SqueezedTo(lines: seq<Line>, items: seq<seq<Line>>) {
    items != [] && Squeeze(lines) == Flatten(TrimItems(Front(items))) + Last(items)
  }

  lemma {:induction false} SqueezeNextBullet(lines: seq<Line>, items: seq<seq<Line>>, l: Line)
    requires SqueezedTo(lines, items) && AreItems(items) && IsBullet(l)
    ensures SqueezedTo(lines + [l], items + [[l]])
  {
    SqueezeAddsBullet(lines, items, l);
    FrontOfAppend(items, [l]);
  }

  lemma {:induction false} SqueezeNextText(lines: seq<Line>, items: seq<seq<Line>>, l: Line)
    requires SqueezedTo(lines, items) && !IsBullet(l)
    ensures SqueezedTo(lines + [l], Front(items) + [Last(items) + [l]])
  {
    FrontOfAppend(lines, l);
    FrontOfAppend(Front(items), Last(items) + [l]);
    Associates(Flatten(TrimItems(Front(items))), Last(items), [l]);
  }

  lemma {:induction false} SqueezeFirstBullet(l: Line)
    requires IsBullet(l)
    ensures Split([l]) == Parts([], [[l]]) && SqueezedTo([l], [[l]])
  {
    assert Front([l]) == [] && Front([[l]]) == [];
    assert Split([]) == Parts([], []);
    assert TrimEnd(Squeeze([])) == [];
    assert Flatten(TrimItems([])) == [];
  }

  lemma {:induction false} SqueezeTrimsItems(lines: seq<Line>)
    requires lines != [] && IsBullet(lines[0])
    ensures Split(lines).preamble == [] && Split(lines).items != []
    ensures Squeeze(lines) == Flatten(TrimItems(Front(Split(lines).items))) + Last(Split(lines).items)
  {
    var front, l := Front(lines), Last(lines);
    FrontAndLast(lines);
    if front == [] {
      assert lines == [l];
      SqueezeFirstBullet(l);
    } else {
      SplitAppend(front, l);
      SqueezeTrimsItems(front);
      SplitCuts(front);
      if IsBullet(l) {
        SqueezeNextBullet(front, Split(front).items, l);
      } else {
        SqueezeNextText(front, Split(front).items, l);
      }
    }
  }

  lemma {:induction false} LastOfFlatten(items: seq<seq<Line>>)
    requires items != [] && Last(items) != []
    ensures Flatten(items) != [] && Last(Flatten(items)) == Last(Last(items))
  {
  }

  /** So on trimmed lines it is the list of trimmed items. */
  lemma {:induction false} SqueezeIsTrimmedItems(lines: seq<Line>)
    requires lines != [] && IsBullet(lines[0]) && Trimmed(lines)
    ensures Split(lines).preamble == [] && AreItems(Split(lines).items)
    ensures Squeeze(lines) == Flatten(TrimItems(Split(lines).items))
  {
    SqueezeTrimsItems(lines);
    SplitCuts(lines);
    var items := Split(lines).items;
    LastOfFlatten(items);
    FlattenTrimItems(items);
    TrimKeepsTrimmed(Last(items));
  }

  lemma {:induction false} NonBlankTrimItems(items: seq<seq<Line>>)
    ensures NonBlank(Flatten(TrimItems(items))) == NonBlank(Flatten(items))
  {
    if items != [] {
      NonBlankTrimItems(Front(items));
      FlattenTrimItems(items);
      NonBlankConcat(Flatten(TrimItems(Front(items))), Trim(Last(items)));
      NonBlankConcat(Flatten(Front(items)), Last(items));
      NonBlankTrim(Last(items));
    }
  }

  // ----- Spacing

  /** No blank line directly in front of a bullet. */
  ghost predicate NoGap(lines: seq<Line>) {
    forall i :: 0 < i < |lines| && IsBullet(lines[i]) ==> !IsBlank(lines[i - 1])
  }

  /** A body of text as the fixer leaves it: made-up numbers, no blank ends. */
  ghost predicate Tidy(lines: seq<Line>) {
    lines == Strip(lines) && Trimmed(lines)
  }

  function StartsWithBullet(lines: seq<Line>): bool {
    lines != [] && IsBullet(lines[0])
  }

  /** `compactAdjacentListSpacing`: a list loses the blank lines between its bullets; any other text
      only those around it. */
  function Compact(lines: seq<Line>): seq<Line> {
    var t := Strip(Trim(lines));
    if StartsWithBullet(t) then Squeeze(t) else t
  }

  method NonBlankLines(lines: seq<Line>) returns (r: seq<Line>)
    ensures r == NonBlank(lines)
  {
    r := [];
    for i := 0 to |lines|
      invariant r == NonBlank(lines[..i])
    {
      assert Front(lines[..i + 1]) == lines[..i];
      if !IsBlank(lines[i]) {
        r := r + [lines[i]];
      }
    }
    assert lines[..|lines|] == lines;
  }

  method FlattenItems(items: seq<Item>, ghost raw: seq<seq<Line>>) returns (r: seq<Line>)
    requires Describe(items, raw)
    ensures r == Flatten(Keys(raw))
  {
    r := [];
    for j := 0 to |items|
      invariant r == Flatten(Keys(raw[..j]))
    {
      assert Front(Keys(raw[..j + 1])) == Keys(raw[..j]);
      r := r + items[j].lines;
    }
    assert raw[..|raw|] == raw;
  }

  lemma {:induction false} ItemIsStripped(items: seq<seq<Line>>, j: nat)
    requires Flatten(items) == Strip(Flatten(items)) && j < |items|
    ensures items[j] == Strip(items[j])
  {
    StripParts(Flatten(Front(items)), Last(items));
    if j < |items| - 1 {
      ItemIsStripped(Front(items), j);
    }
  }

  lemma {:induction false} KeysOfTidy(items: seq<seq<Line>>)
    requires Flatten(items) == Strip(Flatten(items))
    ensures Keys(items) == TrimItems(items)
  {
    forall j | 0 <= j < |items| ensures Key(items[j]) == Trim(items[j]) {
      ItemIsStripped(items, j);
      TrimStrip(items[j]);
    }
  }

  /** The comparison in the code tells a list from other text. */
  lemma {:induction false} CompareTellsLists(t: seq<Line>)
    requires Tidy(t) && t != []
    ensures var items := Split(t).items;
            NonBlank(t) == NonBlank(Flatten(Keys(items))) <==> StartsWithBullet(t)
    ensures StartsWithBullet(t) ==> Flatten(Keys(Split(t).items)) == Squeeze(t) && Split(t).items != []
  {
    var p := Split(t);
    SplitCuts(t);
    StripParts(p.preamble, Flatten(p.items));
    NonBlankKeys(p.items);
    NonBlankConcat(p.preamble, Flatten(p.items));
    if StartsWithBullet(t) {
      SqueezeIsTrimmedItems(t);
      SqueezeTrimsItems(t);
      KeysOfTidy(p.items);
    } else {
      PreambleStarts(t);
    }
  }

  lemma {:induction false} PreambleStarts(t: seq<Line>)
    requires t != [] && Trimmed(t) && !StartsWithBullet(t)
    ensures NonBlank(Split(t).preamble) != []
  {
    SplitCuts(t);
    var p := Split(t);
    if p.preamble == [] {
      FirstOfFlatten(p.items);
    }
    assert p.preamble[0] == t[0];
    assert p.preamble == [t[0]] + p.preamble[1..];
    NonBlankConcat([t[0]], p.preamble[1..]);
  }

  lemma {:induction false} FirstOfFlatten(items: seq<seq<Line>>)
    requires AreItems(items) && items != []
    ensures StartsWithBullet(Flatten(items))
  {
    if |items| > 1 {
      FirstOfFlatten(Front(items));
    }
  }

  method CompactAdjacentListSpacing(lines: seq<Line>) returns (r: seq<Line>)
    ensures r == Compact(lines)
  {
    var trimmed := TrimBlankLines(lines);
    trimmed := Strip(trimmed);
    TrimIsTrimmed(lines);
    if |trimmed| == 0 {
      return [];
    }
    CompareTellsLists(trimmed);
    var items := ParseItems(trimmed);
    if |items| == 0 {
      return trimmed;
    }
    var flattened := FlattenItems(items, Split(trimmed).items);
    var original := NonBlankLines(trimmed);
    var kept := NonBlankLines(flattened);
    return if original != kept then trimmed else flattened;
  }

  // ----- What tightening keeps and establishes

  lemma {:induction false} SqueezeKeepsGapFree(lines: seq<Line>)
    requires NoGap(lines)
    ensures Squeeze(lines) == lines
  {
    if lines != [] {
      SqueezeKeepsGapFree(Front(lines));
      assert Front(lines) + [Last(lines)] == lines;
    }
  }

  lemma {:induction false} SqueezeLeavesNoGap(lines: seq<Line>)
    ensures NoGap(Squeeze(lines))
  {
    if lines != [] {
      var front, l := Squeeze(Front(lines)), Last(lines);
      SqueezeLeavesNoGap(Front(lines));
      var b := TrimEndSplits(front);
      GapFreePrefix(TrimEnd(front), b);
      GapFreeAppend(TrimEnd(front), l);
      GapFreeAppend(front, l);
    }
  }

  lemma {:induction false} GapFreePrefix(x: seq<Line>, b: seq<Line>)
    requires NoGap(x + b)
    ensures NoGap(x)
  {
    forall i | 0 < i < |x| && IsBullet(x[i]) ensures !IsBlank(x[i - 1]) {
      assert (x + b)[i] == x[i] && (x + b)[i - 1] == x[i - 1];
    }
  }

  lemma {:induction false} GapFreeAppend(x: seq<Line>, l: Line)
    requires NoGap(x)
    ensures NoGap(x + [l]) <==> (x == [] || !IsBullet(l) || !IsBlank(Last(x)))
  {
    var y := x + [l];
    if x != [] && IsBullet(l) && IsBlank(Last(x)) {
      assert IsBullet(y[|x|]) && IsBlank(y[|x| - 1]);
    }
  }

  lemma {:induction false} TrimmedItems(items: seq<seq<Line>>)
    requires AreItems(items)
    ensures AreItems(TrimItems(items))
  {
    forall j | 0 <= j < |items| ensures IsItem(Trim(items[j])) {
      TrimItem(items[j]);
    }
  }

  /** The bullets of the tightened list are the trimmed bullets of the list. */
  lemma {:induction false} SqueezeSplits(t: seq<Line>)
    requires StartsWithBullet(t) && Trimmed(t)
    ensures Split(Squeeze(t)) == Parts([], TrimItems(Split(t).items))
  {
    var items := Split(t).items;
    SqueezeIsTrimmedItems(t);
    TrimmedItems(items);
    SplitUnique([], TrimItems(items));
    assert [] + Flatten(TrimItems(items)) == Flatten(TrimItems(items));
  }

  lemma {:induction false} SqueezeKeepsText(t: seq<Line>)
    requires StartsWithBullet(t) && Trimmed(t)
    ensures NonBlank(Squeeze(t)) == NonBlank(t)
  {
    var items := Split(t).items;
    SqueezeIsTrimmedItems(t);
    SplitCuts(t);
    NonBlankTrimItems(items);
    assert [] + Flatten(items) == Flatten(items);
  }

  lemma {:induction false} SqueezeStarts(t: seq<Line>)
    requires StartsWithBullet(t) && Trimmed(t)
    ensures StartsWithBullet(Squeeze(t))
  {
    var items := Split(t).items;
    SqueezeIsTrimmedItems(t);
    SqueezeTrimsItems(t);
    TrimmedItems(items);
    FirstOfFlatten(TrimItems(items));
  }

  lemma {:induction false} SqueezeShape(t: seq<Line>)
    requires StartsWithBullet(t) && Tidy(t)
    ensures Tidy(Squeeze(t)) && StartsWithBullet(Squeeze(t)) && Last(Squeeze(t)) == Last(t)
  {
    CompareTellsLists(t);
    SqueezeStarts(t);
    FlattenOfStripped(Split(t).items);
    SqueezeEnds(t);
  }

  lemma {:induction false} SqueezeEnds(t: seq<Line>)
    requires t != []
    ensures Squeeze(t) != [] && Last(Squeeze(t)) == Last(t)
  {
  }

  lemma {:induction false} FlattenOfStripped(items: seq<seq<Line>>)
    ensures Flatten(Keys(items)) == Strip(Flatten(Keys(items)))
  {
    if items != [] {
      FlattenOfStripped(Front(items));
      assert Front(Keys(items)) == Keys(Front(items));
      StripConcat(Flatten(Keys(Front(items))), Key(Last(items)));
    }
  }

  /** What the fixer wants of a body: tidy, not empty, and without gaps if it is a list. */
  ghost predicate Settled(lines: seq<Line>) {
    Tidy(lines) && lines != [] && (StartsWithBullet(lines) ==> NoGap(lines))
  }

  lemma {:induction false} TidyTrim(lines: seq<Line>)
    ensures Tidy(Strip(Trim(lines)))
    ensures Tidy(lines) ==> Strip(Trim(lines)) == lines
  {
    TrimIsTrimmed(lines);
  }

  /** Tightening gives a settled body, or nothing when there is no text. */
  lemma {:induction false} CompactSettles(lines: seq<Line>)
    ensures if Trim(lines) == [] then Compact(lines) == [] else Settled(Compact(lines))
    ensures Trim(lines) != [] ==> StartsWithBullet(Compact(lines)) == StartsWithBullet(Trim(lines))
    ensures Trim(lines) != [] ==> Last(Compact(lines)) == Made(Last(Trim(lines)).text)
  {
    var t := Strip(Trim(lines));
    TidyTrim(lines);
    if StartsWithBullet(t) {
      SqueezeShape(t);
      SqueezeLeavesNoGap(t);
    }
  }

  /** A tidy body is left alone exactly when it is settled. */
  lemma {:induction false} CompactKeepsExactlySettled(lines: seq<Line>)
    requires Tidy(lines) && lines != []
    ensures Compact(lines) == lines <==> Settled(lines)
  {
    TidyTrim(lines);
    if StartsWithBullet(lines) {
      SqueezeLeavesNoGap(lines);
      if Settled(lines) {
        SqueezeKeepsGapFree(lines);
      }
    }
  }
}
