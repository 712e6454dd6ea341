/**
 Which bullets a section of `fix-changelogs.ts` has once its duplicate headings are merged: a bullet
 grows when a later body under its heading starts with text.
 */
module ChangelogGrowth {
  import opened ChangelogText
  import opened ChangelogLists
  import opened ChangelogItems
  import opened ChangelogDocument
  import opened ChangelogNormal

  /** The text of a body before its first bullet. */
  function Intro(lines: seq<Line>): seq<Line> {
    Strip(Trim(Split(lines).preamble))
  }

  /** The last bullet takes in the text that is joined behind it. */
  function Grown(keys: seq<seq<Line>>, text: seq<Line>): seq<seq<Line>> {
    if keys == [] || text == [] then keys else Front(keys) + [Last(keys) + [GAP] + text]
  }

  /** The bullets under a title, once all bodies under it are joined. */
  function KeysUnder(subs: seq<Subsection>, title: string): seq<seq<Line>> {
    if subs == [] then []
    else
      var before, last := KeysUnder(Front(subs), title), Last(subs);
      if last.title == title then Grown(before, Intro(last.lines)) + KeysOf(last.lines) else before
  }

  // ----- Numbers and blank ends do not matter

  lemma {:induction false} IntroAfterBlanks(a: seq<Line>, m: seq<Line>)
    requires AllBlank(a)
    ensures Intro(a + m) == Intro(m)
  {
    var p := Split(m);
    SplitCuts(m);
    SplitUnique(a + p.preamble, p.items);
    Associates(a, p.preamble, Flatten(p.items));
    TrimStartSkips(a, p.preamble);
  }

  lemma {:induction false} IntroBeforeBlanks(x: seq<Line>, b: seq<Line>)
    requires AllBlank(b)
    ensures Intro(x + b) == Intro(x)
  {
    if b == [] {
      assert x + b == x;
    } else {
      var front, l := Front(b), Last(b);
      IntroBeforeBlanks(x, front);
      assert x + b == x + front + [l];
      SplitAppend(x + front, l);
      TrimBeforeBlank(Split(x + front).preamble, l);
    }
  }

  lemma {:induction false} TrimBeforeBlank(x: seq<Line>, l: Line)
    requires IsBlank(l)
    ensures Trim(x + [l]) == Trim(x)
  {
    var a, b := TrimSplits(x);
    assert x + [l] == a + Trim(x) + (b + [l]);
    TrimUnique(a, Trim(x), b + [l]);
  }

  lemma {:induction false} IntroOfStrip(lines: seq<Line>)
    ensures Intro(Strip(lines)) == Intro(lines)
  {
    SplitStrip(lines);
    TrimStrip(Split(lines).preamble);
    StripTwice(Trim(Split(lines).preamble));
  }

  lemma {:induction false} IntroOfText(lines: seq<Line>)
    ensures Intro(Strip(Trim(lines))) == Intro(lines)
  {
    var a, b := TrimSplits(lines);
    IntroOfStrip(Trim(lines));
    IntroAfterBlanks(a, Trim(lines));
    IntroBeforeBlanks(a + Trim(lines), b);
  }

  lemma {:induction false} IntroOfList(lines: seq<Line>)
    requires StartsWithBullet(lines)
    ensures Intro(lines) == []
  {
    SplitCuts(lines);
    assert Split(lines).preamble == [];
  }

  /** Tightening does not change the text before the first bullet. */
  lemma {:induction false} IntroOfCompact(lines: seq<Line>)
    ensures Intro(Compact(lines)) == Intro(lines)
  {
    var t := Strip(Trim(lines));
    IntroOfText(lines);
    if StartsWithBullet(t) {
      TidyTrim(lines);
      SqueezeStarts(t);
      IntroOfList(t);
      IntroOfList(Squeeze(t));
    }
  }

  // ----- Joining two bodies

  lemma {:induction false} SplitAddsItems(x: seq<Line>, items: seq<seq<Line>>)
    requires AreItems(items)
    ensures Split(x + Flatten(items)) == Parts(Split(x).preamble, Split(x).items + items)
  {
    if items == [] {
      assert x + Flatten(items) == x;
    } else {
      var front, last := Front(items), Last(items);
      assert IsItem(items[|front|]);
      SplitAddsItems(x, front);
      SplitAddsItem(x + Flatten(front), last);
      Associates(x, Flatten(front), last);
      assert items == front + [last];
    }
  }

  function AddText(p: Parts, text: seq<Line>): Parts {
    if p.items == [] then Parts(p.preamble + text, [])
    else Parts(p.preamble, Front(p.items) + [Last(p.items) + text])
  }

  lemma {:induction false} AddNothing(p: Parts)
    ensures AddText(p, []) == p
  {
    if p.items == [] {
      assert p.preamble + [] == p.preamble;
    } else {
      assert Last(p.items) + [] == Last(p.items);
    }
  }

  lemma {:induction false} AddOneMore(p: Parts, text: seq<Line>, l: Line)
    requires !IsBullet(l)
    ensures AddLine(AddText(p, text), l) == AddText(p, text + [l])
  {
    if p.items == [] {
      Associates(p.preamble, text, [l]);
    } else {
      FrontOfAppend(Front(p.items), Last(p.items) + text);
      Associates(Last(p.items), text, [l]);
    }
  }

  lemma {:induction false} SplitAddsMore(x: seq<Line>, text: seq<Line>, l: Line)
    requires Split(x + text) == AddText(Split(x), text) && !IsBullet(l)
    ensures Split(x + (text + [l])) == AddText(Split(x), text + [l])
  {
    Associates(x, text, [l]);
    SplitAppend(x + text, l);
    AddOneMore(Split(x), text, l);
  }

  lemma {:induction false} SplitAddsText(x: seq<Line>, text: seq<Line>)
    requires NoBullets(text)
    ensures Split(x + text) == AddText(Split(x), text)
  {
    if text == [] {
      assert x + text == x;
      AddNothing(Split(x));
    } else {
      var front, l := Front(text), Last(text);
      assert text == front + [l];
      assert NoBullets(front) && !IsBullet(text[|front|]);
      SplitAddsText(x, front);
      SplitAddsMore(x, front, l);
    }
  }

  /** The bullet behind which text is joined. */
  lemma {:induction false} KeyWithText(item: seq<Line>, text: seq<Line>)
    requires IsItem(item) && Strip(item) == item && !IsBlank(Last(item))
    requires text != [] && !IsBlank(text[0])
    ensures Key(item + [GAP] + text) == Key(item) + [GAP] + Strip(Trim(text))
  {
    var x := item + [GAP];
    TrimKeepsTrimmed(item);
    assert Trim(x + text) == TrimEnd(x + text);
    TrimEndConcat(x, text);
    assert TrimStart(text) == text;
    StripConcat(x, TrimEnd(text));
    StripConcat(item, [GAP]);
    assert Strip([GAP]) == [GAP];
  }

  lemma {:induction false} KeysWithText(items: seq<seq<Line>>, more: seq<Line>)
    requires items != []
    ensures Keys(Front(items) + [Last(items) + more]) == Front(Keys(items)) + [Key(Last(items) + more)]
    ensures Last(Keys(items)) == Key(Last(items))
  {
    assert Front(Keys(items)) == Keys(Front(items));
  }

  /** The last bullet of a tidy body ends with the body. */
  lemma {:induction false} LastItemIsTidy(e: seq<Line>)
    requires Tidy(e) && Split(e).items != []
    ensures var item := Last(Split(e).items); IsItem(item) && Strip(item) == item && !IsBlank(Last(item))
  {
    var p := Split(e);
    SplitCuts(e);
    assert IsItem(p.items[|p.items| - 1]);
    LastOfFlatten(p.items);
    StripParts(p.preamble, Flatten(p.items));
    StripParts(Flatten(Front(p.items)), Last(p.items));
    assert Last(e) == Last(Flatten(p.items));
  }

  lemma {:induction false} KeysBehindText(e: seq<Line>, pre: seq<Line>)
    requires Tidy(e) && NoBullets(pre) && pre != [] && !IsBlank(pre[0])
    ensures KeysOf(e + [GAP] + pre) == Grown(KeysOf(e), Strip(Trim(pre)))
  {
    Associates(e, [GAP], pre);
    SplitAddsText(e, [GAP] + pre);
    var items := Split(e).items;
    if items != [] {
      LastItemIsTidy(e);
      KeyWithText(Last(items), pre);
      Associates(Last(items), [GAP], pre);
      KeysWithText(items, [GAP] + pre);
      TextRemains(pre);
    }
  }

  lemma {:induction false} TextRemains(pre: seq<Line>)
    requires pre != [] && !IsBlank(pre[0])
    ensures Strip(Trim(pre)) != []
  {
    var b := TrimEndSplits(pre);
    assert TrimStart(pre) == pre;
    assert Trim(pre) != [];
  }

  lemma {:induction false} KeysOfParts(x: seq<seq<Line>>, y: seq<seq<Line>>)
    ensures Keys(x + y) == Keys(x) + Keys(y)
  {
  }

  /** What joining two tidy bodies makes of their bullets. */
  lemma {:induction false} KeysOfAppend(e: seq<Line>, s: seq<Line>)
    requires Tidy(e) && Tidy(s) && e != [] && s != []
    ensures KeysOf(Append(e, s)) == Grown(KeysOf(e), Intro(s)) + KeysOf(s)
  {
    AppendTidy(e, s);
    var sep, p := Separator(e, s), Split(s);
    SplitCuts(s);
    Associates(e + sep, p.preamble, Flatten(p.items));
    SplitAddsItems(e + sep + p.preamble, p.items);
    KeysOfParts(Split(e + sep + p.preamble).items, p.items);
    if p.preamble == [] {
      assert e + sep + p.preamble == e + sep;
      KeysBeforeBlanks(e, sep);
      assert Intro(s) == [];
    } else {
      assert s[0] == p.preamble[0];
      assert NoBullets(p.preamble);
      KeysBehindText(e, p.preamble);
    }
  }

  // ----- Merging

  /** The body of the merged subsection with this title. */
  function BodyOf(merged: seq<Subsection>, title: string): seq<Line> {
    var i := Find(merged, title);
    if i < |merged| then merged[i].lines else []
  }

  lemma {:induction false} FindIs(merged: seq<Subsection>, i: nat)
    requires i < |merged| && Distinct(merged)
    ensures Find(merged, merged[i].title) == i
  {
  }

  lemma {:induction false} BodyIs(merged: seq<Subsection>, i: nat)
    requires i < |merged| && Distinct(merged)
    ensures BodyOf(merged, merged[i].title) == merged[i].lines
  {
    FindIs(merged, i);
  }

  /** Merging a body leaves the other titles alone. */
  lemma {:induction false} OtherBodies(merged: seq<Subsection>, sub: Subsection, title: string)
    requires Distinct(merged) && title != sub.title
    ensures BodyOf(MergeOne(merged, sub), title) == BodyOf(merged, title)
  {
    MergeOneDistinct(merged, sub);
    var after, i := MergeOne(merged, sub), Find(merged, title);
    if i < |merged| {
      assert after[i] == merged[i];
      BodyIs(after, i);
    }
  }

  lemma {:induction false} BodyAfterMerge(merged: seq<Subsection>, sub: Subsection)
    requires Distinct(merged) && Compact(sub.lines) != []
    ensures var lines, before := Compact(sub.lines), BodyOf(merged, sub.title);
            BodyOf(MergeOne(merged, sub), sub.title)
            == if Find(merged, sub.title) < |merged| then Append(before, lines) else lines
  {
    MergeOneDistinct(merged, sub);
    var after, i := MergeOne(merged, sub), Find(merged, sub.title);
    BodyIs(after, i);
  }

  lemma {:induction false} BlankBodyHasNothing(lines: seq<Line>)
    requires Compact(lines) == []
    ensures KeysOf(lines) == [] && Intro(lines) == []
  {
    KeysOfCompact(lines);
    IntroOfCompact(lines);
  }

  /** The bullets under a merged heading are those of its bodies, grown where a body starts with text. */
  lemma {:induction false} MergedKeys(subs: seq<Subsection>, title: string)
    ensures KeysOf(BodyOf(Merge(subs), title)) == KeysUnder(subs, title)
  {
    if subs != [] {
      var merged, last := Merge(Front(subs)), Last(subs);
      MergedKeys(Front(subs), title);
      MergeIsDistinct(Front(subs));
      if last.title == title {
        MergedKeysUnder(merged, last, KeysUnder(Front(subs), title), Front(subs));
      } else {
        OtherBodies(merged, last, title);
      }
    }
  }

  lemma {:induction false} MergedKeysUnder(merged: seq<Subsection>, last: Subsection, before: seq<seq<Line>>, subs: seq<Subsection>)
    requires merged == Merge(subs) && Distinct(merged) && KeysOf(BodyOf(merged, last.title)) == before
    ensures KeysOf(BodyOf(MergeOne(merged, last), last.title)) == Grown(before, Intro(last.lines)) + KeysOf(last.lines)
  {
    var lines, i := Compact(last.lines), Find(merged, last.title);
    if lines == [] {
      BlankBodyHasNothing(last.lines);
    } else {
      BodyAfterMerge(merged, last);
      KeysOfCompact(last.lines);
      IntroOfCompact(last.lines);
      CompactSettles(last.lines);
      if i < |merged| {
        MergeSettles(subs);
        assert Tidy(merged[i].lines) && merged[i].lines != [];
        KeysOfAppend(merged[i].lines, lines);
      }
    }
  }

  // ----- What becomes of one bullet

  /** Whether some body under this title has a bullet. */
  predicate HasBullets(subs: seq<Subsection>, title: string) {
    subs != [] && (HasBullets(Front(subs), title) || (Last(subs).title == title && KeysOf(Last(subs).lines) != []))
  }

  function WithGap(text: seq<Line>): seq<Line> {
    if text == [] then [] else [GAP] + text
  }

  /** What a bullet takes in from the bodies behind its own, up to the first of them with a bullet. */
  function TextBehind(subs: seq<Subsection>, title: string): seq<Line> {
    if subs == [] then []
    else
      var before, last := TextBehind(Front(subs), title), Last(subs);
      if last.title == title && !HasBullets(Front(subs), title) then before + WithGap(Intro(last.lines)) else before
  }

  /** What bullet `i` of body `j` takes in: only the last bullet of a body takes in anything. */
  function Additions(subs: seq<Subsection>, j: nat, i: nat): seq<Line>
    requires j < |subs|
  {
    if i + 1 == |KeysOf(subs[j].lines)| then TextBehind(subs[j + 1..], subs[j].title) else []
  }

  lemma {:induction false} RestOfFront(subs: seq<Subsection>, j: nat)
    requires j + 1 < |subs|
    ensures subs[j + 1..] != [] && Front(subs[j + 1..]) == Front(subs)[j + 1..] && Last(subs[j + 1..]) == Last(subs)
  {
  }

  lemma {:induction false} GrownAt(keys: seq<seq<Line>>, text: seq<Line>, p: nat)
    requires p < |keys|
    ensures |Grown(keys, text)| == |keys|
    ensures Grown(keys, text)[p] == keys[p] + if p == |keys| - 1 then WithGap(text) else []
  {
    if text == [] {
      assert keys[p] + [] == keys[p];
    } else if p == |keys| - 1 {
      Associates(keys[p], [GAP], text);
    } else {
      assert keys[p] + [] == keys[p];
    }
  }

  /** Bullet `i` of body `j` is at `p`, and is the last there only if nothing stands behind it. */
  ghost predicate StandsAt(subs: seq<Subsection>, j: nat, i: nat, p: nat)
    requires j < |subs| && i < |KeysOf(subs[j].lines)|
  {
    var keys := KeysUnder(subs, subs[j].title);
    && p < |keys| && keys[p] == KeysOf(subs[j].lines)[i] + Additions(subs, j, i)
    && (p == |keys| - 1 <==> i + 1 == |KeysOf(subs[j].lines)| && !HasBullets(subs[j + 1..], subs[j].title))
  }

  lemma {:induction false} StandsInLast(subs: seq<Subsection>, i: nat) returns (p: nat)
    requires subs != [] && i < |KeysOf(Last(subs).lines)|
    ensures StandsAt(subs, |subs| - 1, i, p)
  {
    var last, j := Last(subs), |subs| - 1;
    var before := Grown(KeysUnder(Front(subs), last.title), Intro(last.lines));
    p := |before| + i;
    assert subs[j + 1..] == [];
    assert KeysOf(last.lines)[i] + [] == KeysOf(last.lines)[i];
  }

  lemma {:induction false} StandsOn(subs: seq<Subsection>, j: nat, i: nat, p: nat)
    requires j + 1 < |subs| && i < |KeysOf(subs[j].lines)| && StandsAt(Front(subs), j, i, p)
    ensures StandsAt(subs, j, i, p)
  {
    var front, last, title := Front(subs), Last(subs), subs[j].title;
    RestOfFront(subs, j);
    if last.title == title {
      var keys, key := KeysUnder(front, title), KeysOf(subs[j].lines)[i];
      GrownAt(keys, Intro(last.lines), p);
      Associates(key, Additions(front, j, i), if p == |keys| - 1 then WithGap(Intro(last.lines)) else []);
    }
  }

  /** Every bullet of every body ends up under its title, and takes in exactly the text behind it. */
  lemma {:induction false} EachBulletStands(subs: seq<Subsection>, j: nat, i: nat) returns (p: nat)
    requires j < |subs| && i < |KeysOf(subs[j].lines)|
    ensures StandsAt(subs, j, i, p)
  {
    if j == |subs| - 1 {
      p := StandsInLast(subs, i);
    } else {
      p := EachBulletStands(Front(subs), j, i);
      StandsOn(subs, j, i, p);
    }
  }
}
