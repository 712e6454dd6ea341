/**
 Which bullets a body holds in `fix-changelogs.ts`: what trimming, tightening, joining and removal by
 line number do to them.
 */
module ChangelogItems {
  import opened ChangelogText
  import opened ChangelogLists

  /** The bullets of a body, without the blank lines around each. */
  function KeysOf(lines: seq<Line>): seq<seq<Line>> {
    Keys(Split(lines).items)
  }

  // ----- Numbers and blank ends do not matter

  function StripItems(items: seq<seq<Line>>): (r: seq<seq<Line>>)
    ensures |r| == |items| && forall j :: 0 <= j < |r| ==> r[j] == Strip(items[j])
  {
    seq(|items|, j requires 0 <= j < |items| => Strip(items[j]))
  }

  lemma {:induction false} StripAddLine(p: Parts, l: Line)
    ensures AddLine(Parts(Strip(p.preamble), StripItems(p.items)), Made(l.text))
            == Parts(Strip(AddLine(p, l).preamble), StripItems(AddLine(p, l).items))
  {
    assert Strip([l]) == [Made(l.text)];
    if IsBullet(l) {
      assert StripItems(p.items + [[l]]) == StripItems(p.items) + [Strip([l])];
    } else if p.items != [] {
      var grown := Last(p.items) + [l];
      StripConcat(Last(p.items), [l]);
      assert StripItems(Front(p.items) + [grown]) == StripItems(Front(p.items)) + [Strip(grown)];
      assert Front(StripItems(p.items)) == StripItems(Front(p.items));
      assert Last(StripItems(p.items)) == Strip(Last(p.items));
    } else {
      StripConcat(p.preamble, [l]);
    }
  }

  lemma {:induction false} SplitStrip(lines: seq<Line>)
    ensures Split(Strip(lines)) == Parts(Strip(Split(lines).preamble), StripItems(Split(lines).items))
  {
    if lines != [] {
      SplitStrip(Front(lines));
      StripAddLine(Split(Front(lines)), Last(lines));
      assert Front(Strip(lines)) == Strip(Front(lines));
    }
  }

  lemma {:induction false} StripTwice(lines: seq<Line>)
    ensures Strip(Strip(lines)) == Strip(lines)
  {
  }

  lemma {:induction false} KeysOfStrip(lines: seq<Line>)
    ensures KeysOf(Strip(lines)) == KeysOf(lines)
  {
    SplitStrip(lines);
    var items := Split(lines).items;
    forall j | 0 <= j < |items| ensures Key(Strip(items[j])) == Key(items[j]) {
      TrimStrip(items[j]);
      StripTwice(Trim(items[j]));
    }
  }

  lemma {:induction false} SplitAfterBlanks(a: seq<Line>, m: seq<Line>)
    requires AllBlank(a)
    ensures Split(a + m).items == Split(m).items
  {
    var p := Split(m);
    SplitCuts(m);
    SplitUnique(a + p.preamble, p.items);
    Associates(a, p.preamble, Flatten(p.items));
  }

  lemma {:induction false} KeyIgnoresBlank(item: seq<Line>, l: Line)
    requires IsBlank(l)
    ensures Key(item + [l]) == Key(item)
  {
    var a, b := TrimSplits(item);
    assert item + [l] == a + Trim(item) + (b + [l]);
    TrimUnique(a, Trim(item), b + [l]);
  }

  lemma {:induction false} KeysBeforeBlanks(x: seq<Line>, b: seq<Line>)
    requires AllBlank(b)
    ensures KeysOf(x + b) == KeysOf(x)
  {
    if b == [] {
      assert x + b == x;
    } else {
      var l, p := Last(b), Split(x + Front(b));
      KeysBeforeBlanks(x, Front(b));
      assert x + b == x + Front(b) + [l];
      SplitAppend(x + Front(b), l);
      if p.items != [] {
        KeyIgnoresBlank(Last(p.items), l);
      }
    }
  }

  lemma {:induction false} KeysOfTrim(lines: seq<Line>)
    ensures KeysOf(Trim(lines)) == KeysOf(lines)
  {
    var a, b := TrimSplits(lines);
    SplitAfterBlanks(a, Trim(lines));
    KeysBeforeBlanks(a + Trim(lines), b);
  }

  /** Tightening a list never changes a bullet. */
  lemma {:induction false} KeysOfCompact(lines: seq<Line>)
    ensures KeysOf(Compact(lines)) == KeysOf(lines)
  {
    var t := Strip(Trim(lines));
    KeysOfTrim(lines);
    KeysOfStrip(Trim(lines));
    if StartsWithBullet(t) {
      TidyTrim(lines);
      SqueezeSplits(t);
      var items := Split(t).items;
      forall j | 0 <= j < |items| ensures Key(Trim(items[j])) == Key(items[j]) {
        TrimIsTrimmed(items[j]);
      }
    }
  }

  // ----- Joining two bodies

  function Separator(existing: seq<Line>, source: seq<Line>): seq<Line>
    requires existing != [] && source != []
  {
    if IsBullet(Last(existing)) && IsBullet(source[0]) then [] else [GAP]
  }

  /** `appendSubsectionLines`. */
  function Append(target: seq<Line>, source: seq<Line>): seq<Line> {
    var s, e := Strip(Trim(source)), Strip(Trim(target));
    if s == [] then target else if e == [] then s else e + Separator(e, s) + s
  }

  method AppendSubsectionLines(target: seq<Line>, source: seq<Line>) returns (r: seq<Line>)
    ensures r == Append(target, source)
  {
    var trimmed := TrimBlankLines(source);
    trimmed := Strip(trimmed);
    if |trimmed| == 0 {
      return target;
    }
    var existing := TrimBlankLines(target);
    existing := Strip(existing);
    if |existing| == 0 {
      return trimmed;
    }
    var separator := if IsBullet(existing[|existing| - 1]) && IsBullet(trimmed[0]) then [] else [GAP];
    return existing + separator + trimmed;
  }

  lemma {:induction false} AppendTidy(e: seq<Line>, s: seq<Line>)
    requires Tidy(e) && Tidy(s) && e != [] && s != []
    ensures Append(e, s) == e + Separator(e, s) + s && Tidy(Append(e, s)) && Append(e, s) != []
    ensures StartsWithBullet(Append(e, s)) == StartsWithBullet(e)
  {
    TidyTrim(e);
    TidyTrim(s);
    StripConcat(e + Separator(e, s), s);
    StripConcat(e, Separator(e, s));
  }

  /** The fixer merges a duplicate heading without leaving a gap. */
  predicate CleanJoin(e: seq<Line>, s: seq<Line>)
    requires e != [] && s != []
  {
    !IsBullet(e[0]) || (if IsBullet(s[0]) then IsBullet(Last(e)) else !HasGap(s))
  }

  predicate HasGap(lines: seq<Line>) {
    exists i :: 0 < i < |lines| && IsBullet(lines[i]) && IsBlank(lines[i - 1])
  }

  lemma {:induction false} GapFreeConcat(x: seq<Line>, y: seq<Line>)
    requires x != [] && y != []
    ensures NoGap(x + y) <==> (NoGap(x) && NoGap(y) && (IsBullet(y[0]) ==> !IsBlank(Last(x))))
  {
    var z := x + y;
    if NoGap(z) {
      forall i | 0 < i < |y| && IsBullet(y[i]) ensures !IsBlank(y[i - 1]) {
        assert z[|x| + i] == y[i] && z[|x| + i - 1] == y[i - 1];
      }
      GapFreePrefix(x, y);
      assert z[|x|] == y[0] && z[|x| - 1] == Last(x);
    } else {
      var i :| 0 < i < |z| && IsBullet(z[i]) && IsBlank(z[i - 1]);
      if i < |x| {
        assert IsBullet(x[i]) && IsBlank(x[i - 1]);
      } else if i > |x| {
        var k := i - |x|;
        assert IsBullet(y[k]) && IsBlank(y[k - 1]);
      }
    }
  }

  /** Joining two settled bodies settles exactly when the join is clean. */
  lemma {:induction false} AppendSettles(e: seq<Line>, s: seq<Line>)
    requires Settled(e) && Settled(s)
    ensures Settled(Append(e, s)) <==> CleanJoin(e, s)
  {
    AppendTidy(e, s);
    if IsBullet(e[0]) {
      var sep := Separator(e, s);
      if sep == [] {
        assert e + sep == e;
        GapFreeConcat(e, s);
      } else {
        GapFreeConcat(e + sep, s);
        GapFreeConcat(e, sep);
      }
    }
  }

  /** A gap once made stays, however much is joined on behind it. */
  lemma {:induction false} AppendKeepsGap(e: seq<Line>, s: seq<Line>)
    requires Tidy(e) && e != [] && !Settled(e) && Settled(s)
    ensures !Settled(Append(e, s))
  {
    AppendTidy(e, s);
    if NoGap(Append(e, s)) {
      GapFreePrefix(e + Separator(e, s), s);
      GapFreePrefix(e, Separator(e, s));
    }
  }

  // ----- Joining a single bullet

  lemma {:induction false} TextKeepsKeys(lines: seq<Line>)
    ensures KeysOf(Strip(Trim(lines))) == KeysOf(lines)
  {
    KeysOfTrim(lines);
    KeysOfStrip(Trim(lines));
  }

  lemma {:induction false} KeysAndOne(items: seq<seq<Line>>, item: seq<Line>)
    ensures Keys(items + [item]) == Keys(items) + [Key(item)]
  {
  }

  /** Joining a single bullet adds it as the last, and changes no other. */
  lemma {:induction false} AppendItem(target: seq<Line>, item: seq<Line>)
    requires IsItem(item) && Tidy(item)
    ensures KeysOf(Append(target, item)) == KeysOf(target) + [item]
  {
    var e := Strip(Trim(target));
    TidyTrim(item);
    TextKeepsKeys(target);
    var before := if e == [] then [] else e + Separator(e, item);
    assert Append(target, item) == before + item;
    SplitAddsItem(before, item);
    if e != [] {
      KeysBeforeBlanks(e, Separator(e, item));
    }
    KeysAndOne(Split(before).items, item);
  }
}
