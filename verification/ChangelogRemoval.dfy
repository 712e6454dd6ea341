/**
 Taking bullets out of a body by line number, as `fix-changelogs.ts` does for dropped and promoted
 bullets.
 */
module ChangelogRemoval {
  import opened ChangelogText
  import opened ChangelogLists

  predicate IsPicked(item: seq<Line>, pick: Item -> bool) {
    item != [] && pick(ItemOf(item))
  }

  function Picked(items: seq<seq<Line>>, pick: Item -> bool): seq<seq<Line>> {
    if items == [] then []
    else if IsPicked(Last(items), pick) then Picked(Front(items), pick) + [Last(items)]
    else Picked(Front(items), pick)
  }

  function Unpicked(items: seq<seq<Line>>, pick: Item -> bool): seq<seq<Line>> {
    if items == [] then []
    else if IsPicked(Last(items), pick) then Unpicked(Front(items), pick)
    else Unpicked(Front(items), pick) + [Last(items)]
  }

  /** The body without the picked bullets. */
  function RestOf(lines: seq<Line>, pick: Item -> bool): seq<Line> {
    Split(lines).preamble + Flatten(Unpicked(Split(lines).items, pick))
  }

  // ----- What the code does

  function Matching(items: seq<Item>, pick: Item -> bool): seq<Item> {
    if items == [] then []
    else if pick(Last(items)) then Matching(Front(items), pick) + [Last(items)]
    else Matching(Front(items), pick)
  }

  lemma {:induction false} MatchingDescribes(items: seq<Item>, raw: seq<seq<Line>>, pick: Item -> bool)
    requires Describe(items, raw)
    ensures Describe(Matching(items, pick), Picked(raw, pick))
  {
    if items != [] {
      assert Describe(Front(items), Front(raw));
      MatchingDescribes(Front(items), Front(raw), pick);
      if pick(Last(items)) {
        DescribeNext(Matching(Front(items), pick), Picked(Front(raw), pick), Last(raw));
      }
    }
  }

  method FilterItems(items: seq<Item>, pick: Item -> bool) returns (r: seq<Item>)
    ensures r == Matching(items, pick)
  {
    r := [];
    for j := 0 to |items|
      invariant r == Matching(items[..j], pick)
    {
      assert Front(items[..j + 1]) == items[..j];
      if pick(items[j]) {
        r := r + [items[j]];
      }
    }
    assert items[..|items|] == items;
  }

  ghost predicate InRange(items: seq<Item>, n: nat) {
    exists j :: 0 <= j < |items| && items[j].startLine <= n <= items[j].endLine
  }

  lemma {:induction false} InRangeNext(items: seq<Item>, j: nat, n: nat)
    requires j < |items|
    ensures InRange(items[..j + 1], n) <==> (InRange(items[..j], n) || items[j].startLine <= n <= items[j].endLine)
  {
    if InRange(items[..j], n) {
      var k :| 0 <= k < j && items[k].startLine <= n <= items[k].endLine;
      assert items[..j + 1][k] == items[k];
    }
    assert items[..j + 1][j] == items[j];
    if InRange(items[..j + 1], n) && !(items[j].startLine <= n <= items[j].endLine) {
      var k :| 0 <= k < j + 1 && items[..j + 1][k].startLine <= n <= items[..j + 1][k].endLine;
      assert items[..j][k] == items[k];
    }
  }

  method LineRangeSet(items: seq<Item>) returns (numbers: set<nat>)
    ensures forall n: nat {:trigger n in numbers} :: n in numbers <==> InRange(items, n)
  {
    numbers := {};
    for j := 0 to |items|
      invariant forall n: nat {:trigger n in numbers} :: n in numbers <==> InRange(items[..j], n)
    {
      var line := items[j].startLine;
      while line <= items[j].endLine
        invariant items[j].startLine <= line
        invariant forall n: nat {:trigger n in numbers} ::
                    n in numbers <==> (InRange(items[..j], n) || (items[j].startLine <= n < line && n <= items[j].endLine))
      {
        numbers := numbers + {line};
        line := line + 1;
      }
      forall n: nat {:trigger n in numbers} ensures n in numbers <==> InRange(items[..j + 1], n) {
        InRangeNext(items, j, n);
      }
    }
    assert items[..|items|] == items;
  }

  function Without(lines: seq<Line>, numbers: set<nat>): seq<Line> {
    if lines == [] then []
    else if Last(lines).number in numbers then Without(Front(lines), numbers)
    else Without(Front(lines), numbers) + [Last(lines)]
  }

  method FilterLines(lines: seq<Line>, numbers: set<nat>) returns (r: seq<Line>)
    ensures r == Without(lines, numbers)
  {
    r := [];
    for i := 0 to |lines|
      invariant r == Without(lines[..i], numbers)
    {
      assert Front(lines[..i + 1]) == lines[..i];
      if lines[i].number !in numbers {
        r := r + [lines[i]];
      }
    }
    assert lines[..|lines|] == lines;
  }

  // ----- Removal by number takes out exactly the picked bullets

  ghost predicate Rising(lines: seq<Line>) {
    forall i, j :: 0 <= i < j < |lines| ==> lines[i].number < lines[j].number
  }

  ghost predicate Below(x: seq<Line>, y: seq<Line>) {
    forall i, j :: 0 <= i < |x| && 0 <= j < |y| ==> x[i].number < y[j].number
  }

  lemma {:induction false} RisingParts(x: seq<Line>, y: seq<Line>)
    requires Rising(x + y)
    ensures Rising(x) && Rising(y) && Below(x, y)
  {
    var z := x + y;
    assert z[..|x|] == x;
    forall i, j | 0 <= i < j < |y| ensures y[i].number < y[j].number {
      assert z[|x| + i] == y[i] && z[|x| + j] == y[j];
    }
    forall i, j | 0 <= i < |x| && 0 <= j < |y| ensures x[i].number < y[j].number {
      assert z[i] == x[i] && z[|x| + j] == y[j];
    }
  }

  lemma {:induction false} WithoutConcat(x: seq<Line>, y: seq<Line>, numbers: set<nat>)
    ensures Without(x + y, numbers) == Without(x, numbers) + Without(y, numbers)
  {
    if y == [] {
      assert x + y == x;
    } else {
      assert Front(x + y) == x + Front(y);
      WithoutConcat(x, Front(y), numbers);
      Associates(Without(x, numbers), Without(Front(y), numbers), [Last(y)]);
    }
  }

  lemma {:induction false} WithoutNoneOrAll(x: seq<Line>, numbers: set<nat>)
    ensures (forall i :: 0 <= i < |x| ==> x[i].number !in numbers) ==> Without(x, numbers) == x
    ensures (forall i :: 0 <= i < |x| ==> x[i].number in numbers) ==> Without(x, numbers) == []
  {
    if x != [] {
      WithoutNoneOrAll(Front(x), numbers);
      assert x == Front(x) + [Last(x)];
    }
  }

  /** Every line of an item is numbered like the item itself. */
  ghost predicate AsItem(item: seq<Line>, pick: Item -> bool, numbers: set<nat>) {
    forall i :: 0 <= i < |item| ==> (item[i].number in numbers <==> IsPicked(item, pick))
  }

  lemma {:induction false} WithoutItems(items: seq<seq<Line>>, pick: Item -> bool, numbers: set<nat>)
    requires forall j :: 0 <= j < |items| ==> AsItem(items[j], pick, numbers)
    ensures Without(Flatten(items), numbers) == Flatten(Unpicked(items, pick))
  {
    if items != [] {
      var front, last := Front(items), Last(items);
      WithoutItems(front, pick, numbers);
      WithoutConcat(Flatten(front), last, numbers);
      WithoutNoneOrAll(last, numbers);
      assert AsItem(items[|front|], pick, numbers);
      if !IsPicked(last, pick) {
        FrontOfAppend(Unpicked(front, pick), last);
      }
    }
  }

  /** Items follow one another in line order. */
  ghost predicate InOrder(items: seq<seq<Line>>) {
    && (forall j :: 0 <= j < |items| ==> Rising(items[j]))
    && (forall j, k :: 0 <= j < k < |items| ==> Below(items[j], items[k]))
  }

  lemma {:induction false} BelowFlatten(items: seq<seq<Line>>, j: nat, y: seq<Line>)
    requires j < |items| && Below(Flatten(items), y)
    ensures Below(items[j], y)
  {
    var front, last := Front(items), Last(items);
    var x := Flatten(front);
    if j < |front| {
      forall i, k | 0 <= i < |x| && 0 <= k < |y| ensures x[i].number < y[k].number {
        assert Flatten(items)[i] == x[i];
      }
      BelowFlatten(front, j, y);
    } else {
      forall i, k | 0 <= i < |last| && 0 <= k < |y| ensures last[i].number < y[k].number {
        assert Flatten(items)[|x| + i] == last[i];
      }
    }
  }

  lemma {:induction false} RisingItems(items: seq<seq<Line>>)
    requires Rising(Flatten(items))
    ensures InOrder(items)
  {
    if items != [] {
      var front, last := Front(items), Last(items);
      RisingParts(Flatten(front), last);
      RisingItems(front);
      forall j | 0 <= j < |front| ensures Below(items[j], last) {
        BelowFlatten(front, j, last);
      }
      assert front + [last] == items;
    }
  }

  lemma {:induction false} InRangeOfPicked(items: seq<seq<Line>>, pick: Item -> bool, picked: seq<Item>, n: nat)
    requires Describe(picked, Picked(items, pick))
    ensures InRange(picked, n) <==>
            exists j :: 0 <= j < |items| && IsPicked(items[j], pick) && items[j][0].number <= n <= Last(items[j]).number
  {
    if items != [] {
      var front, last := Front(items), Last(items);
      if IsPicked(last, pick) {
        FrontOfAppend(Picked(front, pick), last);
        var m := |picked| - 1;
        assert Describe(picked[..m], Picked(front, pick));
        InRangeOfPicked(front, pick, picked[..m], n);
        InRangeNext(picked, m, n);
        assert picked[..m + 1] == picked;
        assert picked[m] == ItemOf(last);
      } else {
        InRangeOfPicked(front, pick, picked, n);
      }
      assert front + [last] == items;
    }
  }

  /** No other item's range reaches a line of this one. */
  lemma {:induction false} RangesAreApart(items: seq<seq<Line>>, j: nat, k: nat, i: nat)
    requires InOrder(items) && j < |items| && k < |items| && i < |items[j]| && items[k] != []
    requires items[k][0].number <= items[j][i].number <= Last(items[k]).number
    ensures j == k
  {
    assert k < j ==> Below(items[k], items[j]);
    assert j < k ==> Below(items[j], items[k]);
  }

  lemma {:induction false} InOwnRange(item: seq<Line>, i: nat)
    requires Rising(item) && i < |item|
    ensures item[0].number <= item[i].number <= Last(item).number
  {
  }

  lemma {:induction false} LineNumberedAsItem(items: seq<seq<Line>>, pick: Item -> bool, picked: seq<Item>, j: nat, i: nat)
    requires InOrder(items) && j < |items| && i < |items[j]| && Describe(picked, Picked(items, pick))
    ensures InRange(picked, items[j][i].number) <==> IsPicked(items[j], pick)
  {
    var n := items[j][i].number;
    InRangeOfPicked(items, pick, picked, n);
    InOwnRange(items[j], i);
    if k :| 0 <= k < |items| && IsPicked(items[k], pick) && items[k][0].number <= n <= Last(items[k]).number {
      RangesAreApart(items, j, k, i);
    }
  }

  lemma {:induction false} NumberedAsItem(items: seq<seq<Line>>, pick: Item -> bool, picked: seq<Item>, numbers: set<nat>, j: nat)
    requires InOrder(items) && j < |items| && Describe(picked, Picked(items, pick))
    requires forall n: nat {:trigger n in numbers} :: n in numbers <==> InRange(picked, n)
    ensures AsItem(items[j], pick, numbers)
  {
    forall i | 0 <= i < |items[j]| ensures items[j][i].number in numbers <==> IsPicked(items[j], pick) {
      LineNumberedAsItem(items, pick, picked, j, i);
    }
  }

  lemma {:induction false} NotInPreamble(pre: seq<Line>, items: seq<seq<Line>>, pick: Item -> bool, picked: seq<Item>, n: nat)
    requires Below(pre, Flatten(items)) && Describe(picked, Picked(items, pick))
    requires exists i :: 0 <= i < |pre| && pre[i].number == n
    ensures !InRange(picked, n)
  {
    InRangeOfPicked(items, pick, picked, n);
    if j :| 0 <= j < |items| && IsPicked(items[j], pick) && items[j][0].number <= n <= Last(items[j]).number {
      AboveFlatten(pre, items, j);
    }
  }

  lemma {:induction false} AboveFlatten(x: seq<Line>, items: seq<seq<Line>>, j: nat)
    requires j < |items| && Below(x, Flatten(items))
    ensures Below(x, items[j])
  {
    var front, last := Front(items), Last(items);
    var y := Flatten(front);
    if j < |front| {
      forall i, k | 0 <= i < |x| && 0 <= k < |y| ensures x[i].number < y[k].number {
        assert Flatten(items)[k] == y[k];
      }
      AboveFlatten(x, front, j);
    } else {
      forall i, k | 0 <= i < |x| && 0 <= k < |last| ensures x[i].number < last[k].number {
        assert Flatten(items)[|y| + k] == last[k];
      }
    }
  }

  /** Where line numbers rise, filtering by the picked ranges removes the picked bullets whole and
      nothing else. */
  lemma {:induction false} RemovalIsExact(lines: seq<Line>, pick: Item -> bool, picked: seq<Item>, numbers: set<nat>)
    requires Rising(lines) && Describe(picked, Picked(Split(lines).items, pick))
    requires forall n: nat {:trigger n in numbers} :: n in numbers <==> InRange(picked, n)
    ensures Without(lines, numbers) == RestOf(lines, pick)
  {
    var p := Split(lines);
    SplitCuts(lines);
    RisingParts(p.preamble, Flatten(p.items));
    RisingItems(p.items);
    forall j | 0 <= j < |p.items| ensures AsItem(p.items[j], pick, numbers) {
      NumberedAsItem(p.items, pick, picked, numbers, j);
    }
    forall i | 0 <= i < |p.preamble| ensures p.preamble[i].number !in numbers {
      NotInPreamble(p.preamble, p.items, pick, picked, p.preamble[i].number);
    }
    WithoutConcat(p.preamble, Flatten(p.items), numbers);
    WithoutNoneOrAll(p.preamble, numbers);
    WithoutItems(p.items, pick, numbers);
  }

  lemma {:induction false} NothingPicked(items: seq<seq<Line>>, pick: Item -> bool)
    requires Picked(items, pick) == []
    ensures Unpicked(items, pick) == items
  {
    if items != [] {
      var front, last := Front(items), Last(items);
      assert !IsPicked(last, pick);
      NothingPicked(front, pick);
      assert items == front + [last];
    }
  }

  /** Removes the picked bullets and returns them. */
  method TakeItems(lines: seq<Line>, pick: Item -> bool) returns (rest: seq<Line>, taken: seq<Item>)
    requires Picked(Split(lines).items, pick) == [] || Rising(lines)
    ensures rest == RestOf(lines, pick) && Describe(taken, Picked(Split(lines).items, pick))
  {
    var items := ParseItems(lines);
    MatchingDescribes(items, Split(lines).items, pick);
    taken := FilterItems(items, pick);
    if |taken| == 0 {
      NothingPicked(Split(lines).items, pick);
      SplitCuts(lines);
      return lines, taken;
    }
    var numbers := LineRangeSet(taken);
    rest := FilterLines(lines, numbers);
    RemovalIsExact(lines, pick, taken, numbers);
  }

  // ----- What remains

  lemma {:induction false} UnpickedAreItems(items: seq<seq<Line>>, pick: Item -> bool)
    requires AreItems(items)
    ensures AreItems(Unpicked(items, pick)) && AreItems(Picked(items, pick))
  {
    if items != [] {
      UnpickedAreItems(Front(items), pick);
    }
  }

  /** The remaining bullets are the ones not picked, as they were. */
  lemma {:induction false} RestSplits(lines: seq<Line>, pick: Item -> bool)
    ensures Split(RestOf(lines, pick)) == Parts(Split(lines).preamble, Unpicked(Split(lines).items, pick))
  {
    SplitCuts(lines);
    UnpickedAreItems(Split(lines).items, pick);
    SplitUnique(Split(lines).preamble, Unpicked(Split(lines).items, pick));
  }

  lemma {:induction false} UnpickedAgain(items: seq<seq<Line>>, pick: Item -> bool)
    ensures Picked(Unpicked(items, pick), pick) == []
  {
    if items != [] {
      UnpickedAgain(Front(items), pick);
      if !IsPicked(Last(items), pick) {
        FrontOfAppend(Unpicked(Front(items), pick), Last(items));
      }
    }
  }

  /** A second removal finds nothing. */
  lemma {:induction false} RemovingTwiceIsRemovingOnce(lines: seq<Line>, pick: Item -> bool)
    ensures Picked(Split(RestOf(lines, pick)).items, pick) == []
    ensures RestOf(RestOf(lines, pick), pick) == RestOf(lines, pick)
  {
    RestSplits(lines, pick);
    UnpickedAgain(Split(lines).items, pick);
    NothingPicked(Unpicked(Split(lines).items, pick), pick);
  }
}
