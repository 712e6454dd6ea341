/**
 The file around the rewrite of `rewrite-system-prompt.ts`: its content is split at line breaks, the
 lines are rewritten, and the result is joined again.
 */
module PromptFile {
  import opened Wrappers
  import opened PromptRewrite
  import opened PromptAnswers
  import WorkerPool

  predicate NoBreak(s: string) {
    '\n' !in s
  }

  ghost predicate NoBreaks(lines: seq<string>) {
    forall i :: 0 <= i < |lines| ==> NoBreak(lines[i])
  }

  function Split(content: string): (r: seq<string>)
    ensures r != []
  {
    if content == "" then [""]
    else
      var rest := Split(content[1..]);
      if content[0] == '\n' then [""] + rest else [[content[0]] + rest[0]] + rest[1..]
  }

  function Join(lines: seq<string>): string
    requires lines != []
  {
    if |lines| == 1 then lines[0] else lines[0] + "\n" + Join(lines[1..])
  }

  // ----- Splitting and joining

  lemma {:induction false} SplitHasNoBreaks(content: string)
    ensures NoBreaks(Split(content))
  {
    if content != "" {
      SplitHasNoBreaks(content[1..]);
    }
  }

  lemma {:induction false} JoinInvertsSplit(content: string)
    ensures Join(Split(content)) == content
  {
    if content != "" {
      var rest := Split(content[1..]);
      JoinInvertsSplit(content[1..]);
      if content[0] == '\n' {
        assert ([""] + rest)[1..] == rest;
      } else {
        assert ([[content[0]] + rest[0]] + rest[1..])[1..] == rest[1..];
      }
      assert content == [content[0]] + content[1..];
    }
  }

  /** Splitting a line with more text behind a line break. */
  lemma {:induction false} SplitBehind(line: string, rest: string)
    ensures Split(line + "\n" + rest) == Split(line) + Split(rest)
  {
    if line == "" {
      assert line + "\n" + rest == "\n" + rest && ("\n" + rest)[1..] == rest;
    } else {
      assert (line + "\n" + rest)[1..] == line[1..] + "\n" + rest;
      SplitBehind(line[1..], rest);
    }
  }

  lemma {:induction false} SplitUnbroken(line: string)
    requires NoBreak(line)
    ensures Split(line) == [line]
  {
    if line != "" {
      SplitUnbroken(line[1..]);
      assert [line[0]] + line[1..] == line;
    }
  }

  lemma {:induction false} SplitBroken(line: string)
    requires !NoBreak(line)
    ensures |Split(line)| >= 2
  {
    if line[0] != '\n' {
      assert line == [line[0]] + line[1..];
      SplitBroken(line[1..]);
    }
  }

  /** Lines without breaks come back as they were; any break makes more lines. */
  lemma {:induction false} SplitInvertsJoinExactly(lines: seq<string>)
    requires lines != []
    ensures NoBreaks(lines) ==> Split(Join(lines)) == lines
    ensures |Split(Join(lines))| >= |lines|
    ensures |Split(Join(lines))| == |lines| ==> NoBreaks(lines)
  {
    var first := lines[0];
    if NoBreak(first) {
      SplitUnbroken(first);
    } else {
      SplitBroken(first);
    }
    if |lines| > 1 {
      SplitBehind(first, Join(lines[1..]));
      SplitInvertsJoinExactly(lines[1..]);
      assert lines == [first] + lines[1..];
    }
  }

  // ----- The rewritten file

  /** The output file has as many lines as the input, and each is safe at its own place. */
  ghost predicate KeepsLines(content: string, file: string, cl: Classifier) {
    && |Split(file)| == |Split(content)|
    && forall i :: 0 <= i < |Split(content)| ==> SafeLine(Split(content), i, Split(file)[i], cl)
  }

  /** No text accepted for one of these entries holds a line break. */
  ghost predicate UnbrokenAnswers(pairs: seq<(ProseEntry, Reply)>) {
    forall k :: 0 <= k < |pairs| && TextOf(pairs[k].0, pairs[k].1).Some? ==> NoBreak(TextOf(pairs[k].0, pairs[k].1).value)
  }

  lemma {:induction false} PartsUnbroken(e: ProseEntry, line: string)
    requires e.prefix + e.core + e.suffix == line && NoBreak(line)
    ensures NoBreak(e.prefix) && NoBreak(e.core) && NoBreak(e.suffix)
  {
    var p, c := |e.prefix|, |e.core|;
    assert e.prefix == line[..p] && e.core == line[p..p + c] && e.suffix == line[p + c..];
  }

  lemma {:induction false} RebuiltBreaksWithItsText(e: ProseEntry, got: Reply, line: string)
    requires e.prefix + e.core + e.suffix == line && NoBreak(line)
    ensures NoBreak(Rebuilt(e, got)) <==> (TextOf(e, got).Some? ==> NoBreak(TextOf(e, got).value))
  {
    PartsUnbroken(e, line);
  }

  /** The lines of the output hold a break exactly when an accepted text does. */
  lemma {:induction false} OutputBreaksWithItsTexts(lines: seq<string>, pairs: seq<(ProseEntry, Reply)>)
    requires NoBreaks(lines) && GoodPairs(pairs, lines)
    ensures NoBreaks(Apply(lines, pairs).lines) <==> UnbrokenAnswers(pairs)
  {
    var out := Apply(lines, pairs).lines;
    ApplyMeaning(lines, pairs);
    forall k | 0 <= k < |pairs|
      ensures NoBreak(out[pairs[k].0.lineIndex]) <==>
              (TextOf(pairs[k].0, pairs[k].1).Some? ==> NoBreak(TextOf(pairs[k].0, pairs[k].1).value))
    {
      RebuiltBreaksWithItsText(pairs[k].0, pairs[k].1, lines[pairs[k].0.lineIndex]);
    }
    if UnbrokenAnswers(pairs) {
      forall i | 0 <= i < |lines| ensures NoBreak(out[i]) {
        if k :| 0 <= k < |pairs| && pairs[k].0.lineIndex == i {
          assert NoBreak(out[pairs[k].0.lineIndex]);
        }
      }
    }
  }

  /** The file written keeps its lines, each safe at its own place, if and only if no accepted text
      holds a line break. */
  lemma {:induction false} FileKeepsItsLinesExactly(content: string, cl: Classifier, groups: seq<seq<ProseEntry>>, server: Server)
    requires Flatten(groups) <= Plan(Split(content), |Split(content)|, cl)
    ensures var pairs := Pairs(groups, AllResolved(groups, server));
            && GoodPairs(pairs, Split(content))
            && (KeepsLines(content, Join(Apply(Split(content), pairs).lines), cl) <==> UnbrokenAnswers(pairs))
  {
    var lines, pairs := Split(content), Pairs(groups, AllResolved(groups, server));
    SplitHasNoBreaks(content);
    OutputIsSafe(lines, cl, groups, server);
    OutputBreaksWithItsTexts(lines, pairs);
    SplitInvertsJoinExactly(Apply(lines, pairs).lines);
  }

  /** So does every interleaving of the pool that ends. */
  lemma {:induction false} EveryScheduleKeepsLinesExactly(content: string, cl: Classifier, groups: seq<seq<ProseEntry>>, server: Server,
                                                          limit: int, steps: seq<WorkerPool.Step>, call: nat -> Reply)
    requires Flatten(groups) <= Plan(Split(content), |Split(content)|, cl) && AnsweredBy(call, groups, server)
    requires WorkerPool.AllFinished(WorkerPool.Run(WorkerPool.Initial(WorkerPool.Width(limit, |groups|), |groups|), steps, call))
    ensures var p := WorkerPool.Run(WorkerPool.Initial(WorkerPool.Width(limit, |groups|), |groups|), steps, call);
            && |p.results| == |groups| && (forall g :: 0 <= g < |groups| ==> p.results[g].Some?)
            && var pairs := Pairs(groups, seq(|groups|, g requires 0 <= g < |groups| => p.results[g].value));
               GoodPairs(pairs, Split(content)) &&
               (KeepsLines(content, Join(Apply(Split(content), pairs).lines), cl) <==> UnbrokenAnswers(pairs))
  {
    EveryScheduleGivesTheSameReplies(groups, server, limit, steps, call);
    FileKeepsItsLinesExactly(content, cl, groups, server);
  }

  /** `rewriteAll` from file to file: the file joins the lines with their answers put in.  As long as no
      line of the output holds a break, the file keeps its lines, each safe, and `changed` counts those
      that differ; otherwise it has more lines than before. */
  method RewriteFile(content: string, cl: Classifier, limit: int, chunkSize: int, server: Server)
    returns (file: string, o: Output)
    ensures |o.lines| == |Split(content)| && file == Join(o.lines)
    ensures forall i :: 0 <= i < |o.lines| ==> o.lines[i] == LineNow(Split(content), i, cl, limit, chunkSize, server)
    ensures NoBreaks(o.lines) ==>
              |Split(file)| == |Split(content)| &&
              forall i :: 0 <= i < |Split(content)| ==> Split(file)[i] == LineNow(Split(content), i, cl, limit, chunkSize, server)
    ensures o.fallback == |Unanswered(Split(content), cl, limit, chunkSize, server)|
    ensures KeepsLines(content, file, cl) <==> NoBreaks(o.lines)
    ensures NoBreaks(o.lines) ==> o.changed == |Differences(Split(content), Split(file))|
    ensures !NoBreaks(o.lines) ==> |Split(file)| > |Split(content)|
    ensures limit > 0 ==> o.changed + o.fallback <= limit
  {
    o := RewriteAll(Split(content), cl, limit, chunkSize, server);
    file := Join(o.lines);
    SplitInvertsJoinExactly(o.lines);
  }

  // ----- A line break that nothing stops

  /** An answer that is accepted for any line without fragile tokens. */
  const BROKEN: string := "x\n---\ny"

  function EchoBroken(g: nat): Option<seq<Reply>> {
    Some([Some(map[0 := BROKEN])])
  }

  /** One prose line without fragile tokens; the model answers with a line break, a rule and another line
      break.  The answer is accepted, and the file of one line has three. */
  lemma {:induction false} AcceptedBreakSplitsTheLine(line: string, cl: Classifier)
    requires NoBreak(line) && IsProse([line], 0, cl) && cl.tokensOf(CoreOf(line)) == []
    ensures var e := EntryAt([line], 0, cl);
            var pairs := Pairs([[e]], AllResolved([[e]], EchoBroken));
            && [e] == Plan([line], 1, cl) && GoodPairs(pairs, [line])
            && Split(Join(Apply([line], pairs).lines)) == [e.prefix + "x", "---", "y" + e.suffix]
            && Apply([line], pairs).changed == 1
  {
    var e := EntryAt([line], 0, cl);
    OneEntry(line, cl);
    AnswerIsAccepted(e);
    EntryMakesUpLine([line], 0, cl);
    PartsUnbroken(e, line);
    SplitThree(e.prefix, e.suffix);
    NotTheSame(e.prefix + BROKEN + e.suffix, line);
    ApplySingle([line], e, Some(map[0 := BROKEN]));
  }

  lemma {:induction false} NotTheSame(broken: string, line: string)
    requires NoBreak(line) && !NoBreak(broken)
    ensures broken != line
  {
  }

  lemma {:induction false} OneEntry(line: string, cl: Classifier)
    requires IsProse([line], 0, cl)
    ensures Plan([line], 1, cl) == [EntryAt([line], 0, cl)]
  {
    assert Plan([line], 0, cl) == [];
  }

  lemma {:induction false} AnswerIsAccepted(e: ProseEntry)
    requires e.lineIndex == 0 && e.tokens == []
    ensures Pairs([[e]], AllResolved([[e]], EchoBroken)) == [(e, Some(map[0 := BROKEN]))]
  {
    var item, replies := Item(0, e.core, []), [Some(map[0 := BROKEN])];
    assert ItemsOf([e]) == [item];
    assert replies[..0] == [] && FirstGood(item, replies) == Some(BROKEN);
    assert [item][..0] == [] && Settled([item], replies) == map[0 := BROKEN];
    var resolved := AllResolved([[e]], EchoBroken);
    assert resolved == [Some(map[0 := BROKEN])];
    assert [[e]][..0] == [] && resolved[..0] == [];
    assert Tagged([e], resolved[0]) == [(e, resolved[0])];
  }

  lemma {:induction false} ApplySingle(lines: seq<string>, e: ProseEntry, got: Reply)
    requires e.lineIndex < |lines| && e.prefix + e.core + e.suffix == lines[e.lineIndex]
    ensures GoodPairs([(e, got)], lines) && Apply(lines, [(e, got)]) == ApplyEntry(Output(lines, 0, 0), lines, e, got)
  {
    assert [(e, got)][..0] == [];
  }

  lemma {:induction false} SplitThree(prefix: string, suffix: string)
    requires NoBreak(prefix) && NoBreak(suffix)
    ensures Split(prefix + BROKEN + suffix) == [prefix + "x", "---", "y" + suffix]
    ensures !NoBreak(prefix + BROKEN + suffix)
  {
    var a, b, c := prefix + "x", "---", "y" + suffix;
    assert prefix + BROKEN + suffix == a + "\n" + (b + "\n" + c);
    SplitBehind(a, b + "\n" + c);
    SplitBehind(b, c);
    SplitUnbroken(a);
    SplitUnbroken(b);
    SplitUnbroken(c);
    assert (prefix + BROKEN + suffix)[|prefix| + 1] == '\n';
  }
}
