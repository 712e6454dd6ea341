/**
 `parse_edit_boundary` of `harmony_backtest.py`: the longest prefix of an edit script that parses
 as complete edit sections.  Lines are given by what the regular expressions say about them.
 */
module EditBoundary {
  import opened Wrappers

  datatype Format = New | LegacyHashline | Codex

  datatype Header = Header(format: Format, target: string)

  /** A line range `a` or `a-b` as written in an op. */
  datatype LineRange = LineRange(a: int, b: Option<int>)

  /** `A:BODY` (which may carry payload) or `A!`. */
  datatype RangeOp = RangeOp(range: LineRange, substitutes: bool, inline: bool)

  /** What the tests of the loop see of one line; `length` includes its line break. */
  datatype Line = Line(
    length: nat,
    blank: bool,
    beginPatch: bool,
    endPatch: bool,
    header: Option<Header>,
    newMark: bool,
    newInsert: Option<bool>,
    newRange: Option<RangeOp>,
    legacyMark: bool,
    legacyInsert: bool,
    legacyReplace: Option<LineRange>)

  datatype Section = Section(target: string, ops: nat, payload: nat, deleted: nat)

  function DeletedLines(r: LineRange): nat {
    var last := if r.b.Some? then r.b.value else r.a;
    if last - r.a + 1 > 1 then last - r.a + 1 else 1
  }

  /** `a-b` deletes the lines from a to b, but at least one, and `a` alone deletes one. */
  lemma {:induction false} DeletedExactly(a: int, b: int)
    ensures DeletedLines(LineRange(a, None)) == 1
    ensures a <= b ==> DeletedLines(LineRange(a, Some(b))) == b - a + 1
    ensures b < a ==> DeletedLines(LineRange(a, Some(b))) == 1
  {
  }

  // ----- The state machine

  datatype State = State(
    sections: seq<Section>, format: Option<Format>,
    parsedEnd: nat, offset: nat, lineNo: nat,
    needsPayload: bool, payloadAllowed: bool, sawRequired: bool,
    seenContent: bool, stopped: bool)

  const START := State([], None, 0, 0, 0, false, false, false, false, false)

  /** A legacy insert is open and has no payload line yet. */
  predicate Waiting(st: State) {
    st.needsPayload && !st.sawRequired
  }

  function Stop(st: State): State {
    st.(stopped := true)
  }

  /** Moves the boundary behind the current line. */
  function Accept(st: State): State {
    st.(parsedEnd := st.offset)
  }

  function Tally(st: State, ops: nat, payload: nat, deleted: nat): State {
    if st.sections == [] then st
    else
      var n := |st.sections| - 1;
      var s := st.sections[n];
      st.(sections := st.sections[n := Section(s.target, s.ops + ops, s.payload + payload, s.deleted + deleted)])
  }

  function StepNew(st: State, line: Line): (r: State)
    ensures r.offset == st.offset && r.lineNo == st.lineNo
  {
    if st.payloadAllowed && !line.newMark && line.newInsert.None? && line.newRange.None? then
      Accept(Tally(st, 0, 1, 0))
    else if line.blank then Accept(st).(payloadAllowed := false)
    else StepNewOp(st, line)
  }

  function StepNewOp(st: State, line: Line): (r: State)
    ensures r.offset == st.offset && r.lineNo == st.lineNo
  {
    if line.newInsert.Some? then
      Accept(Tally(st, 1, if line.newInsert.value then 1 else 0, 0)).(payloadAllowed := true)
    else if line.newRange.Some? then
      var op := line.newRange.value;
      Accept(Tally(st, 1, if op.substitutes && op.inline then 1 else 0, DeletedLines(op.range))).(payloadAllowed := op.substitutes)
    else Stop(st)
  }

  function StepLegacy(st: State, line: Line): (r: State)
    ensures r.offset == st.offset && r.lineNo == st.lineNo
  {
    if st.payloadAllowed && !line.legacyMark then
      Accept(Tally(st, 0, 1, 0)).(sawRequired := true, needsPayload := false)
    else if line.blank then
      if Waiting(st) then Stop(st)
      else Accept(st).(payloadAllowed := false, needsPayload := false, sawRequired := false)
    else if Waiting(st) then Stop(st)
    else if line.legacyInsert then
      Tally(st, 1, 0, 0).(needsPayload := true, payloadAllowed := true, sawRequired := false)
    else if line.legacyReplace.Some? then
      Accept(Tally(st, 1, 0, DeletedLines(line.legacyReplace.value)))
        .(needsPayload := false, payloadAllowed := true, sawRequired := false)
    else Stop(st)
  }

  function StepContent(st: State, line: Line): (r: State)
    ensures r.offset == st.offset && r.lineNo == st.lineNo
  {
    if line.beginPatch || line.endPatch then
      if Waiting(st) then Stop(st) else Accept(st).(payloadAllowed := false)
    else if line.header.Some? then
      if Waiting(st) then Stop(st)
      else
        var h := line.header.value;
        Accept(st).(sections := st.sections + [Section(h.target, 0, 0, 0)], format := Some(h.format),
                    needsPayload := false, payloadAllowed := false, sawRequired := false)
    else if st.sections == [] then Stop(st)
    else if st.format == Some(New) then StepNew(st, line)
    else StepLegacy(st, line)
  }

  function Advance(st: State, line: Line): State {
    st.(offset := st.offset + line.length, lineNo := st.lineNo + 1)
  }

  function SeeContent(st: State): State {
    st.(seenContent := true)
  }

  function Step(before: State, line: Line): State {
    if before.stopped then before
    else
      var read := Advance(before, line);
      if !read.seenContent && line.blank then Accept(read) else StepContent(SeeContent(read), line)
  }

  function Run(lines: seq<Line>): State {
    if lines == [] then START else Step(Run(lines[..|lines| - 1]), lines[|lines| - 1])
  }

  datatype Reason = Fine | NoCompleteEditPrefix | InsertMissingPayload

  datatype Boundary = Boundary(ok: bool, parsedEnd: nat, reason: Reason, sections: seq<Section>, lineNo: nat)

  function Conclude(st: State): Boundary {
    Boundary(st.parsedEnd > 0 && st.sections != [], st.parsedEnd,
             if Waiting(st) then InsertMissingPayload
             else if st.parsedEnd > 0 && st.sections != [] then Fine else NoCompleteEditPrefix,
             st.sections, st.lineNo)
  }

  /** The result for a text that does not start with `---`. */
  function Parse(lines: seq<Line>): Boundary {
    Conclude(Run(lines))
  }

  // ----- Steps that accept and steps that do not

  function Length(lines: seq<Line>): nat {
    if lines == [] then 0 else Length(lines[..|lines| - 1]) + lines[|lines| - 1].length
  }

  ghost predicate Sound(st: State) {
    && st.parsedEnd <= st.offset
    && (st.needsPayload ==> !st.sawRequired)
    && (st.needsPayload ==> st.sections != [] && st.format != Some(New) && st.payloadAllowed && st.seenContent)
    && (!st.stopped && st.parsedEnd < st.offset ==> Waiting(st))
  }

  /** What one line does to a running parse: it moves the boundary behind the line and owes
      nothing; or it opens an insert that still owes its payload; or it stops. */
  ghost predicate Accepts(st: State, line: Line) {
    !st.stopped && Step(st, line).parsedEnd == st.offset + line.length
  }

  function OneMoreOp(sections: seq<Section>): seq<Section>
    requires sections != []
  {
    var n := |sections| - 1;
    sections[n := sections[n].(ops := sections[n].ops + 1)]
  }

  /** In the middle of a line, which is not accepted yet. */
  ghost predicate MidLine(st: State) {
    && st.parsedEnd < st.offset && !st.stopped && st.seenContent
    && (st.needsPayload ==> !st.sawRequired && st.sections != [] && st.format != Some(New) && st.payloadAllowed)
  }

  /** What becomes of it: the line is accepted, or opens an insert, or ends the parse. */
  ghost predicate Settles(st: State, after: State) {
    && after.offset == st.offset && Sound(after)
    && if after.parsedEnd == st.offset then !after.stopped && !Waiting(after)
       else
         && after.parsedEnd == st.parsedEnd
         && (Waiting(st) ==> Waiting(after) && after.sections == st.sections)
         && (!Waiting(st) && Waiting(after) ==> st.sections != [] && after.sections == OneMoreOp(st.sections))
         && (!Waiting(after) ==> after.stopped && after.sections == st.sections)
  }

  lemma {:induction false} NewSettles(st: State, line: Line)
    requires MidLine(st) && st.sections != [] && st.format == Some(New)
    ensures Settles(st, StepNew(st, line))
  {
  }

  lemma {:induction false} LegacySettles(st: State, line: Line)
    requires MidLine(st) && st.sections != [] && st.format != Some(New)
    ensures Settles(st, StepLegacy(st, line))
  {
  }

  lemma {:induction false} ContentSettles(st: State, line: Line)
    requires MidLine(st)
    ensures Settles(st, StepContent(st, line))
  {
    if line.beginPatch || line.endPatch || line.header.Some? || st.sections == [] {
    } else if st.format == Some(New) {
      NewSettles(st, line);
    } else {
      LegacySettles(st, line);
    }
  }

  lemma {:induction false} StepKinds(st: State, line: Line)
    requires Sound(st) && line.length >= 1
    ensures Sound(Step(st, line))
    ensures Accepts(st, line) ==> !Step(st, line).stopped && !Waiting(Step(st, line))
    ensures !Accepts(st, line) ==> Step(st, line).parsedEnd == st.parsedEnd
    ensures !Accepts(st, line) && Waiting(st) ==> Waiting(Step(st, line)) && Step(st, line).sections == st.sections
    ensures !Accepts(st, line) && !Waiting(st) && Waiting(Step(st, line)) ==>
              st.sections != [] && Step(st, line).sections == OneMoreOp(st.sections)
    ensures !Accepts(st, line) && !Waiting(Step(st, line)) ==>
              Step(st, line).stopped && Step(st, line).sections == st.sections
  {
    if !st.stopped && (st.seenContent || !line.blank) {
      ContentSettles(SeeContent(Advance(st, line)), line);
    }
  }

  lemma {:induction false} StepCounts(st: State, line: Line)
    ensures var after := Step(st, line);
            if st.stopped then after == st
            else after.offset == st.offset + line.length && after.lineNo == st.lineNo + 1
  {
  }

  /** `sections` is what the text up to the boundary holds; the state may owe one insert more. */
  ghost predicate OwesAtMostOneInsert(st: State, sections: seq<Section>) {
    if Waiting(st) then sections != [] && st.sections == OneMoreOp(sections) else st.sections == sections
  }

  lemma {:induction false} TailStep(st: State, line: Line, sections: seq<Section>)
    requires Sound(st) && line.length >= 1 && !Accepts(st, line) && OwesAtMostOneInsert(st, sections)
    ensures OwesAtMostOneInsert(Step(st, line), sections)
    ensures Step(st, line).stopped || Waiting(Step(st, line))
  {
    StepKinds(st, line);
  }

  lemma {:induction false} RunIsSound(lines: seq<Line>)
    requires NonEmptyLines(lines)
    ensures Sound(Run(lines))
    ensures !Run(lines).stopped ==> Run(lines).offset == Length(lines)
    ensures Run(lines).offset <= Length(lines)
  {
    if lines != [] {
      RunIsSound(lines[..|lines| - 1]);
      StepKinds(Run(lines[..|lines| - 1]), lines[|lines| - 1]);
      StepCounts(Run(lines[..|lines| - 1]), lines[|lines| - 1]);
    }
  }

  /** Every line has at least its line break, the last one at least a character. */
  ghost predicate NonEmptyLines(lines: seq<Line>) {
    forall i :: 0 <= i < |lines| ==> lines[i].length >= 1
  }

  // ----- The boundary is the longest cut that parses whole

  /** The parser takes every line of the text. */
  ghost predicate FullyAccepted(lines: seq<Line>) {
    Run(lines).parsedEnd == Length(lines)
  }

  /** How many lines lie before the boundary. */
  ghost function LinesKept(lines: seq<Line>): (p: nat)
    ensures p <= |lines|
  {
    if lines == [] || FullyAccepted(lines) then |lines| else LinesKept(lines[..|lines| - 1])
  }

  lemma {:induction false} NotFullyAccepted(lines: seq<Line>)
    requires lines != [] && NonEmptyLines(lines) && !FullyAccepted(lines)
    ensures Run(lines).parsedEnd == Run(lines[..|lines| - 1]).parsedEnd
    ensures !Accepts(Run(lines[..|lines| - 1]), lines[|lines| - 1])
  {
    RunIsSound(lines[..|lines| - 1]);
    StepKinds(Run(lines[..|lines| - 1]), lines[|lines| - 1]);
  }

  lemma {:induction false} FullyAcceptedOwesNothing(lines: seq<Line>)
    requires NonEmptyLines(lines) && FullyAccepted(lines)
    ensures !Run(lines).stopped && !Waiting(Run(lines))
  {
    if lines != [] {
      RunIsSound(lines[..|lines| - 1]);
      StepKinds(Run(lines[..|lines| - 1]), lines[|lines| - 1]);
    }
  }

  /** The boundary is the end of a line, and the text up to it is accepted whole. */
  lemma {:induction false} BoundaryIsACut(lines: seq<Line>)
    requires NonEmptyLines(lines)
    ensures FullyAccepted(lines[..LinesKept(lines)])
    ensures Length(lines[..LinesKept(lines)]) == Run(lines).parsedEnd
  {
    var n := |lines|;
    assert lines[..n] == lines;
    if lines != [] && !FullyAccepted(lines) {
      BoundaryIsACut(lines[..n - 1]);
      NotFullyAccepted(lines);
      var p := LinesKept(lines[..n - 1]);
      assert lines[..n - 1][..p] == lines[..p];
    }
  }

  lemma {:induction false} PrefixOfPrefix<T>(s: seq<T>, n: nat, m: nat)
    requires m <= n <= |s|
    ensures s[..n][..m] == s[..m]
  {
  }

  /** Cutting at any line boundary from there on changes nothing: the parser finds the same place. */
  lemma {:induction false} AnyLaterCutFindsTheSame(lines: seq<Line>, m: nat)
    requires NonEmptyLines(lines) && LinesKept(lines) <= m <= |lines|
    ensures Run(lines[..m]).parsedEnd == Run(lines).parsedEnd
    ensures LinesKept(lines[..m]) == LinesKept(lines)
  {
    var n := |lines|;
    if m == n {
      assert lines[..m] == lines;
    } else {
      NotFullyAccepted(lines);
      PrefixOfPrefix(lines, n - 1, m);
      AnyLaterCutFindsTheSame(lines[..n - 1], m);
    }
  }

  /** No longer cut parses whole, so the boundary is the longest cut that does. */
  lemma {:induction false} BoundaryIsTheLongestCut(lines: seq<Line>, m: nat)
    requires NonEmptyLines(lines) && m <= |lines| && FullyAccepted(lines[..m])
    ensures m <= LinesKept(lines) && Length(lines[..m]) <= Run(lines).parsedEnd
  {
    BoundaryIsACut(lines);
    if m > LinesKept(lines) {
      AnyLaterCutFindsTheSame(lines, m);
      assert false;
    }
    LengthMonotone(lines, m, LinesKept(lines));
  }

  lemma {:induction false} LengthMonotone(lines: seq<Line>, m: nat, p: nat)
    requires m <= p <= |lines|
    ensures Length(lines[..m]) <= Length(lines[..p])
  {
    if m < p {
      LengthMonotone(lines, m, p - 1);
      assert lines[..p][..p - 1] == lines[..p - 1];
    }
  }

  // ----- What the cut text parses to

  /** Behind the boundary the parser can only have opened one insert that never got its payload. */
  lemma {:induction false} TailIsOneDanglingInsert(lines: seq<Line>)
    requires NonEmptyLines(lines)
    ensures OwesAtMostOneInsert(Run(lines), Run(lines[..LinesKept(lines)]).sections)
    ensures LinesKept(lines) < |lines| ==> Run(lines).stopped || Waiting(Run(lines))
  {
    if lines == [] || FullyAccepted(lines) {
      AllKept(lines);
      FullyAcceptedOwesNothing(lines);
    } else {
      TailIsOneDanglingInsert(lines[..|lines| - 1]);
      TailNext(lines);
    }
  }

  /** Whether an insert is owed is settled by the line right behind the boundary. */
  lemma {:induction false} OwedAtOnce(lines: seq<Line>)
    requires NonEmptyLines(lines) && LinesKept(lines) < |lines|
    ensures Waiting(Run(lines)) <==> Waiting(Run(lines[..LinesKept(lines) + 1]))
  {
    var n, p := |lines| - 1, LinesKept(lines);
    var front := lines[..n];
    NotFullyAccepted(lines);
    if p == n {
      assert lines[..p + 1] == lines;
    } else {
      OwedAtOnce(front);
      PrefixOfPrefix(lines, n, p + 1);
      TailIsOneDanglingInsert(front);
      RunIsSound(front);
      StepKinds(Run(front), lines[n]);
    }
  }

  lemma {:induction false} AllKept(lines: seq<Line>)
    requires lines == [] || FullyAccepted(lines)
    ensures LinesKept(lines) == |lines| && lines[..LinesKept(lines)] == lines
  {
  }

  lemma {:induction false} TailNext(lines: seq<Line>)
    requires NonEmptyLines(lines) && lines != [] && !FullyAccepted(lines)
    requires var front := lines[..|lines| - 1]; OwesAtMostOneInsert(Run(front), Run(front[..LinesKept(front)]).sections)
    ensures OwesAtMostOneInsert(Run(lines), Run(lines[..LinesKept(lines)]).sections)
    ensures Run(lines).stopped || Waiting(Run(lines))
  {
    var front, p := lines[..|lines| - 1], LinesKept(lines);
    NotFullyAccepted(lines);
    assert front[..p] == lines[..p];
    RunIsSound(front);
    TailStep(Run(front), lines[|lines| - 1], Run(lines[..p]).sections);
  }

  /** Keeping the text up to the boundary keeps the edit: parsed again it is consumed whole, with
      the same sections, except that a dangling insert is no longer counted as an op. */
  lemma {:induction false} CutTextParsesTheSame(lines: seq<Line>)
    requires NonEmptyLines(lines)
    ensures var whole, cut := Parse(lines), Parse(lines[..LinesKept(lines)]);
            && cut.parsedEnd == whole.parsedEnd == Length(lines[..LinesKept(lines)])
            && cut.lineNo == LinesKept(lines)
            && (cut.ok <==> whole.ok) && cut.reason != InsertMissingPayload
            && |cut.sections| == |whole.sections|
            && (whole.reason != InsertMissingPayload ==> cut.sections == whole.sections)
            && (whole.reason == InsertMissingPayload ==>
                  cut.sections != [] && whole.sections == OneMoreOp(cut.sections))
  {
    var p := LinesKept(lines);
    BoundaryIsACut(lines);
    TailIsOneDanglingInsert(lines);
    FullyAcceptedOwesNothing(lines[..p]);
    LineNumbers(lines[..p]);
  }

  lemma {:induction false} LineNumbers(lines: seq<Line>)
    requires !Run(lines).stopped
    ensures Run(lines).lineNo == |lines|
  {
    if lines != [] {
      StepCounts(Run(lines[..|lines| - 1]), lines[|lines| - 1]);
      LineNumbers(lines[..|lines| - 1]);
    }
  }

  /** Cutting is idempotent. */
  lemma {:induction false} CuttingTwiceIsCuttingOnce(lines: seq<Line>)
    requires NonEmptyLines(lines)
    ensures var kept := lines[..LinesKept(lines)]; kept[..LinesKept(kept)] == kept
  {
    BoundaryIsACut(lines);
  }

  // ----- The loop

  /** An op line of a current section. */
  method ReadNewOp(before: State, line: Line) returns (st: State)
    requires before.sections != []
    ensures st == StepNewOp(before, line)
  {
    st := before;
    var n := |st.sections| - 1;
    var cur := st.sections[n];
    if line.newInsert.Some? {
      cur := cur.(ops := cur.ops + 1);
      if line.newInsert.value {
        cur := cur.(payload := cur.payload + 1);
      }
      return st.(sections := st.sections[n := cur], parsedEnd := st.offset, payloadAllowed := true);
    }
    if line.newRange.Some? {
      var op := line.newRange.value;
      cur := cur.(ops := cur.ops + 1, deleted := cur.deleted + DeletedLines(op.range));
      if op.substitutes && op.inline {
        cur := cur.(payload := cur.payload + 1);
      }
      return st.(sections := st.sections[n := cur], parsedEnd := st.offset, payloadAllowed := op.substitutes);
    }
    st := st.(stopped := true);
  }

  /** A line of a current section: payload, or one op with its sigil. */
  method ReadNewLine(before: State, line: Line) returns (st: State)
    requires before.sections != []
    ensures st == StepNew(before, line)
  {
    st := before;
    if st.payloadAllowed && !line.newMark {
      if line.newInsert.None? && line.newRange.None? {
        var n := |st.sections| - 1;
        var cur := st.sections[n].(payload := st.sections[n].payload + 1);
        return st.(sections := st.sections[n := cur], parsedEnd := st.offset);
      }
    }
    if line.blank {
      return st.(parsedEnd := st.offset, payloadAllowed := false);
    }
    st := ReadNewOp(st, line);
  }

  /** A line of a legacy section, where an insert is complete only with its first payload line. */
  method ReadLegacyLine(before: State, line: Line) returns (st: State)
    requires before.sections != []
    ensures st == StepLegacy(before, line)
  {
    st := before;
    var n := |st.sections| - 1;
    var cur := st.sections[n];
    if st.payloadAllowed && !line.legacyMark {
      cur := cur.(payload := cur.payload + 1);
      return st.(sections := st.sections[n := cur], parsedEnd := st.offset, sawRequired := true, needsPayload := false);
    }
    if line.blank {
      if st.needsPayload && !st.sawRequired {
        return st.(stopped := true);
      }
      return st.(parsedEnd := st.offset, payloadAllowed := false, needsPayload := false, sawRequired := false);
    }
    if st.needsPayload && !st.sawRequired {
      return st.(stopped := true);
    }
    if line.legacyInsert {
      cur := cur.(ops := cur.ops + 1);
      return st.(sections := st.sections[n := cur], needsPayload := true, payloadAllowed := true, sawRequired := false);
    }
    if line.legacyReplace.Some? {
      cur := cur.(ops := cur.ops + 1, deleted := cur.deleted + DeletedLines(line.legacyReplace.value));
      return st.(sections := st.sections[n := cur], parsedEnd := st.offset, needsPayload := false, payloadAllowed := true,
                 sawRequired := false);
    }
    st := st.(stopped := true);
  }

  /** A patch marker, a header, or a line for the current section. */
  method ReadContentLine(before: State, line: Line) returns (st: State)
    ensures st == StepContent(before, line)
  {
    st := before;
    if line.beginPatch || line.endPatch {
      if st.needsPayload && !st.sawRequired {
        return st.(stopped := true);
      }
      return st.(parsedEnd := st.offset, payloadAllowed := false);
    }
    if line.header.Some? {
      if st.needsPayload && !st.sawRequired {
        return st.(stopped := true);
      }
      var cur := Section(line.header.value.target, 0, 0, 0);
      return st.(sections := st.sections + [cur], format := Some(line.header.value.format), parsedEnd := st.offset,
                 needsPayload := false, payloadAllowed := false, sawRequired := false);
    }
    if st.sections == [] {
      return st.(stopped := true);
    }
    if st.format == Some(New) {
      st := ReadNewLine(st, line);
    } else {
      st := ReadLegacyLine(st, line);
    }
  }

  /** The body of the loop; `stopped` stands for leaving it. */
  method ReadLine(before: State, line: Line) returns (st: State)
    requires !before.stopped
    ensures st == Step(before, line)
  {
    st := before.(offset := before.offset + line.length, lineNo := before.lineNo + 1);
    assert st == Advance(before, line);
    if !st.seenContent && line.blank {
      return st.(parsedEnd := st.offset);
    }
    st := st.(seenContent := true);
    assert st == SeeContent(Advance(before, line));
    st := ReadContentLine(st, line);
  }

  method ParseEditBoundary(lines: seq<Line>) returns (b: Boundary)
    ensures b == Parse(lines)
  {
    var st := START;
    for i := 0 to |lines|
      invariant st == Run(lines[..i]) && !st.stopped
    {
      assert lines[..i + 1][..i] == lines[..i];
      st := ReadLine(st, lines[i]);
      if st.stopped {
        StoppedStays(lines, i + 1);
        break;
      }
    }
    assert lines[..|lines|] == lines;
    b := Conclude(st);
  }

  lemma {:induction false} StoppedStays(lines: seq<Line>, m: nat)
    requires m <= |lines| && Run(lines[..m]).stopped
    ensures Run(lines) == Run(lines[..m])
  {
    if m == |lines| {
      assert lines[..m] == lines;
    } else {
      assert lines[..|lines| - 1][..m] == lines[..m];
      StoppedStays(lines[..|lines| - 1], m);
    }
  }
}
