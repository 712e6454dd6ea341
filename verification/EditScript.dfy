/**
 Whole edit scripts, written down by their structure: `parse_edit_boundary` of `harmony_backtest.py`
 takes in exactly these, and counts what they hold.
 */
module EditScript {
  import opened Wrappers
  import opened EditBoundary

  /** An op line and the payload lines behind it. */
  datatype Op = Insert(line: Line, payload: seq<Line>) | Replace(line: Line, payload: seq<Line>) | Delete(line: Line)

  /** A script is a row of blank lines, patch markers, file headers and ops. */
  datatype Piece = Gap(line: Line) | Marker(line: Line) | File(line: Line) | Edit(op: Op)

  predicate IsPlain(line: Line) {
    !line.beginPatch && !line.endPatch && line.header.None? && line.length >= 1
  }

  predicate IsPayload(line: Line, format: Format) {
    IsPlain(line) && if format.New? then !line.newMark && line.newInsert.None? && line.newRange.None? else !line.legacyMark
  }

  /** The op is one of this format; a legacy insert cannot do without payload. */
  predicate IsOp(op: Op, format: Format) {
    && IsPlain(op.line) && !op.line.blank
    && if format.New? then
         match op
         case Insert(line, _) => line.newInsert.Some?
         case Replace(line, _) => line.newInsert.None? && line.newRange.Some? && line.newRange.value.substitutes
         case Delete(line) => line.newInsert.None? && line.newRange.Some? && !line.newRange.value.substitutes
       else
         match op
         case Insert(line, payload) => line.legacyMark && line.legacyInsert && payload != []
         case Replace(line, _) => line.legacyMark && !line.legacyInsert && line.legacyReplace.Some?
         case Delete(_) => false
  }

  function PayloadOf(op: Op): seq<Line> {
    if op.Delete? then [] else op.payload
  }

  ghost predicate WellFormedOp(op: Op, format: Format) {
    IsOp(op, format) && forall i :: 0 <= i < |PayloadOf(op)| ==> IsPayload(PayloadOf(op)[i], format)
  }

  // ----- The grammar

  function PieceText(piece: Piece): seq<Line> {
    if piece.Edit? then [piece.op.line] + PayloadOf(piece.op) else [piece.line]
  }

  function ScriptText(script: seq<Piece>): seq<Line> {
    if script == [] then [] else ScriptText(script[..|script| - 1]) + PieceText(script[|script| - 1])
  }

  /** Whether anything but blank lines has come yet. */
  predicate HasContent(script: seq<Piece>) {
    script != [] && (HasContent(script[..|script| - 1]) || !script[|script| - 1].Gap?)
  }

  /** The format of the last header. */
  function FormatOf(script: seq<Piece>): Option<Format> {
    if script == [] then None
    else
      var last := script[|script| - 1];
      if last.File? && last.line.header.Some? then Some(last.line.header.value.format)
      else FormatOf(script[..|script| - 1])
  }

  /** The last piece is an op that takes in further lines. */
  predicate TakesPayload(script: seq<Piece>) {
    script != [] && script[|script| - 1].Edit? && !script[|script| - 1].op.Delete?
  }

  /** Blank lines come first, or somewhere behind a header but not behind an op that would take them
      in; ops come behind a header, in its format. */
  ghost predicate Fits(script: seq<Piece>, piece: Piece) {
    match piece
    case Gap(line) =>
      && line.blank && IsPlain(line)
      && (!HasContent(script) || (FormatOf(script).Some? && !TakesPayload(script)))
    case Marker(line) => (line.beginPatch || line.endPatch) && !line.blank && line.length >= 1
    case File(line) =>
      line.header.Some? && !line.beginPatch && !line.endPatch && !line.blank && line.length >= 1
    case Edit(op) => FormatOf(script).Some? && WellFormedOp(op, FormatOf(script).value)
  }

  ghost predicate WellFormed(script: seq<Piece>) {
    script != [] ==> WellFormed(script[..|script| - 1]) && Fits(script[..|script| - 1], script[|script| - 1])
  }

  // ----- What a script amounts to

  /** Payload written behind the sigil, on the op line itself. */
  function InlinePayload(op: Op, format: Format): nat {
    if !format.New? then 0
    else
      match op
      case Insert(line, _) => if line.newInsert.Some? && line.newInsert.value then 1 else 0
      case Replace(line, _) => if line.newRange.Some? && line.newRange.value.inline then 1 else 0
      case Delete(_) => 0
  }

  function Deleted(op: Op, format: Format): nat {
    if op.Insert? then 0
    else if format.New? then (if op.line.newRange.Some? then DeletedLines(op.line.newRange.value.range) else 0)
    else if op.line.legacyReplace.Some? then DeletedLines(op.line.legacyReplace.value) else 0
  }

  function AddOp(s: Section, op: Op, format: Format): Section {
    Section(s.target, s.ops + 1, s.payload + |PayloadOf(op)| + InlinePayload(op, format), s.deleted + Deleted(op, format))
  }

  function AddPiece(sections: seq<Section>, format: Option<Format>, piece: Piece): seq<Section> {
    if piece.File? && piece.line.header.Some? then sections + [Section(piece.line.header.value.target, 0, 0, 0)]
    else if piece.Edit? && sections != [] && format.Some? then
      WithLast(sections, AddOp(sections[|sections| - 1], piece.op, format.value))
    else sections
  }

  function WithLast(sections: seq<Section>, s: Section): seq<Section>
    requires sections != []
  {
    sections[|sections| - 1 := s]
  }

  /** One section per header, with the ops behind it counted. */
  function SectionsOf(script: seq<Piece>): seq<Section> {
    if script == [] then []
    else AddPiece(SectionsOf(script[..|script| - 1]), FormatOf(script[..|script| - 1]), script[|script| - 1])
  }

  // ----- Reading it

  function RunFrom(st: State, lines: seq<Line>): State {
    if lines == [] then st else Step(RunFrom(st, lines[..|lines| - 1]), lines[|lines| - 1])
  }

  lemma {:induction false} RunFromConcat(st: State, x: seq<Line>, y: seq<Line>)
    ensures RunFrom(st, x + y) == RunFrom(RunFrom(st, x), y)
  {
    if y == [] {
      assert x + y == x;
    } else {
      assert (x + y)[..|x + y| - 1] == x + y[..|y| - 1];
      RunFromConcat(st, x, y[..|y| - 1]);
    }
  }

  lemma {:induction false} RunFromOne(st: State, line: Line)
    ensures RunFrom(st, [line]) == Step(st, line)
  {
    assert [line][..0] == [];
  }

  lemma {:induction false} RunIsRunFrom(lines: seq<Line>)
    ensures Run(lines) == RunFrom(START, lines)
  {
    if lines != [] {
      RunIsRunFrom(lines[..|lines| - 1]);
    }
  }

  /** Reading these lines leads from one state to the other, and counts them. */
  ghost predicate Reads(st: State, lines: seq<Line>, after: State) {
    && after == RunFrom(st, lines)
    && after.offset == st.offset + Length(lines) && after.lineNo == st.lineNo + |lines|
  }

  lemma {:induction false} ReadsConcat(st: State, x: seq<Line>, mid: State, y: seq<Line>, after: State)
    requires Reads(st, x, mid) && Reads(mid, y, after)
    ensures Reads(st, x + y, after)
  {
    RunFromConcat(st, x, y);
    LengthConcat(x, y);
  }

  lemma {:induction false} ReadsOne(st: State, line: Line)
    requires !st.stopped
    ensures Reads(st, [line], Step(st, line))
  {
    RunFromOne(st, line);
    LengthOfOne(line);
    StepCounts(st, line);
  }

  lemma {:induction false} LengthConcat(x: seq<Line>, y: seq<Line>)
    ensures Length(x + y) == Length(x) + Length(y)
  {
    if y == [] {
      assert x + y == x;
    } else {
      assert (x + y)[..|x + y| - 1] == x + y[..|y| - 1];
      LengthConcat(x, y[..|y| - 1]);
    }
  }

  lemma {:induction false} LengthOfOne(line: Line)
    ensures Length([line]) == line.length
  {
    assert [line][..0] == [];
  }

  /** All lines so far are accepted and make up these sections. */
  ghost predicate Reading(st: State, sections: seq<Section>, format: Format) {
    && !st.stopped && st.seenContent && st.parsedEnd == st.offset && !st.needsPayload
    && st.sections == sections && sections != [] && st.format == Some(format)
  }

  /** So it is after the op line, except that a legacy insert still waits. */
  ghost predicate InOp(st: State, sections: seq<Section>, format: Format) {
    && !st.stopped && st.seenContent && st.payloadAllowed && (st.needsPayload ==> !format.New? && !st.sawRequired)
    && (!st.needsPayload ==> st.parsedEnd == st.offset)
    && st.sections == sections && sections != [] && st.format == Some(format)
  }

  function MorePayload(sections: seq<Section>, lines: nat): seq<Section>
    requires sections != []
  {
    WithLast(sections, sections[|sections| - 1].(payload := sections[|sections| - 1].payload + lines))
  }

  lemma {:induction false} ReadPayloadLine(st: State, sections: seq<Section>, format: Format, line: Line)
    requires InOp(st, sections, format) && IsPayload(line, format)
    ensures InOp(Step(st, line), MorePayload(sections, 1), format) && !Step(st, line).needsPayload
  {
  }

  lemma {:induction false} PayloadAdds(sections: seq<Section>, n: nat)
    requires sections != []
    ensures MorePayload(sections, 0) == sections
    ensures MorePayload(sections, n) != [] && MorePayload(MorePayload(sections, n), 1) == MorePayload(sections, n + 1)
  {
  }

  lemma {:induction false} ReadPayload(st: State, sections: seq<Section>, format: Format, payload: seq<Line>)
    requires InOp(st, sections, format) && forall i :: 0 <= i < |payload| ==> IsPayload(payload[i], format)
    ensures var after := RunFrom(st, payload);
            && Reads(st, payload, after) && InOp(after, MorePayload(sections, |payload|), format)
            && (payload != [] || !st.needsPayload ==> !after.needsPayload)
  {
    if payload == [] {
      PayloadAdds(sections, 0);
    } else {
      var n := |payload| - 1;
      var mid := RunFrom(st, payload[..n]);
      ReadPayload(st, sections, format, payload[..n]);
      ReadPayloadLine(mid, MorePayload(sections, n), format, payload[n]);
      PayloadAdds(sections, n);
      ReadsOne(mid, payload[n]);
      assert payload[..n] + [payload[n]] == payload;
      ReadsConcat(st, payload[..n], mid, [payload[n]], Step(mid, payload[n]));
    }
  }

  /** The op line counts the op, what it deletes and what it carries itself. */
  function OpLineSection(s: Section, op: Op, format: Format): Section {
    Section(s.target, s.ops + 1, s.payload + InlinePayload(op, format), s.deleted + Deleted(op, format))
  }

  lemma {:induction false} ReadOpLine(st: State, sections: seq<Section>, format: Format, op: Op)
    requires Reading(st, sections, format) && IsOp(op, format)
    ensures var after, now := Step(st, op.line), WithLast(sections, OpLineSection(sections[|sections| - 1], op, format));
            && (op.Delete? ==> Reading(after, now, format))
            && (!op.Delete? ==> InOp(after, now, format))
            && (format.New? || op.Replace? ==> !after.needsPayload)
  {
  }

  lemma {:induction false} OpAdds(sections: seq<Section>, op: Op, format: Format)
    requires sections != []
    ensures var now := WithLast(sections, OpLineSection(sections[|sections| - 1], op, format));
            && now != []
            && MorePayload(now, |PayloadOf(op)|) == WithLast(sections, AddOp(sections[|sections| - 1], op, format))
  {
  }

  lemma {:induction false} ReadOp(st: State, sections: seq<Section>, format: Format, op: Op)
    requires Reading(st, sections, format) && WellFormedOp(op, format)
    ensures var text := PieceText(Edit(op)); var after := RunFrom(st, text);
            && Reads(st, text, after) && after.payloadAllowed == !op.Delete?
            && Reading(after, WithLast(sections, AddOp(sections[|sections| - 1], op, format)), format)
  {
    var now, mid := WithLast(sections, OpLineSection(sections[|sections| - 1], op, format)), Step(st, op.line);
    ReadsOne(st, op.line);
    ReadOpLine(st, sections, format, op);
    OpAdds(sections, op, format);
    if op.Delete? {
      assert PieceText(Edit(op)) == [op.line];
      PayloadAdds(now, 0);
      RunFromOne(st, op.line);
      DeleteTakesNothing(st, format, op);
    } else {
      ReadPayload(mid, now, format, op.payload);
      ReadsConcat(st, [op.line], mid, op.payload, RunFrom(mid, op.payload));
    }
  }

  lemma {:induction false} DeleteTakesNothing(st: State, format: Format, op: Op)
    requires !st.stopped && st.seenContent && st.sections != [] && st.format == Some(format) && IsOp(op, format) && op.Delete?
    ensures !Step(st, op.line).payloadAllowed
  {
  }

  // ----- Scripts are taken in

  /** The script has been taken in to its last line. */
  ghost predicate TakenIn(st: State, script: seq<Piece>) {
    && Reads(START, ScriptText(script), st) && !st.stopped && st.parsedEnd == st.offset && !st.needsPayload
    && st.sections == SectionsOf(script) && st.format == FormatOf(script) && (st.sections != [] <==> st.format.Some?)
    && st.payloadAllowed == TakesPayload(script) && st.seenContent == HasContent(script)
    && (st.sections != [] ==> st.seenContent)
  }

  lemma {:induction false} OneMorePiece(script: seq<Piece>, piece: Piece)
    ensures var more := script + [piece];
            && ScriptText(more) == ScriptText(script) + PieceText(piece)
            && SectionsOf(more) == AddPiece(SectionsOf(script), FormatOf(script), piece)
            && HasContent(more) == (HasContent(script) || !piece.Gap?)
            && TakesPayload(more) == (piece.Edit? && !piece.op.Delete?)
            && (WellFormed(more) <==> WellFormed(script) && Fits(script, piece))
  {
    assert (script + [piece])[..|script|] == script;
  }

  lemma {:induction false} NextFormat(script: seq<Piece>, piece: Piece)
    ensures FormatOf(script + [piece])
            == if piece.File? && piece.line.header.Some? then Some(piece.line.header.value.format) else FormatOf(script)
  {
    assert (script + [piece])[..|script|] == script;
  }

  lemma {:induction false} StepTakes(st: State, script: seq<Piece>, piece: Piece)
    requires TakenIn(st, script) && Fits(script, piece) && !piece.Edit?
    ensures var after := Step(st, piece.line);
            && !after.stopped && after.parsedEnd == after.offset && !after.needsPayload && !after.payloadAllowed
            && after.sections == AddPiece(st.sections, st.format, piece)
            && after.format == (if piece.File? then Some(piece.line.header.value.format) else st.format)
            && after.seenContent == (st.seenContent || !piece.Gap?)
  {
  }

  lemma {:induction false} TakeLine(st: State, script: seq<Piece>, piece: Piece)
    requires TakenIn(st, script) && Fits(script, piece) && !piece.Edit?
    ensures TakenIn(Step(st, piece.line), script + [piece])
  {
    StepTakes(st, script, piece);
    OneMorePiece(script, piece);
    NextFormat(script, piece);
    ReadsOne(st, piece.line);
    ReadsConcat(START, ScriptText(script), st, [piece.line], Step(st, piece.line));
  }

  lemma {:induction false} TakePiece(st: State, script: seq<Piece>, piece: Piece)
    requires TakenIn(st, script) && Fits(script, piece)
    ensures TakenIn(RunFrom(st, PieceText(piece)), script + [piece])
  {
    if piece.Edit? {
      var format := FormatOf(script).value;
      var after := RunFrom(st, PieceText(piece));
      ReadOp(st, st.sections, format, piece.op);
      OneMorePiece(script, piece);
      NextFormat(script, piece);
      ReadsConcat(START, ScriptText(script), st, PieceText(piece), after);
    } else {
      RunFromOne(st, piece.line);
      TakeLine(st, script, piece);
    }
  }

  lemma {:induction false} RunOn(x: seq<Line>, y: seq<Line>)
    ensures Run(x + y) == RunFrom(Run(x), y)
  {
    RunIsRunFrom(x + y);
    RunIsRunFrom(x);
    RunFromConcat(START, x, y);
  }

  lemma {:induction false} NothingTakenIn()
    ensures TakenIn(Run(ScriptText([])), [])
  {
    assert ScriptText([]) == [] && SectionsOf([]) == [] && FormatOf([]) == None;
    assert !TakesPayload([]) && !HasContent([]);
    assert Run([]) == START && RunFrom(START, []) == START && Length([]) == 0;
  }

  lemma {:induction false} TakeNext(script: seq<Piece>, piece: Piece, longer: seq<Piece>)
    requires TakenIn(Run(ScriptText(script)), script) && Fits(script, piece) && longer == script + [piece]
    ensures TakenIn(Run(ScriptText(longer)), longer)
  {
    TakePiece(Run(ScriptText(script)), script, piece);
    RunOn(ScriptText(script), PieceText(piece));
    OneMorePiece(script, piece);
  }

  lemma {:induction false} FrontAndLast<T>(s: seq<T>, front: seq<T>, last: T)
    requires s != [] && front == s[..|s| - 1] && last == s[|s| - 1]
    ensures s == front + [last]
  {
  }

  lemma {:induction false} ScriptIsTakenIn(script: seq<Piece>)
    requires WellFormed(script)
    ensures TakenIn(Run(ScriptText(script)), script)
  {
    if script == [] {
      NothingTakenIn();
    } else {
      var front, last := script[..|script| - 1], script[|script| - 1];
      FrontAndLast(script, front, last);
      ScriptIsTakenIn(front);
      TakeNext(front, last, script);
    }
  }

  /** A script with a header is accepted to its last line, with one section per header that counts the
      ops, the payload lines and the lines deleted. */
  lemma {:induction false} ScriptsParse(script: seq<Piece>)
    requires WellFormed(script) && FormatOf(script).Some?
    ensures Parse(ScriptText(script))
            == Boundary(true, Length(ScriptText(script)), Fine, SectionsOf(script), |ScriptText(script)|)
  {
    ScriptIsTakenIn(script);
    ScriptHasLength(script);
  }

  lemma {:induction false} ScriptHasLength(script: seq<Piece>)
    requires WellFormed(script) && script != []
    ensures Length(ScriptText(script)) >= 1
  {
    var front, last := script[..|script| - 1], script[|script| - 1];
    LengthConcat(ScriptText(front), PieceText(last));
    if last.Edit? {
      LengthConcat([last.op.line], PayloadOf(last.op));
      LengthOfOne(last.op.line);
    } else {
      LengthOfOne(last.line);
    }
  }

  // ----- Only scripts are taken in

  /** What the regular expressions guarantee: a blank line is nothing else, and legacy ops start with
      their sigil. */
  predicate Genuine(line: Line) {
    && line.length >= 1
    && (line.blank ==> !line.beginPatch && !line.endPatch && line.header.None? && line.newInsert.None?
                       && line.newRange.None? && !line.legacyInsert && line.legacyReplace.None? && !line.legacyMark && !line.newMark)
    && (line.legacyInsert || line.legacyReplace.Some? ==> line.legacyMark)
  }

  ghost predicate AllGenuine(lines: seq<Line>) {
    forall i :: 0 <= i < |lines| ==> Genuine(lines[i])
  }

  /** The piece that a line begins, if it does not continue an op. */
  function PieceOf(st: State, line: Line): Piece {
    if !st.seenContent && line.blank then Gap(line)
    else if line.beginPatch || line.endPatch then Marker(line)
    else if line.header.Some? then File(line)
    else if line.blank then Gap(line)
    else if st.format == Some(New) then
      if line.newInsert.Some? then Edit(Insert(line, []))
      else if line.newRange.Some? && line.newRange.value.substitutes then Edit(Replace(line, []))
      else Edit(Delete(line))
    else Edit(Replace(line, []))
  }

  /** The line goes to the op before it. */
  predicate Continues(st: State, line: Line) {
    && st.payloadAllowed && st.seenContent && IsPlain(line) && st.format.Some? && IsPayload(line, st.format.value)
  }

  /** A line that is neither blank nor a marker nor a header, behind other content. */
  predicate MayBeOp(st: State, line: Line) {
    st.seenContent && IsPlain(line) && !line.blank && Genuine(line)
  }

  lemma {:induction false} AcceptedNewOp(st: State, script: seq<Piece>, line: Line)
    requires TakenIn(st, script) && MayBeOp(st, line) && st.format == Some(New)
    requires Accepts(st, line) && !Continues(st, line)
    ensures Fits(script, PieceOf(st, line)) && PieceText(PieceOf(st, line)) == [line]
  {
  }

  lemma {:induction false} AcceptedLegacyOp(st: State, script: seq<Piece>, line: Line)
    requires TakenIn(st, script) && MayBeOp(st, line) && st.format != Some(New)
    requires Accepts(st, line) && !Continues(st, line)
    ensures Fits(script, PieceOf(st, line)) && PieceText(PieceOf(st, line)) == [line]
  {
  }

  lemma {:induction false} AcceptedBegins(st: State, script: seq<Piece>, line: Line)
    requires TakenIn(st, script) && Genuine(line) && Accepts(st, line) && !Continues(st, line)
    ensures Fits(script, PieceOf(st, line)) && PieceText(PieceOf(st, line)) == [line]
  {
    if st.seenContent && IsPlain(line) && !line.blank {
      if st.format == Some(New) {
        AcceptedNewOp(st, script, line);
      } else {
        AcceptedLegacyOp(st, script, line);
      }
    }
  }

  function LongerOp(op: Op, line: Line): Op {
    match op
    case Insert(l, payload) => Insert(l, payload + [line])
    case Replace(l, payload) => Replace(l, payload + [line])
    case Delete(l) => op
  }

  lemma {:induction false} LongerOpFits(script: seq<Piece>, op: Op, line: Line)
    requires Fits(script, Edit(op)) && !op.Delete? && IsPayload(line, FormatOf(script).value)
    ensures Fits(script, Edit(LongerOp(op, line)))
    ensures PieceText(Edit(LongerOp(op, line))) == PieceText(Edit(op)) + [line]
  {
    var format, longer := FormatOf(script).value, LongerOp(op, line);
    assert PayloadOf(longer) == PayloadOf(op) + [line];
    forall i | 0 <= i < |PayloadOf(longer)| ensures IsPayload(PayloadOf(longer)[i], format) {
      if i < |PayloadOf(op)| {
        assert IsPayload(PayloadOf(op)[i], format);
      }
    }
  }

  /** Some script has this text. */
  ghost predicate IsScript(lines: seq<Line>) {
    exists script :: WellFormed(script) && ScriptText(script) == lines
  }

  lemma {:induction false} ScriptOf(script: seq<Piece>, lines: seq<Line>)
    requires WellFormed(script) && ScriptText(script) == lines
    ensures IsScript(lines)
  {
  }

  lemma {:induction false} ContinueOp(front: seq<Piece>, op: Op, line: Line)
    requires WellFormed(front) && Fits(front, Edit(op)) && !op.Delete? && IsPayload(line, FormatOf(front).value)
    ensures IsScript(ScriptText(front) + PieceText(Edit(op)) + [line])
  {
    var longer := Edit(LongerOp(op, line));
    LongerOpFits(front, op, line);
    OneMorePiece(front, longer);
    AppendsTo(ScriptText(front), PieceText(Edit(op)), [line]);
    ScriptOf(front + [longer], ScriptText(front) + PieceText(Edit(op)) + [line]);
  }

  lemma {:induction false} ContinueScript(script: seq<Piece>, line: Line)
    requires WellFormed(script) && TakesPayload(script) && FormatOf(script).Some? && IsPayload(line, FormatOf(script).value)
    ensures IsScript(ScriptText(script) + [line])
  {
    var front, last := script[..|script| - 1], script[|script| - 1];
    ContinueOp(front, last.op, line);
  }

  lemma {:induction false} AppendsTo<T>(x: seq<T>, y: seq<T>, z: seq<T>)
    ensures x + (y + z) == x + y + z
  {
  }

  /** An accepted line behind a script makes it a longer script. */
  lemma {:induction false} AcceptedExtends(st: State, script: seq<Piece>, line: Line)
    requires WellFormed(script) && TakenIn(st, script) && Genuine(line) && Accepts(st, line)
    ensures IsScript(ScriptText(script) + [line])
  {
    if Continues(st, line) {
      ContinueScript(script, line);
    } else {
      var piece := PieceOf(st, line);
      AcceptedBegins(st, script, line);
      OneMorePiece(script, piece);
      ScriptOf(script + [piece], ScriptText(script) + [line]);
    }
  }

  /** The text is a script and one legacy insert that still waits for its payload. */
  ghost predicate EndsOpen(script: seq<Piece>, insert: Line) {
    && WellFormed(script) && Genuine(insert) && insert.legacyInsert && IsPlain(insert) && !insert.blank
    && FormatOf(script).Some? && !FormatOf(script).value.New?
  }

  /** Only a legacy insert line can leave the parser waiting. */
  lemma {:induction false} InsertWaits(st: State, line: Line)
    requires !st.stopped && !st.needsPayload && Waiting(Step(st, line)) && line.length >= 1
    ensures line.legacyInsert && IsPlain(line) && !line.blank && st.sections != [] && st.format != Some(New)
  {
  }

  lemma {:induction false} WaitingEndsOpen(st: State, script: seq<Piece>, line: Line)
    requires WellFormed(script) && TakenIn(st, script) && Genuine(line) && Waiting(Step(st, line))
    ensures EndsOpen(script, line)
  {
    InsertWaits(st, line);
  }

  lemma {:induction false} PayloadCompletes(st: State, script: seq<Piece>, insert: Line, line: Line)
    requires TakenIn(st, script) && EndsOpen(script, insert) && Genuine(line) && Accepts(Step(st, insert), line)
    ensures IsScript(ScriptText(script) + [insert] + [line])
  {
    var format, op := FormatOf(script).value, Insert(insert, [line]);
    assert IsPayload(line, format);
    assert forall i :: 0 <= i < |PayloadOf(op)| ==> PayloadOf(op)[i] == line;
    assert Fits(script, Edit(op));
    OneMorePiece(script, Edit(op));
    AppendsTo(ScriptText(script), [insert], [line]);
    ScriptOf(script + [Edit(op)], ScriptText(script) + [insert] + [line]);
  }

  lemma {:induction false} NothingMoreWhileWaiting(st: State, script: seq<Piece>, insert: Line, line: Line)
    requires TakenIn(st, script) && EndsOpen(script, insert) && !Accepts(Step(st, insert), line)
    ensures Step(Step(st, insert), line).stopped
  {
  }

  /** As long as the parser has not stopped, the text is a script, or waits for payload behind one. */
  ghost predicate InGrammar(lines: seq<Line>) {
    || IsScript(lines)
    || exists script, insert :: EndsOpen(script, insert) && lines == ScriptText(script) + [insert]
  }

  lemma {:induction false} RunNext(lines: seq<Line>, line: Line)
    ensures Run(lines + [line]) == Step(Run(lines), line)
  {
    assert (lines + [line])[..|lines|] == lines;
  }

  lemma {:induction false} NextInGrammar(lines: seq<Line>, line: Line)
    requires InGrammar(lines) && Genuine(line) && !Run(lines + [line]).stopped
    ensures InGrammar(lines + [line])
  {
    RunNext(lines, line);
    if IsScript(lines) {
      var script :| WellFormed(script) && ScriptText(script) == lines;
      ScriptIsTakenIn(script);
      if Accepts(Run(lines), line) {
        AcceptedExtends(Run(lines), script, line);
      } else {
        OpensOrStops(Run(lines), script, line);
        WaitingEndsOpen(Run(lines), script, line);
      }
    } else {
      var script, insert :| EndsOpen(script, insert) && lines == ScriptText(script) + [insert];
      RunNext(ScriptText(script), insert);
      ScriptIsTakenIn(script);
      if Accepts(Run(lines), line) {
        PayloadCompletes(Run(ScriptText(script)), script, insert, line);
      } else {
        NothingMoreWhileWaiting(Run(ScriptText(script)), script, insert, line);
      }
    }
  }

  lemma {:induction false} OpensOrStops(st: State, script: seq<Piece>, line: Line)
    requires TakenIn(st, script) && line.length >= 1 && !Accepts(st, line)
    ensures Step(st, line).stopped || Waiting(Step(st, line))
  {
    assert Sound(st);
    StepKinds(st, line);
  }

  lemma {:induction false} RunningInGrammar(lines: seq<Line>)
    requires AllGenuine(lines) && !Run(lines).stopped
    ensures InGrammar(lines)
  {
    if lines == [] {
      assert WellFormed([]) && ScriptText([]) == [];
    } else {
      var front, last := lines[..|lines| - 1], lines[|lines| - 1];
      assert front + [last] == lines;
      assert AllGenuine(front) && Genuine(lines[|front|]);
      RunningInGrammar(front);
      NextInGrammar(front, last);
    }
  }

  lemma {:induction false} OpenIsNotAccepted(script: seq<Piece>, insert: Line)
    requires EndsOpen(script, insert)
    ensures !FullyAccepted(ScriptText(script) + [insert])
  {
    ScriptIsTakenIn(script);
    RunNext(ScriptText(script), insert);
    LengthConcat(ScriptText(script), [insert]);
    LengthOfOne(insert);
  }

  /** The parser takes in every line of a text exactly when the text is a script. */
  lemma {:induction false} AcceptedExactlyScripts(lines: seq<Line>)
    requires AllGenuine(lines)
    ensures FullyAccepted(lines) <==> IsScript(lines)
  {
    if FullyAccepted(lines) {
      FullyAcceptedOwesNothing(lines);
      RunningInGrammar(lines);
      if !IsScript(lines) {
        var script, insert :| EndsOpen(script, insert) && lines == ScriptText(script) + [insert];
        OpenIsNotAccepted(script, insert);
      }
    }
    if IsScript(lines) {
      var script :| WellFormed(script) && ScriptText(script) == lines;
      ScriptIsTakenIn(script);
    }
  }

  /** So the boundary is the end of the longest script that the text starts with. */
  lemma {:induction false} BoundaryIsTheLongestScript(lines: seq<Line>, m: nat)
    requires AllGenuine(lines) && m <= |lines|
    ensures IsScript(lines[..LinesKept(lines)]) && Length(lines[..LinesKept(lines)]) == Run(lines).parsedEnd
    ensures IsScript(lines[..m]) ==> m <= LinesKept(lines)
  {
    BoundaryIsACut(lines);
    AcceptedExactlyScripts(lines[..LinesKept(lines)]);
    AcceptedExactlyScripts(lines[..m]);
    if IsScript(lines[..m]) {
      BoundaryIsTheLongestCut(lines, m);
    }
  }

  // ----- The verdict

  predicate IsHeader(line: Line) {
    line.header.Some? && !line.beginPatch && !line.endPatch
  }

  ghost predicate HasHeader(lines: seq<Line>) {
    exists i :: 0 <= i < |lines| && IsHeader(lines[i])
  }

  lemma {:induction false} HeaderConcat(x: seq<Line>, y: seq<Line>)
    ensures HasHeader(x + y) <==> HasHeader(x) || HasHeader(y)
  {
    if i :| 0 <= i < |x| && IsHeader(x[i]) {
      assert (x + y)[i] == x[i];
    }
    if i :| 0 <= i < |y| && IsHeader(y[i]) {
      assert (x + y)[|x| + i] == y[i];
    }
    if i :| 0 <= i < |x + y| && IsHeader((x + y)[i]) {
      assert if i < |x| then IsHeader(x[i]) else IsHeader(y[i - |x|]);
    }
  }

  lemma {:induction false} PieceHasHeader(script: seq<Piece>, piece: Piece)
    requires Fits(script, piece)
    ensures HasHeader(PieceText(piece)) <==> piece.File?
  {
    var text := PieceText(piece);
    if piece.Edit? {
      forall i | 0 <= i < |text| ensures !IsHeader(text[i]) {
        assert i > 0 ==> text[i] == PayloadOf(piece.op)[i - 1];
      }
    } else {
      assert text[0] == piece.line;
    }
  }

  /** A script has a format as soon as one of its lines is a header. */
  lemma {:induction false} HeaderGivesFormat(script: seq<Piece>)
    requires WellFormed(script)
    ensures FormatOf(script).Some? <==> HasHeader(ScriptText(script))
  {
    if script != [] {
      var front, last := script[..|script| - 1], script[|script| - 1];
      HeaderGivesFormat(front);
      PieceHasHeader(front, last);
      HeaderConcat(ScriptText(front), PieceText(last));
    }
  }

  lemma {:induction false} ScriptIsFine(script: seq<Piece>, lines: seq<Line>)
    requires WellFormed(script) && ScriptText(script) == lines && AllGenuine(lines)
    ensures Parse(lines).ok <==> HasHeader(lines)
  {
    ScriptIsTakenIn(script);
    HeaderGivesFormat(script);
    if HasHeader(lines) {
      ScriptsParse(script);
    }
  }

  /** An insert that waits behind the kept lines. */
  ghost predicate Dangles(lines: seq<Line>, insert: Line) {
    exists script :: EndsOpen(script, insert) && ScriptText(script) == lines
  }

  lemma {:induction false} DanglingWaits(lines: seq<Line>, insert: Line)
    requires Dangles(lines, insert)
    ensures Waiting(Step(Run(lines), insert))
  {
    var script :| EndsOpen(script, insert) && ScriptText(script) == lines;
    ScriptIsTakenIn(script);
  }

  lemma {:induction false} WaitingDangles(lines: seq<Line>, insert: Line)
    requires IsScript(lines) && Genuine(insert) && Waiting(Step(Run(lines), insert))
    ensures Dangles(lines, insert)
  {
    var script :| WellFormed(script) && ScriptText(script) == lines;
    ScriptIsTakenIn(script);
    WaitingEndsOpen(Run(lines), script, insert);
  }

  lemma {:induction false} RunAt(lines: seq<Line>, n: nat)
    requires n < |lines|
    ensures Run(lines[..n + 1]) == Step(Run(lines[..n]), lines[n])
  {
    assert lines[..n + 1][..n] == lines[..n];
  }

  lemma {:induction false} KeptIsScript(lines: seq<Line>)
    requires AllGenuine(lines)
    ensures IsScript(lines[..LinesKept(lines)])
  {
    BoundaryIsACut(lines);
    AcceptedExactlyScripts(lines[..LinesKept(lines)]);
  }

  lemma {:induction false} OkExactly(lines: seq<Line>)
    requires AllGenuine(lines)
    ensures Parse(lines).ok <==> HasHeader(lines[..LinesKept(lines)])
  {
    var kept := lines[..LinesKept(lines)];
    KeptIsScript(lines);
    var script :| WellFormed(script) && ScriptText(script) == kept;
    ScriptIsFine(script, kept);
    CutTextParsesTheSame(lines);
  }

  ghost predicate Owed(lines: seq<Line>, n: nat) {
    n < |lines| && Dangles(lines[..n], lines[n])
  }

  lemma {:induction false} OwedExactly(lines: seq<Line>)
    requires AllGenuine(lines)
    ensures Waiting(Run(lines)) <==> Owed(lines, LinesKept(lines))
  {
    var n := LinesKept(lines);
    if n < |lines| {
      KeptIsScript(lines);
      OwedAtOnce(lines);
      RunAt(lines, n);
      if Dangles(lines[..n], lines[n]) {
        DanglingWaits(lines[..n], lines[n]);
      } else if Waiting(Step(Run(lines[..n]), lines[n])) {
        WaitingDangles(lines[..n], lines[n]);
      }
    } else {
      AllTaken(lines);
    }
  }

  lemma {:induction false} AllTaken(lines: seq<Line>)
    requires AllGenuine(lines) && LinesKept(lines) == |lines|
    ensures !Waiting(Run(lines))
  {
    BoundaryIsACut(lines);
    assert lines[..|lines|] == lines;
    FullyAcceptedOwesNothing(lines);
  }

  /** The verdict on any text: it is fine exactly if a header is among the lines kept, and what is reported
      as missing its payload is a legacy insert right behind them. */
  lemma {:induction false} VerdictIsExact(lines: seq<Line>)
    requires AllGenuine(lines)
    ensures var b, n := Parse(lines), LinesKept(lines);
            && (b.ok <==> HasHeader(lines[..n]))
            && b.reason == if Owed(lines, n) then InsertMissingPayload
                           else if HasHeader(lines[..n]) then Fine else NoCompleteEditPrefix
  {
    OkExactly(lines);
    OwedExactly(lines);
  }
}
