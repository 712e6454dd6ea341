/**
 The incremental log index of `sync.py`, for one session file.

 A sync decides from stored state whether to skip the file, to read on from a byte offset or to
 start over; it then stats the file, reads it to the end and writes batches of rows into keyed
 tables.  Other processes may append whole lines at any moment.  The claim is that the tables
 always equal a single from-scratch ingest of the lines up to the stored offset.
 */
module SessionSync {
  import opened Wrappers

  // ----- Decoded log lines

  datatype Section = Section(target: string, data: string)

  /** One `toolCall` block; `edit` is the parsed input when the tool is `edit`. */
  datatype ToolCall = ToolCall(id: string, data: string, edit: Option<EditInput>)
  datatype EditInput = EditInput(length: nat, sections: seq<Section>)

  datatype EditOutcome = EditOutcome(success: bool, warnings: seq<string>)

  /** Columns of the session row that the header line fills in. */
  datatype Meta = Meta(
    uuid: Option<string>, version: Option<int>, title: Option<string>, cwd: Option<string>, startedAt: Option<int>)

  const NO_META := Meta(None, None, None, None, None)

  /** What a line decodes to.  `Skip` covers blank lines, bad JSON and events without rows. */
  datatype Event =
    | Session(meta: Meta)
    | Assistant(ts: int, calls: seq<ToolCall>, message: Option<string>)
    | ToolResult(callId: string, data: string, edit: Option<EditOutcome>)
    | User(text: Option<string>)
    | Skip

  datatype Line = Line(bytes: nat, event: Event)

  function Bytes(lines: seq<Line>): nat {
    if lines == [] then 0 else Bytes(lines[..|lines| - 1]) + lines[|lines| - 1].bytes
  }

  // ----- Records of a stretch of lines

  datatype Stub = Stub(callId: string, seqNo: nat, ts: int, inputLength: nat)
  datatype Outcome = Outcome(callId: string, outcome: EditOutcome)

  datatype Records = Records(
    meta: Meta,
    calls: seq<((string, nat), string)>,
    results: seq<((string, nat), string)>,
    assistants: seq<(nat, string)>,
    users: seq<(nat, string)>,
    stubs: seq<Stub>,
    outcomes: seq<Outcome>,
    sections: seq<((string, nat), (nat, Section))>)

  const NO_RECORDS := Records(NO_META, [], [], [], [], [], [], [])

  function Or<T>(a: Option<T>, b: Option<T>): Option<T> {
    if a.Some? then a else b
  }

  /** COALESCE, column by column. */
  function Coalesce(a: Meta, b: Meta): Meta {
    Meta(Or(a.uuid, b.uuid), Or(a.version, b.version), Or(a.title, b.title), Or(a.cwd, b.cwd), Or(a.startedAt, b.startedAt))
  }

  function SectionRows(id: string, seqNo: nat, sections: seq<Section>): seq<((string, nat), (nat, Section))> {
    if sections == [] then []
    else
      var n := |sections| - 1;
      SectionRows(id, seqNo, sections[..n]) + [((id, n), (seqNo, sections[n]))]
  }

  function AddCall(r: Records, c: ToolCall, seqNo: nat, ts: int): Records {
    var r1 := r.(calls := r.calls + [((c.id, seqNo), c.data)]);
    if c.edit.None? then r1
    else r1.(stubs := r1.stubs + [Stub(c.id, seqNo, ts, c.edit.value.length)],
             sections := r1.sections + SectionRows(c.id, seqNo, c.edit.value.sections))
  }

  function AddCalls(r: Records, calls: seq<ToolCall>, seqNo: nat, ts: int): Records {
    if calls == [] then r else AddCall(AddCalls(r, calls[..|calls| - 1], seqNo, ts), calls[|calls| - 1], seqNo, ts)
  }

  /** One line of the read loop. */
  function AddLine(r: Records, line: Line, seqNo: nat): Records {
    match line.event
    case Session(meta) => if seqNo == 0 then r.(meta := meta) else r
    case Assistant(ts, calls, message) =>
      var r1 := AddCalls(r, calls, seqNo, ts);
      if message.Some? then r1.(assistants := r1.assistants + [(seqNo, message.value)]) else r1
    case ToolResult(id, data, edit) =>
      var r1 := r.(results := r.results + [((id, seqNo), data)]);
      if edit.Some? then r1.(outcomes := r1.outcomes + [Outcome(id, edit.value)]) else r1
    case User(text) => if text.Some? then r.(users := r.users + [(seqNo, text.value)]) else r
    case Skip => r
  }

  function Parse(lines: seq<Line>, startSeq: nat): Records {
    if lines == [] then NO_RECORDS
    else AddLine(Parse(lines[..|lines| - 1], startSeq), lines[|lines| - 1], startSeq + |lines| - 1)
  }

  function Join(a: Records, b: Records): Records {
    Records(Coalesce(b.meta, a.meta), a.calls + b.calls, a.results + b.results, a.assistants + b.assistants,
            a.users + b.users, a.stubs + b.stubs, a.outcomes + b.outcomes, a.sections + b.sections)
  }

  // ----- Tables

  /** A row of `ss_edit_calls`; `success` stays null until a result is paired. */
  datatype EditRow = EditRow(seqNo: nat, ts: int, inputLength: nat, success: Option<bool>, warnings: seq<string>)

  datatype Tables = Tables(
    calls: map<(string, nat), string>,
    results: map<(string, nat), string>,
    assistants: map<nat, string>,
    users: map<nat, string>,
    edits: map<string, EditRow>,
    sections: map<(string, nat), (nat, Section)>)

  const NO_ROWS := Tables(map[], map[], map[], map[], map[], map[])

  /** INSERT OR REPLACE, row by row. */
  function Put<K, V>(table: map<K, V>, rows: seq<(K, V)>): map<K, V> {
    if rows == [] then table
    else Put(table, rows[..|rows| - 1])[rows[|rows| - 1].0 := rows[|rows| - 1].1]
  }

  /** The upsert of a call stub keeps success and warnings of a row already there. */
  function PutStub(edits: map<string, EditRow>, s: Stub): map<string, EditRow> {
    edits[s.callId :=
      if s.callId in edits then edits[s.callId].(seqNo := s.seqNo, ts := s.ts, inputLength := s.inputLength)
      else EditRow(s.seqNo, s.ts, s.inputLength, None, [])]
  }

  /** The upsert of a result writes success and warnings only. */
  function PutOutcome(edits: map<string, EditRow>, o: Outcome): map<string, EditRow> {
    edits[o.callId :=
      if o.callId in edits then edits[o.callId].(success := Some(o.outcome.success), warnings := o.outcome.warnings)
      else EditRow(0, 0, 0, Some(o.outcome.success), o.outcome.warnings)]
  }

  function PutStubs(edits: map<string, EditRow>, stubs: seq<Stub>): map<string, EditRow> {
    if stubs == [] then edits else PutStub(PutStubs(edits, stubs[..|stubs| - 1]), stubs[|stubs| - 1])
  }

  function PutOutcomes(edits: map<string, EditRow>, outcomes: seq<Outcome>): map<string, EditRow> {
    if outcomes == [] then edits
    else PutOutcome(PutOutcomes(edits, outcomes[..|outcomes| - 1]), outcomes[|outcomes| - 1])
  }

  /** The batches of one write, in the order of the statements: all stubs before all results. */
  function Write(t: Tables, r: Records): Tables {
    Tables(Put(t.calls, r.calls), Put(t.results, r.results), Put(t.assistants, r.assistants), Put(t.users, r.users),
           PutOutcomes(PutStubs(t.edits, r.stubs), r.outcomes), Put(t.sections, r.sections))
  }

  /** What a full rebuild of a file with these lines leaves in an empty index. */
  function Ingest(lines: seq<Line>): Tables {
    Write(NO_ROWS, Parse(lines, 0))
  }

  // ----- Two writes are one

  lemma {:induction false} PutAppend<K, V>(table: map<K, V>, a: seq<(K, V)>, b: seq<(K, V)>)
    ensures Put(table, a + b) == Put(Put(table, a), b)
  {
    if b == [] {
      assert a + b == a;
    } else {
      var n := |b| - 1;
      assert (a + b)[..|a + b| - 1] == a + b[..n];
      PutAppend(table, a, b[..n]);
    }
  }

  lemma {:induction false} PutStubsAppend(edits: map<string, EditRow>, a: seq<Stub>, b: seq<Stub>)
    ensures PutStubs(edits, a + b) == PutStubs(PutStubs(edits, a), b)
  {
    if b == [] {
      assert a + b == a;
    } else {
      assert (a + b)[..|a + b| - 1] == a + b[..|b| - 1];
      PutStubsAppend(edits, a, b[..|b| - 1]);
    }
  }

  lemma {:induction false} PutOutcomesAppend(edits: map<string, EditRow>, a: seq<Outcome>, b: seq<Outcome>)
    ensures PutOutcomes(edits, a + b) == PutOutcomes(PutOutcomes(edits, a), b)
  {
    if b == [] {
      assert a + b == a;
    } else {
      assert (a + b)[..|a + b| - 1] == a + b[..|b| - 1];
      PutOutcomesAppend(edits, a, b[..|b| - 1]);
    }
  }

  /** The two upserts write different columns, so they commute, whichever row exists already. */
  lemma {:induction false} StubAndOutcomeCommute(edits: map<string, EditRow>, s: Stub, o: Outcome)
    ensures PutStub(PutOutcome(edits, o), s) == PutOutcome(PutStub(edits, s), o)
  {
  }

  lemma {:induction false} StubPastOutcomes(edits: map<string, EditRow>, s: Stub, outcomes: seq<Outcome>)
    ensures PutStub(PutOutcomes(edits, outcomes), s) == PutOutcomes(PutStub(edits, s), outcomes)
  {
    if outcomes != [] {
      var n := |outcomes| - 1;
      StubAndOutcomeCommute(PutOutcomes(edits, outcomes[..n]), s, outcomes[n]);
      StubPastOutcomes(edits, s, outcomes[..n]);
    }
  }

  lemma {:induction false} StubsPastOutcomes(edits: map<string, EditRow>, stubs: seq<Stub>, outcomes: seq<Outcome>)
    ensures PutStubs(PutOutcomes(edits, outcomes), stubs) == PutOutcomes(PutStubs(edits, stubs), outcomes)
  {
    if stubs != [] {
      var n := |stubs| - 1;
      StubsPastOutcomes(edits, stubs[..n], outcomes);
      StubPastOutcomes(PutStubs(edits, stubs[..n]), stubs[n], outcomes);
    }
  }

  lemma {:induction false} EditBatchesJoin(edits: map<string, EditRow>, a: Records, b: Records)
    ensures PutOutcomes(PutStubs(PutOutcomes(PutStubs(edits, a.stubs), a.outcomes), b.stubs), b.outcomes) ==
            PutOutcomes(PutStubs(edits, a.stubs + b.stubs), a.outcomes + b.outcomes)
  {
    StubsPastOutcomes(PutStubs(edits, a.stubs), b.stubs, a.outcomes);
    PutStubsAppend(edits, a.stubs, b.stubs);
    PutOutcomesAppend(PutStubs(edits, a.stubs + b.stubs), a.outcomes, b.outcomes);
  }

  /** Writing two batches of records one after the other is writing them as one batch. */
  lemma {:induction false} WriteTwice(t: Tables, a: Records, b: Records)
    ensures Write(Write(t, a), b) == Write(t, Join(a, b))
  {
    PutAppend(t.calls, a.calls, b.calls);
    PutAppend(t.results, a.results, b.results);
    PutAppend(t.assistants, a.assistants, b.assistants);
    PutAppend(t.users, a.users, b.users);
    PutAppend(t.sections, a.sections, b.sections);
    EditBatchesJoin(t.edits, a, b);
  }

  // ----- Parsing in two stretches

  lemma {:induction false} AddCallsJoin(a: Records, b: Records, calls: seq<ToolCall>, seqNo: nat, ts: int)
    ensures AddCalls(Join(a, b), calls, seqNo, ts) == Join(a, AddCalls(b, calls, seqNo, ts))
  {
    if calls != [] {
      var n := |calls| - 1;
      AddCallsJoin(a, b, calls[..n], seqNo, ts);
      AddCallJoin(a, AddCalls(b, calls[..n], seqNo, ts), calls[n], seqNo, ts);
    }
  }

  lemma {:induction false} AddCallJoin(a: Records, b: Records, c: ToolCall, seqNo: nat, ts: int)
    ensures AddCall(Join(a, b), c, seqNo, ts) == Join(a, AddCall(b, c, seqNo, ts))
  {
    assert a.calls + b.calls + [((c.id, seqNo), c.data)] == a.calls + (b.calls + [((c.id, seqNo), c.data)]);
    if c.edit.Some? {
      var stub := Stub(c.id, seqNo, ts, c.edit.value.length);
      var rows := SectionRows(c.id, seqNo, c.edit.value.sections);
      assert a.stubs + b.stubs + [stub] == a.stubs + (b.stubs + [stub]);
      assert a.sections + b.sections + rows == a.sections + (b.sections + rows);
    }
  }

  lemma {:induction false} AddLineJoin(a: Records, b: Records, line: Line, seqNo: nat)
    requires seqNo > 0
    ensures AddLine(Join(a, b), line, seqNo) == Join(a, AddLine(b, line, seqNo))
  {
    match line.event
    case Session(_) =>
    case Assistant(ts, calls, message) =>
      AddCallsJoin(a, b, calls, seqNo, ts);
      if message.Some? {
        var b1 := AddCalls(b, calls, seqNo, ts);
        assert a.assistants + b1.assistants + [(seqNo, message.value)] == a.assistants + (b1.assistants + [(seqNo, message.value)]);
      }
    case ToolResult(id, data, edit) =>
      assert a.results + b.results + [((id, seqNo), data)] == a.results + (b.results + [((id, seqNo), data)]);
      if edit.Some? {
        assert a.outcomes + b.outcomes + [Outcome(id, edit.value)] == a.outcomes + (b.outcomes + [Outcome(id, edit.value)]);
      }
    case User(text) =>
      if text.Some? {
        assert a.users + b.users + [(seqNo, text.value)] == a.users + (b.users + [(seqNo, text.value)]);
      }
    case Skip =>
  }

  lemma {:induction false} JoinNothing(a: Records)
    ensures Join(a, NO_RECORDS) == a
  {
    assert a.calls + [] == a.calls && a.results + [] == a.results && a.assistants + [] == a.assistants;
    assert a.users + [] == a.users && a.stubs + [] == a.stubs && a.outcomes + [] == a.outcomes;
    assert a.sections + [] == a.sections;
  }

  /** Reading on from line `|a|` collects exactly what a single read would have added. */
  lemma {:induction false} ParseInTwo(a: seq<Line>, b: seq<Line>)
    requires a != []
    ensures Parse(a + b, 0) == Join(Parse(a, 0), Parse(b, |a|))
  {
    if b == [] {
      assert a + b == a;
      JoinNothing(Parse(a, 0));
    } else {
      var n := |b| - 1;
      assert (a + b)[..|a + b| - 1] == a + b[..n];
      ParseInTwo(a, b[..n]);
      AddLineJoin(Parse(a, 0), Parse(b[..n], |a|), b[n], |a| + n);
    }
  }

  /** Resuming equals starting over: rows of a prefix plus rows of the rest are the rows of all. */
  lemma {:induction false} ResumeIsRebuild(a: seq<Line>, b: seq<Line>)
    ensures Write(Ingest(a), Parse(b, |a|)) == Ingest(a + b)
    ensures Coalesce(Parse(b, |a|).meta, Parse(a, 0).meta) == Parse(a + b, 0).meta
  {
    if a == [] {
      assert a + b == b;
      assert Ingest(a) == NO_ROWS;
    } else {
      ParseInTwo(a, b);
      WriteTwice(NO_ROWS, Parse(a, 0), Parse(b, |a|));
    }
  }

  // ----- The index and its decisions

  const PARSER_VERSION: int := 6

  /** Sync state kept in the session row. */
  datatype SessionRow = SessionRow(meta: Meta, mtime: int, size: nat, offset: nat, lineCount: nat, parserVersion: int)

  datatype Index = Index(session: Option<SessionRow>, tables: Tables)

  const EMPTY_INDEX := Index(None, NO_ROWS)

  datatype Decision = Ignore | Read(full: bool, offset: nat, startSeq: nat)

  function Decide(prev: Option<SessionRow>, full: bool, size: nat, mtime: int): Decision {
    if full || prev.None? then Read(true, 0, 0)
    else
      var p := prev.value;
      if p.parserVersion < PARSER_VERSION then Read(true, 0, 0)
      else if size == p.size && mtime <= p.mtime then Ignore
      else if size < p.offset then Read(true, 0, 0)
      else if size == p.offset && mtime > p.mtime then Read(true, 0, 0)
      else Read(false, p.offset, p.lineCount)
  }

  /** The lines from a byte offset on. */
  function Seek(lines: seq<Line>, offset: nat): seq<Line> {
    if offset == 0 || lines == [] || offset < lines[0].bytes then lines
    else Seek(lines[1..], offset - lines[0].bytes)
  }

  /** What `parse_file` hands to the writer. */
  datatype Parsed = Parsed(full: bool, records: Records, size: nat, mtime: int, finalOffset: nat, finalCount: nat)

  function ParseFile(lines: seq<Line>, d: Decision, size: nat, mtime: int): Parsed
    requires d.Read?
  {
    var rest := Seek(lines, d.offset);
    Parsed(d.full, Parse(rest, d.startSeq), size, mtime, d.offset + Bytes(rest), d.startSeq + |rest|)
  }

  function Written(ix: Index, p: Parsed): Index {
    var tables := Write(if p.full then NO_ROWS else ix.tables, p.records);
    var kept := if ix.session.Some? then ix.session.value.meta else NO_META;
    Index(Some(SessionRow(Coalesce(p.records.meta, kept), p.mtime, p.size, p.finalOffset, p.finalCount, PARSER_VERSION)), tables)
  }

  // ----- Schedules

  datatype Phase =
    | Idle
    | Decided(decision: Decision)
    | Statted(decision: Decision, size: nat, mtime: int)
    | Ready(parsed: Parsed)

  /** The log file, the index, and how far the running sync has come. */
  datatype World = World(lines: seq<Line>, mtime: int, index: Index, phase: Phase)

  datatype Step =
    | Append(more: seq<Line>, mtime: int)
    | Touch(mtime: int)
    | StartSync(full: bool)
    | StatAgain
    | ReadToEnd
    | Commit
    | Abandon
    | Upgrade(version: int, tables: Tables)

  function Next(w: World, s: Step): World {
    match s
    case Append(more, mtime) => w.(lines := w.lines + more, mtime := mtime)
    case Touch(mtime) => w.(mtime := mtime)
    case StartSync(full) =>
      if !w.phase.Idle? then w
      else
        var d := Decide(w.index.session, full, Bytes(w.lines), w.mtime);
        if d.Ignore? then w else w.(phase := Decided(d))
    case StatAgain => if w.phase.Decided? then w.(phase := Statted(w.phase.decision, Bytes(w.lines), w.mtime)) else w
    case ReadToEnd =>
      if w.phase.Statted? && w.phase.decision.Read?
      then w.(phase := Ready(ParseFile(w.lines, w.phase.decision, w.phase.size, w.phase.mtime)))
      else w
    case Commit => if w.phase.Ready? then w.(index := Written(w.index, w.phase.parsed), phase := Idle) else w
    case Abandon => w.(phase := Idle)
    case Upgrade(version, tables) => w.(phase := Idle, index := Stale(w.index, version, tables))
  }

  /** A newer program finds the rows of an older parser, which may be any. */
  function Stale(ix: Index, version: int, tables: Tables): Index {
    if ix.session.Some? && version < PARSER_VERSION
    then Index(Some(ix.session.value.(parserVersion := version)), tables) else ix
  }

  function Run(w: World, steps: seq<Step>): World {
    if steps == [] then w else Next(Run(w, steps[..|steps| - 1]), steps[|steps| - 1])
  }

  // ----- The invariant

  ghost predicate WholeLines(lines: seq<Line>) {
    forall i :: 0 <= i < |lines| ==> lines[i].bytes >= 1
  }

  /** Only whole lines are appended. */
  ghost predicate WholeLineSteps(steps: seq<Step>) {
    forall i :: 0 <= i < |steps| && steps[i].Append? ==> WholeLines(steps[i].more)
  }

  predicate IsCurrent(row: SessionRow) {
    row.parserVersion >= PARSER_VERSION
  }

  /** The index is a from-scratch ingest of the first `lineCount` lines, which end at `offset`, unless
      it stems from an older parser. */
  ghost predicate Faithful(ix: Index, lines: seq<Line>) {
    match ix.session
    case None => ix.tables == NO_ROWS
    case Some(row) =>
      && row.lineCount <= |lines| && row.offset == Bytes(lines[..row.lineCount]) && row.size <= row.offset
      && (IsCurrent(row) ==> ix.tables == Ingest(lines[..row.lineCount]))
      && row.meta == Parse(lines[..row.lineCount], 0).meta
  }

  /** A read starts over, or at the place the index has reached. */
  ghost predicate StartsRight(d: Decision, ix: Index) {
    d.Read? &&
    if d.full then d.offset == 0 && d.startSeq == 0
    else ix.session.Some? && IsCurrent(ix.session.value)
         && d.offset == ix.session.value.offset && d.startSeq == ix.session.value.lineCount
  }

  ghost predicate ReadsOn(p: Parsed, ix: Index, lines: seq<Line>) {
    var start := if p.full then 0 else if ix.session.Some? then ix.session.value.lineCount else 0;
    && (!p.full ==> ix.session.Some? && IsCurrent(ix.session.value))
    && (ix.session.Some? ==> ix.session.value.lineCount <= p.finalCount)
    && start <= p.finalCount <= |lines|
    && p.records == Parse(lines[start..p.finalCount], start)
    && p.finalOffset == Bytes(lines[..p.finalCount]) && p.size <= p.finalOffset
  }

  ghost predicate Sound(w: World) {
    && WholeLines(w.lines) && Faithful(w.index, w.lines)
    && match w.phase
       case Idle => true
       case Decided(d) => StartsRight(d, w.index)
       case Statted(d, size, _) => StartsRight(d, w.index) && size <= Bytes(w.lines)
       case Ready(p) => ReadsOn(p, w.index, w.lines)
  }

  lemma {:induction false} BytesAppend(a: seq<Line>, b: seq<Line>)
    ensures Bytes(a + b) == Bytes(a) + Bytes(b)
  {
    if b == [] {
      assert a + b == a;
    } else {
      assert (a + b)[..|a + b| - 1] == a + b[..|b| - 1];
      BytesAppend(a, b[..|b| - 1]);
    }
  }

  lemma {:induction false} BytesOfNonEmpty(lines: seq<Line>)
    requires WholeLines(lines)
    ensures Bytes(lines) >= |lines|
  {
    if lines != [] {
      BytesOfNonEmpty(lines[..|lines| - 1]);
    }
  }

  lemma {:induction false} SeekFindsLine(lines: seq<Line>, n: nat)
    requires WholeLines(lines) && n <= |lines|
    ensures Seek(lines, Bytes(lines[..n])) == lines[n..]
  {
    if n == 0 {
      assert lines[..0] == [];
    } else {
      assert lines[..n] == [lines[0]] + lines[1..][..n - 1];
      BytesAppend([lines[0]], lines[1..][..n - 1]);
      assert Bytes([lines[0]]) == lines[0].bytes by {
        assert [lines[0]][..0] == [];
      }
      SeekFindsLine(lines[1..], n - 1);
    }
  }

  lemma {:induction false} AppendKeepsSound(w: World, more: seq<Line>, mtime: int)
    requires Sound(w) && WholeLines(more)
    ensures Sound(Next(w, Append(more, mtime)))
  {
    var lines := w.lines + more;
    BytesAppend(w.lines, more);
    if w.index.session.Some? {
      assert lines[..w.index.session.value.lineCount] == w.lines[..w.index.session.value.lineCount];
    }
    if w.phase.Ready? {
      var p := w.phase.parsed;
      var start := if p.full then 0 else w.index.session.value.lineCount;
      assert lines[..p.finalCount] == w.lines[..p.finalCount];
      assert lines[start..p.finalCount] == w.lines[start..p.finalCount];
    }
  }

  lemma {:induction false} DecideStartsRight(w: World, full: bool)
    requires Sound(w)
    ensures var d := Decide(w.index.session, full, Bytes(w.lines), w.mtime); d.Read? ==> StartsRight(d, w.index)
  {
  }

  lemma {:induction false} ReadResult(lines: seq<Line>, d: Decision, start: nat, size: nat, mtime: int)
    requires WholeLines(lines) && start <= |lines|
    requires d.Read? && d.offset == Bytes(lines[..start]) && d.startSeq == start
    ensures ParseFile(lines, d, size, mtime) ==
            Parsed(d.full, Parse(lines[start..], start), size, mtime, Bytes(lines), |lines|)
  {
    SeekFindsLine(lines, start);
    assert lines == lines[..start] + lines[start..];
    BytesAppend(lines[..start], lines[start..]);
  }

  lemma {:induction false} ReadKeepsSound(w: World)
    requires Sound(w) && w.phase.Statted? && w.phase.decision.Read?
    ensures ReadsOn(ParseFile(w.lines, w.phase.decision, w.phase.size, w.phase.mtime), w.index, w.lines)
  {
    var d := w.phase.decision;
    var start := if d.full then 0 else w.index.session.value.lineCount;
    assert w.lines[..0] == [];
    ReadResult(w.lines, d, start, w.phase.size, w.phase.mtime);
    assert w.lines[start..|w.lines|] == w.lines[start..] && w.lines[..|w.lines|] == w.lines;
  }

  lemma {:induction false} MetaIsFirstLine(lines: seq<Line>)
    requires lines != []
    ensures Parse(lines, 0).meta == if lines[0].event.Session? then lines[0].event.meta else NO_META
  {
    var n := |lines| - 1;
    if n > 0 {
      MetaIsFirstLine(lines[..n]);
      AddLineMeta(Parse(lines[..n], 0), lines[n], n);
    } else {
      assert lines[..0] == [];
      AddLineMeta(NO_RECORDS, lines[0], 0);
    }
  }

  lemma {:induction false} AddLineMeta(r: Records, line: Line, seqNo: nat)
    ensures AddLine(r, line, seqNo).meta == if line.event.Session? && seqNo == 0 then line.event.meta else r.meta
  {
    if line.event.Assistant? {
      AddCallsMeta(r, line.event.calls, seqNo, line.event.ts);
    }
  }

  lemma {:induction false} AddCallsMeta(r: Records, calls: seq<ToolCall>, seqNo: nat, ts: int)
    ensures AddCalls(r, calls, seqNo, ts).meta == r.meta
  {
    if calls != [] {
      AddCallsMeta(r, calls[..|calls| - 1], seqNo, ts);
    }
  }

  /** A rebuild coalesces with the stored columns, which come from the same header line. */
  lemma {:induction false} RebuildKeepsMeta(lines: seq<Line>, before: nat, after: nat)
    requires before <= after <= |lines|
    ensures Coalesce(Parse(lines[..after], 0).meta, Parse(lines[..before], 0).meta) == Parse(lines[..after], 0).meta
  {
    if before > 0 {
      MetaIsFirstLine(lines[..before]);
      MetaIsFirstLine(lines[..after]);
    }
  }

  lemma {:induction false} CommitTables(ix: Index, p: Parsed, lines: seq<Line>, start: nat)
    requires !p.full ==> ix.session.Some? && IsCurrent(ix.session.value)
    requires start == (if p.full then 0 else ix.session.value.lineCount) && start <= p.finalCount <= |lines|
    requires Faithful(ix, lines) && p.records == Parse(lines[start..p.finalCount], start)
    ensures Write(if p.full then NO_ROWS else ix.tables, p.records) == Ingest(lines[..p.finalCount])
    ensures !p.full ==> Coalesce(p.records.meta, ix.session.value.meta) == Parse(lines[..p.finalCount], 0).meta
    ensures p.full ==> p.records == Parse(lines[..p.finalCount], 0)
  {
    var before, now := lines[..start], lines[start..p.finalCount];
    assert before + now == lines[..p.finalCount];
    ResumeIsRebuild(before, now);
    if p.full {
      assert now == lines[..p.finalCount];
    }
  }

  lemma {:induction false} CommitKeepsSound(w: World)
    requires Sound(w) && w.phase.Ready?
    ensures Faithful(Written(w.index, w.phase.parsed), w.lines)
  {
    var p := w.phase.parsed;
    CommitTables(w.index, p, w.lines, if p.full then 0 else w.index.session.value.lineCount);
    if p.full && w.index.session.Some? {
      RebuildKeepsMeta(w.lines, w.index.session.value.lineCount, p.finalCount);
    }
  }

  lemma {:induction false} StepKeepsSound(w: World, s: Step)
    requires Sound(w) && (s.Append? ==> WholeLines(s.more))
    ensures Sound(Next(w, s))
  {
    match s
    case Append(more, mtime) => AppendKeepsSound(w, more, mtime);
    case Touch(_) =>
    case StartSync(full) => DecideStartsRight(w, full);
    case StatAgain =>
    case ReadToEnd => if w.phase.Statted? && w.phase.decision.Read? { ReadKeepsSound(w); }
    case Commit => if w.phase.Ready? { CommitKeepsSound(w); }
    case Abandon =>
    case Upgrade(_, _) =>
  }

  // ----- Over whole schedules

  ghost predicate Start(w: World) {
    w == World([], w.mtime, EMPTY_INDEX, Idle)
  }

  lemma {:induction false} RunKeepsSound(w: World, steps: seq<Step>)
    requires Sound(w) && WholeLineSteps(steps)
    ensures Sound(Run(w, steps))
  {
    if steps != [] {
      var n := |steps| - 1;
      RunKeepsSound(w, steps[..n]);
      StepKeepsSound(Run(w, steps[..n]), steps[n]);
    }
  }

  ghost predicate NoUpgrade(steps: seq<Step>) {
    forall i :: 0 <= i < |steps| ==> !steps[i].Upgrade?
  }

  /** Rows stay current until the program is upgraded. */
  lemma {:induction false} RunKeepsCurrent(w: World, steps: seq<Step>)
    requires w.index.session.Some? ==> IsCurrent(w.index.session.value)
    requires NoUpgrade(steps)
    ensures Run(w, steps).index.session.Some? ==> IsCurrent(Run(w, steps).index.session.value)
  {
    if steps != [] {
      var n := |steps| - 1;
      assert !steps[n].Upgrade?;
      RunKeepsCurrent(w, steps[..n]);
    }
  }

  /** Safety, over every schedule of appends, touches, syncs, failures, upgrades and reads of a growing
      file: unless an upgrade has made it stale, whatever the index holds is exactly one from-scratch
      ingest of the lines up to its offset. */
  lemma {:induction false} IndexIsAlwaysOneIngest(w: World, steps: seq<Step>)
    requires Start(w) && WholeLineSteps(steps)
    ensures var now := Run(w, steps);
            match now.index.session
            case None => now.index.tables == NO_ROWS
            case Some(row) =>
              && row.lineCount <= |now.lines|
              && row.offset == Bytes(now.lines[..row.lineCount])
              && (IsCurrent(row) || NoUpgrade(steps) ==> now.index.tables == Ingest(now.lines[..row.lineCount]))
              && row.meta == Parse(now.lines[..row.lineCount], 0).meta
  {
    RunKeepsSound(w, steps);
    if NoUpgrade(steps) {
      RunKeepsCurrent(w, steps);
    }
  }

  /** Stale rows are never read on from, nor left as they are: the next sync rebuilds them all. */
  lemma {:induction false} StaleRowsAreRebuilt(w: World, steps: seq<Step>, version: int, tables: Tables, full: bool)
    requires Start(w) && WholeLineSteps(steps) && version < PARSER_VERSION
    ensures var now := Next(Run(w, steps), Upgrade(version, tables));
            var after := Next(Next(Next(Next(now, StartSync(full)), StatAgain), ReadToEnd), Commit);
            && Decide(now.index.session, full, Bytes(now.lines), now.mtime) == Read(true, 0, 0)
            && after.index.session.Some? && IsCurrent(after.index.session.value)
            && after.index.tables == Ingest(now.lines)
  {
    var all := steps + [Upgrade(version, tables)];
    assert all[..|steps|] == steps;
    assert WholeLineSteps(all);
    QuietSyncCatchesUp(w, all, full);
    QuietSyncEndsUpToDate(w, all, full);
  }

  lemma {:induction false} BytesUpTo(lines: seq<Line>, n: nat)
    requires n <= |lines|
    ensures Bytes(lines[..n]) <= Bytes(lines)
  {
    assert lines == lines[..n] + lines[n..];
    BytesAppend(lines[..n], lines[n..]);
  }

  lemma {:induction false} SkippedIsCurrent(w: World, full: bool)
    requires Sound(w) && Decide(w.index.session, full, Bytes(w.lines), w.mtime).Ignore?
    ensures w.index.tables == Ingest(w.lines)
  {
    var n := w.index.session.value.lineCount;
    BytesUpTo(w.lines, n);
    PositiveBytes(w.lines, n);
    assert w.lines[..|w.lines|] == w.lines;
  }

  /** A sync that decides to skip the file is right: every line is already in the tables. */
  lemma {:induction false} SkippedSyncIsCurrent(w: World, steps: seq<Step>, full: bool)
    requires Start(w) && WholeLineSteps(steps)
    requires var now := Run(w, steps); Decide(now.index.session, full, Bytes(now.lines), now.mtime).Ignore?
    ensures Run(w, steps).index.tables == Ingest(Run(w, steps).lines)
  {
    RunKeepsSound(w, steps);
    SkippedIsCurrent(Run(w, steps), full);
  }

  /** The branch for a file shorter than its stored offset is never taken on a growing file. */
  lemma {:induction false} GrowingFileIsNeverShort(w: World, steps: seq<Step>)
    requires Start(w) && WholeLineSteps(steps)
    ensures Run(w, steps).index.session.Some? ==> Run(w, steps).index.session.value.offset <= Bytes(Run(w, steps).lines)
  {
    RunKeepsSound(w, steps);
    var now := Run(w, steps);
    if now.index.session.Some? {
      var n := now.index.session.value.lineCount;
      assert now.lines == now.lines[..n] + now.lines[n..];
      BytesAppend(now.lines[..n], now.lines[n..]);
    }
  }

  /** A sync that nobody disturbs leaves nothing out, whichever way it decides. */
  lemma {:induction false} QuietSyncCatchesUp(w: World, steps: seq<Step>, full: bool)
    requires Start(w) && WholeLineSteps(steps) && Run(w, steps).phase.Idle?
    ensures var now := Run(w, steps);
            var after := Next(Next(Next(Next(now, StartSync(full)), StatAgain), ReadToEnd), Commit);
            after.lines == now.lines && after.phase.Idle? && after.index.tables == Ingest(now.lines)
  {
    var now := Run(w, steps);
    RunKeepsSound(w, steps);
    var d := Decide(now.index.session, full, Bytes(now.lines), now.mtime);
    if d.Ignore? {
      SkippedSyncIsCurrent(w, steps, full);
    } else {
      var decided := Next(now, StartSync(full));
      StepKeepsSound(now, StartSync(full));
      var statted := Next(decided, StatAgain);
      StepKeepsSound(decided, StatAgain);
      var ready := Next(statted, ReadToEnd);
      StepKeepsSound(statted, ReadToEnd);
      StepKeepsSound(ready, Commit);
      ReadReachesEnd(statted);
      assert now.lines[..|now.lines|] == now.lines;
    }
  }

  /** The index knows that it holds the whole file as it is now. */
  ghost predicate UpToDate(w: World) {
    w.phase.Idle? &&
    match w.index.session
    case None => false
    case Some(row) =>
      && row.lineCount == |w.lines| && row.offset == row.size == Bytes(w.lines) && w.mtime <= row.mtime
      && IsCurrent(row)
  }

  lemma {:induction false} PositiveBytes(lines: seq<Line>, n: nat)
    requires WholeLines(lines) && n <= |lines| && Bytes(lines[..n]) == Bytes(lines)
    ensures n == |lines|
  {
    BytesAppend(lines[..n], lines[n..]);
    assert lines[..n] + lines[n..] == lines;
    BytesOfNonEmpty(lines[n..]);
  }

  /** An undisturbed sync is remembered: the next one skips the file if nothing has happened to it, and
      if it has only grown reads no line twice. */
  lemma {:induction false} QuietSyncIsRemembered(w: World, steps: seq<Step>, full: bool, more: seq<Line>, mtime: int)
    requires Start(w) && WholeLineSteps(steps) && Run(w, steps).phase.Idle? && WholeLines(more)
    ensures var now := Run(w, steps);
            var after := Next(Next(Next(Next(now, StartSync(full)), StatAgain), ReadToEnd), Commit);
            && Decide(after.index.session, false, Bytes(after.lines), after.mtime).Ignore?
            && (more != [] ==>
                  Decide(after.index.session, false, Bytes(after.lines + more), mtime)
                  == Read(false, Bytes(after.lines), |after.lines|))
  {
    QuietSyncEndsUpToDate(w, steps, full);
    var now := Run(w, steps);
    var after := Next(Next(Next(Next(now, StartSync(full)), StatAgain), ReadToEnd), Commit);
    BytesAppend(after.lines, more);
    if more != [] {
      BytesOfNonEmpty(more);
    }
  }

  /** What the row of any parser leads to, the file having been read at least as far as it was long. */
  lemma {:induction false} DecidesExactly(row: SessionRow, full: bool, size: nat, mtime: int)
    requires row.size <= row.offset
    ensures var d, usable := Decide(Some(row), full, size, mtime), !full && row.parserVersion >= 6;
            var same := size == row.size && mtime <= row.mtime;
            var more := row.offset < size || (row.size < size == row.offset && mtime <= row.mtime);
            && (usable && same ==> d == Ignore)
            && (usable && more ==> d == Read(false, row.offset, row.lineCount))
            && (!(usable && (same || more)) ==> d == Read(true, 0, 0))
  {
  }

  /** After an undisturbed sync, whatever size and time are found next: the file is skipped if and only if
      it has its length and is not newer, read on if and only if it is longer, and else read from its start. */
  lemma {:induction false} QuietSyncDecides(w: World, steps: seq<Step>, full: bool, again: bool, size: nat, mtime: int)
    requires Start(w) && WholeLineSteps(steps) && Run(w, steps).phase.Idle?
    ensures var after := Next(Next(Next(Next(Run(w, steps), StartSync(full)), StatAgain), ReadToEnd), Commit);
            var d, held := Decide(after.index.session, again, size, mtime), Bytes(after.lines);
            && after.index.session.Some? && after.mtime <= after.index.session.value.mtime
            && (d == Ignore <==> !again && size == held && mtime <= after.index.session.value.mtime)
            && (d == Read(false, held, |after.lines|) <==> !again && held < size)
            && (d == Read(true, 0, 0) <==> again || size < held || (size == held && mtime > after.index.session.value.mtime))
  {
    QuietSyncEndsUpToDate(w, steps, full);
    var after := Next(Next(Next(Next(Run(w, steps), StartSync(full)), StatAgain), ReadToEnd), Commit);
    DecidesExactly(after.index.session.value, again, size, mtime);
  }

  lemma {:induction false} SkippedIsUpToDate(w: World, full: bool)
    requires Sound(w) && w.phase.Idle? && Decide(w.index.session, full, Bytes(w.lines), w.mtime).Ignore?
    ensures UpToDate(w)
  {
    var row := w.index.session.value;
    BytesAppend(w.lines[..row.lineCount], w.lines[row.lineCount..]);
    assert w.lines[..row.lineCount] + w.lines[row.lineCount..] == w.lines;
    PositiveBytes(w.lines, row.lineCount);
  }

  lemma {:induction false} FinishedIsUpToDate(w: World)
    requires Sound(w) && w.phase.Statted? && w.phase.size == Bytes(w.lines) && w.phase.mtime == w.mtime
    ensures UpToDate(Next(Next(w, ReadToEnd), Commit))
  {
    StepKeepsSound(w, ReadToEnd);
    ReadReachesEnd(w);
    assert w.lines[..|w.lines|] == w.lines;
  }

  lemma {:induction false} QuietSyncEndsUpToDate(w: World, steps: seq<Step>, full: bool)
    requires Start(w) && WholeLineSteps(steps) && Run(w, steps).phase.Idle?
    ensures UpToDate(Next(Next(Next(Next(Run(w, steps), StartSync(full)), StatAgain), ReadToEnd), Commit))
  {
    var now := Run(w, steps);
    RunKeepsSound(w, steps);
    if Decide(now.index.session, full, Bytes(now.lines), now.mtime).Ignore? {
      SkippedIsUpToDate(now, full);
    } else {
      var decided := Next(now, StartSync(full));
      StepKeepsSound(now, StartSync(full));
      StepKeepsSound(decided, StatAgain);
      FinishedIsUpToDate(Next(decided, StatAgain));
    }
  }

  lemma {:induction false} ReadReachesEnd(w: World)
    requires Sound(w) && w.phase.Statted? && w.phase.decision.Read?
    ensures Next(w, ReadToEnd).phase.Ready? && Next(w, ReadToEnd).phase.parsed.finalCount == |w.lines|
  {
    var d := w.phase.decision;
    assert w.lines[..0] == [];
    ReadResult(w.lines, d, if d.full then 0 else w.index.session.value.lineCount, w.phase.size, w.phase.mtime);
  }

  // ----- The loops

  /** The record lists `parse_file` appends to. */
  class Collector {
    var rec: Records

    constructor ()
      ensures rec == NO_RECORDS
    {
      rec := NO_RECORDS;
    }

    method IngestEditCall(c: ToolCall, seqNo: nat, ts: int)
      requires c.edit.Some?
      modifies this
      ensures rec == old(rec).(stubs := old(rec).stubs + [Stub(c.id, seqNo, ts, c.edit.value.length)],
                               sections := old(rec).sections + SectionRows(c.id, seqNo, c.edit.value.sections))
    {
      rec := rec.(stubs := rec.stubs + [Stub(c.id, seqNo, ts, c.edit.value.length)]);
      var sections := c.edit.value.sections;
      ghost var before := rec.sections;
      for i := 0 to |sections|
        invariant rec == old(rec).(stubs := old(rec).stubs + [Stub(c.id, seqNo, ts, c.edit.value.length)],
                                   sections := before + SectionRows(c.id, seqNo, sections[..i]))
      {
        rec := rec.(sections := rec.sections + [((c.id, i), (seqNo, sections[i]))]);
        assert sections[..i + 1][..i] == sections[..i];
      }
      assert sections[..|sections|] == sections;
    }

    method IngestAssistant(seqNo: nat, ts: int, calls: seq<ToolCall>, message: Option<string>)
      modifies this
      ensures rec == AddLine(old(rec), Line(0, Assistant(ts, calls, message)), seqNo)
    {
      for i := 0 to |calls|
        invariant rec == AddCalls(old(rec), calls[..i], seqNo, ts)
      {
        var c := calls[i];
        assert calls[..i + 1][..i] == calls[..i];
        rec := rec.(calls := rec.calls + [((c.id, seqNo), c.data)]);
        if c.edit.Some? {
          IngestEditCall(c, seqNo, ts);
        }
      }
      assert calls[..|calls|] == calls;
      if message.Some? {
        rec := rec.(assistants := rec.assistants + [(seqNo, message.value)]);
      }
    }

    method IngestLine(line: Line, seqNo: nat)
      modifies this
      ensures rec == AddLine(old(rec), line, seqNo)
    {
      match line.event
      case Session(meta) =>
        if seqNo == 0 {
          rec := rec.(meta := meta);
        }
      case Assistant(ts, calls, message) =>
        IngestAssistant(seqNo, ts, calls, message);
      case ToolResult(id, data, edit) =>
        rec := rec.(results := rec.results + [((id, seqNo), data)]);
        if edit.Some? {
          rec := rec.(outcomes := rec.outcomes + [Outcome(id, edit.value)]);
        }
      case User(text) =>
        if text.Some? {
          rec := rec.(users := rec.users + [(seqNo, text.value)]);
        }
      case Skip =>
    }
  }

  method ReadFile(lines: seq<Line>, d: Decision, size: nat, mtime: int) returns (p: Parsed)
    requires d.Read?
    ensures p == ParseFile(lines, d, size, mtime)
  {
    var seqNo, offset := d.startSeq, d.offset;
    var rest := Seek(lines, d.offset);
    var collector := new Collector();
    for i := 0 to |rest|
      invariant collector.rec == Parse(rest[..i], d.startSeq)
      invariant seqNo == d.startSeq + i && offset == d.offset + Bytes(rest[..i])
    {
      assert rest[..i + 1][..i] == rest[..i];
      offset := offset + rest[i].bytes;
      collector.IngestLine(rest[i], seqNo);
      seqNo := seqNo + 1;
    }
    assert rest[..|rest|] == rest;
    p := Parsed(d.full, collector.rec, size, mtime, offset, seqNo);
  }

  /** The tables of one session file, changed row by row. */
  class Database {
    var session: Option<SessionRow>
    var tables: Tables

    ghost function Contents(): Index
      reads this
    {
      Index(session, tables)
    }

    constructor ()
      ensures Contents() == EMPTY_INDEX
    {
      session, tables := None, NO_ROWS;
    }

    method UpsertEdits(stubs: seq<Stub>, outcomes: seq<Outcome>)
      modifies this`tables
      ensures tables == old(tables).(edits := PutOutcomes(PutStubs(old(tables).edits, stubs), outcomes))
    {
      for i := 0 to |stubs|
        invariant tables == old(tables).(edits := PutStubs(old(tables).edits, stubs[..i]))
      {
        assert stubs[..i + 1][..i] == stubs[..i];
        tables := tables.(edits := PutStub(tables.edits, stubs[i]));
      }
      assert stubs[..|stubs|] == stubs;
      ghost var stubbed := tables.edits;
      for i := 0 to |outcomes|
        invariant tables == old(tables).(edits := PutOutcomes(stubbed, outcomes[..i]))
      {
        assert outcomes[..i + 1][..i] == outcomes[..i];
        tables := tables.(edits := PutOutcome(tables.edits, outcomes[i]));
      }
      assert outcomes[..|outcomes|] == outcomes;
    }

    method WriteRecords(p: Parsed)
      modifies this
      ensures Contents() == Written(old(Contents()), p)
    {
      if p.full {
        tables := NO_ROWS;
      }
      var r := p.records;
      var calls := Upsert(tables.calls, r.calls);
      var results := Upsert(tables.results, r.results);
      var assistants := Upsert(tables.assistants, r.assistants);
      var users := Upsert(tables.users, r.users);
      var sections := Upsert(tables.sections, r.sections);
      UpsertEdits(r.stubs, r.outcomes);
      tables := tables.(calls := calls, results := results, assistants := assistants, users := users, sections := sections);
      var kept := if session.Some? then session.value.meta else NO_META;
      session := Some(SessionRow(Coalesce(r.meta, kept), p.mtime, p.size, p.finalOffset, p.finalCount, PARSER_VERSION));
    }
  }

  /** `executemany` of one INSERT OR REPLACE statement. */
  method Upsert<K(==), V>(table: map<K, V>, rows: seq<(K, V)>) returns (t: map<K, V>)
    ensures t == Put(table, rows)
  {
    t := table;
    for i := 0 to |rows|
      invariant t == Put(table, rows[..i])
    {
      assert rows[..i + 1][..i] == rows[..i];
      t := t[rows[i].0 := rows[i].1];
    }
    assert rows[..|rows|] == rows;
  }
}
