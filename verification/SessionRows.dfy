/**
 What the tables of `sync.py` hold, read off the lines of the log: for every key the row that the last
 line with this key asks for, and no other rows.
 */
module SessionRows {
  import opened Wrappers
  import opened SessionSync

  function Lookup<K, V>(table: map<K, V>, key: K): Option<V> {
    if key in table then Some(table[key]) else None
  }

  // ----- Reading the log from its end

  /** The last of these calls with this id. */
  function LastCall(calls: seq<ToolCall>, id: string): Option<string> {
    if calls == [] then None
    else if calls[|calls| - 1].id == id then Some(calls[|calls| - 1].data)
    else LastCall(calls[..|calls| - 1], id)
  }

  /** The last of these calls with this id that is an edit. */
  function LastInput(calls: seq<ToolCall>, id: string): Option<EditInput> {
    if calls == [] then None
    else
      var c := calls[|calls| - 1];
      if c.id == id && c.edit.Some? then c.edit else LastInput(calls[..|calls| - 1], id)
  }

  /** The section of this number in the last such edit that has so many. */
  function LastSectionOf(calls: seq<ToolCall>, id: string, idx: nat): Option<Section> {
    if calls == [] then None
    else
      var c := calls[|calls| - 1];
      if c.id == id && c.edit.Some? && idx < |c.edit.value.sections| then Some(c.edit.value.sections[idx])
      else LastSectionOf(calls[..|calls| - 1], id, idx)
  }

  datatype EditCall = EditCall(seqNo: nat, ts: int, inputLength: nat)

  /** The last edit call with this id in the log, with the number and time of its line. */
  function LastEdit(lines: seq<Line>, id: string): Option<EditCall> {
    if lines == [] then None
    else
      var n := |lines| - 1;
      match lines[n].event
      case Assistant(ts, calls, _) =>
        var input := LastInput(calls, id);
        if input.Some? then Some(EditCall(n, ts, input.value.length)) else LastEdit(lines[..n], id)
      case _ => LastEdit(lines[..n], id)
  }

  /** The outcome of the last edit result for this id. */
  function LastOutcome(lines: seq<Line>, id: string): Option<EditOutcome> {
    if lines == [] then None
    else
      var n := |lines| - 1;
      var e := lines[n].event;
      if e.ToolResult? && e.callId == id && e.edit.Some? then e.edit else LastOutcome(lines[..n], id)
  }

  function LastSection(lines: seq<Line>, id: string, idx: nat): Option<(nat, Section)> {
    if lines == [] then None
    else
      var n := |lines| - 1;
      match lines[n].event
      case Assistant(_, calls, _) =>
        var section := LastSectionOf(calls, id, idx);
        if section.Some? then Some((n, section.value)) else LastSection(lines[..n], id, idx)
      case _ => LastSection(lines[..n], id, idx)
  }

  // ----- The rows

  function CallRow(lines: seq<Line>, id: string, n: nat): Option<string> {
    if n < |lines| && lines[n].event.Assistant? then LastCall(lines[n].event.calls, id) else None
  }

  function ResultRow(lines: seq<Line>, id: string, n: nat): Option<string> {
    if n < |lines| && lines[n].event.ToolResult? && lines[n].event.callId == id then Some(lines[n].event.data) else None
  }

  function AssistantRow(lines: seq<Line>, n: nat): Option<string> {
    if n < |lines| && lines[n].event.Assistant? then lines[n].event.message else None
  }

  function UserRow(lines: seq<Line>, n: nat): Option<string> {
    if n < |lines| && lines[n].event.User? then lines[n].event.text else None
  }

  /** A call without a result has no success yet; a result without a call has zeros. */
  function EditRowOf(call: Option<EditCall>, outcome: Option<EditOutcome>): Option<EditRow> {
    if call.None? && outcome.None? then None
    else
      var c := if call.Some? then call.value else EditCall(0, 0, 0);
      Some(if outcome.Some?
           then EditRow(c.seqNo, c.ts, c.inputLength, Some(outcome.value.success), outcome.value.warnings)
           else EditRow(c.seqNo, c.ts, c.inputLength, None, []))
  }

  /** The columns of the session row come from the first line, if it is a header. */
  function HeaderOf(lines: seq<Line>): Meta {
    if lines != [] && lines[0].event.Session? then lines[0].event.meta else Meta(None, None, None, None, None)
  }

  ghost predicate HoldsRows(t: Tables, lines: seq<Line>) {
    && (forall id, n :: Lookup(t.calls, (id, n)) == CallRow(lines, id, n))
    && (forall id, n :: Lookup(t.results, (id, n)) == ResultRow(lines, id, n))
    && (forall n :: Lookup(t.assistants, n) == AssistantRow(lines, n))
    && (forall n :: Lookup(t.users, n) == UserRow(lines, n))
    && (forall id :: Lookup(t.edits, id) == EditRowOf(LastEdit(lines, id), LastOutcome(lines, id)))
    && (forall id, idx :: Lookup(t.sections, (id, idx)) == LastSection(lines, id, idx))
  }

  // ----- Batches of rows

  function LastOf<K(==), V>(rows: seq<(K, V)>, key: K): Option<V> {
    if rows == [] then None
    else if rows[|rows| - 1].0 == key then Some(rows[|rows| - 1].1)
    else LastOf(rows[..|rows| - 1], key)
  }

  lemma {:induction false} LookupPut<K, V>(rows: seq<(K, V)>, key: K)
    ensures Lookup(Put(map[], rows), key) == LastOf(rows, key)
  {
    if rows != [] {
      LookupPut(rows[..|rows| - 1], key);
    }
  }

  lemma {:induction false} LastOfOneMore<K, V>(rows: seq<(K, V)>, row: (K, V), key: K)
    ensures LastOf(rows + [row], key) == if row.0 == key then Some(row.1) else LastOf(rows, key)
  {
    assert (rows + [row])[..|rows|] == rows;
  }

  lemma {:induction false} LastOfMore<K, V>(a: seq<(K, V)>, b: seq<(K, V)>, key: K)
    ensures LastOf(a + b, key) == Or(LastOf(b, key), LastOf(a, key))
  {
    if b == [] {
      assert a + b == a;
    } else {
      assert (a + b)[..|a + b| - 1] == a + b[..|b| - 1];
      LastOfMore(a, b[..|b| - 1], key);
    }
  }

  function LastStub(stubs: seq<Stub>, id: string): Option<EditCall> {
    if stubs == [] then None
    else
      var s := stubs[|stubs| - 1];
      if s.callId == id then Some(EditCall(s.seqNo, s.ts, s.inputLength)) else LastStub(stubs[..|stubs| - 1], id)
  }

  function LastResult(outcomes: seq<Outcome>, id: string): Option<EditOutcome> {
    if outcomes == [] then None
    else if outcomes[|outcomes| - 1].callId == id then Some(outcomes[|outcomes| - 1].outcome)
    else LastResult(outcomes[..|outcomes| - 1], id)
  }

  lemma {:induction false} LookupStubs(stubs: seq<Stub>, id: string)
    ensures Lookup(PutStubs(map[], stubs), id) == EditRowOf(LastStub(stubs, id), None)
  {
    if stubs != [] {
      LookupStubs(stubs[..|stubs| - 1], id);
    }
  }

  lemma {:induction false} LookupEdits(stubs: seq<Stub>, outcomes: seq<Outcome>, id: string)
    ensures Lookup(PutOutcomes(PutStubs(map[], stubs), outcomes), id) == EditRowOf(LastStub(stubs, id), LastResult(outcomes, id))
  {
    if outcomes == [] {
      LookupStubs(stubs, id);
    } else {
      LookupEdits(stubs, outcomes[..|outcomes| - 1], id);
    }
  }

  // ----- What one line adds

  lemma {:induction false} CallsAdd(r: Records, calls: seq<ToolCall>, seqNo: nat, ts: int, id: string, n: nat)
    ensures var r' := AddCalls(r, calls, seqNo, ts);
            && r'.results == r.results && r'.assistants == r.assistants && r'.users == r.users && r'.outcomes == r.outcomes
            && LastOf(r'.calls, (id, n)) == if n == seqNo && LastCall(calls, id).Some? then LastCall(calls, id) else LastOf(r.calls, (id, n))
  {
    if calls != [] {
      var front, c := AddCalls(r, calls[..|calls| - 1], seqNo, ts), calls[|calls| - 1];
      CallsAdd(r, calls[..|calls| - 1], seqNo, ts, id, n);
      LastOfOneMore(front.calls, ((c.id, seqNo), c.data), (id, n));
    }
  }

  lemma {:induction false} StubsAdd(r: Records, calls: seq<ToolCall>, seqNo: nat, ts: int, id: string)
    ensures LastStub(AddCalls(r, calls, seqNo, ts).stubs, id) ==
            if LastInput(calls, id).Some? then Some(EditCall(seqNo, ts, LastInput(calls, id).value.length)) else LastStub(r.stubs, id)
  {
    if calls != [] {
      var front, c := AddCalls(r, calls[..|calls| - 1], seqNo, ts), calls[|calls| - 1];
      StubsAdd(r, calls[..|calls| - 1], seqNo, ts, id);
      if c.edit.Some? {
        StubOneMore(front.stubs, Stub(c.id, seqNo, ts, c.edit.value.length), id);
      }
    }
  }

  lemma {:induction false} StubOneMore(stubs: seq<Stub>, s: Stub, id: string)
    ensures LastStub(stubs + [s], id) == if s.callId == id then Some(EditCall(s.seqNo, s.ts, s.inputLength)) else LastStub(stubs, id)
  {
    assert (stubs + [s])[..|stubs|] == stubs;
  }

  lemma {:induction false} SectionsOfCall(id: string, seqNo: nat, sections: seq<Section>, key: (string, nat))
    ensures LastOf(SectionRows(id, seqNo, sections), key) ==
            if key.0 == id && key.1 < |sections| then Some((seqNo, sections[key.1])) else None
  {
    if sections != [] {
      var n := |sections| - 1;
      SectionsOfCall(id, seqNo, sections[..n], key);
      LastOfOneMore(SectionRows(id, seqNo, sections[..n]), ((id, n), (seqNo, sections[n])), key);
    }
  }

  lemma {:induction false} SectionsAdd(r: Records, calls: seq<ToolCall>, seqNo: nat, ts: int, id: string, idx: nat)
    ensures LastOf(AddCalls(r, calls, seqNo, ts).sections, (id, idx)) ==
            if LastSectionOf(calls, id, idx).Some? then Some((seqNo, LastSectionOf(calls, id, idx).value))
            else LastOf(r.sections, (id, idx))
  {
    if calls != [] {
      var front, c := AddCalls(r, calls[..|calls| - 1], seqNo, ts), calls[|calls| - 1];
      SectionsAdd(r, calls[..|calls| - 1], seqNo, ts, id, idx);
      if c.edit.Some? {
        var rows := SectionRows(c.id, seqNo, c.edit.value.sections);
        LastOfMore(front.sections, rows, (id, idx));
        SectionsOfCall(c.id, seqNo, c.edit.value.sections, (id, idx));
      }
    }
  }

  lemma {:induction false} OutcomeOneMore(outcomes: seq<Outcome>, o: Outcome, id: string)
    ensures LastResult(outcomes + [o], id) == if o.callId == id then Some(o.outcome) else LastResult(outcomes, id)
  {
    assert (outcomes + [o])[..|outcomes|] == outcomes;
  }

  // ----- The records of a log, table by table

  lemma {:induction false} CallsOf(lines: seq<Line>, id: string, n: nat)
    ensures LastOf(Parse(lines, 0).calls, (id, n)) == CallRow(lines, id, n)
  {
    if lines != [] {
      var front, m := lines[..|lines| - 1], |lines| - 1;
      CallsOf(front, id, n);
      var e := lines[m].event;
      if e.Assistant? {
        CallsAdd(Parse(front, 0), e.calls, m, e.ts, id, n);
      }
    }
  }

  lemma {:induction false} ResultsOf(lines: seq<Line>, id: string, n: nat)
    ensures LastOf(Parse(lines, 0).results, (id, n)) == ResultRow(lines, id, n)
  {
    if lines != [] {
      var front, m := lines[..|lines| - 1], |lines| - 1;
      ResultsOf(front, id, n);
      match lines[m].event
      case Assistant(ts, calls, _) => CallsAdd(Parse(front, 0), calls, m, ts, id, n);
      case ToolResult(callId, data, _) => LastOfOneMore(Parse(front, 0).results, ((callId, m), data), (id, n));
      case _ =>
    }
  }

  lemma {:induction false} AssistantAdds(r: Records, line: Line, m: nat, n: nat)
    ensures LastOf(AddLine(r, line, m).assistants, n)
            == if n == m && line.event.Assistant? && line.event.message.Some? then line.event.message else LastOf(r.assistants, n)
  {
    match line.event
    case Assistant(ts, calls, message) =>
      CallsAdd(r, calls, m, ts, "", n);
      if message.Some? {
        LastOfOneMore(r.assistants, (m, message.value), n);
      }
    case _ =>
  }

  lemma {:induction false} AssistantsOf(lines: seq<Line>, n: nat)
    ensures LastOf(Parse(lines, 0).assistants, n) == AssistantRow(lines, n)
  {
    if lines != [] {
      var front, m := lines[..|lines| - 1], |lines| - 1;
      AssistantsOf(front, n);
      AssistantAdds(Parse(front, 0), lines[m], m, n);
    }
  }

  lemma {:induction false} UsersOf(lines: seq<Line>, n: nat)
    ensures LastOf(Parse(lines, 0).users, n) == UserRow(lines, n)
  {
    if lines != [] {
      var front, m := lines[..|lines| - 1], |lines| - 1;
      UsersOf(front, n);
      match lines[m].event
      case Assistant(ts, calls, _) => CallsAdd(Parse(front, 0), calls, m, ts, "", n);
      case User(text) =>
        if text.Some? {
          LastOfOneMore(Parse(front, 0).users, (m, text.value), n);
        }
      case _ =>
    }
  }

  lemma {:induction false} StubsOf(lines: seq<Line>, id: string)
    ensures LastStub(Parse(lines, 0).stubs, id) == LastEdit(lines, id)
  {
    if lines != [] {
      var front, m := lines[..|lines| - 1], |lines| - 1;
      StubsOf(front, id);
      var e := lines[m].event;
      if e.Assistant? {
        StubsAdd(Parse(front, 0), e.calls, m, e.ts, id);
      }
    }
  }

  lemma {:induction false} OutcomesOf(lines: seq<Line>, id: string)
    ensures LastResult(Parse(lines, 0).outcomes, id) == LastOutcome(lines, id)
  {
    if lines != [] {
      var front, m := lines[..|lines| - 1], |lines| - 1;
      OutcomesOf(front, id);
      match lines[m].event
      case Assistant(ts, calls, _) => CallsAdd(Parse(front, 0), calls, m, ts, id, 0);
      case ToolResult(callId, _, edit) =>
        if edit.Some? {
          OutcomeOneMore(Parse(front, 0).outcomes, Outcome(callId, edit.value), id);
        }
      case _ =>
    }
  }

  lemma {:induction false} SectionsOf(lines: seq<Line>, id: string, idx: nat)
    ensures LastOf(Parse(lines, 0).sections, (id, idx)) == LastSection(lines, id, idx)
  {
    if lines != [] {
      var front, m := lines[..|lines| - 1], |lines| - 1;
      SectionsOf(front, id, idx);
      var e := lines[m].event;
      if e.Assistant? {
        SectionsAdd(Parse(front, 0), e.calls, m, e.ts, id, idx);
      }
    }
  }

  /** The tables of an ingest hold exactly the rows the lines ask for, under exactly their keys. */
  lemma {:induction false} IngestHoldsRows(lines: seq<Line>)
    ensures HoldsRows(Ingest(lines), lines)
  {
    var r := Parse(lines, 0);
    forall id, n ensures Lookup(Put(map[], r.calls), (id, n)) == CallRow(lines, id, n) {
      LookupPut(r.calls, (id, n));
      CallsOf(lines, id, n);
    }
    forall id, n ensures Lookup(Put(map[], r.results), (id, n)) == ResultRow(lines, id, n) {
      LookupPut(r.results, (id, n));
      ResultsOf(lines, id, n);
    }
    forall n ensures Lookup(Put(map[], r.assistants), n) == AssistantRow(lines, n) {
      LookupPut(r.assistants, n);
      AssistantsOf(lines, n);
    }
    forall n ensures Lookup(Put(map[], r.users), n) == UserRow(lines, n) {
      LookupPut(r.users, n);
      UsersOf(lines, n);
    }
    forall id ensures Lookup(PutOutcomes(PutStubs(map[], r.stubs), r.outcomes), id)
                      == EditRowOf(LastEdit(lines, id), LastOutcome(lines, id)) {
      LookupEdits(r.stubs, r.outcomes, id);
      StubsOf(lines, id);
      OutcomesOf(lines, id);
    }
    forall id, idx ensures Lookup(Put(map[], r.sections), (id, idx)) == LastSection(lines, id, idx) {
      LookupPut(r.sections, (id, idx));
      SectionsOf(lines, id, idx);
    }
  }

  lemma {:induction false} HeaderIsParsed(lines: seq<Line>)
    ensures Parse(lines, 0).meta == HeaderOf(lines)
  {
    if lines != [] {
      MetaIsFirstLine(lines);
    }
  }

  /** Over every schedule without an upgrade, the index holds the rows of the lines up to its offset. */
  lemma {:induction false} IndexHoldsTheRows(w: World, steps: seq<Step>)
    requires Start(w) && WholeLineSteps(steps)
    ensures var now := Run(w, steps);
            match now.index.session
            case None => HoldsRows(now.index.tables, [])
            case Some(row) =>
              && row.lineCount <= |now.lines| && row.offset == Bytes(now.lines[..row.lineCount])
              && (IsCurrent(row) || NoUpgrade(steps) ==> HoldsRows(now.index.tables, now.lines[..row.lineCount]))
              && row.meta == HeaderOf(now.lines[..row.lineCount])
  {
    IndexIsAlwaysOneIngest(w, steps);
    var now := Run(w, steps);
    if now.index.session.Some? {
      IngestHoldsRows(now.lines[..now.index.session.value.lineCount]);
      HeaderIsParsed(now.lines[..now.index.session.value.lineCount]);
    } else {
      IngestHoldsRows([]);
      assert Ingest([]) == NO_ROWS;
    }
  }
}
