/**
 The cases of a rewound period (`cmd/hubctl/ErasureReapply.go`): those whose subject could not be
 named are set aside, the rest are sent, and the table says what became of each.
 */
module Erasures {
  import opened Wrappers
  import opened Recovery

  datatype Case = Case(
    id: string, subject: string, handledBy: string, mode: string, email: string, notes: string, extension: string)

  /** A case as read; `unresolved` says why its subject could not be named, or nothing. */
  datatype Recovered = Recovered(request: Case, unresolved: string)

  datatype Erasure = Erasure(
    subject: Option<string>, handledBy: Option<string>, mode: string,
    email: Option<string>, notes: Option<string>, extension: Option<string>)

  datatype Unsent = Unsent(id: string, outcome: string)

  /** An identifier's canonical text, where it reads as one. */
  type Parse = string -> Option<string>

  /** No identifier is none; one that does not read is an error. */
  function OptionalId(parse: Parse, id: string): Option<Option<string>> {
    if id == "" then Some(None) else if parse(id).Some? then Some(parse(id)) else None
  }

  function OptionalText(s: string): Option<string> { if s == "" then None else Some(s) }

  /** `erasureRecordOf`. */
  function RecordOf(parse: Parse, c: Case): Option<Record<Erasure>> {
    var id, subject, handledBy := parse(c.id), OptionalId(parse, c.subject), OptionalId(parse, c.handledBy);
    if id.None? || subject.None? || handledBy.None? then None
    else
      Some(Record(id.value, Erasure(subject.value, handledBy.value, c.mode, OptionalText(c.email),
                                    OptionalText(c.notes), OptionalText(c.extension))))
  }

  /** An identifier that is there reads as one; none is none. */
  predicate ReadsAs(parse: Parse, text: string, id: Option<string>) {
    if text == "" then id == None else id.Some? && parse(text) == id
  }

  /** A text that is there is said as it is; none is not said. */
  predicate SaysAs(text: string, said: Option<string>) {
    (text == "" <==> said.None?) && (said.Some? ==> said.value == text)
  }

  /**
   A case converts exactly where its identifier and those it names read as one, and each field of its
   record is the case's own.
   */
  lemma RecordSays(parse: Parse, c: Case)
    ensures RecordOf(parse, c).Some? <==>
              && parse(c.id).Some?
              && (c.subject != "" ==> parse(c.subject).Some?) && (c.handledBy != "" ==> parse(c.handledBy).Some?)
    ensures RecordOf(parse, c).Some? ==>
              var r := RecordOf(parse, c).value;
              && Some(r.id) == parse(c.id)
              && ReadsAs(parse, c.subject, r.body.subject) && ReadsAs(parse, c.handledBy, r.body.handledBy)
              && r.body.mode == c.mode
              && SaysAs(c.email, r.body.email) && SaysAs(c.notes, r.body.notes) && SaysAs(c.extension, r.body.extension)
  {}

  predicate Sendable(parse: Parse, read: seq<Recovered>) {
    forall r | r in read && r.unresolved == "" :: RecordOf(parse, r.request).Some?
  }

  /** The records of the resolved cases, in order. */
  function RecordsOf(parse: Parse, read: seq<Recovered>): seq<Record<Erasure>>
    requires Sendable(parse, read)
  {
    if read == [] then []
    else
      var front, last := read[..|read| - 1], read[|read| - 1];
      RecordsOf(parse, front) + if last.unresolved == "" then [RecordOf(parse, last.request).value] else []
  }

  /** The others, in order. */
  function SetAside(read: seq<Recovered>): seq<Unsent> {
    if read == [] then []
    else
      var last := read[|read| - 1];
      SetAside(read[..|read| - 1]) + if last.unresolved == "" then [] else [Unsent(last.request.id, last.unresolved)]
  }

  /** One case that does not convert, and nothing is sent at all. */
  method ErasureRecordsOf(parse: Parse, read: seq<Recovered>)
    returns (split: Option<(seq<Record<Erasure>>, seq<Unsent>)>)
    ensures split.Some? <==> Sendable(parse, read)
    ensures split.Some? ==> split.value.0 == RecordsOf(parse, read) && split.value.1 == SetAside(read)
  {
    var records: seq<Record<Erasure>>, skipped: seq<Unsent> := [], [];
    for i := 0 to |read|
      invariant Sendable(parse, read[..i])
      invariant records == RecordsOf(parse, read[..i]) && skipped == SetAside(read[..i])
    {
      var recovered := read[i];
      assert read[..i + 1][..i] == read[..i] && read[..i + 1] == read[..i] + [recovered];
      if recovered.unresolved != "" {
        skipped := skipped + [Unsent(recovered.request.id, recovered.unresolved)];
        continue;
      }
      var record := RecordOf(parse, recovered.request);
      if record.None? {
        assert recovered in read;
        return None;
      }
      records := records + [record.value];
    }
    assert read[..|read|] == read;
    split := Some((records, skipped));
  }

  // ---------------------------------------------------------------- the table

  datatype Row = Row(id: string, outcome: string, kept: bool, code: string)

  datatype Reapplied = Reapplied(id: string, outcome: string, kept: bool, code: Option<string>)

  function RowOf(r: Reapplied): Row { Row(r.id, r.outcome, r.kept, if r.code.Some? then r.code.value else "") }

  function RowOfUnsent(u: Unsent): Row { Row(u.id, u.outcome, false, "") }

  /** A row to each answer, then one to each case set aside. */
  predicate Tabled(rows: seq<Row>, answers: seq<Reapplied>, skipped: seq<Unsent>) {
    && |rows| == |answers| + |skipped|
    && (forall i | 0 <= i < |answers| :: rows[i] == RowOf(answers[i]))
    && forall i | |answers| <= i < |rows| :: rows[i] == RowOfUnsent(skipped[i - |answers|])
  }

  method ReappliedTable(answers: seq<Reapplied>, skipped: seq<Unsent>) returns (rows: seq<Row>)
    ensures Tabled(rows, answers, skipped)
  {
    rows := [];
    for i := 0 to |answers|
      invariant Tabled(rows, answers[..i], [])
    {
      var code := if answers[i].code.Some? then answers[i].code.value else "";
      rows := rows + [Row(answers[i].id, answers[i].outcome, answers[i].kept, code)];
    }
    assert answers[..|answers|] == answers;
    for i := 0 to |skipped|
      invariant Tabled(rows, answers, skipped[..i])
    {
      rows := rows + [Row(skipped[i].id, skipped[i].outcome, false, "")];
    }
  }

  // ---------------------------------------------------------------- every case, once

  /** The name a case goes by in the table: the canonical identifier where it was sent, else as it was read. */
  function RowId(parse: Parse, r: Recovered): string
    requires r.unresolved == "" ==> RecordOf(parse, r.request).Some?
  {
    if r.unresolved == "" then RecordOf(parse, r.request).value.id else r.request.id
  }

  function RowIds(parse: Parse, read: seq<Recovered>): (names: seq<string>)
    requires Sendable(parse, read)
    ensures |names| == |read|
  {
    if read == [] then [] else RowIds(parse, read[..|read| - 1]) + [RowId(parse, read[|read| - 1])]
  }

  function SentIds(records: seq<Record<Erasure>>): seq<string> {
    if records == [] then [] else SentIds(records[..|records| - 1]) + [records[|records| - 1].id]
  }

  function UnsentIds(skipped: seq<Unsent>): seq<string> {
    if skipped == [] then [] else UnsentIds(skipped[..|skipped| - 1]) + [skipped[|skipped| - 1].id]
  }

  /** One more case: in the one or the other. */
  lemma OneMoreCase(parse: Parse, front: seq<Recovered>, last: Recovered)
    requires Sendable(parse, front) && Sendable(parse, front + [last])
    ensures var read := front + [last];
            && SentIds(RecordsOf(parse, read))
               == SentIds(RecordsOf(parse, front)) + (if last.unresolved == "" then [RowId(parse, last)] else [])
            && UnsentIds(SetAside(read))
               == UnsentIds(SetAside(front)) + (if last.unresolved == "" then [] else [RowId(parse, last)])
            && |RecordsOf(parse, read)| + |SetAside(read)| == |RecordsOf(parse, front)| + |SetAside(front)| + 1
  {
    var read := front + [last];
    assert read[..|read| - 1] == front && last in read;
    var records, skipped := RecordsOf(parse, front), SetAside(front);
    if last.unresolved == "" {
      var record := RecordOf(parse, last.request).value;
      assert (records + [record])[..|records|] == records;
      assert SetAside(read) == skipped && UnsentIds(skipped) + [] == UnsentIds(skipped);
    } else {
      var unsent := Unsent(last.request.id, last.unresolved);
      assert (skipped + [unsent])[..|skipped|] == skipped;
      assert RecordsOf(parse, read) == records && SentIds(records) + [] == SentIds(records);
    }
  }

  lemma OneMoreName(sent: seq<string>, unsent: seq<string>, all: seq<string>, name: string, first: bool)
    requires multiset(sent) + multiset(unsent) == multiset(all)
    ensures multiset(sent + (if first then [name] else [])) + multiset(unsent + (if first then [] else [name]))
         == multiset(all + [name])
  {}

  /** Every case read is in exactly one of the two. */
  lemma {:induction false} EachCaseOnce(parse: Parse, read: seq<Recovered>)
    requires Sendable(parse, read)
    ensures |RecordsOf(parse, read)| + |SetAside(read)| == |read|
    ensures multiset(SentIds(RecordsOf(parse, read))) + multiset(UnsentIds(SetAside(read)))
         == multiset(RowIds(parse, read))
  {
    if read != [] {
      var front, last := read[..|read| - 1], read[|read| - 1];
      assert read == front + [last];
      EachCaseOnce(parse, front);
      OneMoreCase(parse, front, last);
      OneMoreName(SentIds(RecordsOf(parse, front)), UnsentIds(SetAside(front)), RowIds(parse, front),
                  RowId(parse, last), last.unresolved == "");
    }
  }

  /** Nothing is sent but a resolved case, and nothing set aside but an unresolved one. */
  lemma {:induction false} OnlyResolvedAreSent(parse: Parse, read: seq<Recovered>)
    requires Sendable(parse, read)
    ensures forall record | record in RecordsOf(parse, read) ::
              exists r | r in read :: r.unresolved == "" && RecordOf(parse, r.request) == Some(record)
    ensures forall u | u in SetAside(read) ::
              exists r | r in read :: r.unresolved != "" && u == Unsent(r.request.id, r.unresolved)
  {
    if read != [] {
      var last := read[|read| - 1];
      OnlyResolvedAreSent(parse, read[..|read| - 1]);
      assert last in read && forall r | r in read[..|read| - 1] :: r in read;
    }
  }

  function AnswerIds(answers: seq<Reapplied>): seq<string> {
    if answers == [] then [] else AnswerIds(answers[..|answers| - 1]) + [answers[|answers| - 1].id]
  }

  function IdsOf(rows: seq<Row>): seq<string> {
    if rows == [] then [] else IdsOf(rows[..|rows| - 1]) + [rows[|rows| - 1].id]
  }

  lemma {:induction false} IdsAt(rows: seq<Row>)
    ensures |IdsOf(rows)| == |rows| && forall i | 0 <= i < |rows| :: IdsOf(rows)[i] == rows[i].id
  {
    if rows != [] { IdsAt(rows[..|rows| - 1]); }
  }

  lemma {:induction false} AnswerIdsAt(answers: seq<Reapplied>)
    ensures |AnswerIds(answers)| == |answers| && forall i | 0 <= i < |answers| :: AnswerIds(answers)[i] == answers[i].id
  {
    if answers != [] { AnswerIdsAt(answers[..|answers| - 1]); }
  }

  lemma {:induction false} UnsentIdsAt(skipped: seq<Unsent>)
    ensures |UnsentIds(skipped)| == |skipped| && forall i | 0 <= i < |skipped| :: UnsentIds(skipped)[i] == skipped[i].id
  {
    if skipped != [] { UnsentIdsAt(skipped[..|skipped| - 1]); }
  }

  /** One answer to each record sent, in whatever order. */
  predicate AnswersEach(answers: seq<Reapplied>, records: seq<Record<Erasure>>) {
    multiset(AnswerIds(answers)) == multiset(SentIds(records))
  }

  /** With one answer to each case sent, the table has exactly one row to each case read. */
  lemma OneRowPerCase(parse: Parse, read: seq<Recovered>, answers: seq<Reapplied>, rows: seq<Row>)
    requires Sendable(parse, read)
    requires AnswersEach(answers, RecordsOf(parse, read)) && Tabled(rows, answers, SetAside(read))
    ensures |rows| == |read| && multiset(IdsOf(rows)) == multiset(RowIds(parse, read))
  {
    EachCaseOnce(parse, read);
    RowsByName(rows, answers, SetAside(read));
    var answered, unsent := AnswerIds(answers), UnsentIds(SetAside(read));
    assert multiset(answered + unsent) == multiset(answered) + multiset(unsent);
    IdsAt(rows);
    assert |multiset(IdsOf(rows))| == |rows| && |multiset(RowIds(parse, read))| == |read|;
  }

  lemma RowsByName(rows: seq<Row>, answers: seq<Reapplied>, skipped: seq<Unsent>)
    requires Tabled(rows, answers, skipped)
    ensures IdsOf(rows) == AnswerIds(answers) + UnsentIds(skipped)
  {
    IdsAt(rows);
    AnswerIdsAt(answers);
    UnsentIdsAt(skipped);
    var all, both := IdsOf(rows), AnswerIds(answers) + UnsentIds(skipped);
    forall i | 0 <= i < |rows| ensures all[i] == both[i] {
      if i < |answers| {
        assert rows[i] == RowOf(answers[i]);
      } else {
        assert rows[i] == RowOfUnsent(skipped[i - |answers|]);
      }
    }
  }
}
