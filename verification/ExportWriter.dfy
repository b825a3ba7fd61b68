/**
 An archive written as the export's format says is accepted, with or without a final newline; and
 what the accepted archive's printed sum of records says (`scripts/verify-tenant-export.py`).
 */
module ExportWriter {
  import opened Wrappers
  import opened Bytes
  import opened TenantExport

  // ---------------------------------------------------------------- a writer

  /** One entity's file: its records in order, whether the last line is ended, whether a nought is written out. */
  datatype Source = Source(entity: string, lines: seq<seq<Byte>>, ended: bool, saysNought: bool)

  predicate OneLine(line: seq<Byte>) { line != [] && LF !in line && CR !in line }

  /** One record to a line. */
  function BodyOf(lines: seq<seq<Byte>>, ended: bool): seq<Byte> {
    if lines == [] then []
    else if |lines| == 1 then lines[0] + (if ended then [LF] else [])
    else lines[0] + [LF] + BodyOf(lines[1..], ended)
  }

  function PathOf(s: Source): string { "data/" + s.entity + ".jsonl" }

  /** The field is omitted where it is nought, unless the writer says it. */
  function Said(s: Source): Option<int> { if s.lines == [] && !s.saysNought then None else Some(|s.lines|) }

  function EntryOf(reader: Reader, s: Source): FileEntry {
    var body := BodyOf(s.lines, s.ended);
    FileEntry(PathOf(s), Some(reader.digest(body)), Some(|body|), Said(s))
  }

  function EntriesOf(reader: Reader, ss: seq<Source>): seq<FileEntry> {
    if ss == [] then [] else [EntryOf(reader, ss[0])] + EntriesOf(reader, ss[1..])
  }

  function CountsOf(ss: seq<Source>): seq<Count> {
    if ss == [] then [] else [Count(ss[0].entity, Some(|ss[0].lines|))] + CountsOf(ss[1..])
  }

  function MembersOf(ss: seq<Source>): map<string, seq<Byte>> {
    if ss == [] then map[] else MembersOf(ss[1..])[PathOf(ss[0]) := BodyOf(ss[0].lines, ss[0].ended)]
  }

  function Written(reader: Reader, tenant: string, ss: seq<Source>, media: nat): Archive {
    Archive(
      Read(Manifest(Some(FORMAT_VERSION), Some("FULL"), Some("NONE"), Scope(Some("TENANT"), Some(tenant)),
                    CountsOf(ss), EntriesOf(reader, ss), Some(media))),
      MembersOf(ss), media)
  }

  predicate DistinctEntities(ss: seq<Source>) { forall i, j | 0 <= i < j < |ss| :: ss[i].entity != ss[j].entity }

  /** Entities by distinct plain names, and every line one record. */
  predicate Writable(reader: Reader, ss: seq<Source>) {
    && ss != [] && DistinctEntities(ss)
    && forall s | s in ss ::
         '/' !in s.entity && forall line | line in s.lines :: OneLine(line) && IsRecord(reader, line)
  }

  lemma {:induction false} LineEndsAt(line: seq<Byte>, rest: seq<Byte>)
    requires LF !in line && CR !in line && (rest != [] ==> rest[0] == LF)
    ensures LineLength(line + rest) == |line|
  {
    if line == [] {
      assert line + rest == rest;
    } else {
      assert (line + rest)[1..] == line[1..] + rest;
      LineEndsAt(line[1..], rest);
    }
  }

  /** The lines written are the lines read. */
  lemma {:induction false} LinesReadBack(lines: seq<seq<Byte>>, ended: bool)
    requires forall line | line in lines :: OneLine(line)
    ensures SplitLines(BodyOf(lines, ended)) == lines
  {
    if lines != [] {
      var line, rest := lines[0], Behind(lines, ended);
      assert OneLine(line);
      BodyFromFirst(lines, ended);
      LineEndsAt(line, rest);
      FirstLine(line, rest);
      if |lines| > 1 { LinesReadBack(lines[1..], ended); }
      assert lines == [line] + lines[1..];
    }
  }

  /** What follows the first line. */
  function Behind(lines: seq<seq<Byte>>, ended: bool): seq<Byte>
    requires lines != []
  {
    if |lines| == 1 then (if ended then [LF] else []) else [LF] + BodyOf(lines[1..], ended)
  }

  lemma BodyFromFirst(lines: seq<seq<Byte>>, ended: bool)
    requires lines != []
    ensures BodyOf(lines, ended) == lines[0] + Behind(lines, ended)
    ensures var rest := Behind(lines, ended);
            (if rest == [] then [] else rest[1..]) == if |lines| == 1 then [] else BodyOf(lines[1..], ended)
  {
    if |lines| > 1 {
      assert lines[0] + [LF] + BodyOf(lines[1..], ended) == lines[0] + ([LF] + BodyOf(lines[1..], ended));
    }
  }

  lemma FirstLine(line: seq<Byte>, rest: seq<Byte>)
    requires line != [] && LineLength(line + rest) == |line| && (rest != [] ==> rest[0] == LF)
    ensures SplitLines(line + rest) == [line] + SplitLines(if rest == [] then [] else rest[1..])
  {
    var body := line + rest;
    assert body[..|line|] == line;
    if rest != [] {
      assert body[|line|] == LF && EndLength(body, |line|) == 1;
      assert body[|line| + 1..] == rest[1..];
    } else {
      assert body[|line|..] == [];
    }
  }

  /** A line and what ends it: a line feed, a carriage return, or both as one end. */
  datatype EndedLine = EndedLine(line: seq<Byte>, end: seq<Byte>)

  const ENDS: set<seq<Byte>> := {[LF], [CR], [CR, LF]}

  function TextOf(es: seq<EndedLine>): seq<Byte> { if es == [] then [] else es[0].line + (es[0].end + TextOf(es[1..])) }

  function LinesOf(es: seq<EndedLine>): (lines: seq<seq<Byte>>)
    ensures |lines| == |es| && forall i | 0 <= i < |es| :: lines[i] == es[i].line
  {
    seq(|es|, i requires 0 <= i < |es| => es[i].line)
  }

  lemma {:induction false} LineEndsAtAnEnd(line: seq<Byte>, rest: seq<Byte>)
    requires LF !in line && CR !in line && rest != [] && (rest[0] == LF || rest[0] == CR)
    ensures LineLength(line + rest) == |line|
  {
    if line == [] {
      assert line + rest == rest;
    } else {
      assert (line + rest)[1..] == line[1..] + rest;
      LineEndsAtAnEnd(line[1..], rest);
    }
  }

  lemma EndIsOne(line: seq<Byte>, end: seq<Byte>, rest: seq<Byte>)
    requires OneLine(line) && end in ENDS && (rest != [] ==> rest[0] != LF)
    ensures SplitLines(line + (end + rest)) == [line] + SplitLines(rest)
  {
    var body := line + (end + rest);
    LineEndsAtAnEnd(line, end + rest);
    assert body[..|line|] == line && body[|line|] == end[0];
    assert EndLength(body, |line|) == |end| by {
      if |body| > |line| + 1 { assert body[|line| + 1] == (end + rest)[1]; }
    }
    assert body[|line| + |end|..] == rest;
  }

  predicate AllEnded(es: seq<EndedLine>) { forall e | e in es :: OneLine(e.line) && e.end in ENDS }

  lemma BeginsALine(es: seq<EndedLine>)
    requires AllEnded(es)
    ensures TextOf(es) != [] ==> TextOf(es)[0] != LF
  {
    if es != [] { assert es[0] in es && TextOf(es)[0] == es[0].line[0] && es[0].line[0] in es[0].line; }
  }

  lemma FirstOfEnded(es: seq<EndedLine>)
    requires es != [] && AllEnded(es)
    ensures AllEnded(es[1..]) && OneLine(es[0].line) && es[0].end in ENDS
    ensures LinesOf(es) == [es[0].line] + LinesOf(es[1..])
  {
    assert es[0] in es;
  }

  /** Whatever ends them, the lines are those written. */
  lemma {:induction false} AnyEndReadsBack(es: seq<EndedLine>)
    requires AllEnded(es)
    ensures SplitLines(TextOf(es)) == LinesOf(es)
  {
    if es != [] {
      FirstOfEnded(es);
      BeginsALine(es[1..]);
      EndIsOne(es[0].line, es[0].end, TextOf(es[1..]));
      AnyEndReadsBack(es[1..]);
    }
  }

  lemma {:induction false} EntityAfterSlash(prefix: string, name: string)
    requires '/' !in name
    ensures AfterLastSlash(prefix + "/" + name) == name
  {
    var path := prefix + "/" + name;
    assert path[|prefix|] == '/';
    if prefix == "" {
      assert path[1..] == name;
    } else {
      assert path[1..] == prefix[1..] + "/" + name;
      EntityAfterSlash(prefix[1..], name);
    }
  }

  lemma EntityOfPath(s: Source)
    requires '/' !in s.entity
    ensures Entity(PathOf(s)) == s.entity
  {
    var name := s.entity + ".jsonl";
    assert PathOf(s) == "data" + "/" + name;
    EntityAfterSlash("data", name);
    assert name[|name| - |".jsonl"|..] == ".jsonl" && name[..|name| - |".jsonl"|] == s.entity;
  }

  lemma SamePathSameEntity(a: Source, b: Source)
    requires '/' !in a.entity && '/' !in b.entity && PathOf(a) == PathOf(b)
    ensures a.entity == b.entity
  {
    EntityOfPath(a);
    EntityOfPath(b);
  }

  lemma {:induction false} WrittenHolds(reader: Reader, ss: seq<Source>, s: Source)
    requires DistinctEntities(ss) && s in ss && forall t | t in ss :: '/' !in t.entity
    ensures PathOf(s) in MembersOf(ss) && MembersOf(ss)[PathOf(s)] == BodyOf(s.lines, s.ended)
    ensures CountOf(CountsOf(ss), s.entity) == |s.lines|
  {
    assert ss == [ss[0]] + ss[1..];
    if s != ss[0] {
      assert s in ss[1..];
      var i :| 0 <= i < |ss[1..]| && ss[1..][i] == s;
      assert ss[i + 1] == s;
      assert DistinctEntities(ss[1..]);
      WrittenHolds(reader, ss[1..], s);
      if PathOf(ss[0]) == PathOf(s) { SamePathSameEntity(ss[0], s); }
    }
  }

  lemma {:induction false} EntriesAreOf(reader: Reader, ss: seq<Source>, e: FileEntry)
    requires e in EntriesOf(reader, ss)
    ensures exists s | s in ss :: e == EntryOf(reader, s)
  {
    if e == EntryOf(reader, ss[0]) {
      assert ss[0] in ss;
    } else {
      EntriesAreOf(reader, ss[1..], e);
    }
  }

  lemma {:induction false} CountsAreNumbers(ss: seq<Source>)
    ensures Numbers(CountsOf(ss))
  {
    if ss != [] { CountsAreNumbers(ss[1..]); }
  }

  lemma EntryIsAsWritten(reader: Reader, tenant: string, ss: seq<Source>, media: nat, s: Source)
    requires Writable(reader, ss) && s in ss
    ensures EntryIsRight(reader, Written(reader, tenant, ss, media), CountsOf(ss), EntryOf(reader, s))
  {
    WrittenHolds(reader, ss, s);
    EntityOfPath(s);
    LinesReadBack(s.lines, s.ended);
  }

  /** Whatever a writer of the format writes is accepted, each file ended with a newline or not. */
  lemma WrittenIsConformant(reader: Reader, tenant: string, ss: seq<Source>, media: nat)
    requires Writable(reader, ss)
    ensures Conformant(reader, Written(reader, tenant, ss, media), tenant)
  {
    var a := Written(reader, tenant, ss, media);
    forall e | e in EntriesOf(reader, ss) ensures EntryIsRight(reader, a, CountsOf(ss), e) {
      EntriesAreOf(reader, ss, e);
      var s :| s in ss && e == EntryOf(reader, s);
      EntryIsAsWritten(reader, tenant, ss, media, s);
    }
    CountsAreNumbers(ss);
    assert EntriesOf(reader, ss) != [];
  }

  // ---------------------------------------------------------------- the sum that is printed

  /** The records in the files listed. */
  function TotalRecords(a: Archive, files: seq<FileEntry>): nat {
    if files == [] then 0
    else
      var first := if files[0].path in a.members then |SplitLines(a.members[files[0].path])| else 0;
      first + TotalRecords(a, files[1..])
  }

  /** A JSON object names each entity once. */
  predicate UniqueCounts(
    counts: seq<Count>) { forall i, j | 0 <= i < j < |counts| :: counts[i].entity != counts[j].entity }

  predicate UniqueEntities(files: seq<FileEntry>) {
    forall i, j | 0 <= i < j < |files| :: Entity(files[i].path) != Entity(files[j].path)
  }

  function EntitiesOf(files: seq<FileEntry>): set<string> {
    if files == [] then {} else {Entity(files[0].path)} + EntitiesOf(files[1..])
  }

  /** What is counted within some entities, and without them. */
  function SumWithin(counts: seq<Count>, names: set<string>): int
    requires Numbers(counts)
  {
    if counts == [] then 0
    else (if counts[0].entity in names then counts[0].records.value else 0) + SumWithin(counts[1..], names)
  }

  function SumWithout(counts: seq<Count>, names: set<string>): int
    requires Numbers(counts)
  {
    if counts == [] then 0
    else (if counts[0].entity in names then 0 else counts[0].records.value) + SumWithout(counts[1..], names)
  }

  lemma {:induction false} SumParts(counts: seq<Count>, names: set<string>)
    requires Numbers(counts)
    ensures SumOf(counts) == SumWithin(counts, names) + SumWithout(counts, names)
  {
    if counts != [] { SumParts(counts[1..], names); }
  }

  lemma {:induction false} SumWithNone(counts: seq<Count>)
    requires Numbers(counts)
    ensures SumWithin(counts, {}) == 0
  {
    if counts != [] { SumWithNone(counts[1..]); }
  }

  lemma {:induction false} NotCounted(counts: seq<Count>, name: string)
    requires forall c | c in counts :: c.entity != name
    ensures CountOf(counts, name) == 0
  {
    if counts != [] { NotCounted(counts[1..], name); }
  }

  lemma {:induction false} SumWithOneMore(counts: seq<Count>, names: set<string>, name: string)
    requires Numbers(counts) && UniqueCounts(counts) && name !in names
    ensures SumWithin(counts, names + {name}) == SumWithin(counts, names) + CountOf(counts, name)
  {
    if counts != [] {
      assert UniqueCounts(counts[1..]);
      SumWithOneMore(counts[1..], names, name);
      if counts[0].entity == name {
        forall c | c in counts[1..] ensures c.entity != name {
          var i :| 0 <= i < |counts[1..]| && counts[1..][i] == c;
          assert counts[i + 1] == c;
        }
        NotCounted(counts[1..], name);
      }
    }
  }

  lemma {:induction false} NotAnEntity(files: seq<FileEntry>, name: string)
    requires forall e | e in files :: Entity(e.path) != name
    ensures name !in EntitiesOf(files)
  {
    if files != [] {
      assert files[0] in files;
      NotAnEntity(files[1..], name);
    }
  }

  lemma {:induction false} CountedIsTotal(reader: Reader, a: Archive, counts: seq<Count>, files: seq<FileEntry>)
    requires Numbers(counts) && UniqueCounts(counts) && UniqueEntities(files)
    requires forall e | e in files :: EntryIsRight(reader, a, counts, e)
    ensures SumWithin(counts, EntitiesOf(files)) == TotalRecords(a, files)
  {
    if files == [] {
      SumWithNone(counts);
    } else {
      var first, rest := files[0], files[1..];
      assert first in files && EntryIsRight(reader, a, counts, first);
      CountedIsTotal(reader, a, counts, rest);
      forall e | e in rest ensures Entity(e.path) != Entity(first.path) {
        var i :| 0 <= i < |rest| && rest[i] == e;
        assert files[i + 1] == e;
      }
      NotAnEntity(rest, Entity(first.path));
      SumWithOneMore(counts, EntitiesOf(rest), Entity(first.path));
      assert EntitiesOf(files) == EntitiesOf(rest) + {Entity(first.path)};
    }
  }

  /**
   The sum printed of an accepted archive whose files are of distinct entities is the records in its
   files and what is counted of entities without a file: the total exactly where the latter adds up to
   nought.
   */
  lemma SumIsTotalAndExtra(reader: Reader, a: Archive, tenant: string)
    requires Conformant(reader, a, tenant)
    requires UniqueCounts(a.manifest.manifest.counts) && UniqueEntities(a.manifest.manifest.files)
    ensures var m := a.manifest.manifest;
            SumOf(m.counts) == TotalRecords(a, m.files) + SumWithout(m.counts, EntitiesOf(m.files))
  {
    var m := a.manifest.manifest;
    SumParts(m.counts, EntitiesOf(m.files));
    CountedIsTotal(reader, a, m.counts, m.files);
  }

  lemma {:induction false} CountAppended(counts: seq<Count>, extra: Count, name: string)
    requires extra.entity != name
    ensures CountOf(counts + [extra], name) == CountOf(counts, name)
  {
    if counts != [] {
      assert (counts + [extra])[1..] == counts[1..] + [extra];
      CountAppended(counts[1..], extra, name);
    }
  }

  lemma {:induction false} SumAppended(counts: seq<Count>, extra: Count)
    requires Numbers(counts) && extra.records.Some?
    ensures Numbers(counts + [extra]) && SumOf(counts + [extra]) == SumOf(counts) + extra.records.value
  {
    if counts == [] {
      assert counts + [extra] == [extra] && [extra][1..] == [];
    } else {
      assert (counts + [extra])[1..] == counts[1..] + [extra];
      SumAppended(counts[1..], extra);
    }
  }

  /** An accepted archive stays accepted with an entity counted that has no file; the printed sum is then off by it. */
  lemma AnExtraCountIsAccepted(reader: Reader, a: Archive, tenant: string, extra: Count)
    requires Conformant(reader, a, tenant) && extra.records.Some?
    requires forall e | e in a.manifest.manifest.files :: Entity(e.path) != extra.entity
    ensures var m := a.manifest.manifest;
            var more := a.(manifest := Read(m.(counts := m.counts + [extra])));
            && Conformant(reader, more, tenant)
            && SumOf(more.manifest.manifest.counts) == SumOf(m.counts) + extra.records.value
  {
    var m := a.manifest.manifest;
    var more := a.(manifest := Read(m.(counts := m.counts + [extra])));
    SumAppended(m.counts, extra);
    forall e | e in m.files ensures EntryIsRight(reader, more, m.counts + [extra], e) {
      assert EntryIsRight(reader, a, m.counts, e);
      CountAppended(m.counts, extra, Entity(e.path));
    }
  }
}
