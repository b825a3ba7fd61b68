/**
 The reader of a tenant's export (`scripts/verify-tenant-export.py`): the problems it finds, and
 the archives it accepts. Digests and the reading of one line as JSON are parameters.
 */
module TenantExport {
  import opened Wrappers
  import opened Bytes

  const FORMAT_VERSION := 1

  // ---------------------------------------------------------------- the archive

  datatype Scope = Scope(kind: Option<string>, id: Option<string>)

  datatype FileEntry = FileEntry(path: string, sha256: Option<string>, bytes: Option<int>, records: Option<int>)

  /** One of the manifest's counts; none where it is null. */
  datatype Count = Count(entity: string, records: Option<int>)

  datatype Manifest = Manifest(
    formatVersion: Option<int>, mode: Option<string>, encryption: Option<string>, scope: Scope,
    counts: seq<Count>, files: seq<FileEntry>, mediaCount: Option<int>)

  datatype ManifestFile = NoManifest | Unreadable | Read(manifest: Manifest)

  /** The manifest, the members by path, and how many files lie under `media`. */
  datatype Archive = Archive(manifest: ManifestFile, members: map<string, seq<Byte>>, media: nat)

  /**
   A line as JSON: not JSON, something the reader cannot ask for a field, or a record, with the names of
   its fields and of what its data holds.
   */
  datatype Line = NotJson | NotAnObject | Record(op: Option<string>, fields: set<string>, data: set<string>)

  datatype Reader = Reader(digest: seq<Byte> -> string, parse: seq<Byte> -> Line)

  // ---------------------------------------------------------------- lines

  const LF: Byte := 10
  const CR: Byte := 13

  function LineLength(body: seq<Byte>): (n: nat)
    ensures n <= |body| && LF !in body[..n] && CR !in body[..n] && (n < |body| ==> body[n] == LF || body[n] == CR)
  {
    if body == [] || body[0] == LF || body[0] == CR then 0
    else
      var n := 1 + LineLength(body[1..]);
      assert body[..n] == [body[0]] + body[1..][..n - 1];
      n
  }

  /** How much ends a line that ends at `n`: a carriage return and a line feed are one end. */
  function EndLength(body: seq<Byte>, n: nat): (e: nat)
    requires n <= |body|
    ensures n + e <= |body| && (n < |body| ==> e > 0)
  {
    if n == |body| then 0 else if body[n] == CR && n + 1 < |body| && body[n + 1] == LF then 2 else 1
  }

  /** `bytes.splitlines()`. */
  function SplitLines(body: seq<Byte>): seq<seq<Byte>>
    decreases |body|
  {
    if body == [] then []
    else
      var n := LineLength(body);
      [body[..n]] + SplitLines(body[n + EndLength(body, n)..])
  }

  predicate IsBlank(line: seq<Byte>) { forall b | b in line :: b == 32 || 9 <= b <= 13 }

  // ---------------------------------------------------------------- problems

  datatype Problem =
    | WrongVersion | WrongMode | Encrypted | WrongScope | NoFiles
    | Missing(path: string) | WrongDigest(path: string) | WrongSize(path: string)
    | WrongLines(path: string, found: nat, claimed: int) | WrongCount(entity: string, claimed: int)
    | BlankLine(path: string, number: nat) | Garbled(path: string, number: nat) | WrongOp(path: string, number: nat)
    | NoField(path: string, number: nat, field: string) | CarriesTenant(path: string, number: nat)
    | WrongMedia(present: nat)

  /** The reader can fail outright on a line, which ends it there. */
  datatype Checked = Failed | Found(problems: seq<Problem>)

  function When(c: bool, p: Problem): seq<Problem> { if c then [p] else [] }

  function RecordProblems(path: string, number: nat, r: Line): seq<Problem>
    requires r.Record?
  {
    When(r.op != Some("UPSERT"), WrongOp(path, number))
    + When("id" !in r.fields, NoField(path, number, "id"))
    + When("updated_at" !in r.fields, NoField(path, number, "updated_at"))
    + When("data" !in r.fields, NoField(path, number, "data"))
    + When("tenant_id" in r.data, CarriesTenant(path, number))
  }

  function LineProblems(reader: Reader, path: string, number: nat, line: seq<Byte>): Checked {
    if IsBlank(line) then Found([BlankLine(path, number)])
    else
      match reader.parse(line)
      case NotJson => Found([Garbled(path, number)])
      case NotAnObject => Failed
      case Record(op, fields, data) => Found(RecordProblems(path, number, Record(op, fields, data)))
  }

  function Joined(a: Checked, b: Checked): Checked {
    if a.Failed? || b.Failed? then Failed else Found(a.problems + b.problems)
  }

  function LinesProblems(reader: Reader, path: string, lines: seq<seq<Byte>>): Checked {
    if lines == [] then Found([])
    else
      Joined(LinesProblems(reader, path, lines[..|lines| - 1]),
             LineProblems(reader, path, |lines|, lines[|lines| - 1]))
  }

  function AfterLastSlash(path: string): string {
    if '/' in path then (assert path != ""; AfterLastSlash(path[1..])) else path
  }

  function RemoveSuffix(s: string, suffix: string): string {
    if suffix != "" && |suffix| <= |s| && s[|s| - |suffix|..] == suffix then s[..|s| - |suffix|] else s
  }

  function Entity(path: string): string { RemoveSuffix(AfterLastSlash(path), ".jsonl") }

  /** What is counted of an entity; nothing, and null, are nought. */
  function CountOf(counts: seq<Count>, entity: string): int {
    if counts == [] then 0
    else if counts[0].entity == entity then (if counts[0].records.Some? then counts[0].records.value else 0)
    else CountOf(counts[1..], entity)
  }

  function Claimed(e: FileEntry): int { if e.records.Some? then e.records.value else 0 }

  function MemberProblems(reader: Reader, counts: seq<Count>, e: FileEntry, body: seq<Byte>): seq<Problem> {
    When(e.sha256 != Some(reader.digest(body)), WrongDigest(e.path))
    + When(e.bytes != Some(|body|), WrongSize(e.path))
    + When(|SplitLines(body)| != Claimed(e), WrongLines(e.path, |SplitLines(body)|, Claimed(e)))
    + When(CountOf(counts, Entity(e.path)) != Claimed(e), WrongCount(Entity(e.path), Claimed(e)))
  }

  function EntryProblems(reader: Reader, a: Archive, counts: seq<Count>, e: FileEntry): Checked {
    if e.path !in a.members then Found([Missing(e.path)])
    else
      var body := a.members[e.path];
      Joined(Found(MemberProblems(reader, counts, e, body)), LinesProblems(reader, e.path, SplitLines(body)))
  }

  function EntriesProblems(reader: Reader, a: Archive, counts: seq<Count>, files: seq<FileEntry>): Checked {
    if files == [] then Found([])
    else
      Joined(EntriesProblems(reader, a, counts, files[..|files| - 1]),
             EntryProblems(reader, a, counts, files[|files| - 1]))
  }

  function HeadProblems(m: Manifest, tenant: string): seq<Problem> {
    When(m.formatVersion != Some(FORMAT_VERSION), WrongVersion)
    + When(m.mode != Some("FULL"), WrongMode)
    + When(m.encryption != Some("NONE"), Encrypted)
    + When(m.scope.kind != Some("TENANT") || m.scope.id != Some(tenant), WrongScope)
    + When(m.files == [], NoFiles)
  }

  // ---------------------------------------------------------------- the checks

  method CheckRecord(path: string, number: nat, record: Line) returns (problems: seq<Problem>)
    requires record.Record?
    ensures problems == RecordProblems(path, number, record)
  {
    problems := [];
    if record.op != Some("UPSERT") {
      problems := problems + [WrongOp(path, number)];
    }
    if "id" !in record.fields {
      problems := problems + [NoField(path, number, "id")];
    }
    if "updated_at" !in record.fields {
      problems := problems + [NoField(path, number, "updated_at")];
    }
    if "data" !in record.fields {
      problems := problems + [NoField(path, number, "data")];
    }
    if "tenant_id" in record.data {
      problems := problems + [CarriesTenant(path, number)];
    }
  }

  method ReadRecords(reader: Reader, path: string, body: seq<Byte>) returns (found: Checked)
    ensures found == LinesProblems(reader, path, SplitLines(body))
  {
    var problems: seq<Problem> := [];
    var lines := SplitLines(body);
    for i := 0 to |lines|
      invariant LinesProblems(reader, path, lines[..i]) == Found(problems)
    {
      assert lines[..i + 1][..i] == lines[..i];
      var line := lines[i];
      if IsBlank(line) {
        problems := problems + [BlankLine(path, i + 1)];
        continue;
      }
      var record := reader.parse(line);
      if record.NotJson? {
        problems := problems + [Garbled(path, i + 1)];
        continue;
      }
      if record.NotAnObject? {
        FailsAt(reader, path, lines, i);
        return Failed;
      }
      var own := CheckRecord(path, i + 1, record);
      problems := problems + own;
    }
    assert lines[..|lines|] == lines;
    found := Found(problems);
  }

  lemma {:induction false} FailsAt(reader: Reader, path: string, lines: seq<seq<Byte>>, i: nat)
    requires i < |lines| && LineProblems(reader, path, i + 1, lines[i]).Failed?
    ensures LinesProblems(reader, path, lines).Failed?
  {
    if i < |lines| - 1 { FailsAt(reader, path, lines[..|lines| - 1], i); }
  }

  method CheckMember(reader: Reader, counts: seq<Count>, e: FileEntry, body: seq<Byte>) returns (problems: seq<Problem>)
    ensures problems == MemberProblems(reader, counts, e, body)
  {
    problems := [];
    if Some(reader.digest(body)) != e.sha256 {
      problems := problems + [WrongDigest(e.path)];
    }
    if Some(|body|) != e.bytes {
      problems := problems + [WrongSize(e.path)];
    }
    var records := |SplitLines(body)|;
    var claimed := Claimed(e);
    if records != claimed {
      problems := problems + [WrongLines(e.path, records, claimed)];
    }
    var entity := Entity(e.path);
    if CountOf(counts, entity) != claimed {
      problems := problems + [WrongCount(entity, claimed)];
    }
  }

  method CheckEntry(reader: Reader, a: Archive, counts: seq<Count>, e: FileEntry) returns (found: Checked)
    ensures found == EntryProblems(reader, a, counts, e)
  {
    if e.path !in a.members {
      return Found([Missing(e.path)]);
    }
    var problems := CheckMember(reader, counts, e, a.members[e.path]);
    var read := ReadRecords(reader, e.path, a.members[e.path]);
    found := if read.Failed? then Failed else Found(problems + read.problems);
  }

  method CheckHead(m: Manifest, tenant: string) returns (problems: seq<Problem>)
    ensures problems == HeadProblems(m, tenant)
  {
    problems := [];
    if m.formatVersion != Some(FORMAT_VERSION) {
      problems := problems + [WrongVersion];
    }
    if m.mode != Some("FULL") {
      problems := problems + [WrongMode];
    }
    if m.encryption != Some("NONE") {
      problems := problems + [Encrypted];
    }
    if m.scope.kind != Some("TENANT") || m.scope.id != Some(tenant) {
      problems := problems + [WrongScope];
    }
    if m.files == [] {
      problems := problems + [NoFiles];
    }
  }

  function Numbers(counts: seq<Count>): bool { forall c | c in counts :: c.records.Some? }

  function SumOf(counts: seq<Count>): int
    requires Numbers(counts)
  {
    if counts == [] then 0 else counts[0].records.value + SumOf(counts[1..])
  }

  /** `printed` is the data files, the records counted and the media objects, said of an accepted archive. */
  datatype Verdict = Verdict(code: int, problems: seq<Problem>, printed: Option<(nat, int, nat)>)

  /** `main`: the exit code, with the problems where the reader got to the end of the archive. */
  method Verify(reader: Reader, a: Archive, tenant: string) returns (v: Verdict)
    ensures v.code == 0 || v.code == 1
    ensures v.code == 0 <==> Conformant(reader, a, tenant)
    ensures v.code == 0 ==>
              var m := a.manifest.manifest;
              v.problems == [] && Numbers(m.counts) && v.printed == Some((|m.files|, SumOf(m.counts), a.media))
    ensures a.manifest.Read? ==>
              var m := a.manifest.manifest;
              var entries := EntriesProblems(reader, a, m.counts, m.files);
              entries.Found? ==>
                v.problems == HeadProblems(m, tenant) + entries.problems
                              + When(Some(a.media) != m.mediaCount, WrongMedia(a.media))
  {
    if !a.manifest.Read? {
      return Verdict(1, [], None);
    }
    var m := a.manifest.manifest;
    var problems := CheckHead(m, tenant);
    var found := CheckEntries(reader, a, m.counts, m.files);
    EntriesConform(reader, a, m.counts, m.files);
    HeadConforms(m, tenant);
    if found.Failed? {
      return Verdict(1, problems, None);
    }
    problems := problems + found.problems;
    if Some(a.media) != m.mediaCount {
      problems := problems + [WrongMedia(a.media)];
    }
    if problems != [] {
      return Verdict(1, problems, None);
    }
    if !Numbers(m.counts) {
      return Verdict(1, problems, None);
    }
    v := Verdict(0, [], Some((|m.files|, SumOf(m.counts), a.media)));
  }

  method CheckEntries(reader: Reader, a: Archive, counts: seq<Count>, files: seq<FileEntry>) returns (found: Checked)
    ensures found == EntriesProblems(reader, a, counts, files)
  {
    var problems: seq<Problem> := [];
    for i := 0 to |files|
      invariant EntriesProblems(reader, a, counts, files[..i]) == Found(problems)
    {
      assert files[..i + 1][..i] == files[..i];
      var entry := CheckEntry(reader, a, counts, files[i]);
      if entry.Failed? {
        EntryFailsAt(reader, a, counts, files, i);
        return Failed;
      }
      problems := problems + entry.problems;
    }
    assert files[..|files|] == files;
    found := Found(problems);
  }

  lemma {:induction false} EntryFailsAt(reader: Reader, a: Archive, counts: seq<Count>, files: seq<FileEntry>, i: nat)
    requires i < |files| && EntryProblems(reader, a, counts, files[i]).Failed?
    ensures EntriesProblems(reader, a, counts, files).Failed?
  {
    if i < |files| - 1 { EntryFailsAt(reader, a, counts, files[..|files| - 1], i); }
  }

  // ---------------------------------------------------------------- the definition

  /** A line that is one record of a full export, with no workspace in it. */
  predicate IsRecord(reader: Reader, line: seq<Byte>) {
    && !IsBlank(line)
    && reader.parse(line).Record?
    && reader.parse(line).op == Some("UPSERT")
    && {"id", "updated_at", "data"} <= reader.parse(line).fields
    && "tenant_id" !in reader.parse(line).data
  }

  predicate EntryIsRight(reader: Reader, a: Archive, counts: seq<Count>, e: FileEntry) {
    && e.path in a.members
    && var body := a.members[e.path];
       && e.sha256 == Some(reader.digest(body))
       && e.bytes == Some(|body|)
       && Claimed(e) == |SplitLines(body)| == CountOf(counts, Entity(e.path))
       && forall line | line in SplitLines(body) :: IsRecord(reader, line)
  }

  predicate HeadIsRight(m: Manifest, tenant: string) {
    && m.formatVersion == Some(FORMAT_VERSION) && m.mode == Some("FULL") && m.encryption == Some("NONE")
    && m.scope == Scope(Some("TENANT"), Some(tenant))
    && m.files != []
  }

  /** A conformant archive of a tenant. */
  predicate Conformant(reader: Reader, a: Archive, tenant: string) {
    && a.manifest.Read?
    && var m := a.manifest.manifest;
       && HeadIsRight(m, tenant)
       && (forall e | e in m.files :: EntryIsRight(reader, a, m.counts, e))
       && m.mediaCount == Some(a.media)
       && Numbers(m.counts)
  }

  lemma HeadConforms(m: Manifest, tenant: string)
    ensures HeadProblems(m, tenant) == [] <==> HeadIsRight(m, tenant)
  {}

  lemma LineConforms(reader: Reader, path: string, number: nat, line: seq<Byte>)
    ensures LineProblems(reader, path, number, line) == Found([]) <==> IsRecord(reader, line)
  {
    if !IsBlank(line) && reader.parse(line).Record? {
      var r := reader.parse(line);
      assert LineProblems(reader, path, number, line) == Found(RecordProblems(path, number, r));
    }
  }

  lemma {:induction false} LinesConform(reader: Reader, path: string, lines: seq<seq<Byte>>)
    ensures LinesProblems(reader, path, lines) == Found([]) <==> forall line | line in lines :: IsRecord(reader, line)
  {
    if lines != [] {
      var front, last := lines[..|lines| - 1], lines[|lines| - 1];
      LinesConform(reader, path, front);
      LineConforms(reader, path, |lines|, last);
      assert lines == front + [last];
    }
  }

  lemma EntryConforms(reader: Reader, a: Archive, counts: seq<Count>, e: FileEntry)
    ensures EntryProblems(reader, a, counts, e) == Found([]) <==> EntryIsRight(reader, a, counts, e)
  {
    if e.path in a.members { LinesConform(reader, e.path, SplitLines(a.members[e.path])); }
  }

  lemma {:induction false} EntriesConform(reader: Reader, a: Archive, counts: seq<Count>, files: seq<FileEntry>)
    ensures EntriesProblems(reader, a, counts, files) == Found([])
       <==> forall e | e in files :: EntryIsRight(reader, a, counts, e)
  {
    if files != [] {
      var front, last := files[..|files| - 1], files[|files| - 1];
      EntriesConform(reader, a, counts, front);
      EntryConforms(reader, a, counts, last);
      assert files == front + [last];
    }
  }
}
