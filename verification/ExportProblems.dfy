/**
 What each problem the reader reports says: it is reported exactly where it is so, of the member and of
 the line, counted from 1, that it names.
 */
module ExportProblems {
  import opened Wrappers
  import opened Bytes
  import opened TenantExport
  import opened ExportWriter

  // ---------------------------------------------------------------- lines

  /** The problem is one of this line, the `number`th of the member at `path`. */
  predicate LineHas(reader: Reader, path: string, number: nat, line: seq<Byte>, p: Problem) {
    if IsBlank(line) then p == BlankLine(path, number)
    else if reader.parse(line).NotJson? then p == Garbled(path, number)
    else reader.parse(line).Record? && RecordHas(path, number, reader.parse(line), p)
  }

  predicate RecordHas(path: string, number: nat, r: Line, p: Problem)
    requires r.Record?
  {
    || (p == WrongOp(path, number) && r.op != Some("UPSERT"))
    || (p.NoField? && p == NoField(path, number, p.field) && p.field in {"id", "updated_at", "data"} - r.fields)
    || (p == CarriesTenant(path, number) && "tenant_id" in r.data)
  }

  lemma LineSays(reader: Reader, path: string, number: nat, line: seq<Byte>, p: Problem)
    requires LineProblems(reader, path, number, line).Found?
    ensures p in LineProblems(reader, path, number, line).problems <==> LineHas(reader, path, number, line, p)
  {
    if !IsBlank(line) && reader.parse(line).Record? {
      var r := reader.parse(line);
      assert LineProblems(reader, path, number, line) == Found(RecordProblems(path, number, r));
    }
  }

  /** The problem is one of the line whose place it names. */
  predicate LinesHave(reader: Reader, path: string, lines: seq<seq<Byte>>, p: Problem) {
    exists i: nat :: i < |lines| && LineHas(reader, path, i + 1, lines[i], p)
  }

  lemma {:induction false} LinesSay(reader: Reader, path: string, lines: seq<seq<Byte>>, p: Problem)
    requires LinesProblems(reader, path, lines).Found?
    ensures p in LinesProblems(reader, path, lines).problems <==> LinesHave(reader, path, lines, p)
  {
    if lines != [] {
      var front, last := lines[..|lines| - 1], lines[|lines| - 1];
      LinesSay(reader, path, front, p);
      LineSays(reader, path, |lines|, last, p);
      OneMoreLine(reader, path, front, last, p);
      assert lines == front + [last];
    }
  }

  lemma OneMoreLine(reader: Reader, path: string, front: seq<seq<Byte>>, last: seq<Byte>, p: Problem)
    ensures LinesHave(reader, path, front + [last], p)
       <==> LinesHave(reader, path, front, p) || LineHas(reader, path, |front| + 1, last, p)
  {
    var lines := front + [last];
    if LinesHave(reader, path, front, p) {
      var i: nat :| i < |front| && LineHas(reader, path, i + 1, front[i], p);
      assert lines[i] == front[i];
    }
    if LineHas(reader, path, |front| + 1, last, p) { assert lines[|front|] == last; }
  }

  // ---------------------------------------------------------------- members

  /** The problem is one of this listed member. */
  predicate EntryHas(reader: Reader, a: Archive, counts: seq<Count>, e: FileEntry, p: Problem) {
    if e.path !in a.members then p == Missing(e.path)
    else
      || MemberHas(reader, counts, e, a.members[e.path], p)
      || LinesHave(reader, e.path, SplitLines(a.members[e.path]), p)
  }

  predicate MemberHas(reader: Reader, counts: seq<Count>, e: FileEntry, body: seq<Byte>, p: Problem) {
    var lines, claimed, entity := |SplitLines(body)|, Claimed(e), Entity(e.path);
    || (p == WrongDigest(e.path) && e.sha256 != Some(reader.digest(body)))
    || (p == WrongSize(e.path) && e.bytes != Some(|body|))
    || (p == WrongLines(e.path, lines, claimed) && lines != claimed)
    || (p == WrongCount(entity, claimed) && CountOf(counts, entity) != claimed)
  }

  lemma EntrySays(reader: Reader, a: Archive, counts: seq<Count>, e: FileEntry, p: Problem)
    requires EntryProblems(reader, a, counts, e).Found?
    ensures p in EntryProblems(reader, a, counts, e).problems <==> EntryHas(reader, a, counts, e, p)
  {
    if e.path in a.members {
      var body := a.members[e.path];
      LinesSay(reader, e.path, SplitLines(body), p);
      MemberSays(reader, counts, e, body, p);
    }
  }

  lemma MemberSays(reader: Reader, counts: seq<Count>, e: FileEntry, body: seq<Byte>, p: Problem)
    ensures p in MemberProblems(reader, counts, e, body) <==> MemberHas(reader, counts, e, body, p)
  {}

  lemma {:induction false} EntriesSay(
    reader: Reader, a: Archive, counts: seq<Count>, files: seq<FileEntry>, p: Problem)
    requires EntriesProblems(reader, a, counts, files).Found?
    ensures p in EntriesProblems(reader, a, counts, files).problems
       <==> exists e | e in files :: EntryHas(reader, a, counts, e, p)
  {
    if files != [] {
      var front, last := files[..|files| - 1], files[|files| - 1];
      EntriesSay(reader, a, counts, front, p);
      EntrySays(reader, a, counts, last, p);
      assert forall e :: e in files <==> e in front || e == last by { assert files == front + [last]; }
    }
  }

  /** What is counted of an entity is its first count's number; null, and no count at all, are nought. */
  lemma {:induction false} CountSays(counts: seq<Count>, entity: string, i: nat)
    requires i <= |counts| && (forall j | 0 <= j < i :: counts[j].entity != entity)
    requires i < |counts| ==> counts[i].entity == entity
    ensures CountOf(counts, entity)
         == if i < |counts| && counts[i].records.Some? then counts[i].records.value else 0
  {
    if i > 0 {
      assert forall j | 0 <= j < i - 1 :: counts[1..][j] == counts[j + 1];
      CountSays(counts[1..], entity, i - 1);
    }
  }

  /** A member's entity is its name behind the last slash, without the ending. */
  lemma {:induction false} EntitySays(folder: string, name: string)
    requires '/' !in name
    ensures AfterLastSlash(folder + "/" + name) == name && AfterLastSlash(name) == name
    ensures (|name| < 6 || name[|name| - 6..] != ".jsonl") ==> Entity(folder + "/" + name) == name
    ensures Entity(folder + "/" + (name + ".jsonl")) == name
  {
    EntityAfterSlash(folder, name);
    var ended := name + ".jsonl";
    EntityAfterSlash(folder, ended);
    assert ended[|ended| - |".jsonl"|..] == ".jsonl" && ended[..|ended| - |".jsonl"|] == name;
  }

  // ---------------------------------------------------------------- the archive

  /** The problem is one of the manifest's own fields. */
  predicate HeadHas(m: Manifest, tenant: string, p: Problem) {
    || (p == WrongVersion && m.formatVersion != Some(1))
    || (p == WrongMode && m.mode != Some("FULL"))
    || (p == Encrypted && m.encryption != Some("NONE"))
    || (p == WrongScope && m.scope != Scope(Some("TENANT"), Some(tenant)))
    || (p == NoFiles && m.files == [])
  }

  lemma HeadSays(m: Manifest, tenant: string, p: Problem)
    ensures p in HeadProblems(m, tenant) <==> HeadHas(m, tenant, p)
  {}

  /** The problem is one of the manifest, of a member it lists, or of the media. */
  predicate ArchiveHas(reader: Reader, a: Archive, m: Manifest, tenant: string, p: Problem) {
    || HeadHas(m, tenant, p)
    || (exists e | e in m.files :: EntryHas(reader, a, m.counts, e, p))
    || (p == WrongMedia(a.media) && m.mediaCount != Some(a.media))
  }

  /** A reader that gets to the end of an archive reports exactly the problems it has. */
  lemma ReportsExactlyWhatIsSo(reader: Reader, a: Archive, tenant: string, p: Problem)
    requires a.manifest.Read?
    requires EntriesProblems(reader, a, a.manifest.manifest.counts, a.manifest.manifest.files).Found?
    ensures var m := a.manifest.manifest;
            p in HeadProblems(m, tenant) + EntriesProblems(reader, a, m.counts, m.files).problems
                 + When(Some(a.media) != m.mediaCount, WrongMedia(a.media))
            <==> ArchiveHas(reader, a, m, tenant, p)
  {
    var m := a.manifest.manifest;
    HeadSays(m, tenant, p);
    EntriesSay(reader, a, m.counts, m.files, p);
  }
}
