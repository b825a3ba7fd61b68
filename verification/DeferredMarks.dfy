/**
 The marks a deferred showcase ends with: the ones a run without `--voices` writes, under each
 object's own final identifier, except those of other people's time records.
 */
module DeferredMarks {
  import opened Wrappers
  import opened Voices
  import opened Showcase
  import opened Replay
  import opened Templates
  import opened Program
  import opened Deferred
  import Marks

  /** The object a key is marked for, and at which version. */
  function StoredAt(marks: map<string, Stored>, key: string): Option<Stored> {
    if key in marks then Some(marks[key]) else None
  }

  function KeyOf(s: Show, i: nat): string
    requires i < |s.lines| && s.lines[i].op.Make?
  {
    s.lines[i].op.key
  }

  // ---------------------------------------------------------------- what hubctl marks itself

  /** Line `i` has made its object at once, which is marked, or pending where its mark waits for the version. */
  ghost predicate PlacedAt(s: Show, r: Run, i: nat, version: Option<int>)
    requires i < |s.lines|
  {
    var op := s.lines[i].op;
    op.Make? ==>
      if Versioned(op.kind) then Pending(Mark(op.key, op.kind), s.ids(i)) in r.pending
      else StoredAt(r.site.marks, op.key) == Some(Stored(s.ids(i), version))
  }

  /** What line `n` leaves of a run to mark: its own object's mark or pending mark, where it made one at once. */
  ghost predicate MarksNext(s: Show, voices: bool, r: Run, r': Run, n: nat, version: Option<int>)
    requires n < |s.lines|
  {
    var op := s.lines[n].op;
    if FateOf(s, voices, n) != Sent || !op.Make? then r'.pending == r.pending && r'.site.marks == r.site.marks
    else if Versioned(op.kind) then r'.pending == r.pending + [PendingAt(s, n)] && r'.site.marks == r.site.marks
    else
      && r'.pending == r.pending
      && StoredAt(r'.site.marks, op.key) == Some(Stored(s.ids(n), version))
      && forall k | k != op.key :: StoredAt(r'.site.marks, k) == StoredAt(r.site.marks, k)
  }

  lemma LineMarks(s: Show, voices: bool, site: Site, lucks: nat -> Luck, n: nat)
    requires n < |s.lines| && WellFormed(s) && Lucky(s, lucks) && s.held == Ids(site.marks)
    ensures MarksNext(s, voices, RunAt(s, voices, site, lucks, n), RunAt(s, voices, site, lucks, n + 1), n,
                      VersionMade(lucks(n)))
  {
    Stepped(s, voices, site, lucks, n);
  }

  lemma IsPlaced(
    s: Show, voices: bool, r: Run, r': Run, n: nat, version': Option<int>, i: nat, version: Option<int>)
    requires i <= n < |s.lines| && FateOf(s, voices, i) == Sent && OwnKeys(s, i, n)
    requires MarksNext(s, voices, r, r', n, version')
    requires if i < n then PlacedAt(s, r, i, version) else version == version'
    ensures PlacedAt(s, r', i, version)
  {}

  /** The run after `n` lines. */
  function RunAt(s: Show, voices: bool, site: Site, lucks: nat -> Luck, n: nat): Run
    requires n <= |s.lines|
  {
    Performed(voices, site, s.lines, lucks, n).run
  }

  lemma {:induction false} SentIsPlaced(s: Show, voices: bool, site: Site, lucks: nat -> Luck, n: nat, i: nat)
    requires i < n <= |s.lines| && WellFormed(s) && Lucky(s, lucks) && s.held == Ids(site.marks)
    requires FateOf(s, voices, i) == Sent
    ensures PlacedAt(s, RunAt(s, voices, site, lucks, n), i, VersionMade(lucks(i)))
  {
    if i < n - 1 { SentIsPlaced(s, voices, site, lucks, n - 1, i); }
    StaysPlaced(s, voices, site, lucks, n - 1, i);
  }

  lemma StaysPlaced(s: Show, voices: bool, site: Site, lucks: nat -> Luck, n: nat, i: nat)
    requires i <= n < |s.lines| && WellFormed(s) && Lucky(s, lucks) && s.held == Ids(site.marks)
    requires FateOf(s, voices, i) == Sent
    requires i < n ==> PlacedAt(s, RunAt(s, voices, site, lucks, n), i, VersionMade(lucks(i)))
    ensures PlacedAt(s, RunAt(s, voices, site, lucks, n + 1), i, VersionMade(lucks(i)))
  {
    LineMarks(s, voices, site, lucks, n);
    assert OwnKeys(s, i, n);
    IsPlaced(s, voices, RunAt(s, voices, site, lucks, n), RunAt(s, voices, site, lucks, n + 1), n,
             VersionMade(lucks(n)), i, VersionMade(lucks(i)));
  }

  /** The line a pending mark comes from. */
  ghost predicate PendingOf(s: Show, voices: bool, n: nat, p: Pending, i: nat)
    requires n <= |s.lines|
  {
    && i < n && FateOf(s, voices, i) == Sent && s.lines[i].op.Make?
    && p == PendingAt(s, i) && Versioned(s.lines[i].op.kind)
  }

  lemma {:induction false} PendingComesFrom(s: Show, voices: bool, site: Site, lucks: nat -> Luck, n: nat, p: Pending)
    returns (i: nat)
    requires n <= |s.lines| && WellFormed(s) && Lucky(s, lucks) && s.held == Ids(site.marks)
    requires p in Performed(voices, site, s.lines, lucks, n).run.pending
    ensures PendingOf(s, voices, n, p, i)
  {
    if p in Performed(voices, site, s.lines, lucks, n - 1).run.pending {
      i := PendingComesFrom(s, voices, site, lucks, n - 1, p);
    } else {
      i := n - 1;
      NewlyPending(s, voices, site, lucks, n - 1, p);
    }
  }

  lemma NewlyPending(s: Show, voices: bool, site: Site, lucks: nat -> Luck, n: nat, p: Pending)
    requires n < |s.lines| && WellFormed(s) && Lucky(s, lucks) && s.held == Ids(site.marks)
    requires p in RunAt(s, voices, site, lucks, n + 1).pending && p !in RunAt(s, voices, site, lucks, n).pending
    ensures PendingOf(s, voices, n + 1, p, n)
  {
    LineMarks(s, voices, site, lucks, n);
  }

  // ---------------------------------------------------------------- the flush of a run without voices

  ghost predicate Unhindered(fs: nat -> Flushing, n: nat) { fs(n).read && fs(n).marking.Kept? }

  lemma FlushMarksOne(r: Run, p: Pending, f: Flushing)
    requires !r.voices
    ensures var r' := FlushedOne(r, p, f);
            && !r'.voices
            && (f.read && f.marking.Kept? ==>
                  StoredAt(r'.site.marks, p.mark.key) == Some(Stored(p.id, VersionAt(r.site, p.id))))
            && forall k | k != p.mark.key :: StoredAt(r'.site.marks, k) == StoredAt(r.site.marks, k)
  {}

  lemma {:induction false} FlushKeepsKey(r: Run, fs: nat -> Flushing, n: nat, key: string)
    requires n <= |r.pending| && !r.voices
    ensures !FlushedFirst(r, fs, n).voices
    ensures (forall i | 0 <= i < n :: r.pending[i].mark.key != key) ==>
              StoredAt(FlushedFirst(r, fs, n).site.marks, key) == StoredAt(r.site.marks, key)
  {
    if n > 0 {
      FlushKeepsKey(r, fs, n - 1, key);
      FlushMarksOne(FlushedFirst(r, fs, n - 1), r.pending[n - 1], fs(n - 1));
    }
  }

  ghost predicate AllUnhindered(fs: nat -> Flushing) { forall i: nat :: Unhindered(fs, i) }

  /** A flush in which nothing fails marks every pending object whose key is its own, at the version it has by then. */
  lemma {:induction false} FlushMarks(r: Run, fs: nat -> Flushing, n: nat, i: nat)
    requires i < n <= |r.pending| && !r.voices && AllUnhindered(fs) && KeyIsOwn(r.pending, i)
    ensures StoredAt(FlushedFirst(r, fs, n).site.marks, r.pending[i].mark.key)
         == Some(Stored(r.pending[i].id, VersionAt(r.site, r.pending[i].id)))
  {
    Marks.FlushLeavesVersions(r, fs, n - 1);
    if i < n - 1 { FlushMarks(r, fs, n - 1, i); }
    FlushMarksOwnNext(FlushedFirst(r, fs, n - 1), r.pending, fs, n, i, VersionAt(r.site, r.pending[i].id));
  }

  lemma FlushMarksOwnNext(r: Run, ps: seq<Pending>, fs: nat -> Flushing, n: nat, i: nat, version: Option<int>)
    requires i < n <= |ps| && !r.voices && AllUnhindered(fs) && KeyIsOwn(ps, i)
    requires if i < n - 1 then StoredAt(r.site.marks, ps[i].mark.key) == Some(Stored(ps[i].id, version))
             else version == VersionAt(r.site, ps[i].id)
    ensures StoredAt(FlushedOne(r, ps[n - 1], fs(n - 1)).site.marks, ps[i].mark.key)
         == Some(Stored(ps[i].id, version))
  {
    assert Unhindered(fs, n - 1);
    FlushMarksOne(r, ps[n - 1], fs(n - 1));
    if i < n - 1 { OtherKey(ps, i, n - 1); }
  }

  predicate KeyIsOwn(ps: seq<Pending>, i: nat)
    requires i < |ps|
  {
    forall j | 0 <= j < |ps| && j != i :: ps[j].mark.key != ps[i].mark.key
  }

  lemma OtherKey(ps: seq<Pending>, i: nat, j: nat)
    requires i < |ps| && j < |ps| && j != i && KeyIsOwn(ps, i)
    ensures ps[j].mark.key != ps[i].mark.key
  {}

  // ---------------------------------------------------------------- the marks of a replay

  predicate MarksKey(v: Voice, key: string) { v.mark.Some? && v.mark.value.key == key }

  /** What a voice marks: what its call made, or what a MARK's read answered, as it stood then. */
  function MarkedAs(v: Voice, o: Outcome): Stored
    requires o.answer.Answered?
  {
    Stored(if v.verb == "MARK" then o.answer.id else Identifier(o.answer), o.answer.version)
  }

  lemma TurnMarks(d: Done, k: nat, v: Voice, speakers: set<string>, o: Outcome, key: string)
    requires Ready(v, speakers, d.made) && !o.answer.Refused? && o.markKept
    ensures StoredAt(Step(d, k, v, speakers, o).marks, key)
         == if MarksKey(v, key) && o.answer.Answered? && (v.verb == "MARK" || Identifier(o.answer) != "")
            then Some(MarkedAs(v, o)) else StoredAt(d.marks, key)
  {}

  lemma {:induction false} ReplayMarks(
    start: Done, vs: seq<Voice>, speakers: set<string>, os: nat -> Outcome, n: nat, k: nat, key: string)
    requires k < n <= |vs| && start.calls == []
    requires forall j | 0 <= j < |vs| :: IsSent(start, vs, speakers, os, j)
    requires forall j: nat :: AcceptedAt(os, j)
    requires os(k).answer.Answered?
    requires MarksKey(vs[k], key) && (vs[k].verb == "MARK" || Identifier(os(k).answer) != "")
    requires forall j | 0 <= j < |vs| && j != k :: !MarksKey(vs[j], key)
    ensures StoredAt(Replayed(start, vs, speakers, os, n).marks, key) == Some(MarkedAs(vs[k], os(k)))
  {
    assert AcceptedAt(os, n - 1) && IsSent(start, vs, speakers, os, n - 1);
    TurnMarks(Replayed(start, vs, speakers, os, n - 1), n - 1, vs[n - 1], speakers, os(n - 1), key);
    if k < n - 1 { ReplayMarks(start, vs, speakers, os, n - 1, k, key); }
  }

  lemma {:induction false} ReplayLeaves(
    start: Done, vs: seq<Voice>, speakers: set<string>, os: nat -> Outcome, n: nat, key: string)
    requires n <= |vs| && forall j | 0 <= j < |vs| :: !MarksKey(vs[j], key)
    ensures StoredAt(Replayed(start, vs, speakers, os, n).marks, key) == StoredAt(start.marks, key)
  {
    if n > 0 { ReplayLeaves(start, vs, speakers, os, n - 1, key); }
  }

  // ---------------------------------------------------------------- every voice is sent

  /** A MARK's read answers the object at its path. */
  ghost predicate ReadsItself(vs: seq<Voice>, os: nat -> Outcome) {
    forall k: nat, id | k < |vs| && vs[k].mark.Some? && vs[k].path == ReadPath(vs[k].mark.value.kind, id) ::
      vs[k].verb == "MARK" ==> os(k).answer.Answered? && os(k).answer.id == id
  }

  lemma EveryVoiceIsSent(s: Show, vs: seq<Voice>, start: Done, speakers: set<string>, os: nat -> Outcome, k: nat)
    requires start.calls == [] && Replayable(s, vs, speakers, os) && k < |vs|
    ensures IsSent(start, vs, speakers, os, k)
  {
    var ids := Spelled(SlotsTo(s, true, |s.lines|));
    QueueSize(s, |s.lines|, ids);
    if k < Place(s, true, |s.lines|) {
      var i := LineAtPlace(s, |s.lines|, k);
      QueueReplays(s, vs, start, speakers, os, i);
      QueuedReady(s, vs, speakers, os, i, Replayed(start, vs, speakers, os, k).made);
    } else {
      assert MarkAt(vs, k);
    }
  }

  lemma {:induction false} LineAtPlace(s: Show, n: nat, k: nat) returns (i: nat)
    requires n <= |s.lines| && k < Place(s, true, n)
    ensures i < n && FateOf(s, true, i) == Queued && Place(s, true, i) == k
  {
    if k < Place(s, true, n - 1) { i := LineAtPlace(s, n - 1, k); } else { i := n - 1; }
  }

  // ---------------------------------------------------------------- each mark is one line's

  function PendingAt(s: Show, i: nat): Pending
    requires i < |s.lines| && s.lines[i].op.Make?
  {
    Pending(Mark(s.lines[i].op.key, s.lines[i].op.kind), s.ids(i))
  }

  function MarkVoiceOf(s: Show, i: nat): Voice
    requires i < |s.lines| && s.lines[i].op.Make?
  {
    MarkVoice(PendingAt(s, i))
  }

  /** The line whose object voice `k` of a showcase's queue marks. */
  lemma MarkingLine(s: Show, site: Site, lucks: nat -> Luck, fs: nat -> Flushing, k: nat) returns (i: nat)
    requires WellFormed(s) && Lucky(s, lucks) && s.held == Ids(site.marks)
    requires k < |Ran(true, site, s.lines, lucks, fs).spoken|
    requires Ran(true, site, s.lines, lucks, fs).spoken[k].mark.Some?
    ensures MarkedFrom(s, Ran(true, site, s.lines, lucks, fs).spoken[k], k, i)
  {
    var r := RunAt(s, true, site, lucks, |s.lines|);
    QueueThenMarks(s, site, lucks, fs);
    if k < Place(s, true, |s.lines|) {
      i := QueuedMarkingLine(s, site, lucks, k);
    } else {
      i := PendingMarkingLine(s, site, lucks, k - |r.spoken|, k);
    }
  }

  /** Voice `v`, at place `k`, marks line `i`'s object: its own voice, or the MARK left for it. */
  ghost predicate MarkedFrom(s: Show, v: Voice, k: nat, i: nat) {
    && v.mark.Some? && i < |s.lines| && s.lines[i].op.Make? && v.mark.value.key == KeyOf(s, i)
    && FateOf(s, true, i) == (if k < Place(s, true, |s.lines|) then Queued else Sent)
    && (FateOf(s, true, i) == Queued ==> Place(s, true, i) == k)
    && (FateOf(s, true, i) == Sent ==> Versioned(s.lines[i].op.kind) && v == MarkVoiceOf(s, i))
  }

  lemma QueuedMarkingLine(s: Show, site: Site, lucks: nat -> Luck, k: nat) returns (i: nat)
    requires WellFormed(s) && Lucky(s, lucks) && s.held == Ids(site.marks)
    requires k < Place(s, true, |s.lines|) == |RunAt(s, true, site, lucks, |s.lines|).spoken|
    requires RunAt(s, true, site, lucks, |s.lines|).spoken[k].mark.Some?
    ensures MarkedFrom(s, RunAt(s, true, site, lucks, |s.lines|).spoken[k], k, i)
  {
    var ids := Spelled(SlotsTo(s, true, |s.lines|));
    SpelledServes(s, true, Queued);
    SpokenSoFar(s, true, site, lucks, |s.lines|, ids);
    i := LineAtPlace(s, |s.lines|, k);
    VoiceAtPlace(s, i, |s.lines|, ids);
  }

  lemma PendingMarkingLine(s: Show, site: Site, lucks: nat -> Luck, p: nat, k: nat) returns (i: nat)
    requires WellFormed(s) && Lucky(s, lucks) && s.held == Ids(site.marks)
    requires p < |RunAt(s, true, site, lucks, |s.lines|).pending| && k >= Place(s, true, |s.lines|)
    ensures MarkedFrom(s, MarkVoice(RunAt(s, true, site, lucks, |s.lines|).pending[p]), k, i)
  {
    i := PendingComesFrom(s, true, site, lucks, |s.lines|, RunAt(s, true, site, lucks, |s.lines|).pending[p]);
  }

  lemma OneLinePerKey(s: Show, i: nat, j: nat)
    requires WellFormed(s) && i < |s.lines| && j < |s.lines|
    requires s.lines[i].op.Make? && s.lines[j].op.Make? && KeyOf(s, i) == KeyOf(s, j)
    ensures i == j
  {
    assert OwnKeys(s, i, j);
  }

  lemma {:induction false} PendingIsDistinct(s: Show, voices: bool, site: Site, lucks: nat -> Luck, n: nat)
    requires n <= |s.lines| && WellFormed(s) && Lucky(s, lucks) && s.held == Ids(site.marks)
    ensures Marks.DistinctKeys(Performed(voices, site, s.lines, lucks, n).run.pending)
  {
    if n > 0 {
      PendingIsDistinct(s, voices, site, lucks, n - 1);
      LineMarks(s, voices, site, lucks, n - 1);
      var ps := Performed(voices, site, s.lines, lucks, n - 1).run.pending;
      if s.lines[n - 1].op.Make? {
        forall j | 0 <= j < |ps| ensures ps[j].mark.key != KeyOf(s, n - 1) {
          var i := PendingComesFrom(s, voices, site, lucks, n - 1, ps[j]);
          assert OwnKeys(s, i, n - 1);
        }
        DistinctNext(ps, PendingAt(s, n - 1));
      }
    }
  }

  lemma DistinctNext(ps: seq<Pending>, p: Pending)
    requires Marks.DistinctKeys(ps) && forall j | 0 <= j < |ps| :: ps[j].mark.key != p.mark.key
    ensures Marks.DistinctKeys(ps + [p])
  {}

  // ---------------------------------------------------------------- the same marks

  /**
   A run without voices ends with every new object marked under its identifier, a versioned one at the
   version it ends with and any other at that of its creation.
   */
  lemma DirectMarks(s: Show, site: Site, lucks: nat -> Luck, fs: nat -> Flushing, i: nat)
    requires WellFormed(s) && Lucky(s, lucks) && s.held == Ids(site.marks)
    requires i < |s.lines| && IsNew(s, false, i) && forall i: nat :: Unhindered(fs, i)
    ensures var r := Ran(false, site, s.lines, lucks, fs);
            var version := if Versioned(s.lines[i].op.kind) then VersionAt(r.site, s.ids(i)) else VersionMade(lucks(i));
            StoredAt(r.site.marks, KeyOf(s, i)) == Some(Stored(s.ids(i), version))
  {
    var n := |s.lines|;
    var r := Performed(false, site, s.lines, lucks, n).run;
    NothingQueued(s, i);
    SentIsPlaced(s, false, site, lucks, n, i);
    RunIsDescribed(s, false, site, lucks, n);
    PendingIsDistinct(s, false, site, lucks, n);
    if Versioned(s.lines[i].op.kind) {
      assert PendingAt(s, i) in r.pending;
      var j :| 0 <= j < |r.pending| && r.pending[j] == PendingAt(s, i);
      assert r.pending[j].mark.key == KeyOf(s, i) && r.pending[j].id == s.ids(i);
      assert KeyIsOwn(r.pending, j) && AllUnhindered(fs);
      FlushMarks(r, fs, |r.pending|, j);
      Marks.FlushLeavesVersions(r, fs, |r.pending|);
    } else {
      forall j | 0 <= j < |r.pending| ensures r.pending[j].mark.key != KeyOf(s, i) {
        var l := PendingComesFrom(s, false, site, lucks, n, r.pending[j]);
        assert OwnKeys(s, i, l);
      }
      FlushKeepsKey(r, fs, |r.pending|, KeyOf(s, i));
    }
  }

  /** Hubctl's own marks of a run with voices: objects made at once and not waiting for their version to settle. */
  lemma AtOnceMarks(s: Show, site: Site, lucks: nat -> Luck, fs: nat -> Flushing, i: nat)
    requires WellFormed(s) && Lucky(s, lucks) && s.held == Ids(site.marks) && i < |s.lines| && IsNew(s, true, i)
    ensures StoredAt(Ran(true, site, s.lines, lucks, fs).site.marks, KeyOf(s, i))
         == if FateOf(s, true, i) == Sent && !Versioned(s.lines[i].op.kind)
            then Some(Stored(s.ids(i), VersionMade(lucks(i)))) else None
  {
    var n := |s.lines|;
    var r := Performed(true, site, s.lines, lucks, n).run;
    RunIsDescribed(s, true, site, lucks, n);
    FlushLeavesMarks(r, fs, |r.pending|);
    NewIsNotHeld(s, true, i);
    if FateOf(s, true, i) == Sent && !Versioned(s.lines[i].op.kind) {
      SentIsPlaced(s, true, site, lucks, n, i);
    } else {
      NotMarkedAtOnce(s, site, lucks, n, i);
    }
  }

  lemma {:induction false} FlushLeavesMarks(r: Run, fs: nat -> Flushing, n: nat)
    requires n <= |r.pending| && r.voices
    ensures FlushedFirst(r, fs, n).voices && FlushedFirst(r, fs, n).site.marks == r.site.marks
  {
    if n > 0 { FlushLeavesMarks(r, fs, n - 1); }
  }

  /** Line `i` makes an object that hubctl does not mark at once. */
  ghost predicate LeftUnmarked(s: Show, i: nat)
    requires i < |s.lines|
  {
    IsNew(s, true, i) && !(FateOf(s, true, i) == Sent && !Versioned(s.lines[i].op.kind))
  }

  lemma StaysUnmarked(s: Show, r: Run, r': Run, n: nat, version: Option<int>, i: nat)
    requires n < |s.lines| && i < |s.lines| && LeftUnmarked(s, i) && OwnKeys(s, i, n)
    requires MarksNext(s, true, r, r', n, version)
    requires StoredAt(r.site.marks, KeyOf(s, i)) == None
    ensures StoredAt(r'.site.marks, KeyOf(s, i)) == None
  {}

  lemma {:induction false} NotMarkedAtOnce(s: Show, site: Site, lucks: nat -> Luck, n: nat, i: nat)
    requires n <= |s.lines| && WellFormed(s) && Lucky(s, lucks) && s.held == Ids(site.marks)
    requires i < |s.lines| && LeftUnmarked(s, i)
    ensures StoredAt(RunAt(s, true, site, lucks, n).site.marks, KeyOf(s, i)) == None
  {
    if n == 0 {
      NewIsNotHeld(s, true, i);
    } else {
      NotMarkedAtOnce(s, site, lucks, n - 1, i);
      NotMarkedNext(s, site, lucks, n - 1, i);
    }
  }

  lemma NotMarkedNext(s: Show, site: Site, lucks: nat -> Luck, n: nat, i: nat)
    requires n < |s.lines| && WellFormed(s) && Lucky(s, lucks) && s.held == Ids(site.marks)
    requires i < |s.lines| && LeftUnmarked(s, i)
    requires StoredAt(RunAt(s, true, site, lucks, n).site.marks, KeyOf(s, i)) == None
    ensures StoredAt(RunAt(s, true, site, lucks, n + 1).site.marks, KeyOf(s, i)) == None
  {
    LineMarks(s, true, site, lucks, n);
    assert OwnKeys(s, i, n);
    StaysUnmarked(s, RunAt(s, true, site, lucks, n), RunAt(s, true, site, lucks, n + 1), n, VersionMade(lucks(n)), i);
  }

  /** What marks line `i`'s object in the end, under its final identifier. */
  ghost predicate MarkedInTheEnd(
    s: Show, vs: seq<Voice>, luck: Luck, os: nat -> Outcome, marks: map<string, Stored>, i: nat)
    requires i < |s.lines| && s.lines[i].op.Make?
  {
    var op, stored := s.lines[i].op, StoredAt(marks, KeyOf(s, i));
    if FateOf(s, true, i) == Queued then
      stored == if op.kind == "TIME_RECORD" && op.speaker != "" then None else Some(MadeByVoice(os(Place(s, true, i))))
    else if Versioned(op.kind) then
      exists k: nat :: MarkedByVoice(s, vs, os, i, k) && stored == Some(Stored(s.ids(i), VersionRead(os(k))))
    else stored == Some(Stored(s.ids(i), VersionMade(luck)))
  }

  function VersionRead(o: Outcome): Option<int> { if o.answer.Answered? then o.answer.version else None }

  function MadeByVoice(o: Outcome): Stored { Stored(Given(o), VersionRead(o)) }

  /** Voice `k` stands behind every write of the queue, and reads what line `i` made. */
  ghost predicate MarkedByVoice(s: Show, vs: seq<Voice>, os: nat -> Outcome, i: nat, k: nat)
    requires i < |s.lines| && s.lines[i].op.Make?
  {
    Place(s, true, |s.lines|) <= k < |vs| && vs[k] == MarkVoiceOf(s, i)
  }

  /**
   After the replay every new object carries its mark under its final identifier, as in a run
   without voices, except another person's time record, which is not marked at all. A versioned object
   is marked at the version its read answers behind every write of the queue where hubctl made it, and
   at the version its creation answered where a voice did.
   */
  lemma DeferredMarksMatch(
    s: Show, site: Site, lucks: nat -> Luck, fs: nat -> Flushing, speakers: set<string>, os: nat -> Outcome, i: nat)
    requires WellFormed(s) && Lucky(s, lucks) && s.held == Ids(site.marks)
    requires AllSignedIn(s, speakers) && LuckyReplay(s, os) && i < |s.lines| && IsNew(s, true, i)
    requires ReadsItself(Ran(true, site, s.lines, lucks, fs).spoken, os)
    ensures var v := Ran(true, site, s.lines, lucks, fs);
            var replay := Replayed(Done(map[], [], [], v.site.marks), v.spoken, speakers, os, |v.spoken|);
            MarkedInTheEnd(s, v.spoken, lucks(i), os, replay.marks, i)
  {
    var v, key, op := Ran(true, site, s.lines, lucks, fs), KeyOf(s, i), s.lines[i].op;
    var vs, start := v.spoken, Done(map[], [], [], v.site.marks);
    AtOnceMarks(s, site, lucks, fs, i);
    RunQueues(s, site, lucks, fs);
    if (FateOf(s, true, i) == Queued && MarkOf(op.speaker, op.key, op.kind).Some?)
       || (FateOf(s, true, i) == Sent && Versioned(op.kind)) {
      var k := MarkPlace(s, site, lucks, fs, i);
      forall j: nat | j < |vs| ensures IsSent(start, vs, speakers, os, j) {
        EveryVoiceIsSent(s, vs, start, speakers, os, j);
      }
      assert AcceptedAt(os, k) && NamedAt(s, os, i);
      if FateOf(s, true, i) == Sent { assert vs[k].path == ReadPath(op.kind, s.ids(i)); }
      ReplayMarks(start, vs, speakers, os, |vs|, k, key);
    } else {
      NoVoiceMarks(s, site, lucks, fs, i);
      ReplayLeaves(start, vs, speakers, os, |vs|, key);
    }
  }

  /** Nothing left to the voices marks an object hubctl marked itself, or another person's time record. */
  lemma NoVoiceMarks(s: Show, site: Site, lucks: nat -> Luck, fs: nat -> Flushing, i: nat)
    requires WellFormed(s) && Lucky(s, lucks) && s.held == Ids(site.marks) && i < |s.lines| && s.lines[i].op.Make?
    requires var op := s.lines[i].op;
             if FateOf(s, true, i) == Queued then MarkOf(op.speaker, op.key, op.kind).None?
             else FateOf(s, true, i) == Sent && !Versioned(op.kind)
    ensures var vs := Ran(true, site, s.lines, lucks, fs).spoken;
            forall j: nat | j < |vs| :: !MarksKey(vs[j], KeyOf(s, i))
  {
    var vs := Ran(true, site, s.lines, lucks, fs).spoken;
    forall j: nat | j < |vs| ensures !MarksKey(vs[j], KeyOf(s, i)) {
      if MarksKey(vs[j], KeyOf(s, i)) {
        var l := MarkingLine(s, site, lucks, fs, j);
        OneLinePerKey(s, i, l);
        if FateOf(s, true, i) == Queued { VoiceOfLine(s, site, lucks, fs, i); }
      }
    }
  }

  lemma VoiceOfLine(s: Show, site: Site, lucks: nat -> Luck, fs: nat -> Flushing, i: nat)
    requires WellFormed(s) && Lucky(s, lucks) && s.held == Ids(site.marks)
    requires i < |s.lines| && FateOf(s, true, i) == Queued
    ensures var vs := Ran(true, site, s.lines, lucks, fs).spoken;
            Place(s, true, i) < |vs|
            && vs[Place(s, true, i)] == VoiceFor(s.lines[i].op, Spelled(SlotsTo(s, true, |s.lines|)))
  {
    RunQueues(s, site, lucks, fs);
    VoiceAtPlace(s, i, |s.lines|, Spelled(SlotsTo(s, true, |s.lines|)));
  }

  /** The one voice that marks line `i`'s object. */
  lemma MarkPlace(s: Show, site: Site, lucks: nat -> Luck, fs: nat -> Flushing, i: nat) returns (k: nat)
    requires WellFormed(s) && Lucky(s, lucks) && s.held == Ids(site.marks) && i < |s.lines| && s.lines[i].op.Make?
    requires var op := s.lines[i].op;
             || (FateOf(s, true, i) == Queued && MarkOf(op.speaker, op.key, op.kind).Some?)
             || (FateOf(s, true, i) == Sent && Versioned(op.kind))
    ensures var vs := Ran(true, site, s.lines, lucks, fs).spoken;
            && k < |vs| && MarksKey(vs[k], KeyOf(s, i))
            && (FateOf(s, true, i) == Queued ==> k == Place(s, true, i) && vs[k].verb == "POST")
            && (FateOf(s, true, i) == Sent ==> k >= Place(s, true, |s.lines|) && vs[k] == MarkVoiceOf(s, i))
            && forall j: nat | j < |vs| && j != k :: !MarksKey(vs[j], KeyOf(s, i))
  {
    if FateOf(s, true, i) == Queued {
      k := Place(s, true, i);
      VoiceOfLine(s, site, lucks, fs, i);
    } else {
      k := MarkPlaceOfSent(s, site, lucks, fs, i);
    }
    MarksItsOwn(s, site, lucks, fs, i, k);
    forall j: nat | j < |Ran(true, site, s.lines, lucks, fs).spoken| && j != k
      ensures !MarksKey(Ran(true, site, s.lines, lucks, fs).spoken[j], KeyOf(s, i))
    {
      OneVoicePerMark(s, site, lucks, fs, i, j, k);
    }
  }

  lemma MarksItsOwn(s: Show, site: Site, lucks: nat -> Luck, fs: nat -> Flushing, i: nat, k: nat)
    requires i < |s.lines| && s.lines[i].op.Make?
    requires var vs, op := Ran(true, site, s.lines, lucks, fs).spoken, s.lines[i].op;
             k < |vs| && (vs[k] == MarkVoiceOf(s, i)
                          || (MarkOf(op.speaker, op.key, op.kind).Some?
                              && vs[k] == VoiceFor(op, Spelled(SlotsTo(s, true, |s.lines|)))))
    ensures MarksKey(Ran(true, site, s.lines, lucks, fs).spoken[k], KeyOf(s, i))
  {}

  lemma QueueThenMarks(s: Show, site: Site, lucks: nat -> Luck, fs: nat -> Flushing)
    requires WellFormed(s) && Lucky(s, lucks) && s.held == Ids(site.marks)
    ensures var r := RunAt(s, true, site, lucks, |s.lines|);
            Ran(true, site, s.lines, lucks, fs).spoken == r.spoken + MarkVoices(r.pending)
            && |r.spoken| == Place(s, true, |s.lines|) && Marks.DistinctKeys(r.pending)
  {
    var r := RunAt(s, true, site, lucks, |s.lines|);
    RunIsDescribed(s, true, site, lucks, |s.lines|);
    FlushLeaves(r, fs, |r.pending|);
    assert r.pending[..|r.pending|] == r.pending;
    PendingIsDistinct(s, true, site, lucks, |s.lines|);
  }

  lemma MarkPlaceOfSent(s: Show, site: Site, lucks: nat -> Luck, fs: nat -> Flushing, i: nat) returns (k: nat)
    requires WellFormed(s) && Lucky(s, lucks) && s.held == Ids(site.marks) && i < |s.lines| && s.lines[i].op.Make?
    requires FateOf(s, true, i) == Sent && Versioned(s.lines[i].op.kind)
    ensures var vs := Ran(true, site, s.lines, lucks, fs).spoken;
            Place(s, true, |s.lines|) <= k < |vs| && vs[k] == MarkVoiceOf(s, i)
  {
    var r := RunAt(s, true, site, lucks, |s.lines|);
    QueueThenMarks(s, site, lucks, fs);
    SentIsPlaced(s, true, site, lucks, |s.lines|, i);
    assert PendingAt(s, i) in r.pending;
    var p :| 0 <= p < |r.pending| && r.pending[p] == PendingAt(s, i);
    k := |r.spoken| + p;
  }

  /** A voice that marks the same key is the same voice. */
  lemma OneVoicePerMark(s: Show, site: Site, lucks: nat -> Luck, fs: nat -> Flushing, i: nat, j: nat, k: nat)
    requires WellFormed(s) && Lucky(s, lucks) && s.held == Ids(site.marks) && i < |s.lines| && s.lines[i].op.Make?
    requires var vs := Ran(true, site, s.lines, lucks, fs).spoken; j < |vs| && k < |vs| && j != k
    requires if FateOf(s, true, i) == Queued then k == Place(s, true, i)
             else Place(s, true, |s.lines|) <= k && Ran(true, site, s.lines, lucks, fs).spoken[k] == MarkVoiceOf(s, i)
    ensures !MarksKey(Ran(true, site, s.lines, lucks, fs).spoken[j], KeyOf(s, i))
  {
    var vs := Ran(true, site, s.lines, lucks, fs).spoken;
    if MarksKey(vs[j], KeyOf(s, i)) {
      var l := MarkingLine(s, site, lucks, fs, j);
      OneLinePerKey(s, i, l);
      QueueThenMarks(s, site, lucks, fs);
      SameMarkSamePlace(RunAt(s, true, site, lucks, |s.lines|), j, k);
    }
  }

  /** Among the marks left to the voices each key is one voice's. */
  lemma SameMarkSamePlace(r: Run, j: nat, k: nat)
    requires Marks.DistinctKeys(r.pending)
    ensures var vs := r.spoken + MarkVoices(r.pending);
            (|r.spoken| <= j < |vs| && |r.spoken| <= k < |vs| && vs[j].mark.Some? && vs[k].mark.Some?
             && vs[j].mark.value.key == vs[k].mark.value.key) ==> j == k
  {}
}
