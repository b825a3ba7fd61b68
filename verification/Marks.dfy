/**
 What the marks promise over any number of showcase runs without `--voices`: a key is made at
 most once more than its object was left unmarked, a finished run holds exactly the marks the
 server holds, and a versioned object's mark carries the version it ends with.
 */
module Marks {
  import opened Wrappers
  import opened Voices
  import opened Showcase

  function Keys(ps: seq<Pending>): set<string> { set p | p in ps :: p.mark.key }

  predicate DistinctKeys(ps: seq<Pending>) {
    forall i, j | 0 <= i < j < |ps| :: ps[i].mark.key != ps[j].mark.key
  }

  /** The pending objects are held, each under its own key, and what is held is marked or pending. */
  ghost predicate Tracked(r: Run, rest: seq<Pending>) {
    DistinctKeys(rest) && Keys(rest) <= r.held.Keys <= r.site.marks.Keys + Keys(rest)
  }

  /** At most one object beyond those the run knows it left unmarked. */
  ghost predicate Bounded(r: Run, key: string) {
    r.site.made[key] <= r.site.missed[key] + if key in r.held then 1 else 0
  }

  /** What is held and not pending is exactly the server's mark table, but for the keys marked unheard. */
  ghost predicate Agrees(r: Run, rest: seq<Pending>, unheard: set<string>) {
    unheard <= r.site.marks.Keys && Ids(r.site.marks) - unheard == r.held - Keys(rest)
  }

  /** The keys whose last mark the server kept without its answer arriving, once one more is tried. */
  function Noted(unheard: set<string>, key: string, m: Marking): set<string> {
    match m
    case Kept => unheard - {key}
    case KeptUnheard => unheard + {key}
    case Rejected => unheard
  }

  function UnheardAfter(r: Run, a: Act, unheard: set<string>): set<string> {
    if Object(r, a).Some? && !Versioned(a.kind) then Noted(unheard, a.key, a.marking) else unheard
  }

  function UnheardInActs(r: Run, acts: seq<Act>): set<string> {
    if acts == [] then {}
    else
      var front := acts[..|acts| - 1];
      UnheardAfter(ActedAll(r, front), acts[|acts| - 1], UnheardInActs(r, front))
  }

  function UnheardInFlush(ps: seq<Pending>, fs: nat -> Flushing, n: nat, unheard: set<string>): set<string>
    requires n <= |ps|
  {
    if n == 0 then unheard
    else
      var before := UnheardInFlush(ps, fs, n - 1, unheard);
      if fs(n - 1).read then Noted(before, ps[n - 1].mark.key, fs(n - 1).marking) else before
  }

  lemma KeysAppend(ps: seq<Pending>, p: Pending)
    requires DistinctKeys(ps) && p.mark.key !in Keys(ps)
    ensures Keys(ps + [p]) == Keys(ps) + {p.mark.key} && DistinctKeys(ps + [p])
  {
    assert forall q :: q in ps + [p] <==> q in ps || q == p;
    forall i | 0 <= i < |ps| ensures ps[i].mark.key != p.mark.key { assert ps[i] in ps; }
  }

  lemma KeysBehind(p: Pending, rest: seq<Pending>)
    requires DistinctKeys([p] + rest)
    ensures Keys([p] + rest) == {p.mark.key} + Keys(rest) && DistinctKeys(rest) && p.mark.key !in Keys(rest)
  {
    var all := [p] + rest;
    assert forall q :: q in all <==> q in rest || q == p;
    forall j | 0 <= j < |rest| ensures rest[j].mark.key != p.mark.key {
      assert all[j + 1] == rest[j] && all[0] == p;
    }
    forall i, j | 0 <= i < j < |rest| ensures rest[i].mark.key != rest[j].mark.key {
      assert all[i + 1] == rest[i] && all[j + 1] == rest[j];
    }
  }

  lemma IdsUpdate(marks: map<string, Stored>, key: string, s: Stored)
    ensures Ids(marks[key := s]) == Ids(marks)[key := s.id]
  {}

  // ---------------------------------------------------------------- one write keeps them

  /** The object an act makes and is told the identifier of, as a pending mark. */
  function Object(r: Run, a: Act): Option<Pending> {
    if a.MakeObject? && a.key !in r.held && a.created.Answered? && NameOf(a.created) != ""
    then Some(Pending(Mark(a.key, a.kind), NameOf(a.created)))
    else None
  }

  /** What an answer to a creation, told the identifier, does to what is held, pending and marked. */
  ghost predicate Makes(r: Run, r': Run, key: string, kind: string, id: string, version: Option<int>, m: Marking) {
    if Versioned(kind) then
      && r'.held == r.held[key := id] && r'.site.missed == r.site.missed
      && r'.pending == r.pending + [Pending(Mark(key, kind), id)] && r'.site.marks == r.site.marks
    else
      && r'.pending == r.pending && r'.held == (if m.Kept? then r.held[key := id] else r.held)
      && r'.site.missed == (if m.Kept? then r.site.missed else r.site.missed + multiset{key})
      && r'.site.marks == if m.Rejected? then r.site.marks else r.site.marks[key := Stored(id, version)]
  }

  /** And one that names none. */
  ghost predicate MakesNone(r: Run, r': Run, key: string, c: Created) {
    && r'.held == r.held && r'.pending == r.pending && r'.site.marks == r.site.marks
    && r'.site.missed == if c.Refused? then r.site.missed else r.site.missed + multiset{key}
  }

  lemma TakenEffect(r: Run, key: string, kind: string, c: Created, m: Marking)
    ensures var r' := Taken(r, key, kind, c, m).0;
            && r'.voices == r.voices && r'.site.made == r.site.made
            && if c.Answered? && NameOf(c) != "" then Makes(r, r', key, kind, NameOf(c), c.version, m)
               else MakesNone(r, r', key, c)
  {}

  lemma ObjectEffect(
    r: Run, speaker: string, key: string, kind: string, path: string, body: Body, c: Created, m: Marking)
    requires !r.voices && key !in r.held
    ensures var r' := SpokenObject(r, speaker, key, kind, path, body, c, m).0;
            && !r'.voices
            && r'.site.made == (if c.Refused? then r.site.made else r.site.made + multiset{key})
            && if c.Answered? && NameOf(c) != "" then Makes(r, r', key, kind, NameOf(c), c.version, m)
               else MakesNone(r, r', key, c)
  {
    TakenEffect(r.(site := CreatedAt(r.site, key, path, body, c)), key, kind, c, m);
  }

  lemma WriteMarksNothing(r: Run, what: string, verb: string, path: string, body: Option<Body>, reply: Reply)
    requires !r.voices
    ensures var r' := Written(r, what, verb, path, body, reply);
            && !r'.voices && r'.held == r.held && r'.pending == r.pending && r'.site.marks == r.site.marks
            && r'.site.made == r.site.made && r'.site.missed == r.site.missed
  {}

  /** Without voices, an act touches what is held, pending and marked only by the object it makes. */
  lemma ActEffect(r: Run, a: Act)
    requires !r.voices
    ensures var r' := Acted(r, a);
            && !r'.voices
            && match Object(r, a)
               case None => r'.held == r.held && r'.pending == r.pending && r'.site.marks == r.site.marks
               case Some(p) =>
                 if Versioned(p.mark.kind) then
                   r'.held == r.held[p.mark.key := p.id] && r'.pending == r.pending + [p]
                   && r'.site.marks == r.site.marks
                 else
                   && r'.pending == r.pending
                   && r'.held == (if a.marking.Kept? then r.held[p.mark.key := p.id] else r.held)
                   && r'.site.marks == (if a.marking.Rejected? then r.site.marks
                                        else r.site.marks[p.mark.key := Stored(p.id, a.created.version)])
  {
    match a
    case MakeObject(speaker, key, kind, path, content, created, marking) =>
      if key !in r.held { ObjectEffect(r, speaker, key, kind, path, content, created, marking); }
    case Write(what, verb, path, body, reply) => WriteMarksNothing(r, what, verb, path, body, reply);
    case Say(speaker, what, verb, path, body, reply) => WriteMarksNothing(r, what, verb, path, body, reply);
    case Later(what, verb, path, body, reply) => WriteMarksNothing(r, what, verb, path, body, reply);
  }

  lemma ActTracks(r: Run, a: Act)
    requires !r.voices && Tracked(r, r.pending)
    ensures !Acted(r, a).voices && Tracked(Acted(r, a), Acted(r, a).pending)
  {
    ActEffect(r, a);
    if Object(r, a).Some? && Versioned(a.kind) { KeysAppend(r.pending, Object(r, a).value); }
  }

  /** One mark tried for a key that is not held otherwise. */
  lemma MarkingAgrees(
    marks: map<string, Stored>, held: map<string, string>, unheard: set<string>, key: string, s: Stored, m: Marking)
    requires unheard <= marks.Keys && Ids(marks) - unheard == held && key !in held
    ensures var marks' := if m.Rejected? then marks else marks[key := s];
            var held' := if m.Kept? then held[key := s.id] else held;
            Noted(unheard, key, m) <= marks'.Keys && Ids(marks') - Noted(unheard, key, m) == held'
  {
    IdsUpdate(marks, key, s);
  }

  lemma ActAgrees(r: Run, a: Act, unheard: set<string>)
    requires !r.voices && Tracked(r, r.pending) && Agrees(r, r.pending, unheard)
    ensures Agrees(Acted(r, a), Acted(r, a).pending, UnheardAfter(r, a, unheard))
  {
    ActEffect(r, a);
    if Object(r, a).Some? {
      var p := Object(r, a).value;
      if Versioned(a.kind) {
        PendingAgrees(r, Acted(r, a), p, unheard);
      } else {
        MarkedAgrees(r, Acted(r, a), p, a.created.version, a.marking, unheard);
      }
    }
  }

  lemma PendingAgrees(r: Run, r': Run, p: Pending, unheard: set<string>)
    requires Tracked(r, r.pending) && Agrees(r, r.pending, unheard) && p.mark.key !in r.held
    requires r'.held == r.held[p.mark.key := p.id] && r'.pending == r.pending + [p] && r'.site.marks == r.site.marks
    ensures Agrees(r', r'.pending, unheard)
  {
    KeysAppend(r.pending, p);
    assert r.held[p.mark.key := p.id] - (Keys(r.pending) + {p.mark.key}) == r.held - Keys(r.pending);
  }

  lemma MarkedAgrees(r: Run, r': Run, p: Pending, version: Option<int>, m: Marking, unheard: set<string>)
    requires Tracked(r, r.pending) && Agrees(r, r.pending, unheard) && p.mark.key !in r.held
    requires r'.pending == r.pending && r'.held == (if m.Kept? then r.held[p.mark.key := p.id] else r.held)
    requires r'.site.marks == if m.Rejected? then r.site.marks else r.site.marks[p.mark.key := Stored(p.id, version)]
    ensures Agrees(r', r'.pending, Noted(unheard, p.mark.key, m))
  {
    MarkingAgrees(r.site.marks, r.held - Keys(r.pending), unheard, p.mark.key, Stored(p.id, version), m);
    assert r.held[p.mark.key := p.id] - Keys(r.pending) == (r.held - Keys(r.pending))[p.mark.key := p.id];
  }

  lemma ActBounded(r: Run, a: Act, key: string)
    requires !r.voices && Bounded(r, key)
    ensures Bounded(Acted(r, a), key)
  {
    match a
    case MakeObject(speaker, k, kind, path, content, created, marking) =>
      if k !in r.held { ObjectEffect(r, speaker, k, kind, path, content, created, marking); }
    case Write(what, verb, path, body, reply) => WriteMarksNothing(r, what, verb, path, body, reply);
    case Say(speaker, what, verb, path, body, reply) => WriteMarksNothing(r, what, verb, path, body, reply);
    case Later(what, verb, path, body, reply) => WriteMarksNothing(r, what, verb, path, body, reply);
  }

  lemma {:induction false} ActsTrack(r: Run, acts: seq<Act>)
    requires !r.voices && Tracked(r, r.pending)
    ensures !ActedAll(r, acts).voices && Tracked(ActedAll(r, acts), ActedAll(r, acts).pending)
  {
    if acts != [] {
      ActsTrack(r, acts[..|acts| - 1]);
      ActTracks(ActedAll(r, acts[..|acts| - 1]), acts[|acts| - 1]);
    }
  }

  lemma {:induction false} ActsBounded(r: Run, acts: seq<Act>, key: string)
    requires !r.voices && Bounded(r, key)
    ensures !ActedAll(r, acts).voices && Bounded(ActedAll(r, acts), key)
  {
    if acts != [] {
      var before := ActedAll(r, acts[..|acts| - 1]);
      ActsBounded(r, acts[..|acts| - 1], key);
      ActEffect(before, acts[|acts| - 1]);
      ActBounded(before, acts[|acts| - 1], key);
    }
  }

  // ---------------------------------------------------------------- the flush keeps them

  lemma FlushOneTracks(r: Run, p: Pending, rest: seq<Pending>, f: Flushing)
    requires !r.voices && Tracked(r, [p] + rest)
    ensures !FlushedOne(r, p, f).voices && Tracked(FlushedOne(r, p, f), rest)
  {
    KeysBehind(p, rest);
  }

  lemma FlushOneAgrees(r: Run, p: Pending, rest: seq<Pending>, f: Flushing, unheard: set<string>)
    requires !r.voices && Tracked(r, [p] + rest) && Agrees(r, [p] + rest, unheard)
    ensures Agrees(FlushedOne(r, p, f), rest, if f.read then Noted(unheard, p.mark.key, f.marking) else unheard)
  {
    KeysBehind(p, rest);
    var k := p.mark.key;
    var held := r.held - {k};
    assert held - Keys(rest) == r.held - Keys([p] + rest);
    if f.read {
      MarkingAgrees(r.site.marks, held - Keys(rest), unheard, k, Stored(p.id, VersionAt(r.site, p.id)), f.marking);
      assert held[k := p.id] - Keys(rest) == (held - Keys(rest))[k := p.id];
    }
  }

  lemma FromNextOn(ps: seq<Pending>, n: nat)
    requires n < |ps|
    ensures ps[n..] == [ps[n]] + ps[n + 1..]
  {}

  lemma {:induction false} FlushTracks(r: Run, fs: nat -> Flushing, n: nat)
    requires !r.voices && Tracked(r, r.pending) && n <= |r.pending|
    ensures !FlushedFirst(r, fs, n).voices && Tracked(FlushedFirst(r, fs, n), r.pending[n..])
  {
    if n == 0 {
      assert r.pending[0..] == r.pending;
    } else {
      FlushTracks(r, fs, n - 1);
      FromNextOn(r.pending, n - 1);
      FlushOneTracks(FlushedFirst(r, fs, n - 1), r.pending[n - 1], r.pending[n..], fs(n - 1));
    }
  }

  lemma {:induction false} FlushAgrees(r: Run, fs: nat -> Flushing, n: nat, unheard: set<string>)
    requires !r.voices && Tracked(r, r.pending) && n <= |r.pending| && Agrees(r, r.pending, unheard)
    ensures Agrees(FlushedFirst(r, fs, n), r.pending[n..], UnheardInFlush(r.pending, fs, n, unheard))
  {
    if n == 0 {
      assert r.pending[0..] == r.pending;
    } else {
      FlushAgrees(r, fs, n - 1, unheard);
      FlushAgreesNext(r, fs, n - 1, unheard);
    }
  }

  lemma FlushAgreesNext(r: Run, fs: nat -> Flushing, n: nat, unheard: set<string>)
    requires !r.voices && Tracked(r, r.pending) && n < |r.pending|
    requires Agrees(FlushedFirst(r, fs, n), r.pending[n..], UnheardInFlush(r.pending, fs, n, unheard))
    ensures Agrees(FlushedFirst(r, fs, n + 1), r.pending[n + 1..], UnheardInFlush(r.pending, fs, n + 1, unheard))
  {
    FlushTracks(r, fs, n);
    FromNextOn(r.pending, n);
    FlushOneAgrees(FlushedFirst(r, fs, n), r.pending[n], r.pending[n + 1..], fs(n),
                   UnheardInFlush(r.pending, fs, n, unheard));
  }

  lemma {:induction false} FlushBounded(r: Run, fs: nat -> Flushing, n: nat, key: string)
    requires !r.voices && Bounded(r, key) && n <= |r.pending|
    ensures !FlushedFirst(r, fs, n).voices && Bounded(FlushedFirst(r, fs, n), key)
  {
    if n > 0 {
      FlushBounded(r, fs, n - 1, key);
      FlushOneBounded(FlushedFirst(r, fs, n - 1), r.pending[n - 1], fs(n - 1), key);
    }
  }

  lemma FlushOneBounded(r: Run, p: Pending, f: Flushing, key: string)
    requires !r.voices && Bounded(r, key)
    ensures !FlushedOne(r, p, f).voices && Bounded(FlushedOne(r, p, f), key)
  {}

  // ---------------------------------------------------------------- over any number of runs

  /** One run of the command: its writes, and either the flush or an end before it. */
  datatype Session = Finished(acts: seq<Act>, fs: nat -> Flushing) | CutShort(acts: seq<Act>)

  /** What a run that dies before its flush leaves: its pending objects were made and are not marked. */
  function Abandoned(r: Run): Site {
    var keys := seq(|r.pending|, i requires 0 <= i < |r.pending| => r.pending[i].mark.key);
    r.site.(missed := r.site.missed + multiset(keys))
  }

  function After(site: Site, s: Session): Site {
    var r := ActedAll(Loaded(false, site), s.acts);
    if s.Finished? then Flushed(r, s.fs).site else Abandoned(r)
  }

  function AfterAll(site: Site, ss: seq<Session>): Site {
    if ss == [] then site else After(AfterAll(site, ss[..|ss| - 1]), ss[|ss| - 1])
  }

  ghost predicate SiteBounded(site: Site, key: string) {
    site.made[key] <= site.missed[key] + if key in site.marks then 1 else 0
  }

  lemma SessionKeepsBound(site: Site, s: Session, key: string)
    requires SiteBounded(site, key)
    ensures SiteBounded(After(site, s), key)
  {
    var start := Loaded(false, site);
    assert Tracked(start, start.pending) && Bounded(start, key);
    ActsTrack(start, s.acts);
    ActsBounded(start, s.acts, key);
    var r := ActedAll(start, s.acts);
    if s.Finished? {
      FlushTracks(r, s.fs, |r.pending|);
      FlushBounded(r, s.fs, |r.pending|, key);
      assert Keys(r.pending[|r.pending|..]) == {};
    } else {
      var keys := seq(|r.pending|, i requires 0 <= i < |r.pending| => r.pending[i].mark.key);
      if key in r.held && key !in r.site.marks {
        var p :| p in r.pending && p.mark.key == key;
        var i :| 0 <= i < |r.pending| && r.pending[i] == p;
        assert keys[i] == key && key in multiset(keys);
      }
    }
  }

  /** However many runs there were, a key's objects number at most one plus the times one was left unmarked. */
  lemma {:induction false} MadeAtMostOncePerMark(site: Site, ss: seq<Session>, key: string)
    requires site.made[key] == 0
    ensures AfterAll(site, ss).made[key] <= 1 + AfterAll(site, ss).missed[key]
    ensures SiteBounded(AfterAll(site, ss), key)
  {
    if ss != [] {
      MadeAtMostOncePerMark(site, ss[..|ss| - 1], key);
      SessionKeepsBound(AfterAll(site, ss[..|ss| - 1]), ss[|ss| - 1], key);
    }
  }

  // ---------------------------------------------------------------- what a finished run holds

  lemma {:induction false} ActsAgree(r: Run, acts: seq<Act>)
    requires !r.voices && Tracked(r, r.pending) && Agrees(r, r.pending, {})
    ensures Agrees(ActedAll(r, acts), ActedAll(r, acts).pending, UnheardInActs(r, acts))
  {
    if acts != [] {
      var before := acts[..|acts| - 1];
      ActsAgree(r, before);
      ActsTrack(r, before);
      ActAgrees(ActedAll(r, before), acts[|acts| - 1], UnheardInActs(r, before));
    }
  }

  /** The keys whose last mark of the run was kept by the server without its answer arriving. */
  function Unheard(site: Site, acts: seq<Act>, fs: nat -> Flushing): set<string> {
    var r := ActedAll(Loaded(false, site), acts);
    UnheardInFlush(r.pending, fs, |r.pending|, UnheardInActs(Loaded(false, site), acts))
  }

  /**
   Marks refused or not, a finished run holds the server's mark table but for the keys whose last
   mark was kept unheard; so it holds the whole table exactly where there is no such key.
   */
  lemma HeldIsTheMarkTableIffHeard(site: Site, acts: seq<Act>, fs: nat -> Flushing)
    ensures var r := Flushed(ActedAll(Loaded(false, site), acts), fs);
            && r.held == Ids(r.site.marks) - Unheard(site, acts, fs)
            && (r.held == Ids(r.site.marks) <==> Unheard(site, acts, fs) == {})
  {
    var start := Loaded(false, site);
    assert Keys(start.pending) == {} && start.held - {} == start.held && Ids(site.marks) - {} == start.held;
    ActsTrack(start, acts);
    ActsAgree(start, acts);
    var r := ActedAll(start, acts);
    FlushAgrees(r, fs, |r.pending|, UnheardInActs(start, acts));
    var end := Flushed(r, fs);
    assert Keys(r.pending[|r.pending|..]) == {} && end.held - {} == end.held;
    LessKeysIsLess(Ids(end.site.marks), Unheard(site, acts, fs));
  }

  lemma LessKeysIsLess(m: map<string, string>, keys: set<string>)
    requires keys <= m.Keys
    ensures m - keys == m <==> keys == {}
  {
    if keys != {} {
      var k :| k in keys;
      assert k in m && k !in m - keys;
    }
  }

  /** A mark kept though its answer was lost is on the server and not held: the run ends saying it is missing. */
  lemma AnUnheardMarkIsNotHeld(site: Site, key: string, fs: nat -> Flushing)
    requires key !in site.marks
    ensures var created := Answered("a-1", "", None);
            var act := MakeObject("", key, "ENTRY", "/items", Json.Object(Json.End), created, KeptUnheard);
            var r := Flushed(ActedAll(Loaded(false, site), [act]), fs);
            key in r.site.marks && key !in r.held
  {
    var act := MakeObject("", key, "ENTRY", "/items", Json.Object(Json.End), Answered("a-1", "", None), KeptUnheard);
    var start := Loaded(false, site);
    assert [act][..0] == [];
    assert ActedAll(start, [act]) == Acted(start, act);
  }

  // ---------------------------------------------------------------- the versions marked

  lemma {:induction false} FlushMarksTheVersion(r: Run, fs: nat -> Flushing, n: nat, i: nat)
    requires !r.voices && DistinctKeys(r.pending) && i < n <= |r.pending|
    ensures MarkedAsRead(FlushedFirst(r, fs, n), r.pending[i], VersionAt(r.site, r.pending[i].id))
  {
    if i < n - 1 { FlushMarksTheVersion(r, fs, n - 1, i); }
    FlushMarksTheVersionNext(r, fs, n, i);
  }

  lemma FlushMarksTheVersionNext(r: Run, fs: nat -> Flushing, n: nat, i: nat)
    requires !r.voices && DistinctKeys(r.pending) && i < n <= |r.pending|
    requires i < n - 1 ==> MarkedAsRead(FlushedFirst(r, fs, n - 1), r.pending[i], VersionAt(r.site, r.pending[i].id))
    ensures MarkedAsRead(FlushedFirst(r, fs, n), r.pending[i], VersionAt(r.site, r.pending[i].id))
  {
    FlushLeavesVersions(r, fs, n - 1);
    var version := VersionAt(r.site, r.pending[i].id);
    MarkedNext(FlushedFirst(r, fs, n - 1), r.pending[n - 1], fs(n - 1), r.pending[i], version);
  }

  /** One more pending mark leaves those of other keys, and its own is marked as read. */
  lemma MarkedNext(r: Run, p: Pending, f: Flushing, q: Pending, version: Option<int>)
    requires !r.voices
    requires if q == p then version == VersionAt(r.site, p.id)
             else MarkedAsRead(r, q, version) && q.mark.key != p.mark.key
    ensures MarkedAsRead(FlushedOne(r, p, f), q, version)
  {
    FlushOneMarksAsRead(r, p, f);
  }

  lemma FlushOneMarksAsRead(r: Run, p: Pending, f: Flushing)
    requires !r.voices
    ensures var r' := FlushedOne(r, p, f);
            && (forall k | k != p.mark.key ::
                  (k in r'.held <==> k in r.held) && (k in r'.site.marks <==> k in r.site.marks)
                  && (k in r.site.marks ==> r'.site.marks[k] == r.site.marks[k]))
            && MarkedAsRead(r', p, VersionAt(r.site, p.id))
  {}

  ghost predicate MarkedAsRead(r: Run, p: Pending, version: Option<int>) {
    var key := p.mark.key;
    key in r.held ==> key in r.site.marks && r.site.marks[key] == Stored(p.id, version)
  }

  lemma {:induction false} FlushLeavesVersions(r: Run, fs: nat -> Flushing, n: nat)
    requires !r.voices && n <= |r.pending|
    ensures FlushedFirst(r, fs, n).site.versions == r.site.versions && !FlushedFirst(r, fs, n).voices
  {
    if n > 0 {
      FlushLeavesVersions(r, fs, n - 1);
      FlushOneLeavesVersions(FlushedFirst(r, fs, n - 1), r.pending[n - 1], fs(n - 1));
    }
  }

  lemma FlushOneLeavesVersions(r: Run, p: Pending, f: Flushing)
    requires !r.voices
    ensures FlushedOne(r, p, f).site.versions == r.site.versions && !FlushedOne(r, p, f).voices
  {}

  /**
   Every goal, portfolio and dashboard a run made and holds at its end is marked at the version it
   has then, whatever the run's own follow-ups moved it to.
   */
  lemma VersionedMarksAreCurrent(site: Site, acts: seq<Act>, fs: nat -> Flushing, p: Pending)
    requires p in ActedAll(Loaded(false, site), acts).pending
    ensures var r := Flushed(ActedAll(Loaded(false, site), acts), fs);
            p.mark.key in r.held ==>
              p.mark.key in r.site.marks && r.site.marks[p.mark.key] == Stored(p.id, VersionAt(r.site, p.id))
  {
    ActsTrack(Loaded(false, site), acts);
    var r := ActedAll(Loaded(false, site), acts);
    var i :| 0 <= i < |r.pending| && r.pending[i] == p;
    FlushLeavesVersions(r, fs, |r.pending|);
    FlushMarksTheVersion(r, fs, |r.pending|, i);
  }
}
