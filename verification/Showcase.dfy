/**
 The showcase writer (`cmd/hubctl/Demo.go`): it makes an object once per mark, leaves to the
 voices what another person says or what waits for them, and marks what it has made.
 */
module Showcase {
  import opened Wrappers
  import opened Placeholders
  import opened Json
  import opened Voices

  // ---------------------------------------------------------------- waits and compact

  predicate BodyMentions(v: Body) {
    match v
    case Text(s) => MentionsVoice(s)
    case Array(fs) => FieldsMention(fs)
    case Object(fs) => FieldsMention(fs)
    case _ => false
  }

  predicate FieldsMention(fs: Fields<string>) {
    fs.Field? && (MentionsVoice(fs.key) || BodyMentions(fs.value) || FieldsMention(fs.rest))
  }

  /** Whether a write names what a voice before it is still to make. */
  predicate Waits(path: string, body: Option<Body>) {
    MentionsVoice(path) || (body.Some? && BodyMentions(body.value))
  }

  predicate Empty(v: Body) { v.Null? || v == Text("") }

  function CompactFields(fs: Fields<string>): Fields<string> {
    if fs.End? then End
    else if Empty(fs.value) then CompactFields(fs.rest)
    else Field(fs.key, fs.value, CompactFields(fs.rest))
  }

  /** A body without its empty members. */
  function Compact(b: Body): Body { if b.Object? then Object(CompactFields(b.fields)) else b }

  lemma {:induction false} RefsAreMentioned(s: string)
    ensures Refs(s) != {} ==> MentionsVoice(s)
    decreases |s|
  {
    if s != "" && MatchLength(s) == 0 { RefsAreMentioned(s[1..]); }
  }

  lemma BodyRefsAreMentioned(v: Body)
    ensures BodyRefs(v) != {} ==> BodyMentions(v)
  {
    match v
    case Text(s) => RefsAreMentioned(s);
    case Array(fs) => FieldsRefsAreMentioned(fs);
    case Object(fs) => FieldsRefsAreMentioned(fs);
    case _ =>
  }

  lemma {:induction false} FieldsRefsAreMentioned(fs: Fields<string>)
    ensures FieldsRefs(fs) != {} ==> FieldsMention(fs)
  {
    if fs.Field? {
      BodyRefsAreMentioned(fs.value);
      FieldsRefsAreMentioned(fs.rest);
    }
  }

  lemma {:induction false} CompactDropsOnly(fs: Fields<string>)
    ensures FieldsRefs(CompactFields(fs)) <= FieldsRefs(fs)
    ensures FieldsMention(CompactFields(fs)) ==> FieldsMention(fs)
  {
    if fs.Field? { CompactDropsOnly(fs.rest); }
  }

  // ---------------------------------------------------------------- the run

  /** The answer to a create: refused, made but never answered, or answered. */
  datatype Created = Refused | Unanswered | Answered(id: string, itemId: string, version: Option<int>)

  /** What became of a mark: kept, refused, or kept though the answer was lost. */
  datatype Marking = Kept | Rejected | KeptUnheard

  /**
   A write's fate, the identifier its answer names, if it answers anything, and the versions it moved on
   the server.
   */
  datatype Reply = Reply(accepted: bool, answer: Option<string>, moved: map<string, int>)

  /** A versioned object waiting for its mark. */
  datatype Pending = Pending(mark: Mark, id: string)

  /** The workspace, with a tally per key of the objects made and of the times one was left unmarked. */
  datatype Site = Site(
    sent: seq<Request>, marks: map<string, Stored>, versions: map<string, int>,
    made: multiset<string>, missed: multiset<string>)

  datatype Run = Run(
    voices: bool, held: map<string, string>, spoken: seq<Voice>, pending: seq<Pending>,
    refused: seq<string>, site: Site)

  predicate Versioned(kind: string) { kind == "GOAL" || kind == "PORTFOLIO" || kind == "DASHBOARD" }

  /** `versionedSample[kind] + id`, where a versioned object is read. */
  function ReadPath(kind: string, id: string): string {
    (if kind == "GOAL" then "/goals/" else if kind == "PORTFOLIO" then "/portfolios/" else "/dashboards/") + id
  }

  function Ids(marks: map<string, Stored>): map<string, string> { map k | k in marks :: marks[k].id }

  /** `load`: the marks the workspace holds are where a run begins. */
  function Loaded(voices: bool, site: Site): Run { Run(voices, Ids(site.marks), [], [], [], site) }

  function Fail(r: Run, what: string): Run { r.(refused := r.refused + [what]) }

  function Missed(r: Run, key: string): Run {
    r.(site := r.site.(missed := r.site.missed + multiset{key}))
  }

  function Queue(r: Run, v: Voice): Run { r.(spoken := r.spoken + [v]) }

  function Marked(r: Run, mark: Mark, id: string, version: Option<int>, m: Marking): Run {
    var site := if m.Rejected? then r.site else r.site.(marks := r.site.marks[mark.key := Stored(id, version)]);
    var r' := r.(site := site);
    if m.Kept? then r'.(held := r.held[mark.key := id]) else Missed(Fail(r', "mark " + mark.key), mark.key)
  }

  /** Which writes are left to the voices. */
  predicate Left(r: Run, speaker: string, path: string, body: Option<Body>) {
    r.voices && (speaker != "" || Waits(path, body))
  }

  function MarkOf(speaker: string, key: string, kind: string): Option<Mark> {
    if kind == "TIME_RECORD" && speaker != "" then None else Some(Mark(key, kind))
  }

  function CreatedAt(site: Site, key: string, path: string, body: Body, c: Created): Site {
    var asked := site.(sent := site.sent + [Request("", "POST", path, Some(Compact(body)))]);
    if c.Refused? then asked
    else
      var made := asked.(made := asked.made + multiset{key});
      if c.Answered? && c.version.Some? then made.(versions := made.versions[NameOf(c) := c.version.value]) else made
  }

  function NameOf(c: Created): string
    requires c.Answered?
  {
    if c.id != "" then c.id else c.itemId
  }

  /** `spokenObject`: the run after it, the identifier answered, and whether this run made the object. */
  function SpokenObject(r: Run, speaker: string, key: string, kind: string, path: string, body: Body,
                        c: Created, m: Marking): (Run, string, bool)
  {
    if key in r.held then (r, r.held[key], false)
    else if Left(r, speaker, path, Some(body)) then
      (Queue(r, Voice(speaker, key, "POST", path, Some(Compact(body)), MarkOf(speaker, key, kind))),
       Placeholder(|r.spoken|), true)
    else
      Taken(r.(site := CreatedAt(r.site, key, path, body, c)), key, kind, c, m)
  }

  /** What is made of the answer to a creation. */
  function Taken(asked: Run, key: string, kind: string, c: Created, m: Marking): (Run, string, bool) {
    match c
    case Refused => (Fail(asked, key), "", false)
    case Unanswered => (Missed(Fail(asked, key), key), "", false)
    case Answered(_, _, version) =>
      var id := NameOf(c);
      if id == "" then (Missed(Fail(asked, key), key), "", false)
      else if Versioned(kind) then
        (asked.(pending := asked.pending + [Pending(Mark(key, kind), id)], held := asked.held[key := id]), id, true)
      else (Marked(asked, Mark(key, kind), id, version, m), id, true)
  }

  /** What `send` makes of a method: those it knows as they are, and any other a POST. */
  function SentVerb(verb: string): string {
    if verb == "PUT" || verb == "PATCH" || verb == "GET" then verb else "POST"
  }

  /** And of a body: a read has none. */
  function SentBody(verb: string, body: Option<Body>): Option<Body> { if verb == "GET" then None else body }

  function Written(r: Run, what: string, verb: string, path: string, body: Option<Body>, reply: Reply): Run {
    if Left(r, "", path, body) then Queue(r, Voice("", what, verb, path, body, None))
    else
      var asked := r.(site := r.site.(sent := r.site.sent + [Request("", SentVerb(verb), path, SentBody(verb, body))]));
      if reply.accepted then asked.(site := asked.site.(versions := asked.site.versions + reply.moved))
      else Fail(asked, what)
  }

  function Said(
    r: Run, speaker: string, what: string, verb: string, path: string, body: Option<Body>, reply: Reply): Run {
    if r.voices && speaker != "" then Queue(r, Voice(speaker, what, verb, path, body, None))
    else Written(r, what, verb, path, body, reply)
  }

  function WrittenLater(r: Run, what: string, verb: string, path: string, body: Option<Body>, reply: Reply): Run {
    if r.voices then Queue(r, Voice("", what, verb, path, body, None)) else Written(r, what, verb, path, body, reply)
  }

  /**
   What a write answers its caller: nothing where it was refused, and an answer naming nothing where it
   was queued.
   */
  function AnswerTo(queued: bool, reply: Reply): Option<string> {
    if queued then Some("") else if reply.accepted then reply.answer else None
  }

  /** How one pending mark ends: whether the object could be read, and what became of the mark. */
  datatype Flushing = Flushing(read: bool, marking: Marking)

  function VersionAt(site: Site, id: string): Option<int> {
    if id in site.versions then Some(site.versions[id]) else None
  }

  function FlushedOne(r: Run, p: Pending, f: Flushing): Run {
    if r.voices then
      Queue(r, Voice("", "mark " + p.mark.key, "MARK", ReadPath(p.mark.kind, p.id), None, Some(p.mark)))
    else
      var dropped := r.(held := r.held - {p.mark.key});
      if !f.read then Missed(Fail(dropped, "mark " + p.mark.key), p.mark.key)
      else Marked(dropped, p.mark, p.id, VersionAt(r.site, p.id), f.marking)
  }

  function FlushedFirst(r: Run, fs: nat -> Flushing, n: nat): Run
    requires n <= |r.pending|
  {
    if n == 0 then r else FlushedOne(FlushedFirst(r, fs, n - 1), r.pending[n - 1], fs(n - 1))
  }

  function Flushed(r: Run, fs: nat -> Flushing): Run { FlushedFirst(r, fs, |r.pending|).(pending := []) }

  // ---------------------------------------------------------------- the object

  /** The server's half: what it was asked, and what it holds. */
  class Workspace {
    var sent: seq<Request>
    var marks: map<string, Stored>
    var versions: map<string, int>
    var made: multiset<string>
    var missed: multiset<string>

    function Now(): Site reads this { Site(sent, marks, versions, made, missed) }

    method Send(verb: string, path: string, body: Option<Body>)
      modifies this`sent
      ensures sent == old(sent) + [Request("", SentVerb(verb), path, SentBody(verb, body))]
    {
      if verb == "PUT" || verb == "PATCH" {
        sent := sent + [Request("", verb, path, body)];
      } else if verb == "GET" {
        sent := sent + [Request("", verb, path, None)];
      } else {
        sent := sent + [Request("", "POST", path, body)];
      }
    }

    method Create(key: string, path: string, body: Body, c: Created)
      modifies this
      ensures Now() == CreatedAt(old(Now()), key, path, body, c)
    {
      sent := sent + [Request("", "POST", path, Some(Compact(body)))];
      if !c.Refused? {
        made := made + multiset{key};
        if c.Answered? && c.version.Some? {
          versions := versions[NameOf(c) := c.version.value];
        }
      }
    }
  }

  /** One run of the showcase: the marks the workspace holds and what this run made. */
  class Demo {
    const site: Workspace
    const voices: bool
    var held: map<string, string>
    var spoken: seq<Voice>
    var pending: seq<Pending>
    var refused: seq<string>

    ghost function Now(): Run
      reads this, site
    {
      Run(voices, held, spoken, pending, refused, site.Now())
    }

    constructor (site: Workspace, voices: bool)
      ensures this.site == site && this.voices == voices
      ensures Now() == Loaded(voices, site.Now())
    {
      this.site, this.voices := site, voices;
      held := Ids(site.marks);
      spoken, pending, refused := [], [], [];
    }

    method Miss(key: string)
      modifies site`missed
      ensures Now() == Missed(old(Now()), key)
    {
      site.missed := site.missed + multiset{key};
    }

    method Enqueue(v: Voice)
      modifies this`spoken
      ensures Now() == Queue(old(Now()), v)
    {
      spoken := spoken + [v];
    }

    method PostMark(mark: Mark, id: string, version: Option<int>, m: Marking)
      modifies this`held, this`refused, site`marks, site`missed
      ensures Now() == Marked(old(Now()), mark, id, version, m)
    {
      if !m.Rejected? {
        site.marks := site.marks[mark.key := Stored(id, version)];
      }
      if !m.Kept? {
        refused := refused + ["mark " + mark.key];
        Miss(mark.key);
        return;
      }
      held := held[mark.key := id];
    }

    method MakeObject(speaker: string, key: string, kind: string, path: string, body: Body, c: Created, m: Marking)
      returns (id: string, isNew: bool)
      modifies this, site
      ensures (Now(), id, isNew) == SpokenObject(old(Now()), speaker, key, kind, path, body, c, m)
    {
      if key in held {
        return held[key], false;
      }
      if voices && (speaker != "" || Waits(path, Some(body))) {
        var mark := Some(Mark(key, kind));
        if kind == "TIME_RECORD" && speaker != "" {
          mark := None;
        }
        Enqueue(Voice(speaker, key, "POST", path, Some(Compact(body)), mark));
        return Placeholder(|spoken| - 1), true;
      }
      site.Create(key, path, body, c);
      id, isNew := Take(key, kind, c, m);
    }

    method Take(key: string, kind: string, c: Created, m: Marking) returns (id: string, isNew: bool)
      modifies this, site
      ensures (Now(), id, isNew) == Taken(old(Now()), key, kind, c, m)
    {
      if c.Refused? {
        refused := refused + [key];
        return "", false;
      }
      if c.Unanswered? || NameOf(c) == "" {
        refused := refused + [key];
        Miss(key);
        return "", false;
      }
      id := NameOf(c);
      if Versioned(kind) {
        pending := pending + [Pending(Mark(key, kind), id)];
        held := held[key := id];
      } else {
        PostMark(Mark(key, kind), id, c.version, m);
      }
      return id, true;
    }

    method Write(what: string, verb: string, path: string, body: Option<Body>, reply: Reply)
      returns (answer: Option<string>)
      modifies this, site
      ensures Now() == Written(old(Now()), what, verb, path, body, reply)
      ensures answer == AnswerTo(voices && Waits(path, body), reply)
    {
      if voices && Waits(path, body) {
        spoken := spoken + [Voice("", what, verb, path, body, None)];
        return Some("");
      }
      site.Send(verb, path, body);
      if reply.accepted {
        site.versions := site.versions + reply.moved;
        answer := reply.answer;
      } else {
        refused := refused + [what];
        answer := None;
      }
    }

    method Say(speaker: string, what: string, verb: string, path: string, body: Option<Body>, reply: Reply)
      returns (answer: Option<string>)
      modifies this, site
      ensures Now() == Said(old(Now()), speaker, what, verb, path, body, reply)
      ensures answer == AnswerTo(voices && (speaker != "" || Waits(path, body)), reply)
    {
      if voices && speaker != "" {
        spoken := spoken + [Voice(speaker, what, verb, path, body, None)];
        return Some("");
      }
      answer := Write(what, verb, path, body, reply);
    }

    method Later(what: string, verb: string, path: string, body: Option<Body>, reply: Reply)
      returns (answer: Option<string>)
      modifies this, site
      ensures Now() == WrittenLater(old(Now()), what, verb, path, body, reply)
      ensures answer == AnswerTo(voices, reply)
    {
      if voices {
        spoken := spoken + [Voice("", what, verb, path, body, None)];
        return Some("");
      }
      answer := Write(what, verb, path, body, reply);
    }

    method FlushOne(p: Pending, f: Flushing)
      modifies this`held, this`spoken, this`refused, site`marks, site`missed
      ensures Now() == FlushedOne(old(Now()), p, f)
    {
      if voices {
        spoken := spoken + [Voice("", "mark " + p.mark.key, "MARK", ReadPath(p.mark.kind, p.id), None, Some(p.mark))];
        return;
      }
      var version := VersionAt(site.Now(), p.id);
      held := held - {p.mark.key};
      if f.read {
        PostMark(p.mark, p.id, version, f.marking);
      } else {
        refused := refused + ["mark " + p.mark.key];
        Miss(p.mark.key);
      }
    }

    method Flush(fs: nat -> Flushing)
      modifies this, site
      ensures Now() == Flushed(old(Now()), fs)
    {
      ghost var start := Now();
      for i := 0 to |pending|
        invariant pending == start.pending
        invariant Now() == FlushedFirst(start, fs, i)
      {
        FlushOne(pending[i], fs(i));
      }
      pending := [];
    }
  }

  // ---------------------------------------------------------------- any sequence of writes

  /** One call the content makes on the run, with what the server does about it. */
  datatype Act =
    | MakeObject(
        speaker: string, key: string, kind: string, path: string, content: Body, created: Created, marking: Marking)
    | Write(what: string, verb: string, path: string, body: Option<Body>, reply: Reply)
    | Say(speaker: string, what: string, verb: string, path: string, body: Option<Body>, reply: Reply)
    | Later(what: string, verb: string, path: string, body: Option<Body>, reply: Reply)

  /** Whether a write that makes no object is left to the voices. */
  predicate LeavesToVoices(voices: bool, a: Act)
    requires !a.MakeObject?
  {
    voices && (a.Later? || (a.Say? && a.speaker != "") || Waits(a.path, a.body))
  }

  function Acted(r: Run, a: Act): Run {
    match a
    case MakeObject(speaker, key, kind, path, content, created, marking) =>
      SpokenObject(r, speaker, key, kind, path, content, created, marking).0
    case Write(what, verb, path, body, reply) => Written(r, what, verb, path, body, reply)
    case Say(speaker, what, verb, path, body, reply) => Said(r, speaker, what, verb, path, body, reply)
    case Later(what, verb, path, body, reply) => WrittenLater(r, what, verb, path, body, reply)
  }

  function ActedAll(r: Run, acts: seq<Act>): Run {
    if acts == [] then r else Acted(ActedAll(r, acts[..|acts| - 1]), acts[|acts| - 1])
  }
}
