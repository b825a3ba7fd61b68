/**
 The showcase's content as a program: a list of writes whose paths and bodies name the objects
 made by earlier ones, some of them only written where the object they belong to is new. What
 holds in every state such a program reaches, whatever the server answers.
 */
module Program {
  import opened Wrappers
  import opened Placeholders
  import opened Json
  import opened Voices
  import opened Showcase
  import opened Templates

  datatype Op =
    | Make(speaker: string, key: string, kind: string, path: Template, content: Json<Template>)
    | Write(what: string, verb: string, path: Template, body: Option<Json<Template>>)
    | Say(speaker: string, what: string, verb: string, path: Template, body: Option<Json<Template>>)
    | Later(what: string, verb: string, path: Template, body: Option<Json<Template>>)

  /**
   A write, and the line it belongs to: it is written only where this run made that object, or that
   write was answered, with an identifier where one is asked for.
   */
  datatype Line = Line(owner: Option<Owner>, op: Op)

  /** The line a write belongs to, and whether it asks for an identifier of it too. */
  datatype Owner = Owner(line: nat, named: bool)

  datatype Luck = Luck(created: Created, marking: Marking, reply: Reply)

  /**
   A run part way through: the identifier each line so far answered, and whether it made its object or
   was answered.
   */
  datatype Progress = Progress(run: Run, ids: seq<string>, made: seq<bool>)

  function BodyOf(op: Op): Option<Json<Template>> { if op.Make? then Some(op.content) else op.body }

  function OpLines(op: Op): set<nat> {
    Lines(op.path) + if BodyOf(op).Some? then BodyLines(BodyOf(op).value) else {}
  }

  predicate PlainOp(op: Op) {
    PlainTemplate(op.path) && (BodyOf(op).Some? ==> PlainBody(BodyOf(op).value))
  }

  function InstOption(b: Option<Json<Template>>, ids: seq<string>): Option<Body> {
    if b.Some? then Some(InstBody(b.value, ids)) else None
  }

  function ActOf(op: Op, ids: seq<string>, luck: Luck): Act {
    match op
    case Make(speaker, key, kind, path, content) =>
      MakeObject(speaker, key, kind, Inst(path, ids), InstBody(content, ids), luck.created, luck.marking)
    case Write(what, verb, path, body) =>
      Act.Write(what, verb, Inst(path, ids), InstOption(body, ids), luck.reply)
    case Say(speaker, what, verb, path, body) =>
      Act.Say(speaker, what, verb, Inst(path, ids), InstOption(body, ids), luck.reply)
    case Later(what, verb, path, body) =>
      Act.Later(what, verb, Inst(path, ids), InstOption(body, ids), luck.reply)
  }

  predicate Due(line: Line, p: Progress) {
    line.owner.Some? ==>
      var j := line.owner.value.line;
      j < |p.made| && j < |p.ids| && p.made[j] && (line.owner.value.named ==> p.ids[j] != "")
  }

  function Advance(p: Progress, line: Line, luck: Luck): Progress {
    if !Due(line, p) then Progress(p.run, p.ids + [""], p.made + [false])
    else if line.op.Make? then
      var a := ActOf(line.op, p.ids, luck);
      var (r, id, isNew) := SpokenObject(p.run, a.speaker, a.key, a.kind, a.path, a.content, a.created, a.marking);
      Progress(r, p.ids + [id], p.made + [isNew])
    else
      var a := ActOf(line.op, p.ids, luck);
      var answer := AnswerTo(LeavesToVoices(p.run.voices, a), luck.reply);
      Progress(Acted(p.run, a), p.ids + [if answer.Some? then answer.value else ""], p.made + [answer.Some?])
  }

  function Performed(voices: bool, site: Site, lines: seq<Line>, lucks: nat -> Luck, n: nat): (p: Progress)
    requires n <= |lines|
    ensures |p.ids| == |p.made| == n
  {
    if n == 0 then Progress(Loaded(voices, site), [], [])
    else Advance(Performed(voices, site, lines, lucks, n - 1), lines[n - 1], lucks(n - 1))
  }

  // ---------------------------------------------------------------- what every reachable state keeps

  /** Each queued write names only voices before it. */
  ghost predicate Backward(spoken: seq<Voice>) { forall k: nat | k < |spoken| :: NamesBefore(spoken[k], k) }

  ghost predicate NamesBefore(v: Voice, k: nat) { forall n | n in VoiceRefs(v) :: n < k }

  /** Nothing sent since the run began carries a placeholder. */
  ghost predicate Clean(sent: seq<Request>, from: nat) {
    forall i | from <= i < |sent| :: NamesNoVoice(sent[i])
  }

  ghost predicate NamesNoVoice(r: Request) { !Waits(r.path, r.body) }

  /** An identifier the content holds: plain, or the placeholder of a voice already queued. */
  predicate Spellable(id: string, queued: nat) {
    Plain(id) || exists k: nat :: k < queued && id == Placeholder(k)
  }

  ghost function SlotOf(id: string, queued: nat): (s: Slot)
    requires Spellable(id, queued)
    ensures Spell(s) == id && (s.Known? ==> Plain(s.s)) && (s.Voiced? ==> s.k < queued)
  {
    if Plain(id) then Known(id) else var k: nat :| k < queued && id == Placeholder(k); Voiced(k)
  }

  ghost predicate PlainRun(r: Run) {
    && (forall k | k in r.held :: Plain(r.held[k]))
    && (forall p | p in r.pending :: Plain(p.id))
    && (!r.voices ==> r.spoken == [])
  }

  ghost predicate Sound(p: Progress, from: nat) {
    && PlainRun(p.run)
    && (forall id | id in p.ids :: Spellable(id, |p.run.spoken|))
    && Backward(p.run.spoken)
    && Clean(p.run.site.sent, from)
  }

  /** The server's identifiers open no brace. */
  predicate PlainLuck(luck: Luck) {
    && (luck.created.Answered? ==> Plain(NameOf(luck.created)))
    && (luck.reply.answer.Some? ==> Plain(luck.reply.answer.value))
  }

  /** A line's texts name only voices already queued, and none at all in a run without voices. */
  lemma OpReads(op: Op, ids: seq<string>, queued: nat)
    requires PlainOp(op) && forall id | id in ids :: Spellable(id, queued)
    ensures forall n | n in Refs(Inst(op.path, ids)) :: n < queued
    ensures BodyOf(op).Some? ==> forall n | n in BodyRefs(InstBody(BodyOf(op).value, ids)) :: n < queued
    ensures queued == 0 ==> !Waits(Inst(op.path, ids), InstOption(BodyOf(op), ids))
  {
    var slots := seq(|ids|, i requires 0 <= i < |ids| => SlotOf(ids[i], queued));
    assert Spelled(slots) == ids;
    assert PlainSlots(slots);
    InstReads(op.path, slots, map[]);
    if BodyOf(op).Some? { BodyReads(BodyOf(op).value, slots, map[]); }
  }

  lemma QueueKeeps(r: Run, v: Voice)
    requires Backward(r.spoken) && forall n | n in VoiceRefs(v) :: n < |r.spoken|
    ensures Backward(Queue(r, v).spoken)
  {}

  /** One write of the content, its texts naming only voices already queued, keeps the queue and the calls sound. */
  lemma ActKeeps(r: Run, a: Act, from: nat)
    requires Backward(r.spoken) && Clean(r.site.sent, from) && PlainRun(r)
    requires forall n | n in Refs(a.path) :: n < |r.spoken|
    requires a.MakeObject? ==> forall n | n in BodyRefs(a.content) :: n < |r.spoken|
    requires !a.MakeObject? && a.body.Some? ==> forall n | n in BodyRefs(a.body.value) :: n < |r.spoken|
    requires !r.voices ==> !Waits(a.path, if a.MakeObject? then Some(a.content) else a.body)
    requires a.MakeObject? && a.created.Answered? ==> Plain(NameOf(a.created))
    ensures var r' := Acted(r, a);
            && Backward(r'.spoken) && Clean(r'.site.sent, from) && PlainRun(r') && |r.spoken| <= |r'.spoken|
    ensures a.MakeObject? ==>
              var (r', id, _) := SpokenObject(r, a.speaker, a.key, a.kind, a.path, a.content, a.created, a.marking);
              Spellable(id, |r'.spoken|)
  {
    if !a.MakeObject? {
      WriteKeeps(r, a, from);
    } else if a.key !in r.held && Left(r, a.speaker, a.path, Some(a.content)) {
      ObjectQueued(r, a, from);
    } else {
      CompactKeeps(a.path, a.content);
      ObjectSent(r, a);
    }
  }

  /** An object left to a voice: its identifier is that voice's placeholder. */
  lemma ObjectQueued(r: Run, a: Act, from: nat)
    requires a.MakeObject? && a.key !in r.held && Left(r, a.speaker, a.path, Some(a.content))
    requires Backward(r.spoken) && Clean(r.site.sent, from) && PlainRun(r)
    requires (forall n | n in Refs(a.path) :: n < |r.spoken|) && forall n | n in BodyRefs(a.content) :: n < |r.spoken|
    ensures var (r', id, _) := SpokenObject(r, a.speaker, a.key, a.kind, a.path, a.content, a.created, a.marking);
            && Backward(r'.spoken) && Clean(r'.site.sent, from) && PlainRun(r') && |r.spoken| <= |r'.spoken|
            && Spellable(id, |r'.spoken|)
  {
    var mark := MarkOf(a.speaker, a.key, a.kind);
    CompactKeeps(a.path, a.content);
    QueueKeeps(r, Voice(a.speaker, a.key, "POST", a.path, Some(Compact(a.content)), mark));
    assert Placeholder(|r.spoken|) == Placeholder(|r.spoken|);
  }

  /** Any other write: queued, or sent where it waits for nothing. */
  lemma WriteKeeps(r: Run, a: Act, from: nat)
    requires !a.MakeObject? && Backward(r.spoken) && Clean(r.site.sent, from) && PlainRun(r)
    requires forall n | n in Refs(a.path) :: n < |r.spoken|
    requires a.body.Some? ==> forall n | n in BodyRefs(a.body.value) :: n < |r.spoken|
    requires !r.voices ==> !Waits(a.path, a.body)
    ensures var r' := Acted(r, a);
            Backward(r'.spoken) && Clean(r'.site.sent, from) && PlainRun(r') && |r.spoken| <= |r'.spoken|
  {
    WriteIsQueuedOrSent(r, a);
    QueueKeeps(r, Voice(if a.Say? then a.speaker else "", a.what, a.verb, a.path, a.body, None));
  }

  lemma WriteIsQueuedOrSent(r: Run, a: Act)
    requires !a.MakeObject?
    ensures var r', queued := Acted(r, a), LeavesToVoices(r.voices, a);
            var v := Voice(if a.Say? then a.speaker else "", a.what, a.verb, a.path, a.body, None);
            && r'.voices == r.voices && r'.held == r.held && r'.pending == r.pending
            && r'.spoken == (if queued then r.spoken + [v] else r.spoken)
            && r'.site.sent == (if queued then r.site.sent
                                else r.site.sent + [Request("", SentVerb(a.verb), a.path, SentBody(a.verb, a.body))])
  {}

  lemma CompactKeeps(path: string, content: Body)
    ensures BodyRefs(Compact(content)) <= BodyRefs(content)
    ensures Waits(path, Some(Compact(content))) ==> Waits(path, Some(content))
  {
    if content.Object? { CompactDropsOnly(content.fields); }
  }

  /** What is taken from the answer to a creation leaves the queue and the calls as they are. */
  lemma TakenKeeps(asked: Run, key: string, kind: string, c: Created, m: Marking)
    requires PlainRun(asked) && (c.Answered? ==> Plain(NameOf(c)))
    ensures var (r', id, _) := Taken(asked, key, kind, c, m);
            PlainRun(r') && Plain(id) && r'.spoken == asked.spoken && r'.site.sent == asked.site.sent
  {}

  lemma ObjectSent(r: Run, a: Act)
    requires a.MakeObject? && PlainRun(r)
    requires a.key in r.held || !Left(r, a.speaker, a.path, Some(a.content))
    requires a.created.Answered? ==> Plain(NameOf(a.created))
    ensures var (r', id, _) := SpokenObject(r, a.speaker, a.key, a.kind, a.path, a.content, a.created, a.marking);
            && PlainRun(r') && Plain(id) && r'.spoken == r.spoken
            && r'.site.sent ==
               if a.key in r.held then r.site.sent
               else r.site.sent + [Request("", "POST", a.path, Some(Compact(a.content)))]
  {
    if a.key !in r.held {
      var asked := r.(site := CreatedAt(r.site, a.key, a.path, a.content, a.created));
      TakenKeeps(asked, a.key, a.kind, a.created, a.marking);
    }
  }

  lemma AdvanceKeeps(p: Progress, line: Line, luck: Luck, from: nat)
    requires Sound(p, from) && PlainOp(line.op) && PlainLuck(luck)
    ensures Sound(Advance(p, line, luck), from)
  {
    if Due(line, p) {
      OpReads(line.op, p.ids, |p.run.spoken|);
      ActKeeps(p.run, ActOf(line.op, p.ids, luck), from);
      var p' := Advance(p, line, luck);
      forall id | id in p'.ids ensures Spellable(id, |p'.run.spoken|) {
        assert id in p.ids ==> Spellable(id, |p.run.spoken|);
      }
    } else {
      assert forall id | id in p.ids + [""] :: id in p.ids || Plain(id);
    }
  }

  /**
   In every state a showcase reaches, whatever was refused or lost: each placeholder in a queued
   write names an earlier voice, nothing carrying one was sent, and every identifier in hand is the
   server's or the placeholder of a queued voice.
   */
  lemma {:induction false} EveryStateIsSound(voices: bool, site: Site, lines: seq<Line>, lucks: nat -> Luck, n: nat)
    requires n <= |lines|
    requires forall k | k in site.marks :: Plain(site.marks[k].id)
    requires forall i: nat | i < n :: PlainOp(lines[i].op) && PlainLuck(lucks(i))
    ensures Sound(Performed(voices, site, lines, lucks, n), |site.sent|)
  {
    if n > 0 {
      EveryStateIsSound(voices, site, lines, lucks, n - 1);
      AdvanceKeeps(Performed(voices, site, lines, lucks, n - 1), lines[n - 1], lucks(n - 1), |site.sent|);
    }
  }

  lemma ReadNamesNone(kind: string, id: string)
    requires Plain(id)
    ensures Refs(ReadPath(kind, id)) == {}
  {
    var path := ReadPath(kind, id);
    PlainInFront(path, "", map[]);
    assert path + "" == path;
  }

  lemma FlushOneWritesNothing(r: Run, p: Pending, f: Flushing)
    ensures var r' := FlushedOne(r, p, f);
            && r'.site.sent == r.site.sent && r'.voices == r.voices
            && r'.spoken == if r.voices then r.spoken + [MarkVoice(p)] else r.spoken
  {}

  /** A versioned object's mark, left to the voices: read the path, mark what it answers. */
  function MarkVoice(p: Pending): Voice {
    Voice("", "mark " + p.mark.key, "MARK", ReadPath(p.mark.kind, p.id), None, Some(p.mark))
  }

  lemma {:induction false} FlushLeaves(r: Run, fs: nat -> Flushing, n: nat)
    requires n <= |r.pending|
    ensures FlushedFirst(r, fs, n).site.sent == r.site.sent && FlushedFirst(r, fs, n).voices == r.voices
    ensures FlushedFirst(r, fs, n).spoken == if r.voices then r.spoken + MarkVoices(r.pending[..n]) else r.spoken
  {
    if n == 0 {
      assert r.spoken + [] == r.spoken;
    } else {
      FlushLeaves(r, fs, n - 1);
      FlushOneWritesNothing(FlushedFirst(r, fs, n - 1), r.pending[n - 1], fs(n - 1));
      MarkVoicesNext(r.pending, n - 1);
    }
  }

  lemma MarkVoicesNext(ps: seq<Pending>, n: nat)
    requires n < |ps|
    ensures MarkVoices(ps[..n + 1]) == MarkVoices(ps[..n]) + [MarkVoice(ps[n])]
  {
    assert ps[..n + 1][..n] == ps[..n];
  }

  function MarkVoices(ps: seq<Pending>): (vs: seq<Voice>)
    ensures |vs| == |ps| && forall i | 0 <= i < |vs| :: vs[i] == MarkVoice(ps[i])
  {
    if ps == [] then [] else MarkVoices(ps[..|ps| - 1]) + [MarkVoice(ps[|ps| - 1])]
  }

  ghost predicate SoundRun(r: Run, from: nat) { Backward(r.spoken) && Clean(r.site.sent, from) }

  /** The marks left to the voices at the end name no voice at all, so the whole queue stays backward. */
  lemma FlushIsSound(r: Run, fs: nat -> Flushing, n: nat, from: nat)
    requires n <= |r.pending|
    requires SoundRun(r, from) && forall p | p in r.pending :: Plain(p.id)
    ensures SoundRun(FlushedFirst(r, fs, n), from)
  {
    FlushLeaves(r, fs, n);
    if r.voices { MarksAreBackward(r.spoken, r.pending[..n]); }
  }

  lemma MarksAreBackward(spoken: seq<Voice>, ps: seq<Pending>)
    requires Backward(spoken) && forall p | p in ps :: Plain(p.id)
    ensures Backward(spoken + MarkVoices(ps))
  {
    var vs := spoken + MarkVoices(ps);
    forall k: nat | k < |vs| ensures NamesBefore(vs[k], k) {
      if k < |spoken| {
        assert NamesBefore(spoken[k], k);
      } else {
        var p := ps[k - |spoken|];
        assert p in ps && vs[k] == MarkVoice(p);
        ReadNamesNone(p.mark.kind, p.id);
      }
    }
  }
}
