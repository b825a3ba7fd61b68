/**
 `--voices` as deferred execution: hubctl writes some of the showcase at once and queues the
 rest, and the replay of the queue completes it. With every write accepted and every speaker
 signed in: what the two write, each line once, and which lines fare as in a run without `--voices`.
 */
module Deferred {
  import opened Wrappers
  import opened Placeholders
  import opened Json
  import opened Voices
  import opened Showcase
  import opened Replay
  import opened Templates
  import opened Program

  /** What becomes of a line: its owner is not new, its mark is held, written at once, or left to a voice. */
  datatype Fate = Skipped | AlreadyHeld | Sent | Queued

  /** How an accepted write is answered: with no body at all, or one that names no identifier, or one that does. */
  datatype Answering = AnswersNothing | AnswersUnnamed | AnswersNamed

  /**
   A showcase on a workspace holding `held`. Where line `i` is written at once its server answers
   `ids(i)`: an object's identifier, or what it answers any other write as `answers(i)` says.
   */
  datatype Show = Show(
    lines: seq<Line>, held: map<string, string>, ids: nat -> string, answers: nat -> Answering)

  function SpeakerOf(op: Op): string { if op.Make? || op.Say? then op.speaker else "" }

  /** The fate of line `i`, from the lines before it alone. */
  function FateOf(s: Show, voices: bool, i: nat): Fate
    requires i < |s.lines|
    decreases i, 1
  {
    var line := s.lines[i];
    if !OwnerDue(s, voices, i) then Skipped
    else if line.op.Make? && line.op.key in s.held then AlreadyHeld
    else if voices && (line.op.Later? || SpeakerOf(line.op) != "" || NamesVoiced(s, i)) then Queued
    else Sent
  }

  /**
   What line `i` belongs to is there: an object this run makes, or a write that was answered, with an
   identifier where the line asks for one. A write left to a voice is answered at once, naming nothing.
   */
  predicate OwnerDue(s: Show, voices: bool, i: nat)
    requires i < |s.lines|
    decreases i, 0
  {
    s.lines[i].owner.Some? ==>
      var j, named := s.lines[i].owner.value.line, s.lines[i].owner.value.named;
      && j < i && IsWritten(s, voices, j)
      && if s.lines[j].op.Make? then true
         else if FateOf(s, voices, j) == Queued then !named
         else Answers(s.answers(j), named)
  }

  /** The answer is there, and names an identifier where one is asked for. */
  predicate Answers(a: Answering, named: bool) { if named then a.AnswersNamed? else !a.AnswersNothing? }

  /** Line `i` makes its object in this run, or is a write that is answered. */
  predicate IsAnswered(s: Show, voices: bool, i: nat)
    requires i < |s.lines|
  {
    IsWritten(s, voices, i)
    && (s.lines[i].op.Make? || FateOf(s, voices, i) == Queued || !s.answers(i).AnswersNothing?)
  }

  /** Line `i` names an object that a voice is left to make. */
  predicate NamesVoiced(s: Show, i: nat)
    requires i < |s.lines|
    decreases i, 0
  {
    exists j | j in OpLines(s.lines[i].op) :: j < i && IsVoiced(s, j)
  }

  /** Line `i` is written in this run, at once or by a voice. */
  predicate IsWritten(s: Show, voices: bool, i: nat)
    requires i < |s.lines|
    decreases i, 2
  {
    FateOf(s, voices, i) == Sent || FateOf(s, voices, i) == Queued
  }

  /** Line `i` makes an object in this run. */
  predicate IsNew(s: Show, voices: bool, i: nat)
    requires i < |s.lines|
  {
    s.lines[i].op.Make? && IsWritten(s, voices, i)
  }

  lemma NewIsNotHeld(s: Show, voices: bool, i: nat)
    requires i < |s.lines| && IsNew(s, voices, i)
    ensures s.lines[i].op.key !in s.held
  {
    assert FateOf(s, voices, i) != AlreadyHeld && FateOf(s, voices, i) != Skipped;
  }

  /** Line `i` makes an object that a voice is left to make. */
  predicate IsVoiced(s: Show, i: nat)
    requires i < |s.lines|
    decreases i, 2
  {
    s.lines[i].op.Make? && FateOf(s, true, i) == Queued
  }

  /** The place in the queue line `i` would take. */
  function Place(s: Show, voices: bool, i: nat): nat
    requires i <= |s.lines|
  {
    if i == 0 then 0 else Place(s, voices, i - 1) + if FateOf(s, voices, i - 1) == Queued then 1 else 0
  }

  function SlotAt(s: Show, voices: bool, i: nat): Slot
    requires i < |s.lines|
  {
    match FateOf(s, voices, i)
    case Skipped => Known("")
    case AlreadyHeld => Known(s.held[s.lines[i].op.key])
    case Sent => Known(s.ids(i))
    case Queued => if s.lines[i].op.Make? then Voiced(Place(s, voices, i)) else Known("")
  }

  function SlotsTo(s: Show, voices: bool, n: nat): (slots: seq<Slot>)
    requires n <= |s.lines|
    ensures |slots| == n && forall i | 0 <= i < n :: slots[i] == SlotAt(s, voices, i)
  {
    seq(n, i requires 0 <= i < n => SlotAt(s, voices, i))
  }

  /** The lines with a fate, in order. */
  function WithFate(s: Show, voices: bool, fate: Fate, n: nat): (idx: seq<nat>)
    requires n <= |s.lines|
    ensures (forall k | 0 <= k < |idx| :: idx[k] < n) && AllIn(s, idx)
  {
    if n == 0 then []
    else if FateOf(s, voices, n - 1) == fate then WithFate(s, voices, fate, n - 1) + [n - 1]
    else WithFate(s, voices, fate, n - 1)
  }

  // ---------------------------------------------------------------- the writes of a line

  function VerbOf(op: Op): string { if op.Make? then "POST" else op.verb }

  /** The body a line sends: a made object's without its empty members. */
  function BodyFor(op: Op, ids: seq<string>): Option<Body> {
    if op.Make? then Some(Compact(InstBody(op.content, ids))) else InstOption(op.body, ids)
  }

  /** The write as the signed-in person makes it at once, which reads without a body and knows no other methods. */
  function RequestFor(op: Op, ids: seq<string>): Request {
    Request("", SentVerb(VerbOf(op)), Inst(op.path, ids), SentBody(VerbOf(op), BodyFor(op, ids)))
  }

  /** The write as the replay makes it: its speaker's, its method kept, and with `{}` where it has no body. */
  function SpokenFor(op: Op, ids: seq<string>): Request {
    var body := BodyFor(op, ids);
    Request(SpeakerOf(op), VerbOf(op), Inst(op.path, ids),
            if body.None? && VerbOf(op) != "GET" then Some(Object(End)) else body)
  }

  function WhatOf(op: Op): string { if op.Make? then op.key else op.what }

  function VoiceFor(op: Op, ids: seq<string>): Voice {
    Voice(SpeakerOf(op), WhatOf(op), VerbOf(op), Inst(op.path, ids), BodyFor(op, ids),
          if op.Make? then MarkOf(op.speaker, op.key, op.kind) else None)
  }

  predicate AllIn(s: Show, idx: seq<nat>) { forall k | 0 <= k < |idx| :: idx[k] < |s.lines| }

  function Requests(s: Show, idx: seq<nat>, ids: seq<string>): (rs: seq<Request>)
    requires AllIn(s, idx)
    ensures |rs| == |idx| && forall k | 0 <= k < |rs| :: rs[k] == RequestFor(s.lines[idx[k]].op, ids)
  {
    seq(|idx|, k requires 0 <= k < |idx| => RequestFor(s.lines[idx[k]].op, ids))
  }

  function Spokens(s: Show, idx: seq<nat>, ids: seq<string>): (rs: seq<Request>)
    requires AllIn(s, idx)
    ensures |rs| == |idx| && forall k | 0 <= k < |rs| :: rs[k] == SpokenFor(s.lines[idx[k]].op, ids)
  {
    seq(|idx|, k requires 0 <= k < |idx| => SpokenFor(s.lines[idx[k]].op, ids))
  }

  function VoicesOf(s: Show, idx: seq<nat>, ids: seq<string>): (vs: seq<Voice>)
    requires AllIn(s, idx)
    ensures |vs| == |idx| && forall k | 0 <= k < |vs| :: vs[k] == VoiceFor(s.lines[idx[k]].op, ids)
  {
    seq(|idx|, k requires 0 <= k < |idx| => VoiceFor(s.lines[idx[k]].op, ids))
  }

  /** One line more, one write more. */
  lemma OneMoreListed(s: Show, idx: seq<nat>, n: nat, ids: seq<string>)
    requires AllIn(s, idx) && n < |s.lines|
    ensures AllIn(s, idx + [n])
    ensures Requests(s, idx + [n], ids) == Requests(s, idx, ids) + [RequestFor(s.lines[n].op, ids)]
    ensures Spokens(s, idx + [n], ids) == Spokens(s, idx, ids) + [SpokenFor(s.lines[n].op, ids)]
    ensures VoicesOf(s, idx + [n], ids) == VoicesOf(s, idx, ids) + [VoiceFor(s.lines[n].op, ids)]
  {}

  // ---------------------------------------------------------------- what is asked of a showcase

  predicate Earlier(lines: set<nat>, n: nat) { forall i | i in lines :: i < n }

  /** Literals open no brace, the line names earlier ones only, and its write is not called MARK. */
  ghost predicate GoodLine(s: Show, i: nat)
    requires i < |s.lines|
  {
    PlainOp(s.lines[i].op) && Earlier(OpLines(s.lines[i].op), i) && VerbOf(s.lines[i].op) != "MARK"
  }

  ghost predicate OwnKeys(s: Show, i: nat, j: nat)
    requires i < |s.lines| && j < |s.lines|
  {
    i != j && s.lines[i].op.Make? && s.lines[j].op.Make? ==> s.lines[i].op.key != s.lines[j].op.key
  }

  /** An object made has an identifier, and any other write one where its answer names one. */
  ghost predicate PlainId(s: Show, i: nat)
    requires i < |s.lines|
  {
    Plain(s.ids(i)) && (s.ids(i) != "" <==> s.lines[i].op.Make? || s.answers(i).AnswersNamed?)
  }

  /**
   A showcase as the content writes one: each object has a key of its own, and the server's identifiers
   open no brace.
   */
  ghost predicate WellFormed(s: Show) {
    && (forall i: nat | i < |s.lines| :: GoodLine(s, i))
    && (forall i: nat, j: nat | i < |s.lines| && j < |s.lines| :: OwnKeys(s, i, j))
    && (forall i: nat | i < |s.lines| :: PlainId(s, i))
    && PlainHeld(s.held)
  }

  ghost predicate PlainHeld(held: map<string, string>) { forall k | k in held :: Plain(held[k]) }

  /** Line `i` is accepted and answered as the showcase's server does: an object is named, and its mark kept. */
  ghost predicate LuckAt(s: Show, lucks: nat -> Luck, i: nat)
    requires i < |s.lines|
  {
    AcceptsAs(s.lines[i].op, s.ids(i), s.answers(i), lucks(i))
  }

  predicate AcceptsAs(op: Op, id: string, answering: Answering, luck: Luck) {
    if op.Make? then luck.created.Answered? && NameOf(luck.created) == id && luck.marking.Kept?
    else luck.reply.accepted && luck.reply.answer == if answering.AnswersNothing? then None else Some(id)
  }

  ghost predicate Lucky(s: Show, lucks: nat -> Luck) { forall i: nat | i < |s.lines| :: LuckAt(s, lucks, i) }

  /** The version an object's creation answered. */
  function VersionMade(luck: Luck): Option<int> {
    if luck.created.Answered? then luck.created.version else None
  }

  // ---------------------------------------------------------------- one run, described

  lemma SlotsArePlain(s: Show, voices: bool, n: nat)
    requires n <= |s.lines| && WellFormed(s)
    ensures PlainSlots(SlotsTo(s, voices, n))
  {
    forall i: nat | i < n && SlotAt(s, voices, i).Known? ensures Plain(SlotAt(s, voices, i).s) {
      assert PlainId(s, i);
    }
  }

  /** A line names an awaited voice exactly when it refers to an object left to one. */
  lemma AwaitsVoiced(s: Show, voices: bool, n: nat)
    requires n < |s.lines|
    ensures Awaited(OpLines(s.lines[n].op), SlotsTo(s, voices, n)) != {}
       <==> voices && exists j | j in OpLines(s.lines[n].op) :: j < n && IsVoiced(s, j)
  {
    var ls, slots := OpLines(s.lines[n].op), SlotsTo(s, voices, n);
    if voices {
      if j :| j in ls && j < n && IsVoiced(s, j) {
        assert slots[j].Voiced?;
        assert slots[j].k in Awaited(ls, slots);
      }
    } else {
      forall j | j in ls && j < n ensures !slots[j].Voiced? { NothingQueued(s, j); }
    }
  }

  lemma NothingQueued(s: Show, i: nat)
    requires i < |s.lines|
    ensures FateOf(s, false, i) != Queued
  {}

  /** hubctl leaves a line to the voices exactly when its fate says so. */
  lemma LeftIsQueued(s: Show, voices: bool, n: nat, r: Run)
    requires n < |s.lines| && WellFormed(s) && r.voices == voices
    ensures var op, ids := s.lines[n].op, Spelled(SlotsTo(s, voices, n));
            Waits(Inst(op.path, ids), InstOption(BodyOf(op), ids))
            <==> voices && exists j | j in OpLines(op) :: j < n && IsVoiced(s, j)
  {
    var op, slots := s.lines[n].op, SlotsTo(s, voices, n);
    assert GoodLine(s, n);
    SlotsArePlain(s, voices, n);
    AwaitsVoiced(s, voices, n);
    InstReads(op.path, slots, map[]);
    if BodyOf(op).Some? {
      BodyReads(BodyOf(op).value, slots, map[]);
      AwaitedSplit(Lines(op.path), BodyLines(BodyOf(op).value), slots);
    }
  }

  ghost predicate HeldFrom(s: Show, held: map<string, string>, n: nat, k: string)
    requires n <= |s.lines|
  {
    && (k in s.held ==> k in held && held[k] == s.held[k])
    && (k in held ==> k in s.held || exists i: nat :: MadeUnder(s, n, k, i))
  }

  ghost predicate MadeUnder(s: Show, n: nat, k: string, i: nat)
    requires n <= |s.lines|
  {
    i < n && s.lines[i].op.Make? && s.lines[i].op.key == k
  }

  /** The parts of a run that line `n` finds, `n` lines into a showcase all of whose writes are accepted. */
  ghost predicate Describes(p: Progress, s: Show, voices: bool, n: nat)
    requires n <= |s.lines|
  {
    && p.ids == Spelled(SlotsTo(s, voices, n))
    && p.made == AnsweredTo(s, voices, n)
    && p.run.voices == voices
    && |p.run.spoken| == Place(s, voices, n)
    && forall k: string :: HeldFrom(s, p.run.held, n, k)
  }

  function AnsweredTo(s: Show, voices: bool, n: nat): (made: seq<bool>)
    requires n <= |s.lines|
    ensures |made| == n && forall i | 0 <= i < n :: made[i] == IsAnswered(s, voices, i)
  {
    seq(n, i requires 0 <= i < n => IsAnswered(s, voices, i))
  }

  /** What is left of a line's effect once its fate is known. */
  ghost predicate Follows(p: Progress, p': Progress, s: Show, voices: bool, n: nat, version: Option<int>)
    requires n < |s.lines|
  {
    var op, fate := s.lines[n].op, FateOf(s, voices, n);
    var kept := fate == Sent && op.Make?;
    && p'.ids == p.ids + [Spell(SlotAt(s, voices, n))]
    && p'.made == p.made + [IsAnswered(s, voices, n)]
    && p'.run.voices == voices
    && p'.run.spoken == (if fate == Queued then p.run.spoken + [VoiceFor(op, p.ids)] else p.run.spoken)
    && p'.run.site.sent == (if fate == Sent then p.run.site.sent + [RequestFor(op, p.ids)] else p.run.site.sent)
    && p'.run.held == (if kept then p.run.held[op.key := s.ids(n)] else p.run.held)
    && p'.run.pending == (if kept && Versioned(op.kind)
                          then p.run.pending + [Pending(Mark(op.key, op.kind), s.ids(n))] else p.run.pending)
    && p'.run.site.marks == (if kept && !Versioned(op.kind)
                             then p.run.site.marks[op.key := Stored(s.ids(n), version)] else p.run.site.marks)
  }

  lemma ObjectFollows(p: Progress, s: Show, voices: bool, n: nat, luck: Luck)
    requires n < |s.lines| && s.lines[n].op.Make? && Due(s.lines[n], p) && p.run.voices == voices
    requires |p.run.spoken| == Place(s, voices, n)
    requires s.ids(n) != "" && AcceptsAs(s.lines[n].op, s.ids(n), s.answers(n), luck)
    requires var op := s.lines[n].op;
             && (op.key in p.run.held <==> op.key in s.held)
             && (op.key in s.held ==> p.run.held[op.key] == s.held[op.key])
             && FateOf(s, voices, n) ==
                if op.key in s.held then AlreadyHeld
                else if Left(p.run, op.speaker, Inst(op.path, p.ids), Some(InstBody(op.content, p.ids))) then Queued
                else Sent
    ensures Follows(p, Advance(p, s.lines[n], luck), s, voices, n, VersionMade(luck))
  {}

  lemma WriteFollows(p: Progress, s: Show, voices: bool, n: nat, luck: Luck)
    requires n < |s.lines| && !s.lines[n].op.Make? && Due(s.lines[n], p) && p.run.voices == voices
    requires PlainId(s, n) && AcceptsAs(s.lines[n].op, s.ids(n), s.answers(n), luck)
    requires var op := s.lines[n].op;
             FateOf(s, voices, n) ==
             if voices && (op.Later? || SpeakerOf(op) != "" || Waits(Inst(op.path, p.ids), InstOption(op.body, p.ids)))
             then Queued else Sent
    ensures Follows(p, Advance(p, s.lines[n], luck), s, voices, n, VersionMade(luck))
  {}

  /** A line is due exactly when what it belongs to is there. */
  lemma DueIsOwnerDue(s: Show, voices: bool, n: nat, p: Progress)
    requires n < |s.lines| && WellFormed(s) && Describes(p, s, voices, n)
    ensures Due(s.lines[n], p) <==> OwnerDue(s, voices, n)
  {
    if s.lines[n].owner.Some? && s.lines[n].owner.value.line < n {
      var j := s.lines[n].owner.value.line;
      assert PlainId(s, j) && p.ids[j] == Spell(SlotAt(s, voices, j));
    }
  }

  /** What one line does to a described run. */
  lemma LineFollows(p: Progress, s: Show, voices: bool, n: nat, luck: Luck)
    requires n < |s.lines| && WellFormed(s) && Describes(p, s, voices, n)
    requires AcceptsAs(s.lines[n].op, s.ids(n), s.answers(n), luck)
    ensures Follows(p, Advance(p, s.lines[n], luck), s, voices, n, VersionMade(luck))
  {
    LeftIsQueued(s, voices, n, p.run);
    assert PlainId(s, n);
    var line := s.lines[n];
    DueIsOwnerDue(s, voices, n, p);
    if Due(line, p) {
      if line.op.Make? {
        assert HeldFrom(s, p.run.held, n, line.op.key);
        assert forall i: nat | i < n :: OwnKeys(s, i, n) && !MadeUnder(s, n, line.op.key, i);
        ObjectFollows(p, s, voices, n, luck);
      } else {
        WriteFollows(p, s, voices, n, luck);
      }
    }
  }

  lemma DescribesNext(p: Progress, p': Progress, s: Show, voices: bool, n: nat, version: Option<int>)
    requires n < |s.lines| && WellFormed(s) && Describes(p, s, voices, n) && Follows(p, p', s, voices, n, version)
    ensures Describes(p', s, voices, n + 1)
  {
    assert SlotsTo(s, voices, n + 1) == SlotsTo(s, voices, n) + [SlotAt(s, voices, n)];
    assert p'.ids == Spelled(SlotsTo(s, voices, n + 1));
    assert p'.made == AnsweredTo(s, voices, n + 1);
    var held', next := p'.run.held, n + 1;
    forall k: string ensures HeldFrom(s, held', next, k) {
      assert HeldFrom(s, p.run.held, n, k);
      if i: nat :| MadeUnder(s, n, k, i) { assert MadeUnder(s, n + 1, k, i); }
      if k in p'.run.held && k !in p.run.held { assert MadeUnder(s, n + 1, k, n); }
    }
  }

  lemma {:induction false} RunIsDescribed(s: Show, voices: bool, site: Site, lucks: nat -> Luck, n: nat)
    requires n <= |s.lines| && WellFormed(s) && Lucky(s, lucks) && s.held == Ids(site.marks)
    ensures Describes(Performed(voices, site, s.lines, lucks, n), s, voices, n)
  {
    if n == 0 {
      assert SlotsTo(s, voices, 0) == [] && AnsweredTo(s, voices, 0) == [];
      forall k: string ensures HeldFrom(s, s.held, 0, k) {}
    } else {
      RunIsDescribed(s, voices, site, lucks, n - 1);
      var p := Performed(voices, site, s.lines, lucks, n - 1);
      assert LuckAt(s, lucks, n - 1);
      LineFollows(p, s, voices, n - 1, lucks(n - 1));
      DescribesNext(p, Advance(p, s.lines[n - 1], lucks(n - 1)), s, voices, n - 1, VersionMade(lucks(n - 1)));
    }
  }

  // ---------------------------------------------------------------- what a run sends and queues

  ghost predicate AgreeOn(
    lines: set<nat>, a: seq<string>, b: seq<string>) { forall i | i in lines :: At(a, i) == At(b, i) }

  lemma OpAgrees(op: Op, a: seq<string>, b: seq<string>)
    requires AgreeOn(OpLines(op), a, b)
    ensures RequestFor(op, a) == RequestFor(op, b) && SpokenFor(op, a) == SpokenFor(op, b)
    ensures VoiceFor(op, a) == VoiceFor(op, b)
  {
    InstAgrees(op.path, a, b);
    if BodyOf(op).Some? { BodyAgrees(BodyOf(op).value, a, b); }
  }

  ghost predicate ServesAt(s: Show, voices: bool, fate: Fate, ids: seq<string>, i: nat)
    requires i < |s.lines|
  {
    FateOf(s, voices, i) == fate ==> AgreeOn(OpLines(s.lines[i].op), ids, Spelled(SlotsTo(s, voices, i)))
  }

  /** Every line of a fate reads the same with `ids` as with the identifiers at hand when it was written. */
  ghost predicate Serves(s: Show, voices: bool, fate: Fate, ids: seq<string>) {
    forall i: nat | i < |s.lines| :: ServesAt(s, voices, fate, ids, i)
  }

  lemma Stepped(s: Show, voices: bool, site: Site, lucks: nat -> Luck, n: nat)
    requires n < |s.lines| && WellFormed(s) && Lucky(s, lucks) && s.held == Ids(site.marks)
    ensures var p := Performed(voices, site, s.lines, lucks, n);
            && p.ids == Spelled(SlotsTo(s, voices, n))
            && Follows(p, Performed(voices, site, s.lines, lucks, n + 1), s, voices, n, VersionMade(lucks(n)))
  {
    RunIsDescribed(s, voices, site, lucks, n);
    assert LuckAt(s, lucks, n);
    LineFollows(Performed(voices, site, s.lines, lucks, n), s, voices, n, lucks(n));
  }

  lemma OneMore(s: Show, voices: bool, fate: Fate, n: nat, ids: seq<string>)
    requires n < |s.lines| && Serves(s, voices, fate, ids)
    ensures var now, next, op, had :=
              WithFate(s, voices, fate, n), WithFate(s, voices, fate, n + 1),
              s.lines[n].op, Spelled(SlotsTo(s, voices, n));
            if FateOf(s, voices, n) == fate then
              && Requests(s, next, ids) == Requests(s, now, ids) + [RequestFor(op, had)]
              && VoicesOf(s, next, ids) == VoicesOf(s, now, ids) + [VoiceFor(op, had)]
            else next == now
  {
    assert ServesAt(s, voices, fate, ids, n);
    if FateOf(s, voices, n) == fate {
      OneMoreListed(s, WithFate(s, voices, fate, n), n, ids);
      OpAgrees(s.lines[n].op, ids, Spelled(SlotsTo(s, voices, n)));
    }
  }

  lemma Associates(a: seq<Request>, b: seq<Request>, c: seq<Request>)
    ensures a + b + c == a + (b + c)
  {}

  lemma {:induction false} SentSoFar(s: Show, voices: bool, site: Site, lucks: nat -> Luck, n: nat, ids: seq<string>)
    requires n <= |s.lines| && WellFormed(s) && Lucky(s, lucks) && s.held == Ids(site.marks)
    requires Serves(s, voices, Sent, ids)
    ensures Performed(voices, site, s.lines, lucks, n).run.site.sent
         == site.sent + Requests(s, WithFate(s, voices, Sent, n), ids)
  {
    if n > 0 {
      SentSoFar(s, voices, site, lucks, n - 1, ids);
      SentNext(s, voices, site, lucks, n - 1, ids);
    }
  }

  lemma SentNext(s: Show, voices: bool, site: Site, lucks: nat -> Luck, n: nat, ids: seq<string>)
    requires n < |s.lines| && WellFormed(s) && Lucky(s, lucks) && s.held == Ids(site.marks)
    requires Serves(s, voices, Sent, ids)
    requires Performed(voices, site, s.lines, lucks, n).run.site.sent
          == site.sent + Requests(s, WithFate(s, voices, Sent, n), ids)
    ensures Performed(voices, site, s.lines, lucks, n + 1).run.site.sent
         == site.sent + Requests(s, WithFate(s, voices, Sent, n + 1), ids)
  {
    Stepped(s, voices, site, lucks, n);
    OneMore(s, voices, Sent, n, ids);
    Associates(site.sent, Requests(s, WithFate(s, voices, Sent, n), ids),
               [RequestFor(s.lines[n].op, Spelled(SlotsTo(s, voices, n)))]);
  }

  lemma {:induction false} SpokenSoFar(s: Show, voices: bool, site: Site, lucks: nat -> Luck, n: nat, ids: seq<string>)
    requires n <= |s.lines| && WellFormed(s) && Lucky(s, lucks) && s.held == Ids(site.marks)
    requires Serves(s, voices, Queued, ids)
    ensures Performed(voices, site, s.lines, lucks, n).run.spoken == VoicesOf(s, WithFate(s, voices, Queued, n), ids)
  {
    if n > 0 {
      SpokenSoFar(s, voices, site, lucks, n - 1, ids);
      LineSpoken(s, voices, site, lucks, n - 1, ids);
    }
  }

  lemma LineSpoken(s: Show, voices: bool, site: Site, lucks: nat -> Luck, n: nat, ids: seq<string>)
    requires n < |s.lines| && WellFormed(s) && Lucky(s, lucks) && s.held == Ids(site.marks)
    requires Serves(s, voices, Queued, ids)
    requires Performed(voices, site, s.lines, lucks, n).run.spoken == VoicesOf(s, WithFate(s, voices, Queued, n), ids)
    ensures Performed(voices, site, s.lines, lucks, n + 1).run.spoken
         == VoicesOf(s, WithFate(s, voices, Queued, n + 1), ids)
  {
    Stepped(s, voices, site, lucks, n);
    OneMore(s, voices, Queued, n, ids);
  }

  /**
   The identifiers the content has of every line in the end: its own, or what the voice its placeholder
   names made.
   */
  function HandIds(s: Show, voices: bool, os: nat -> Outcome, n: nat): (ids: seq<string>)
    requires n <= |s.lines|
    ensures |ids| == n && forall i | 0 <= i < n :: ids[i] == FinalAt(SlotAt(s, voices, i), os)
  {
    seq(n, i requires 0 <= i < n => FinalAt(SlotAt(s, voices, i), os))
  }

  function FinalAt(slot: Slot, os: nat -> Outcome): string {
    if slot.Known? then slot.s else Given(os(slot.k))
  }

  /** The identifier a call gives. */
  function Given(o: Outcome): string { if o.answer.Answered? then Identifier(o.answer) else "" }

  lemma SpelledServes(s: Show, voices: bool, fate: Fate)
    requires WellFormed(s)
    ensures Serves(s, voices, fate, Spelled(SlotsTo(s, voices, |s.lines|)))
  {
    forall i: nat | i < |s.lines| ensures ServesAt(s, voices, fate, Spelled(SlotsTo(s, voices, |s.lines|)), i) {
      assert GoodLine(s, i);
    }
  }

  /** What is written at once refers to nothing left to a voice, so it has its final identifiers already. */
  lemma FinalsServe(s: Show, voices: bool, os: nat -> Outcome)
    requires WellFormed(s)
    ensures Serves(s, voices, Sent, HandIds(s, voices, os, |s.lines|))
  {
    var ids := HandIds(s, voices, os, |s.lines|);
    forall i: nat | i < |s.lines| ensures ServesAt(s, voices, Sent, ids, i) {
      assert GoodLine(s, i);
      if FateOf(s, voices, i) == Sent {
        forall j | j in OpLines(s.lines[i].op) ensures At(ids, j) == At(Spelled(SlotsTo(s, voices, i)), j) {
          if !voices { NothingQueued(s, j); } else { assert !NamesVoiced(s, i) && !IsVoiced(s, j); }
        }
      }
    }
  }

  // ---------------------------------------------------------------- the replay of the queue

  /** Voice `k` is accepted and its mark kept. */
  ghost predicate AcceptedAt(os: nat -> Outcome, k: nat) { !os(k).answer.Refused? && os(k).markKept }

  /** The voice left to make line `i`'s object is told its identifier. */
  ghost predicate NamedAt(s: Show, os: nat -> Outcome, i: nat)
    requires i < |s.lines|
  {
    IsVoiced(s, i) ==> FinalAt(SlotAt(s, true, i), os) != ""
  }

  ghost predicate LuckyReplay(s: Show, os: nat -> Outcome) {
    (forall k: nat :: AcceptedAt(os, k)) && (forall i: nat | i < |s.lines| :: NamedAt(s, os, i))
  }

  ghost predicate SpeakerIn(s: Show, speakers: set<string>, i: nat)
    requires i < |s.lines|
  {
    SpeakerOf(s.lines[i].op) == "" || SpeakerOf(s.lines[i].op) in speakers
  }

  ghost predicate AllSignedIn(s: Show, speakers: set<string>) {
    forall i: nat | i < |s.lines| :: SpeakerIn(s, speakers, i)
  }

  lemma {:induction false} QueueSize(s: Show, n: nat, ids: seq<string>)
    requires n <= |s.lines|
    ensures |WithFate(s, true, Queued, n)| == |VoicesOf(s, WithFate(s, true, Queued, n), ids)| == Place(s, true, n)
  {
    if n > 0 {
      QueueSize(s, n - 1, ids);
    }
  }

  lemma QueueGrows(s: Show, n: nat, ids: seq<string>)
    requires n < |s.lines|
    ensures VoicesOf(s, WithFate(s, true, Queued, n + 1), ids)
         == VoicesOf(s, WithFate(s, true, Queued, n), ids)
            + if FateOf(s, true, n) == Queued then [VoiceFor(s.lines[n].op, ids)] else []
  {
    OneMoreListed(s, WithFate(s, true, Queued, n), n, ids);
  }

  ghost predicate GrowsAt(qs: nat -> seq<Voice>, k: nat) { qs(k) <= qs(k + 1) }

  lemma {:induction false} Grown(qs: nat -> seq<Voice>, m: nat, n: nat)
    requires m <= n && forall k: nat | m <= k < n :: GrowsAt(qs, k)
    ensures qs(m) <= qs(n)
    decreases n - m
  {
    if m < n {
      Grown(qs, m + 1, n);
      assert GrowsAt(qs, m);
    }
  }

  lemma QueueKeeps(s: Show, m: nat, n: nat, ids: seq<string>)
    requires m <= n <= |s.lines|
    ensures VoicesOf(s, WithFate(s, true, Queued, m), ids) <= VoicesOf(s, WithFate(s, true, Queued, n), ids)
  {
    forall k: nat | m <= k < n ensures GrowsAt(Queues(s, ids), k) { QueuesGrow(s, k, ids); }
    Grown(Queues(s, ids), m, n);
  }

  /** The queue after so many lines. */
  function Queues(s: Show, ids: seq<string>): nat -> seq<Voice> {
    (k: nat) => if k <= |s.lines| then VoicesOf(s, WithFate(s, true, Queued, k), ids) else []
  }

  lemma QueuesGrow(s: Show, k: nat, ids: seq<string>)
    requires k < |s.lines|
    ensures GrowsAt(Queues(s, ids), k)
  {
    QueueGrows(s, k, ids);
  }

  /** The voice at line `i`'s place is line `i`'s. */
  lemma VoiceAtPlace(s: Show, i: nat, n: nat, ids: seq<string>)
    requires i < n <= |s.lines| && FateOf(s, true, i) == Queued
    ensures var vs := VoicesOf(s, WithFate(s, true, Queued, n), ids);
            Place(s, true, i) < |vs| && vs[Place(s, true, i)] == VoiceFor(s.lines[i].op, ids)
  {
    QueuedNext(s, i, ids);
    QueueKeeps(s, i + 1, n, ids);
    NextInPrefix(VoicesOf(s, WithFate(s, true, Queued, i), ids), VoiceFor(s.lines[i].op, ids),
                 VoicesOf(s, WithFate(s, true, Queued, n), ids));
  }

  lemma QueuedNext(s: Show, i: nat, ids: seq<string>)
    requires i < |s.lines| && FateOf(s, true, i) == Queued
    ensures |VoicesOf(s, WithFate(s, true, Queued, i), ids)| == Place(s, true, i)
    ensures VoicesOf(s, WithFate(s, true, Queued, i + 1), ids)
         == VoicesOf(s, WithFate(s, true, Queued, i), ids) + [VoiceFor(s.lines[i].op, ids)]
  {
    QueueSize(s, i, ids);
    QueueGrows(s, i, ids);
  }

  lemma NextInPrefix(front: seq<Voice>, v: Voice, all: seq<Voice>)
    requires front + [v] <= all
    ensures |front| < |all| && all[|front|] == v
  {}

  /** A queued line's voice, its names all made, becomes the line's write with its final identifiers. */
  lemma VoiceBecomes(op: Op, slots: seq<Slot>, made: Made, finals: seq<string>)
    requires PlainOp(op) && PlainSlots(slots) && VerbOf(op) != "MARK"
    requires Awaited(OpLines(op), slots) <= made.Keys && NoneEmpty(made)
    requires AgreeOn(OpLines(op), Finals(slots, made), finals)
    ensures VoiceRefs(VoiceFor(op, Spelled(slots))) <= made.Keys
    ensures RequestOf(VoiceFor(op, Spelled(slots)), made) == SpokenFor(op, finals)
  {
    OpAgrees(op, Finals(slots, made), finals);
    InstReads(op.path, slots, made);
    assert Awaited(Lines(op.path), slots) <= Awaited(OpLines(op), slots);
    if BodyOf(op).Some? {
      AwaitedSplit(Lines(op.path), BodyLines(BodyOf(op).value), slots);
      BodyReads(BodyOf(op).value, slots, made);
      if op.Make? && op.content.Object? {
        CompactReads(op.content.fields, slots, made);
        CompactDropsOnly(InstFields(op.content.fields, Spelled(slots)));
      }
    }
  }

  /** The writes among the calls of a replay, the reads of a MARK left out. */
  function Writes(calls: seq<Call>, vs: seq<Voice>): seq<Request> {
    if calls == [] then []
    else
      var c := calls[|calls| - 1];
      if c.voice < |vs| && vs[c.voice].verb == "MARK" then Writes(calls[..|calls| - 1], vs)
      else Writes(calls[..|calls| - 1], vs) + [c.request]
  }

  lemma WritesAppend(calls: seq<Call>, c: Call, vs: seq<Voice>)
    requires c.voice < |vs|
    ensures Writes(calls + [c], vs)
         == if vs[c.voice].verb == "MARK" then Writes(calls, vs) else Writes(calls, vs) + [c.request]
  {
    assert (calls + [c])[..|calls|] == calls;
  }

  /** A MARK voice waits for nothing and needs nobody signed in. */
  ghost predicate MarkAt(vs: seq<Voice>, k: nat)
    requires k < |vs|
  {
    vs[k].verb == "MARK" && vs[k].speaker == "" && VoiceRefs(vs[k]) == {}
  }

  /** The queue of a showcase, followed by the marks left to it. */
  ghost predicate IsQueue(s: Show, vs: seq<Voice>) {
    var q := VoicesOf(s, WithFate(s, true, Queued, |s.lines|), Spelled(SlotsTo(s, true, |s.lines|)));
    q <= vs && forall k: nat | |q| <= k < |vs| :: MarkAt(vs, k)
  }

  /** A showcase and its queue as a replay finds them when nothing goes wrong. */
  ghost predicate Replayable(s: Show, vs: seq<Voice>, speakers: set<string>, os: nat -> Outcome) {
    WellFormed(s) && IsQueue(s, vs) && AllSignedIn(s, speakers) && LuckyReplay(s, os)
  }

  /** The voice of line `j` has made what it was to make. */
  ghost predicate MadeAt(s: Show, os: nat -> Outcome, made: Made, j: nat)
    requires j < |s.lines|
  {
    IsVoiced(s, j) ==> Place(s, true, j) in made && made[Place(s, true, j)] == FinalAt(SlotAt(s, true, j), os)
  }

  ghost predicate MadeSoFar(s: Show, os: nat -> Outcome, made: Made, n: nat)
    requires n <= |s.lines|
  {
    (forall j: nat | j < n :: MadeAt(s, os, made, j)) && NoneEmpty(made)
  }

  predicate NoneEmpty(made: Made) { forall k | k in made :: made[k] != "" }

  lemma MadeServes(s: Show, os: nat -> Outcome, made: Made, i: nat)
    requires i < |s.lines| && WellFormed(s) && MadeSoFar(s, os, made, i)
    ensures var ls, slots := OpLines(s.lines[i].op), SlotsTo(s, true, |s.lines|);
            && Awaited(ls, slots) <= made.Keys
            && AgreeOn(ls, Finals(slots, made), HandIds(s, true, os, |s.lines|))
  {
    var ls, slots := OpLines(s.lines[i].op), SlotsTo(s, true, |s.lines|);
    assert GoodLine(s, i);
    forall k | k in Awaited(ls, slots) ensures k in made {
      var j :| j in ls && j < |slots| && slots[j].Voiced? && slots[j].k == k;
      assert MadeAt(s, os, made, j);
    }
    forall j | j in ls ensures At(Finals(slots, made), j) == At(HandIds(s, true, os, |s.lines|), j) {
      assert MadeAt(s, os, made, j);
    }
  }

  lemma QueuedReady(s: Show, vs: seq<Voice>, speakers: set<string>, os: nat -> Outcome, i: nat, made: Made)
    requires i < |s.lines| && FateOf(s, true, i) == Queued
    requires Replayable(s, vs, speakers, os) && MadeSoFar(s, os, made, i)
    ensures var k := Place(s, true, i);
            && k < |vs| && Ready(vs[k], speakers, made)
            && vs[k].verb == VerbOf(s.lines[i].op) != "MARK"
            && RequestOf(vs[k], made) == SpokenFor(s.lines[i].op, HandIds(s, true, os, |s.lines|))
  {
    var slots := SlotsTo(s, true, |s.lines|);
    VoiceAtPlace(s, i, |s.lines|, Spelled(slots));
    SlotsArePlain(s, true, |s.lines|);
    MadeServes(s, os, made, i);
    assert GoodLine(s, i) && SpeakerIn(s, speakers, i);
    VoiceBecomes(s.lines[i].op, slots, made, HandIds(s, true, os, |s.lines|));
  }

  lemma MadeNext(s: Show, os: nat -> Outcome, made: Made, n: nat)
    requires n < |s.lines| && LuckyReplay(s, os) && MadeSoFar(s, os, made, n) && FateOf(s, true, n) == Queued
    ensures var k, id := Place(s, true, n), Given(os(Place(s, true, n)));
            MadeSoFar(s, os, if id != "" then made[k := id] else made, n + 1)
  {
    var k, id := Place(s, true, n), Given(os(Place(s, true, n)));
    var made' := if id != "" then made[k := id] else made;
    assert NamedAt(s, os, n);
    forall j: nat | j < n + 1 ensures MadeAt(s, os, made', j) {
      if j < n {
        assert MadeAt(s, os, made, j);
        if IsVoiced(s, j) { PlaceGrows(s, j, n); }
      }
    }
  }

  /** `d` has replayed the queue up to line `n`, each of its lines as its own write with its final identifiers. */
  ghost predicate ReplaysTo(s: Show, vs: seq<Voice>, os: nat -> Outcome, n: nat, d: Done)
    requires n <= |s.lines|
  {
    && MadeSoFar(s, os, d.made, n)
    && Writes(d.calls, vs) == Spokens(s, WithFate(s, true, Queued, n), HandIds(s, true, os, |s.lines|))
  }

  /** From one queued line's turn to the next, whatever the two states are. */
  lemma TurnCounts(s: Show, vs: seq<Voice>, os: nat -> Outcome, n: nat, d: Done, d': Done)
    requires n < |s.lines| && FateOf(s, true, n) == Queued && LuckyReplay(s, os) && ReplaysTo(s, vs, os, n, d)
    requires var id := Given(os(Place(s, true, n)));
             d'.made == if id != "" then d.made[Place(s, true, n) := id] else d.made
    requires Writes(d'.calls, vs) == Writes(d.calls, vs) + [SpokenFor(s.lines[n].op, HandIds(s, true, os, |s.lines|))]
    ensures ReplaysTo(s, vs, os, n + 1, d')
  {
    MadeNext(s, os, d.made, n);
    OneMoreListed(s, WithFate(s, true, Queued, n), n, HandIds(s, true, os, |s.lines|));
  }

  lemma TurnSkipped(s: Show, vs: seq<Voice>, os: nat -> Outcome, n: nat, d: Done)
    requires n < |s.lines| && FateOf(s, true, n) != Queued && ReplaysTo(s, vs, os, n, d)
    ensures ReplaysTo(s, vs, os, n + 1, d)
  {
    forall j: nat | j < n + 1 ensures MadeAt(s, os, d.made, j) {
      if j < n { assert MadeAt(s, os, d.made, j); }
    }
  }

  lemma QueuedTurn(s: Show, vs: seq<Voice>, speakers: set<string>, os: nat -> Outcome, n: nat, d: Done)
    requires n < |s.lines| && FateOf(s, true, n) == Queued
    requires Replayable(s, vs, speakers, os) && ReplaysTo(s, vs, os, n, d)
    ensures Place(s, true, n) < |vs|
    ensures var k := Place(s, true, n); ReplaysTo(s, vs, os, n + 1, Step(d, k, vs[k], speakers, os(k)))
  {
    var k := Place(s, true, n);
    assert AcceptedAt(os, k);
    QueuedReady(s, vs, speakers, os, n, d.made);
    TurnWrites(d, k, vs, speakers, os(k));
    TurnCounts(s, vs, os, n, d, Step(d, k, vs[k], speakers, os(k)));
  }

  /** The states of a replay, turn by turn. */
  ghost predicate IsReplay(ds: nat -> Done, vs: seq<Voice>, speakers: set<string>, os: nat -> Outcome) {
    forall k: nat | k < |vs| :: TurnAt(ds, vs, speakers, os, k)
  }

  ghost predicate TurnAt(ds: nat -> Done, vs: seq<Voice>, speakers: set<string>, os: nat -> Outcome, k: nat)
    requires k < |vs|
  {
    ds(k + 1) == Step(ds(k), k, vs[k], speakers, os(k))
  }

  /** The replay has reached line `n`'s place in the queue. */
  ghost predicate LinesReplayed(s: Show, vs: seq<Voice>, ds: nat -> Done, os: nat -> Outcome, n: nat)
    requires n <= |s.lines|
  {
    Place(s, true, n) <= |vs| && ReplaysTo(s, vs, os, n, ds(Place(s, true, n)))
  }

  lemma LinesReplay(
    s: Show, vs: seq<Voice>, ds: nat -> Done, speakers: set<string>, os: nat -> Outcome, n: nat)
    requires n <= |s.lines| && Replayable(s, vs, speakers, os) && IsReplay(ds, vs, speakers, os)
    requires ReplaysTo(s, vs, os, 0, ds(0))
    ensures LinesReplayed(s, vs, ds, os, n)
  {
    var p := (k: nat) => k <= |s.lines| ==> LinesReplayed(s, vs, ds, os, k);
    forall k: nat | k < n ensures Carries(p, k) {
      if p(k) { LineReplays(s, vs, ds, speakers, os, k); }
    }
    StepByStep(p, n);
  }

  /** One line of the showcase: its voice's turn where it was queued, and nothing else. */
  lemma LineReplays(s: Show, vs: seq<Voice>, ds: nat -> Done, speakers: set<string>, os: nat -> Outcome, n: nat)
    requires n < |s.lines| && Replayable(s, vs, speakers, os) && IsReplay(ds, vs, speakers, os)
    requires LinesReplayed(s, vs, ds, os, n)
    ensures LinesReplayed(s, vs, ds, os, n + 1)
  {
    PlaceNext(s, n);
    if FateOf(s, true, n) == Queued {
      QueuedLineReplays(s, vs, ds, speakers, os, n);
    } else {
      TurnSkipped(s, vs, os, n, ds(Place(s, true, n)));
    }
  }

  lemma QueuedLineReplays(s: Show, vs: seq<Voice>, ds: nat -> Done, speakers: set<string>, os: nat -> Outcome, n: nat)
    requires n < |s.lines| && FateOf(s, true, n) == Queued && Replayable(s, vs, speakers, os)
    requires IsReplay(ds, vs, speakers, os)
    requires ReplaysTo(s, vs, os, n, ds(Place(s, true, n)))
    ensures Place(s, true, n) < |vs| && ReplaysTo(s, vs, os, n + 1, ds(Place(s, true, n) + 1))
  {
    var k := Place(s, true, n);
    QueuedTurn(s, vs, speakers, os, n, ds(k));
    assert TurnAt(ds, vs, speakers, os, k);
  }

  function Turns(start: Done, vs: seq<Voice>, speakers: set<string>, os: nat -> Outcome): nat -> Done {
    (k: nat) => Replayed(start, vs, speakers, os, if k <= |vs| then k else |vs|)
  }

  lemma TurnsAreAReplay(start: Done, vs: seq<Voice>, speakers: set<string>, os: nat -> Outcome)
    ensures IsReplay(Turns(start, vs, speakers, os), vs, speakers, os)
  {
    forall k: nat | k < |vs| ensures TurnAt(Turns(start, vs, speakers, os), vs, speakers, os, k) {
      NextVoice(start, vs, speakers, os, k);
    }
  }

  lemma QueueReplays(s: Show, vs: seq<Voice>, start: Done, speakers: set<string>, os: nat -> Outcome, n: nat)
    requires n <= |s.lines| && start.calls == [] && Replayable(s, vs, speakers, os)
    ensures Place(s, true, n) <= |vs|
    ensures ReplaysTo(s, vs, os, n, Replayed(start, vs, speakers, os, Place(s, true, n)))
  {
    NothingYet(s, vs, start, speakers, os);
    TurnsAreAReplay(start, vs, speakers, os);
    LinesReplay(s, vs, Turns(start, vs, speakers, os), speakers, os, n);
  }

  lemma NothingYet(s: Show, vs: seq<Voice>, start: Done, speakers: set<string>, os: nat -> Outcome)
    requires start.calls == []
    ensures ReplaysTo(s, vs, os, 0, Replayed(start, vs, speakers, os, 0))
  {}

  lemma PlaceNext(s: Show, n: nat)
    requires n < |s.lines|
    ensures Place(s, true, n + 1) == Place(s, true, n) + if FateOf(s, true, n) == Queued then 1 else 0
  {}

  lemma NextVoice(start: Done, vs: seq<Voice>, speakers: set<string>, os: nat -> Outcome, k: nat)
    requires k < |vs|
    ensures Replayed(start, vs, speakers, os, k + 1)
         == Step(Replayed(start, vs, speakers, os, k), k, vs[k], speakers, os(k))
  {}

  /** A ready voice that is accepted adds its write, and its identifier where it was given one. */
  lemma TurnWrites(d: Done, k: nat, vs: seq<Voice>, speakers: set<string>, o: Outcome)
    requires k < |vs| && Ready(vs[k], speakers, d.made) && vs[k].verb != "MARK" && !o.answer.Refused?
    ensures var d', id := Step(d, k, vs[k], speakers, o), Given(o);
            && Writes(d'.calls, vs) == Writes(d.calls, vs) + [RequestOf(vs[k], d.made)]
            && d'.made == if id != "" then d.made[k := id] else d.made
  {
    OneTurn(d, k, vs[k], speakers, o);
    WritesAppend(d.calls, Call(k, RequestOf(vs[k], d.made)), vs);
  }

  lemma {:induction false} PlaceGrows(s: Show, j: nat, n: nat)
    requires j < n <= |s.lines| && FateOf(s, true, j) == Queued
    ensures Place(s, true, j) < Place(s, true, n)
  {
    if j < n - 1 { PlaceGrows(s, j, n - 1); }
  }

  ghost predicate MarksFrom(vs: seq<Voice>, from: nat) { forall k: nat | from <= k < |vs| :: MarkAt(vs, k) }

  /** The marks left to the voices are read, and write nothing. */
  lemma {:induction false} MarksWriteNothing(
    vs: seq<Voice>, ds: nat -> Done, speakers: set<string>, os: nat -> Outcome, from: nat, m: nat)
    requires MarksFrom(vs, from) && from <= m <= |vs| && IsReplay(ds, vs, speakers, os)
    ensures Writes(ds(m).calls, vs) == Writes(ds(from).calls, vs)
    decreases m - from
  {
    if from < m {
      assert MarkAt(vs, from) && TurnAt(ds, vs, speakers, os, from);
      MarkWritesNothing(ds(from), from, vs, speakers, os(from));
      MarksWriteNothing(vs, ds, speakers, os, from + 1, m);
    }
  }

  lemma MarkWritesNothing(d: Done, k: nat, vs: seq<Voice>, speakers: set<string>, o: Outcome)
    requires k < |vs| && MarkAt(vs, k)
    ensures Writes(Step(d, k, vs[k], speakers, o).calls, vs) == Writes(d.calls, vs)
  {
    OneTurn(d, k, vs[k], speakers, o);
    if Ready(vs[k], speakers, d.made) { WritesAppend(d.calls, Call(k, RequestOf(vs[k], d.made)), vs); }
  }

  // ---------------------------------------------------------------- deferred execution refines direct execution

  /** One run of hubctl: its writes and its flush. */
  function Ran(voices: bool, site: Site, lines: seq<Line>, lucks: nat -> Luck, fs: nat -> Flushing): Run {
    Flushed(Performed(voices, site, lines, lucks, |lines|).run, fs)
  }

  lemma RunSends(s: Show, voices: bool, site: Site, lucks: nat -> Luck, fs: nat -> Flushing, ids: seq<string>)
    requires WellFormed(s) && Lucky(s, lucks) && s.held == Ids(site.marks) && Serves(s, voices, Sent, ids)
    ensures Ran(voices, site, s.lines, lucks, fs).site.sent
         == site.sent + Requests(s, WithFate(s, voices, Sent, |s.lines|), ids)
  {
    var r := Performed(voices, site, s.lines, lucks, |s.lines|).run;
    SentSoFar(s, voices, site, lucks, |s.lines|, ids);
    FlushLeaves(r, fs, |r.pending|);
  }

  lemma RunQueues(s: Show, site: Site, lucks: nat -> Luck, fs: nat -> Flushing)
    requires WellFormed(s) && Lucky(s, lucks) && s.held == Ids(site.marks)
    ensures IsQueue(s, Ran(true, site, s.lines, lucks, fs).spoken)
  {
    var n := |s.lines|;
    var r := Performed(true, site, s.lines, lucks, n).run;
    SpelledServes(s, true, Queued);
    SpokenSoFar(s, true, site, lucks, n, Spelled(SlotsTo(s, true, n)));
    RunIsDescribed(s, true, site, lucks, n);
    FlushLeaves(r, fs, |r.pending|);
    assert r.pending[..|r.pending|] == r.pending;
    PendingIsPlain(s, true, site, lucks, n);
    MarkVoicesAreMarks(r.spoken, r.pending);
  }

  lemma MarkVoicesAreMarks(spoken: seq<Voice>, pending: seq<Pending>)
    requires forall p | p in pending :: Plain(p.id)
    ensures var vs := spoken + MarkVoices(pending); forall k: nat | |spoken| <= k < |vs| :: MarkAt(vs, k)
  {
    var vs := spoken + MarkVoices(pending);
    forall k: nat | |spoken| <= k < |vs| ensures MarkAt(vs, k) {
      var p := pending[k - |spoken|];
      assert p in pending && vs[k] == MarkVoice(p);
      ReadNamesNone(p.mark.kind, p.id);
    }
  }

  lemma {:induction false} PendingIsPlain(s: Show, voices: bool, site: Site, lucks: nat -> Luck, n: nat)
    requires n <= |s.lines| && WellFormed(s) && Lucky(s, lucks) && s.held == Ids(site.marks)
    ensures forall p | p in Performed(voices, site, s.lines, lucks, n).run.pending :: Plain(p.id)
  {
    if n > 0 {
      PendingIsPlain(s, voices, site, lucks, n - 1);
      LinePending(s, voices, site, lucks, n - 1);
    }
  }

  lemma LinePending(s: Show, voices: bool, site: Site, lucks: nat -> Luck, n: nat)
    requires n < |s.lines| && WellFormed(s) && Lucky(s, lucks) && s.held == Ids(site.marks)
    ensures forall p | p in Performed(voices, site, s.lines, lucks, n + 1).run.pending ::
              p in Performed(voices, site, s.lines, lucks, n).run.pending || Plain(p.id)
  {
    Stepped(s, voices, site, lucks, n);
    assert PlainId(s, n);
  }

  /**
   The same showcase on the same workspace, once without `--voices` and once with it, its queue
   replayed: the writes of each run, the ones at once by hubctl and the rest by the replay as their
   speakers, with the identifiers the content has of each line.
   */
  lemma BothRunsWrite(
    direct: Show, deferred: Show, site: Site, lucks: nat -> Luck, lucks': nat -> Luck,
    fs: nat -> Flushing, fs': nat -> Flushing, speakers: set<string>, os: nat -> Outcome)
    requires direct.lines == deferred.lines && direct.held == deferred.held == Ids(site.marks)
    requires WellFormed(direct) && Lucky(direct, lucks) && WellFormed(deferred) && Lucky(deferred, lucks')
    requires AllSignedIn(deferred, speakers) && LuckyReplay(deferred, os)
    ensures var n := |direct.lines|;
            var d, v := Ran(false, site, direct.lines, lucks, fs), Ran(true, site, direct.lines, lucks', fs');
            var replay := Replayed(Done(map[], [], [], v.site.marks), v.spoken, speakers, os, |v.spoken|);
            && d.site.sent == site.sent
                 + Requests(direct, WithFate(direct, false, Sent, n), HandIds(direct, false, os, n))
            && v.site.sent == site.sent
                 + Requests(deferred, WithFate(deferred, true, Sent, n), HandIds(deferred, true, os, n))
            && Writes(replay.calls, v.spoken)
                 == Spokens(deferred, WithFate(deferred, true, Queued, n), HandIds(deferred, true, os, n))
  {
    var n := |direct.lines|;
    FinalsServe(direct, false, os);
    FinalsServe(deferred, true, os);
    RunSends(direct, false, site, lucks, fs, HandIds(direct, false, os, n));
    RunSends(deferred, true, site, lucks', fs', HandIds(deferred, true, os, n));
    var v := Ran(true, site, direct.lines, lucks', fs');
    var start := Done(map[], [], [], v.site.marks);
    RunQueues(deferred, site, lucks', fs');
    QueueReplays(deferred, v.spoken, start, speakers, os, n);
    QueueSize(deferred, n, Spelled(SlotsTo(deferred, true, n)));
    TurnsAreAReplay(start, v.spoken, speakers, os);
    var turns := Turns(start, v.spoken, speakers, os);
    MarksWriteNothing(v.spoken, turns, speakers, os, Place(deferred, true, n), |v.spoken|);
  }

  // ---------------------------------------------------------------- once each, and after what it names

  /** Two runs of one showcase on one workspace, the server answering each write alike where it is made at once. */
  ghost predicate OneShow(direct: Show, deferred: Show) {
    && direct.lines == deferred.lines && direct.held.Keys == deferred.held.Keys
    && forall i: nat | i < |direct.lines| :: direct.answers(i) == deferred.answers(i)
  }

  /** Line `i` is skipped by both runs, or held in both, or written by both, at once or by a voice. */
  ghost predicate SameFate(direct: Show, deferred: Show, i: nat)
    requires i < |direct.lines| && i < |deferred.lines|
  {
    var fate := FateOf(deferred, true, i);
    FateOf(direct, false, i) == if fate == Queued then Sent else fate
  }

  /**
   Line `i` belongs to a write left to a voice whose answer decides about it: it asks for an identifier,
   and the write made at once would be answered one; or for any answer, and there would be none.
   */
  ghost predicate Mismatched(s: Show, i: nat)
    requires i < |s.lines|
  {
    s.lines[i].owner.Some? &&
      var j, named := s.lines[i].owner.value.line, s.lines[i].owner.value.named;
      && j < i && !s.lines[j].op.Make? && FateOf(s, true, j) == Queued
      && Answers(s.answers(j), named) == named
  }

  /** One line: where its owner fared alike, it fares alike exactly where it is not mismatched. */
  lemma SameFateNext(direct: Show, deferred: Show, i: nat)
    requires OneShow(direct, deferred) && i < |direct.lines|
    requires var owner := direct.lines[i].owner;
             owner.Some? && owner.value.line < i ==> SameFate(direct, deferred, owner.value.line)
    ensures SameFate(direct, deferred, i) <==> !Mismatched(deferred, i)
  {
    NothingQueued(direct, i);
    DueAlike(direct, deferred, i);
  }

  lemma DueAlike(direct: Show, deferred: Show, i: nat)
    requires OneShow(direct, deferred) && i < |direct.lines|
    requires var owner := direct.lines[i].owner;
             owner.Some? && owner.value.line < i ==> SameFate(direct, deferred, owner.value.line)
    ensures OwnerDue(direct, false, i) == OwnerDue(deferred, true, i) <==> !Mismatched(deferred, i)
  {
    var owner := direct.lines[i].owner;
    if owner.Some? && owner.value.line < i {
      var j := owner.value.line;
      NothingQueued(direct, j);
      assert direct.answers(j) == deferred.answers(j);
    }
  }

  /** The lines up to `i` fare alike with voices and without where none of them is mismatched. */
  lemma {:induction false} SameLines(direct: Show, deferred: Show, i: nat)
    requires OneShow(direct, deferred) && i < |direct.lines|
    requires forall k: nat | k <= i :: !Mismatched(deferred, k)
    ensures SameFate(direct, deferred, i)
  {
    var owner := direct.lines[i].owner;
    if owner.Some? && owner.value.line < i { SameLines(direct, deferred, owner.value.line); }
    SameFateNext(direct, deferred, i);
  }

  /** Every line fares alike with voices and without exactly where none is mismatched. */
  lemma SameLinesIffMatched(direct: Show, deferred: Show)
    requires OneShow(direct, deferred)
    ensures (forall i: nat | i < |direct.lines| :: SameFate(direct, deferred, i))
       <==> forall i: nat | i < |direct.lines| :: !Mismatched(deferred, i)
  {
    if forall i: nat | i < |direct.lines| :: !Mismatched(deferred, i) {
      forall i: nat | i < |direct.lines| ensures SameFate(direct, deferred, i) { SameLines(direct, deferred, i); }
    }
    if forall i: nat | i < |direct.lines| :: SameFate(direct, deferred, i) {
      forall i: nat | i < |direct.lines| ensures !Mismatched(deferred, i) { SameFateNext(direct, deferred, i); }
    }
  }

  /** Of the first `n` lines, line `i` is listed once under its fate and never under another. */
  ghost predicate CountedOnce(s: Show, voices: bool, fate: Fate, n: nat, i: nat)
    requires n <= |s.lines| && i < |s.lines|
  {
    multiset(WithFate(s, voices, fate, n))[i] == if i < n && FateOf(s, voices, i) == fate then 1 else 0
  }

  lemma FateCounts(s: Show, voices: bool, fate: Fate, n: nat, i: nat)
    requires n <= |s.lines| && i < |s.lines|
    ensures CountedOnce(s, voices, fate, n, i)
  {
    assert Counts(s, voices, fate, i)(0) by { assert multiset(WithFate(s, voices, fate, 0)) == multiset{}; }
    forall k: nat | k < n ensures Carries(Counts(s, voices, fate, i), k) { LineCounts(s, voices, fate, k, i); }
    StepByStep(Counts(s, voices, fate, i), n);
  }

  ghost function Counts(s: Show, voices: bool, fate: Fate, i: nat): nat -> bool
    requires i < |s.lines|
  {
    (k: nat) => k <= |s.lines| ==> CountedOnce(s, voices, fate, k, i)
  }

  lemma LineCounts(s: Show, voices: bool, fate: Fate, n: nat, i: nat)
    requires n < |s.lines| && i < |s.lines|
    ensures Carries(Counts(s, voices, fate, i), n)
  {
    OneMoreOf(WithFate(s, voices, fate, n), n, i);
    LineAdded(s, voices, fate, n);
  }

  lemma LineAdded(s: Show, voices: bool, fate: Fate, n: nat)
    requires n < |s.lines|
    ensures WithFate(s, voices, fate, n + 1)
         == if FateOf(s, voices, n) == fate then WithFate(s, voices, fate, n) + [n] else WithFate(s, voices, fate, n)
  {}

  lemma OneMoreOf(idx: seq<nat>, k: nat, i: nat)
    ensures multiset(idx + [k])[i] == multiset(idx)[i] + if i == k then 1 else 0
  {
    assert multiset(idx + [k]) == multiset(idx) + multiset{k};
  }

  /** The order the deferred run writes its lines in: those at once, then the queue. */
  function DeferredOrder(s: Show): seq<nat> {
    WithFate(s, true, Sent, |s.lines|) + WithFate(s, true, Queued, |s.lines|)
  }

  /**
   Each run writes a line at most once, and both write the same lines where none is mismatched.
   */
  lemma EachLineOnce(direct: Show, deferred: Show, i: nat)
    requires OneShow(direct, deferred) && i < |direct.lines|
    ensures multiset(WithFate(direct, false, Sent, |direct.lines|))[i] == if IsWritten(direct, false, i) then 1 else 0
    ensures multiset(DeferredOrder(deferred))[i] == if IsWritten(deferred, true, i) then 1 else 0
    ensures (forall k: nat | k <= i :: !Mismatched(deferred, k)) ==>
              multiset(DeferredOrder(deferred))[i] == multiset(WithFate(direct, false, Sent, |direct.lines|))[i]
  {
    var n := |direct.lines|;
    NothingQueued(direct, i);
    if forall k: nat | k <= i :: !Mismatched(deferred, k) { SameLines(direct, deferred, i); }
    FateCounts(direct, false, Sent, n, i);
    FateCounts(deferred, true, Sent, n, i);
    FateCounts(deferred, true, Queued, n, i);
  }

  lemma {:induction false} FateInOrder(s: Show, voices: bool, fate: Fate, n: nat, a: nat, b: nat)
    requires n <= |s.lines| && a < b < |WithFate(s, voices, fate, n)|
    ensures WithFate(s, voices, fate, n)[a] < WithFate(s, voices, fate, n)[b]
    decreases n
  {
    if n > 0 && b < |WithFate(s, voices, fate, n - 1)| { FateInOrder(s, voices, fate, n - 1, a, b); }
  }

  lemma {:induction false} FateAt(s: Show, voices: bool, fate: Fate, n: nat, a: nat)
    requires n <= |s.lines| && a < |WithFate(s, voices, fate, n)|
    ensures FateOf(s, voices, WithFate(s, voices, fate, n)[a]) == fate
    decreases n
  {
    if n > 0 && a < |WithFate(s, voices, fate, n - 1)| { FateAt(s, voices, fate, n - 1, a); }
  }

  /** A line is written after every object it refers to, though the order is not the content's. */
  lemma AfterWhatItNames(s: Show, a: nat, b: nat)
    requires WellFormed(s) && a < |DeferredOrder(s)| && b < |DeferredOrder(s)|
    requires s.lines[DeferredOrder(s)[b]].op.Make? && DeferredOrder(s)[b] in OpLines(s.lines[DeferredOrder(s)[a]].op)
    ensures b < a
  {
    var n := |s.lines|;
    var at, later := WithFate(s, true, Sent, n), WithFate(s, true, Queued, n);
    var i, j := DeferredOrder(s)[a], DeferredOrder(s)[b];
    assert GoodLine(s, i) && j < i;
    if b >= |at| {
      FateAt(s, true, Queued, n, b - |at|);
      assert IsVoiced(s, j);
      if a < |at| {
        FateAt(s, true, Sent, n, a);
        assert false;
      } else if a < b {
        FateInOrder(s, true, Queued, n, a - |at|, b - |at|);
      }
    } else if a < b {
      FateInOrder(s, true, Sent, n, a, b);
    }
  }
}
