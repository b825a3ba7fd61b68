/**
 The replay of the queue (`scripts/seed-demo.py`): each voice is written by its speaker, in
 hubctl's order, with every placeholder replaced by what the voice it names has made.
 */
module Replay {
  import opened Wrappers
  import opened Placeholders
  import opened Json
  import opened Voices

  type Made = map<nat, string>

  // ---------------------------------------------------------------- resolved

  function ResolvedText(s: string, made: Made): Option<string> {
    if Refs(s) <= made.Keys then Some(Substituted(s, made)) else None
  }

  /** The value with each placeholder replaced; None where a voice it names made nothing. */
  function Resolved(v: Body, made: Made): Option<Body> {
    match v
    case Text(s) =>
      var r := ResolvedText(s, made);
      if r.None? then None else Some(Text(r.value))
    case Array(fs) =>
      var r := ResolvedFields(fs, made);
      if r.None? then None else Some(Array(r.value))
    case Object(fs) =>
      var r := ResolvedFields(fs, made);
      if r.None? then None else Some(Object(r.value))
    case _ => Some(v)
  }

  function ResolvedFields(fs: Fields<string>, made: Made): Option<Fields<string>> {
    if fs.End? then Some(End)
    else
      var v := Resolved(fs.value, made);
      if v.None? then None
      else
        var rest := ResolvedFields(fs.rest, made);
        if rest.None? then None else Some(Field(fs.key, v.value, rest.value))
  }

  /** A body resolves exactly when every voice it names has made something. */
  lemma ResolvesIffMade(v: Body, made: Made)
    ensures Resolved(v, made).Some? <==> BodyRefs(v) <= made.Keys
  {
    if v.Array? || v.Object? { FieldsResolveIffMade(v.fields, made); }
  }

  lemma {:induction false} FieldsResolveIffMade(fs: Fields<string>, made: Made)
    ensures ResolvedFields(fs, made).Some? <==> FieldsRefs(fs) <= made.Keys
  {
    if fs.Field? {
      ResolvesIffMade(fs.value, made);
      FieldsResolveIffMade(fs.rest, made);
    }
  }

  /**
   With identifiers of the server's shape, a resolved body names no voice in any value, and its
   member names are as they were: it holds no placeholder exactly when no member name spells one.
   */
  lemma ResolvedHoldsNone(v: Body, made: Made)
    requires Resolved(v, made).Some?
    requires forall n | n in made :: Opaque(made[n])
    ensures BodyRefs(Resolved(v, made).value) == {}
    ensures KeyRefs(Resolved(v, made).value) == KeyRefs(v)
  {
    match v
    case Text(s) =>
      SubstitutedHoldsNone("", s, made);
      assert "" + Substituted(s, made) == Substituted(s, made);
    case Array(fs) => ResolvedFieldsHoldNone(fs, made);
    case Object(fs) => ResolvedFieldsHoldNone(fs, made);
    case _ =>
  }

  lemma {:induction false} ResolvedFieldsHoldNone(fs: Fields<string>, made: Made)
    requires ResolvedFields(fs, made).Some?
    requires forall n | n in made :: Opaque(made[n])
    ensures FieldsRefs(ResolvedFields(fs, made).value) == {}
    ensures FieldsKeyRefs(ResolvedFields(fs, made).value) == FieldsKeyRefs(fs)
  {
    if fs.Field? {
      ResolvedHoldsNone(fs.value, made);
      ResolvedFieldsHoldNone(fs.rest, made);
    }
  }

  // ---------------------------------------------------------------- one voice

  /** How a call ended: refused, answered with JSON `null`, or answered with an object. */
  datatype Answer = Refused | Nothing | Answered(id: string, itemId: string, version: Option<int>)

  /** What the server does with a voice: the answer to its call, and whether its mark is kept. */
  datatype Outcome = Outcome(answer: Answer, markKept: bool)

  datatype Call = Call(voice: nat, request: Request)

  datatype Done = Done(made: Made, calls: seq<Call>, failures: seq<nat>, marks: map<string, Stored>)

  /** `answer.get("id") or answer.get("item_id")`. */
  function Identifier(a: Answer): string
    requires a.Answered?
  {
    if a.id != "" then a.id else a.itemId
  }

  predicate SignedIn(v: Voice, speakers: set<string>) { v.speaker == "" || v.speaker in speakers }

  /** The request a voice becomes once everything it names is made. */
  function RequestOf(v: Voice, made: Made): Request
    requires VoiceRefs(v) <= made.Keys
  {
    var path := Substituted(v.path, made);
    if v.verb == "MARK" then Request("", "GET", path, None)
    else
      var body :=
        if v.body.Some? then
          ResolvesIffMade(v.body.value, made);
          Some(Resolved(v.body.value, made).value)
        else if v.verb != "GET" then Some(Object(End))
        else None;
      Request(v.speaker, v.verb, path, body)
  }

  function WithMark(d: Done, k: nat, mark: Mark, id: string, version: Option<int>, kept: bool): Done {
    if kept then d.(marks := d.marks[mark.key := Stored(id, version)])
    else d.(failures := d.failures + [k])
  }

  function Step(d: Done, k: nat, v: Voice, speakers: set<string>, o: Outcome): Done {
    if !SignedIn(v, speakers) || !(VoiceRefs(v) <= d.made.Keys) then d.(failures := d.failures + [k])
    else
      var called := d.(calls := d.calls + [Call(k, RequestOf(v, d.made))]);
      if o.answer.Refused? then called.(failures := called.failures + [k])
      else if o.answer.Nothing? then called
      else if v.verb == "MARK" then
        if v.mark.Some? then WithMark(called, k, v.mark.value, o.answer.id, o.answer.version, o.markKept) else called
      else
        var id := Identifier(o.answer);
        if id == "" then called
        else
          var made := called.(made := called.made[k := id]);
          if v.mark.Some? then WithMark(made, k, v.mark.value, id, o.answer.version, o.markKept) else made
  }

  /** The replay of the first `n` voices. */
  function Replayed(start: Done, vs: seq<Voice>, speakers: set<string>, os: nat -> Outcome, n: nat): Done
    requires n <= |vs|
  {
    if n == 0 then start.(made := map[])
    else Step(Replayed(start, vs, speakers, os, n - 1), n - 1, vs[n - 1], speakers, os(n - 1))
  }

  // ---------------------------------------------------------------- the loop

  /** One run of the script: what failed, and what the server was asked and holds. */
  class Seed {
    var calls: seq<Call>
    var failures: seq<nat>
    var marks: map<string, Stored>

    constructor (held: map<string, Stored>)
      ensures calls == [] && failures == [] && marks == held
    {
      calls, failures, marks := [], [], held;
    }

    /** `tried(mark, client.post, "/tenant/samples", …)`: a refusal is reported and the run goes on. */
    method TryMark(k: nat, mark: Mark, id: string, version: Option<int>, kept: bool)
      modifies this
      ensures calls == old(calls)
      ensures marks == if kept then old(marks)[mark.key := Stored(id, version)] else old(marks)
      ensures failures == if kept then old(failures) else old(failures) + [k]
    {
      if kept {
        marks := marks[mark.key := Stored(id, version)];
      } else {
        failures := failures + [k];
      }
    }

    method WriteVoices(vs: seq<Voice>, speakers: set<string>, os: nat -> Outcome) returns (made: Made)
      modifies this
      ensures Done(made, calls, failures, marks)
           == Replayed(old(Done(map[], calls, failures, marks)), vs, speakers, os, |vs|)
    {
      made := map[];
      ghost var start := Done(map[], calls, failures, marks);
      for i := 0 to |vs|
        invariant Done(made, calls, failures, marks) == Replayed(start, vs, speakers, os, i)
      {
        var v := vs[i];
        if v.speaker != "" && v.speaker !in speakers {
          failures := failures + [i];
          continue;
        }
        var path := ResolvedText(v.path, made);
        var body := if v.body.Some? then Resolved(v.body.value, made) else None;
        if v.body.Some? { ResolvesIffMade(v.body.value, made); }
        if path.None? || (v.body.Some? && body.None?) {
          failures := failures + [i];
          continue;
        }
        var answer := os(i).answer;
        if v.verb == "MARK" {
          calls := calls + [Call(i, Request("", "GET", path.value, None))];
          if answer.Refused? {
            failures := failures + [i];
          } else if answer.Answered? && v.mark.Some? {
            TryMark(i, v.mark.value, answer.id, answer.version, os(i).markKept);
          }
          continue;
        }
        var sent := if body.Some? then body else if v.verb != "GET" then Some(Object(End)) else None;
        calls := calls + [Call(i, Request(v.speaker, v.verb, path.value, sent))];
        if answer.Refused? {
          failures := failures + [i];
          continue;
        }
        if answer.Nothing? {
          continue;
        }
        var id := if answer.id != "" then answer.id else answer.itemId;
        if id != "" {
          made := made[i := id];
          if v.mark.Some? {
            TryMark(i, v.mark.value, id, answer.version, os(i).markKept);
          }
        }
      }
    }
  }

  // ---------------------------------------------------------------- which voices are never sent

  predicate Sent(d: Done, k: nat) { exists c | c in d.calls :: c.voice == k }

  /** A voice that, once sent, gives the voices behind it an identifier. */
  predicate Gives(v: Voice, o: Outcome) {
    v.verb != "MARK" && o.answer.Answered? && Identifier(o.answer) != ""
  }

  /** A voice that gives nothing by itself: nobody signed in to say it, refused, or no identifier answered. */
  predicate Root(vs: seq<Voice>, speakers: set<string>, os: nat -> Outcome, k: nat) {
    k < |vs| ==> !SignedIn(vs[k], speakers) || !Gives(vs[k], os(k))
  }

  /**
   A chain of references from voice `k` to a voice that gives nothing, or to one that is not
   written before the voice naming it.
   */
  predicate Chain(vs: seq<Voice>, speakers: set<string>, os: nat -> Outcome, c: seq<nat>, k: nat) {
    && |c| >= 2 && c[0] == k
    && (forall i | 0 <= i < |c| - 1 :: c[i] < |vs| && c[i + 1] in VoiceRefs(vs[c[i]]))
    && (c[|c| - 1] >= c[|c| - 2] || Root(vs, speakers, os, c[|c| - 1]))
  }

  ghost predicate Starved(vs: seq<Voice>, speakers: set<string>, os: nat -> Outcome, k: nat) {
    exists c :: Chain(vs, speakers, os, c, k)
  }

  predicate Ready(v: Voice, speakers: set<string>, made: Made) {
    SignedIn(v, speakers) && VoiceRefs(v) <= made.Keys
  }

  /** One turn: at most one more call, and an identifier exactly when the call gave one. */
  lemma OneTurn(d: Done, k: nat, v: Voice, speakers: set<string>, o: Outcome)
    ensures var d' := Step(d, k, v, speakers, o);
            && d'.calls == (if Ready(v, speakers, d.made) then d.calls + [Call(k, RequestOf(v, d.made))] else d.calls)
            && d'.made == (if Ready(v, speakers, d.made) && Gives(v, o)
                           then d.made[k := Identifier(o.answer)] else d.made)
            && forall j: nat :: Sent(d', j) <==> Sent(d, j) || (j == k && Ready(v, speakers, d.made))
  {
    var d' := Step(d, k, v, speakers, o);
    forall j: nat ensures Sent(d', j) <==> Sent(d, j) || (j == k && Ready(v, speakers, d.made)) {
      if Sent(d, j) {
        var c :| c in d.calls && c.voice == j;
        assert c in d'.calls;
      }
      if Ready(v, speakers, d.made) {
        assert Call(k, RequestOf(v, d.made)) in d'.calls;
      }
    }
  }

  /** Voice `k` is ready when its turn comes. */
  predicate IsSent(start: Done, vs: seq<Voice>, speakers: set<string>, os: nat -> Outcome, k: nat) {
    k < |vs| && Ready(vs[k], speakers, Replayed(start, vs, speakers, os, k).made)
  }

  /** What the loop knows of voice `k` after `n` voices: whether it was called, and what it gave. */
  lemma {:induction false} SoFar(start: Done, vs: seq<Voice>, speakers: set<string>, os: nat -> Outcome, n: nat, k: nat)
    requires n <= |vs| && start.calls == []
    ensures var d := Replayed(start, vs, speakers, os, n);
            && (Sent(d, k) <==> k < n && IsSent(start, vs, speakers, os, k))
            && (k in d.made <==> k < n && IsSent(start, vs, speakers, os, k) && Gives(vs[k], os(k)))
            && (k in d.made ==> d.made[k] == Identifier(os(k).answer))
    decreases n
  {
    if n > 0 {
      SoFar(start, vs, speakers, os, n - 1, k);
      OneTurn(Replayed(start, vs, speakers, os, n - 1), n - 1, vs[n - 1], speakers, os(n - 1));
    }
  }

  /** A voice gives the `id` it was answered, or the `item_id` where there is none. */
  lemma GivesItsId(start: Done, vs: seq<Voice>, speakers: set<string>, os: nat -> Outcome, k: nat)
    requires start.calls == [] && k in Replayed(start, vs, speakers, os, |vs|).made
    ensures os(k).answer.Answered?
    ensures Replayed(start, vs, speakers, os, |vs|).made[k]
         == if os(k).answer.id == "" then os(k).answer.itemId else os(k).answer.id
  {
    SoFar(start, vs, speakers, os, |vs|, k);
  }

  lemma ChainShorter(vs: seq<Voice>, speakers: set<string>, os: nat -> Outcome, c: seq<nat>, k: nat)
    requires Chain(vs, speakers, os, c, k) && |c| > 2
    ensures Chain(vs, speakers, os, c[1..], c[1])
  {
    var rest := c[1..];
    forall i | 0 <= i < |rest| - 1 ensures rest[i] < |vs| && rest[i + 1] in VoiceRefs(vs[rest[i]]) {
      assert rest[i] == c[i + 1] && rest[i + 1] == c[i + 2];
    }
  }

  lemma {:induction false} StarvedIsNotSent(
    start: Done, vs: seq<Voice>, speakers: set<string>, os: nat -> Outcome, c: seq<nat>, k: nat)
    requires start.calls == [] && Chain(vs, speakers, os, c, k)
    ensures !IsSent(start, vs, speakers, os, k)
    decreases |c|
  {
    var next := c[1];
    if next < k && |c| > 2 {
      ChainShorter(vs, speakers, os, c, k);
      StarvedIsNotSent(start, vs, speakers, os, c[1..], next);
    }
    SoFar(start, vs, speakers, os, k, next);
  }

  lemma ChainLonger(vs: seq<Voice>, speakers: set<string>, os: nat -> Outcome, rest: seq<nat>, k: nat)
    requires k < |vs| && |rest| > 0 && rest[0] in VoiceRefs(vs[k]) && Chain(vs, speakers, os, rest, rest[0])
    ensures Chain(vs, speakers, os, [k] + rest, k)
  {
    var c := [k] + rest;
    forall i | 0 <= i < |c| - 1 ensures c[i] < |vs| && c[i + 1] in VoiceRefs(vs[c[i]]) {
      if i > 0 { assert c[i] == rest[i - 1] && c[i + 1] == rest[i]; }
    }
  }

  lemma {:induction false} NotSentIsStarved(
    start: Done, vs: seq<Voice>, speakers: set<string>, os: nat -> Outcome, k: nat)
    returns (c: seq<nat>)
    requires start.calls == [] && k < |vs| && SignedIn(vs[k], speakers)
    requires !IsSent(start, vs, speakers, os, k)
    ensures Chain(vs, speakers, os, c, k)
  {
    var j :| j in VoiceRefs(vs[k]) && j !in Replayed(start, vs, speakers, os, k).made;
    SoFar(start, vs, speakers, os, k, j);
    if j >= k || Root(vs, speakers, os, j) {
      c := [k, j];
    } else {
      var rest := NotSentIsStarved(start, vs, speakers, os, j);
      c := [k] + rest;
      ChainLonger(vs, speakers, os, rest, k);
    }
  }

  /**
   The voices never sent are exactly those nobody signed in to say and those that lead, through
   any number of placeholders, to a voice that gave nothing.
   */
  lemma NeverSentIsTheClosure(start: Done, vs: seq<Voice>, speakers: set<string>, os: nat -> Outcome, k: nat)
    requires start.calls == [] && k < |vs|
    ensures !Sent(Replayed(start, vs, speakers, os, |vs|), k)
       <==> !SignedIn(vs[k], speakers) || Starved(vs, speakers, os, k)
  {
    SoFar(start, vs, speakers, os, |vs|, k);
    if !IsSent(start, vs, speakers, os, k) && SignedIn(vs[k], speakers) {
      var c := NotSentIsStarved(start, vs, speakers, os, k);
    }
    if Starved(vs, speakers, os, k) {
      var c :| Chain(vs, speakers, os, c, k);
      StarvedIsNotSent(start, vs, speakers, os, c, k);
    }
  }

  /** A MARK reads as the signed-in person; every other voice goes out as its own speaker. */
  function SenderOf(v: Voice): string { if v.verb == "MARK" then "" else v.speaker }

  /** By its voice's method, but a MARK reads; with a body unless it reads, the empty one where the voice has none. */
  predicate IsOwn(q: Request, v: Voice) {
    && q.sender == SenderOf(v)
    && q.verb == (if v.verb == "MARK" then "GET" else v.verb)
    && (v.verb == "MARK" ==> q.body == None)
    && (v.verb != "MARK" && v.body == None ==> q.body == if v.verb == "GET" then None else Some(Object(End)))
    && (v.verb != "MARK" && v.body != None ==> q.body != None)
  }

  predicate NamesNone(r: Request) {
    Refs(r.path) == {} && (r.body.Some? ==> BodyRefs(r.body.value) == {})
  }

  predicate InOrderAndOwn(calls: seq<Call>, vs: seq<Voice>, n: nat)
    requires n <= |vs|
  {
    && (forall i, j | 0 <= i < j < |calls| :: calls[i].voice < calls[j].voice)
    && (forall c | c in calls :: c.voice < n && IsOwn(c.request, vs[c.voice]))
  }

  predicate NoneNamed(calls: seq<Call>) { forall c | c in calls :: NamesNone(c.request) }

  lemma OneMoreCall(calls: seq<Call>, c: Call, vs: seq<Voice>, n: nat)
    requires n < |vs| && InOrderAndOwn(calls, vs, n)
    requires c.voice == n && IsOwn(c.request, vs[n])
    ensures InOrderAndOwn(calls + [c], vs, n + 1)
    ensures NoneNamed(calls) && NamesNone(c.request) ==> NoneNamed(calls + [c])
  {
    forall i, j | 0 <= i < j < |calls + [c]| ensures (calls + [c])[i].voice < (calls + [c])[j].voice {
      assert calls[i] in calls;
    }
  }

  ghost predicate AllOpaque(made: Made) { forall k: nat | k in made :: Opaque(made[k]) }

  lemma MadeAreOpaque(start: Done, vs: seq<Voice>, speakers: set<string>, os: nat -> Outcome, n: nat)
    requires n <= |vs| && start.calls == [] && OpaqueAnswers(vs, os)
    ensures AllOpaque(Replayed(start, vs, speakers, os, n).made)
  {
    var made := Replayed(start, vs, speakers, os, n).made;
    forall k: nat | k in made ensures Opaque(made[k]) { SoFar(start, vs, speakers, os, n, k); }
  }

  lemma TurnIsOwn(d: Done, vs: seq<Voice>, k: nat, speakers: set<string>, o: Outcome)
    requires k < |vs| && InOrderAndOwn(d.calls, vs, k)
    ensures InOrderAndOwn(Step(d, k, vs[k], speakers, o).calls, vs, k + 1)
    ensures NoneNamed(d.calls) && AllOpaque(d.made) ==> NoneNamed(Step(d, k, vs[k], speakers, o).calls)
  {
    OneTurn(d, k, vs[k], speakers, o);
    if Ready(vs[k], speakers, d.made) {
      OneMoreCall(d.calls, Call(k, RequestOf(vs[k], d.made)), vs, k);
      if AllOpaque(d.made) { RequestNamesNone(vs[k], d.made); }
    }
  }

  /**
   Each voice is sent at most once, in queue order, as its own speaker and by its own method, a MARK only
   reading, and what is sent names no voice any more where the identifiers have the server's shape.
   */
  lemma CallsAreInOrderAndOwn(
    start: Done, vs: seq<Voice>, speakers: set<string>, os: nat -> Outcome, n: nat)
    requires n <= |vs| && start.calls == []
    ensures OrderedSoFar(start, vs, speakers, os, n)
  {
    forall k: nat | k < n ensures Carries(Ordered(start, vs, speakers, os), k) {
      if OrderedSoFar(start, vs, speakers, os, k) { TurnKeepsOrder(start, vs, speakers, os, k); }
    }
    StepByStep(Ordered(start, vs, speakers, os), n);
  }

  ghost function Ordered(start: Done, vs: seq<Voice>, speakers: set<string>, os: nat -> Outcome): nat -> bool {
    (n: nat) => n <= |vs| ==> OrderedSoFar(start, vs, speakers, os, n)
  }

  ghost predicate OrderedSoFar(start: Done, vs: seq<Voice>, speakers: set<string>, os: nat -> Outcome, n: nat)
    requires n <= |vs|
  {
    var calls := Replayed(start, vs, speakers, os, n).calls;
    InOrderAndOwn(calls, vs, n) && (OpaqueAnswers(vs, os) ==> NoneNamed(calls))
  }

  lemma TurnKeepsOrder(start: Done, vs: seq<Voice>, speakers: set<string>, os: nat -> Outcome, n: nat)
    requires n < |vs| && start.calls == [] && OrderedSoFar(start, vs, speakers, os, n)
    ensures OrderedSoFar(start, vs, speakers, os, n + 1)
  {
    if OpaqueAnswers(vs, os) { MadeAreOpaque(start, vs, speakers, os, n); }
    TurnIsOwn(Replayed(start, vs, speakers, os, n), vs, n, speakers, os(n));
  }

  ghost predicate OpaqueAnswers(vs: seq<Voice>, os: nat -> Outcome) {
    forall k: nat | k < |vs| && os(k).answer.Answered? :: Opaque(Identifier(os(k).answer))
  }

  lemma RequestNamesNone(v: Voice, made: Made)
    requires VoiceRefs(v) <= made.Keys && forall n | n in made :: Opaque(made[n])
    ensures NamesNone(RequestOf(v, made))
  {
    SubstitutedHoldsNone("", v.path, made);
    assert "" + Substituted(v.path, made) == Substituted(v.path, made);
    if v.body.Some? {
      ResolvesIffMade(v.body.value, made);
      ResolvedHoldsNone(v.body.value, made);
    }
  }
}
