/**
 What a showcase and its replay report: the run is complete exactly where everything it asked for was
 accepted, named and marked, and the replay fails exactly the voices that were not.
 */
module Reports {
  import opened Wrappers
  import opened Voices
  import opened Showcase
  import opened Replay

  // ---------------------------------------------------------------- the run

  /** What the content asked for was held, left to a voice, or accepted, an object with its name and its mark. */
  predicate WentWell(r: Run, a: Act) {
    if a.MakeObject? then
      || a.key in r.held
      || Left(r, a.speaker, a.path, Some(a.content))
      || (a.created.Answered? && (a.created.id != "" || a.created.itemId != "")
          && (a.kind in {"GOAL", "PORTFOLIO", "DASHBOARD"} || a.marking == Kept))
    else LeavesToVoices(r.voices, a) || a.reply.accepted
  }

  /** What is said of an act that did not: the object, its mark, or the write. */
  predicate SaysWhich(a: Act, said: string) {
    if a.MakeObject? then said == a.key || said == "mark " + a.key else said == a.what
  }

  /** Each act that did not go well is reported, once and by name, and no other is. */
  lemma ReportedIffNotWell(r: Run, a: Act)
    ensures WentWell(r, a) ==> Acted(r, a).refused == r.refused
    ensures !WentWell(r, a) ==>
              && |Acted(r, a).refused| == |r.refused| + 1 && r.refused <= Acted(r, a).refused
              && SaysWhich(a, Acted(r, a).refused[|r.refused|])
  {
    if a.MakeObject? && a.key !in r.held && !Left(r, a.speaker, a.path, Some(a.content)) {
      ObjectReported(r, a);
    }
  }

  lemma ObjectReported(r: Run, a: Act)
    requires a.MakeObject? && a.key !in r.held && !Left(r, a.speaker, a.path, Some(a.content))
    ensures WentWell(r, a) ==> Acted(r, a).refused == r.refused
    ensures !WentWell(r, a) ==>
              exists said :: SaysWhich(a, said) && Acted(r, a).refused == r.refused + [said]
  {
    var asked := r.(site := CreatedAt(r.site, a.key, a.path, a.content, a.created));
    TakenReported(asked, a.key, a.kind, a.created, a.marking);
    assert SaysWhich(a, a.key) && SaysWhich(a, "mark " + a.key);
  }

  lemma TakenReported(r: Run, key: string, kind: string, c: Created, m: Marking)
    ensures var named := c.Answered? && (c.id != "" || c.itemId != "");
            var marked := kind in {"GOAL", "PORTFOLIO", "DASHBOARD"} || m == Kept;
            Taken(r, key, kind, c, m).0.refused
            == if !named then r.refused + [key] else if !marked then r.refused + ["mark " + key] else r.refused
  {}

  predicate AllWentWell(voices: bool, site: Site, acts: seq<Act>) {
    forall n: nat | n < |acts| :: WentWell(ActedAll(Loaded(voices, site), acts[..n]), acts[n])
  }

  /** A pending mark is left to the voices, or its object is read and its mark kept. */
  predicate MarksWell(voices: bool, f: Flushing) { voices || (f.read && f.marking == Kept) }

  lemma {:induction false} ActsReported(voices: bool, site: Site, acts: seq<Act>)
    ensures ActedAll(Loaded(voices, site), acts).voices == voices
    ensures ActedAll(Loaded(voices, site), acts).refused == [] <==> AllWentWell(voices, site, acts)
  {
    if acts != [] {
      var front, last := acts[..|acts| - 1], acts[|acts| - 1];
      var before := ActedAll(Loaded(voices, site), front);
      ActsReported(voices, site, front);
      ReportedIffNotWell(before, last);
      ActKeepsVoices(before, last);
      AllButTheLast(voices, site, acts);
    }
  }

  lemma AllButTheLast(voices: bool, site: Site, acts: seq<Act>)
    requires acts != []
    ensures var front, last := acts[..|acts| - 1], acts[|acts| - 1];
            AllWentWell(voices, site, acts)
            <==> AllWentWell(voices, site, front) && WentWell(ActedAll(Loaded(voices, site), front), last)
  {
    var front := acts[..|acts| - 1];
    forall n: nat | n < |front| ensures acts[..n] == front[..n] && acts[n] == front[n] {}
    if AllWentWell(voices, site, acts) {
      forall n: nat | n < |front| ensures WentWell(ActedAll(Loaded(voices, site), front[..n]), front[n]) {
        assert acts[..n] == front[..n] && WentWell(ActedAll(Loaded(voices, site), acts[..n]), acts[n]);
      }
    }
  }

  lemma ActKeepsVoices(r: Run, a: Act)
    ensures Acted(r, a).voices == r.voices
  {}

  lemma {:induction false} FlushReported(r: Run, fs: nat -> Flushing, n: nat)
    requires n <= |r.pending|
    ensures FlushedFirst(r, fs, n).voices == r.voices
    ensures FlushedFirst(r, fs, n).refused == [] <==>
              r.refused == [] && forall i: nat | i < n :: MarksWell(r.voices, fs(i))
  {
    if n > 0 {
      FlushReported(r, fs, n - 1);
      OneMarkReported(FlushedFirst(r, fs, n - 1), r.pending[n - 1], fs(n - 1));
    }
  }

  lemma OneMarkReported(r: Run, p: Pending, f: Flushing)
    ensures FlushedOne(r, p, f).voices == r.voices
    ensures FlushedOne(r, p, f).refused
         == if MarksWell(r.voices, f) then r.refused else r.refused + ["mark " + p.mark.key]
  {}

  /** A run reports nothing, and so ends well, exactly where every act and every pending mark went well. */
  lemma CompleteIffAllWentWell(voices: bool, site: Site, acts: seq<Act>, fs: nat -> Flushing)
    ensures var r := ActedAll(Loaded(voices, site), acts);
            Flushed(r, fs).pending == []
            && (Flushed(r, fs).refused == []
            <==> AllWentWell(voices, site, acts) && forall i: nat | i < |r.pending| :: MarksWell(voices, fs(i)))
  {
    var r := ActedAll(Loaded(voices, site), acts);
    ActsReported(voices, site, acts);
    FlushReported(r, fs, |r.pending|);
  }

  // ---------------------------------------------------------------- the replay

  /** Voice `k` was accepted, and its mark kept where it has one to write. */
  predicate SaidWell(v: Voice, o: Outcome) {
    && !o.answer.Refused?
    && (o.answer.Answered? && v.mark.Some? && (v.verb == "MARK" || o.answer.id != "" || o.answer.itemId != "")
        ==> o.markKept)
  }

  lemma TurnFails(d: Done, k: nat, v: Voice, speakers: set<string>, o: Outcome)
    ensures Step(d, k, v, speakers, o).failures
         == if Ready(v, speakers, d.made) && SaidWell(v, o) then d.failures else d.failures + [k]
  {}

  /** Voice `k` was not ready when its turn came, or was refused, or its mark was. */
  predicate Failed(start: Done, vs: seq<Voice>, speakers: set<string>, os: nat -> Outcome, k: nat)
    requires k < |vs|
  {
    !IsSent(start, vs, speakers, os, k) || !SaidWell(vs[k], os(k))
  }

  /** The voices reported are in queue order, and each once. */
  predicate Ascending(failures: seq<nat>, n: nat) {
    (forall i, j | 0 <= i < j < |failures| :: failures[i] < failures[j]) && forall k | k in failures :: k < n
  }

  lemma StillAscending(failures: seq<nat>, n: nat)
    requires Ascending(failures, n)
    ensures Ascending(failures, n + 1) && Ascending(failures + [n], n + 1)
  {
    assert forall i | 0 <= i < |failures| :: failures[i] in failures;
  }

  predicate OneMoreFails(fails: nat -> seq<nat>, bad: nat -> bool, m: nat) {
    fails(m + 1) == if bad(m) then fails(m) + [m] else fails(m)
  }

  lemma {:induction false} FailsAlong(fails: nat -> seq<nat>, bad: nat -> bool, n: nat, k: nat)
    requires fails(0) == [] && forall m: nat | m < n :: OneMoreFails(fails, bad, m)
    ensures Ascending(fails(n), n) && (k in fails(n) <==> k < n && bad(k))
  {
    if n > 0 {
      FailsAlong(fails, bad, n - 1, k);
      assert OneMoreFails(fails, bad, n - 1);
      StillAscending(fails(n - 1), n - 1);
    }
  }

  /** What is reported after so many voices, and whether each is to be. */
  function Reported(start: Done, vs: seq<Voice>, speakers: set<string>, os: nat -> Outcome): nat -> seq<nat> {
    (n: nat) => if n <= |vs| then Replayed(start, vs, speakers, os, n).failures else []
  }

  function ToReport(start: Done, vs: seq<Voice>, speakers: set<string>, os: nat -> Outcome): nat -> bool {
    (k: nat) => k < |vs| && Failed(start, vs, speakers, os, k)
  }

  lemma FailsNext(start: Done, vs: seq<Voice>, speakers: set<string>, os: nat -> Outcome, n: nat)
    requires n < |vs|
    ensures OneMoreFails(Reported(start, vs, speakers, os), ToReport(start, vs, speakers, os), n)
  {
    var d := Replayed(start, vs, speakers, os, n);
    TurnFails(d, n, vs[n], speakers, os(n));
    assert Replayed(start, vs, speakers, os, n + 1) == Step(d, n, vs[n], speakers, os(n));
  }

  /** The replay reports exactly the voices it could not send, and those refused or whose mark was, each once. */
  lemma FailsExactly(start: Done, vs: seq<Voice>, speakers: set<string>, os: nat -> Outcome, k: nat)
    requires start.failures == [] && k < |vs|
    ensures var failures := Replayed(start, vs, speakers, os, |vs|).failures;
            Ascending(failures, |vs|) && (k in failures <==> Failed(start, vs, speakers, os, k))
  {
    var fails, bad := Reported(start, vs, speakers, os), ToReport(start, vs, speakers, os);
    forall m: nat | m < |vs| ensures OneMoreFails(fails, bad, m) { FailsNext(start, vs, speakers, os, m); }
    FailsAlong(fails, bad, |vs|, k);
  }
}
