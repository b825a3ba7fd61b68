/**
 Where deferred execution refines direct execution. Hubctl answers a write it leaves to a voice with an
 empty body at once, and the replay sends what was queued as it is: so a line may lack a name, belong to
 an answer that would have been another, or be sent by another method.
 */
module DeferredNames {
  import opened Wrappers
  import opened Json
  import opened Voices
  import opened Showcase
  import opened Replay
  import opened Templates
  import opened Program
  import opened Deferred

  /** The identifier line `i` is given in the end: by the server at once, or by its voice's call. */
  function FinalId(s: Show, voices: bool, os: nat -> Outcome, i: nat): string
    requires i < |s.lines|
  {
    if FateOf(s, voices, i) != Queued then Spell(SlotAt(s, voices, i))
    else Given(os(Place(s, voices, i)))
  }

  function FinalIds(s: Show, voices: bool, os: nat -> Outcome): (ids: seq<string>)
    ensures |ids| == |s.lines| && forall i | 0 <= i < |s.lines| :: ids[i] == FinalId(s, voices, os, i)
  {
    seq(|s.lines|, i requires 0 <= i < |s.lines| => FinalId(s, voices, os, i))
  }

  /** A write left to a voice that answers an identifier, which hubctl never has. */
  predicate AnswersLate(s: Show, os: nat -> Outcome, j: nat)
    requires j < |s.lines|
  {
    !s.lines[j].op.Make? && FateOf(s, true, j) == Queued && FinalId(s, true, os, j) != ""
  }

  /** The lines a write names in what is sent of it, which of a read is the path alone. */
  function SentLines(op: Op): set<nat> { if VerbOf(op) == "GET" then Lines(op.path) else OpLines(op) }

  /** Line `i` is written, and names such a write. */
  predicate NamesALateOne(s: Show, os: nat -> Outcome, i: nat)
    requires i < |s.lines|
  {
    IsWritten(s, true, i) && exists j | j in SentLines(s.lines[i].op) :: j < |s.lines| && AnswersLate(s, os, j)
  }

  /** What hubctl has of a line is its final identifier, or nothing where that comes too late. */
  lemma InHandOrLate(s: Show, voices: bool, os: nat -> Outcome, j: nat)
    requires j < |s.lines|
    ensures var hand, final := HandIds(s, voices, os, |s.lines|), FinalIds(s, voices, os);
            At(hand, j) == if voices && AnswersLate(s, os, j) then "" else At(final, j)
  {
    if !voices { NothingQueued(s, j); }
  }

  // ---------------------------------------------------------------- where the name is missing, the text is shorter

  function BodySize(b: Body): nat {
    match b
    case Text(s) => |s|
    case Array(fs) => FieldsSize(fs)
    case Object(fs) => FieldsSize(fs)
    case _ => 0
  }

  function FieldsSize(fs: Fields<string>): nat { if fs.End? then 0 else BodySize(fs.value) + FieldsSize(fs.rest) }

  function RequestSize(r: Request): nat { |r.path| + if r.body.Some? then BodySize(r.body.value) else 0 }

  predicate NoLonger(a: seq<string>, b: seq<string>) {
    |a| == |b| && forall i | 0 <= i < |a| :: a[i] == b[i] || a[i] == ""
  }

  /** One of the lines has an identifier in `b` and none in `a`. */
  predicate Lacks(lines: set<nat>, a: seq<string>, b: seq<string>) {
    exists i | i in lines :: At(a, i) == "" && At(b, i) != ""
  }

  lemma LacksSplit(x: set<nat>, y: set<nat>, a: seq<string>, b: seq<string>)
    ensures Lacks(x + y, a, b) <==> Lacks(x, a, b) || Lacks(y, a, b)
  {}

  function PartSize(p: Part, ids: seq<string>): nat { match p case Lit(s) => |s| case Id(i) => |At(ids, i)| }

  lemma PartIsNoLonger(p: Part, a: seq<string>, b: seq<string>)
    requires NoLonger(a, b)
    ensures PartSize(p, a) <= PartSize(p, b) && (Lacks(PartLines(p), a, b) ==> PartSize(p, a) < PartSize(p, b))
  {}

  lemma PartInFront(t: Template, ids: seq<string>)
    requires t != []
    ensures |Inst(t, ids)| == PartSize(t[0], ids) + |Inst(t[1..], ids)|
  {}

  lemma {:induction false} InstSize(t: Template, a: seq<string>, b: seq<string>)
    requires NoLonger(a, b)
    ensures |Inst(t, a)| <= |Inst(t, b)| && (Lacks(Lines(t), a, b) ==> |Inst(t, a)| < |Inst(t, b)|)
  {
    if t != [] {
      InstSize(t[1..], a, b);
      PartInFront(t, a);
      PartInFront(t, b);
      PartIsNoLonger(t[0], a, b);
      LinesSplit(t);
      LacksSplit(PartLines(t[0]), Lines(t[1..]), a, b);
    }
  }

  lemma InstBodySize(v: Json<Template>, a: seq<string>, b: seq<string>)
    requires NoLonger(a, b)
    ensures BodySize(InstBody(v, a)) <= BodySize(InstBody(v, b))
    ensures Lacks(BodyLines(v), a, b) ==> BodySize(InstBody(v, a)) < BodySize(InstBody(v, b))
  {
    match v
    case Text(t) => InstSize(t, a, b);
    case Array(fs) => InstFieldsSize(fs, a, b);
    case Object(fs) => InstFieldsSize(fs, a, b);
    case _ =>
  }

  lemma {:induction false} InstFieldsSize(fs: Fields<Template>, a: seq<string>, b: seq<string>)
    requires NoLonger(a, b)
    ensures FieldsSize(InstFields(fs, a)) <= FieldsSize(InstFields(fs, b))
    ensures Lacks(FieldsLines(fs), a, b) ==> FieldsSize(InstFields(fs, a)) < FieldsSize(InstFields(fs, b))
  {
    if fs.Field? {
      InstBodySize(fs.value, a, b);
      InstFieldsSize(fs.rest, a, b);
      LacksSplit(BodyLines(fs.value), FieldsLines(fs.rest), a, b);
    }
  }

  /** The members left out have nothing in them. */
  lemma {:induction false} CompactSize(fs: Fields<string>)
    ensures FieldsSize(CompactFields(fs)) == FieldsSize(fs)
  {
    if fs.Field? { CompactSize(fs.rest); }
  }

  lemma BodyForSize(op: Op, a: seq<string>, b: seq<string>)
    requires NoLonger(a, b) && BodyOf(op).Some?
    ensures BodyFor(op, a).Some? && BodyFor(op, b).Some?
    ensures BodySize(BodyFor(op, a).value) <= BodySize(BodyFor(op, b).value)
    ensures Lacks(BodyLines(BodyOf(op).value), a, b) ==>
              BodySize(BodyFor(op, a).value) < BodySize(BodyFor(op, b).value)
  {
    InstBodySize(BodyOf(op).value, a, b);
    if op.Make? && op.content.Object? {
      CompactSize(InstFields(op.content.fields, a));
      CompactSize(InstFields(op.content.fields, b));
    }
  }

  /** A write that lacks a name is not the write with the name. */
  lemma LackingIsOther(op: Op, a: seq<string>, b: seq<string>)
    requires NoLonger(a, b) && Lacks(SentLines(op), a, b)
    ensures RequestFor(op, a) != RequestFor(op, b) && SpokenFor(op, a) != SpokenFor(op, b)
  {
    InstSize(op.path, a, b);
    if VerbOf(op) != "GET" && BodyOf(op).Some? {
      BodyForSize(op, a, b);
      LacksSplit(Lines(op.path), BodyLines(BodyOf(op).value), a, b);
    }
    if VerbOf(op) == "GET" {
      assert SpokenFor(op, a).path != SpokenFor(op, b).path;
    } else {
      assert RequestSize(SpokenFor(op, a)) < RequestSize(SpokenFor(op, b));
    }
    assert RequestSize(RequestFor(op, a)) < RequestSize(RequestFor(op, b));
  }

  /** A write whose names in what is sent of it agree is the same write. */
  lemma SentAgrees(op: Op, a: seq<string>, b: seq<string>)
    requires AgreeOn(SentLines(op), a, b)
    ensures RequestFor(op, a) == RequestFor(op, b)
  {
    InstAgrees(op.path, a, b);
    if VerbOf(op) != "GET" && BodyOf(op).Some? { BodyAgrees(BodyOf(op).value, a, b); }
  }

  // ---------------------------------------------------------------- the write as a voice has to send it

  /** The write as hubctl would send it itself, as its speaker, with the replay's `{}` for no body. */
  function AsSpoken(op: Op, ids: seq<string>): Request {
    var r := RequestFor(op, ids);
    r.(sender := SpeakerOf(op), body := if r.body.None? && r.verb != "GET" then Some(Object(End)) else r.body)
  }

  /** A method hubctl turns into another, or a read with a body, which hubctl leaves out. */
  predicate SentOtherwise(op: Op) {
    SentVerb(VerbOf(op)) != VerbOf(op) || (VerbOf(op) == "GET" && BodyOf(op).Some?)
  }

  /** The methods hubctl knows: those it has a call for, and a read with no body. */
  lemma KnownMethods(op: Op)
    ensures !SentOtherwise(op) <==>
              VerbOf(op) in {"POST", "PUT", "PATCH"} || (VerbOf(op) == "GET" && BodyOf(op).None?)
    ensures SentOtherwise(op) && VerbOf(op) != "GET" ==> SentVerb(VerbOf(op)) == "POST"
  {}

  /** The replay sends the queued write, so it is hubctl's own exactly where that sends it as it is. */
  lemma SpokenAsSent(op: Op, ids: seq<string>)
    ensures SpokenFor(op, ids) == AsSpoken(op, ids) <==> !SentOtherwise(op)
  {}

  /** Whatever the names are, what hubctl sends otherwise is not what the replay sends. */
  lemma OtherwiseIsOther(op: Op, a: seq<string>, b: seq<string>)
    requires SentOtherwise(op)
    ensures SpokenFor(op, a) != AsSpoken(op, b)
  {
    if SentVerb(VerbOf(op)) != VerbOf(op) {
      assert SpokenFor(op, a).verb != AsSpoken(op, b).verb;
    } else {
      assert SpokenFor(op, a).body.Some? && AsSpoken(op, b).body.None?;
    }
  }

  function AsSpokens(s: Show, idx: seq<nat>, ids: seq<string>): (rs: seq<Request>)
    requires AllIn(s, idx)
    ensures |rs| == |idx| && forall k | 0 <= k < |rs| :: rs[k] == AsSpoken(s.lines[idx[k]].op, ids)
  {
    seq(|idx|, k requires 0 <= k < |idx| => AsSpoken(s.lines[idx[k]].op, ids))
  }

  // ---------------------------------------------------------------- line by line

  /**
   Line `i` is the same write with the identifiers in hand and with the final ones, exactly where it
   names none too late.
   */
  lemma SameUnlessLate(s: Show, voices: bool, os: nat -> Outcome, i: nat)
    requires i < |s.lines| && WellFormed(s)
    ensures var hand, final, op := HandIds(s, voices, os, |s.lines|), FinalIds(s, voices, os), s.lines[i].op;
            if voices && exists j | j in SentLines(op) :: j < |s.lines| && AnswersLate(s, os, j)
            then RequestFor(op, hand) != RequestFor(op, final) && SpokenFor(op, hand) != SpokenFor(op, final)
            else AgreeOn(SentLines(op), hand, final) && RequestFor(op, hand) == RequestFor(op, final)
  {
    var hand, final, op := HandIds(s, voices, os, |s.lines|), FinalIds(s, voices, os), s.lines[i].op;
    assert GoodLine(s, i);
    forall j: nat | j < |s.lines|
      ensures At(hand, j) == if voices && AnswersLate(s, os, j) then "" else At(final, j)
    {
      InHandOrLate(s, voices, os, j);
    }
    assert NoLonger(hand, final) by {
      forall j | 0 <= j < |hand| ensures hand[j] == final[j] || hand[j] == "" {
        assert At(hand, j) == hand[j] && At(final, j) == final[j];
      }
    }
    if voices && exists j | j in SentLines(op) :: j < |s.lines| && AnswersLate(s, os, j) {
      LackingIsOther(op, hand, final);
    } else {
      SentAgrees(op, hand, final);
    }
  }

  /** Line `i` is written with its final identifiers, by hubctl's own method where a voice writes it. */
  ghost predicate WrittenAsMeant(s: Show, os: nat -> Outcome, i: nat)
    requires i < |s.lines|
  {
    var hand, final, op := HandIds(s, true, os, |s.lines|), FinalIds(s, true, os), s.lines[i].op;
    match FateOf(s, true, i)
    case Sent => RequestFor(op, hand) == RequestFor(op, final)
    case Queued => SpokenFor(op, hand) == AsSpoken(op, final)
    case _ => true
  }

  /** Line `i` is left to a voice, whose method or body hubctl would not have sent. */
  predicate QueuedOtherwise(s: Show, i: nat)
    requires i < |s.lines|
  {
    FateOf(s, true, i) == Queued && SentOtherwise(s.lines[i].op)
  }

  lemma WrittenAsMeantIff(s: Show, os: nat -> Outcome, i: nat)
    requires i < |s.lines| && WellFormed(s)
    ensures WrittenAsMeant(s, os, i) <==> !NamesALateOne(s, os, i) && !QueuedOtherwise(s, i)
  {
    var hand, final, op := HandIds(s, true, os, |s.lines|), FinalIds(s, true, os), s.lines[i].op;
    SameUnlessLate(s, true, os, i);
    if FateOf(s, true, i) == Queued {
      if SentOtherwise(op) {
        OtherwiseIsOther(op, hand, final);
      } else {
        SpokenAsSent(op, final);
        if AgreeOn(SentLines(op), hand, final) { OpAgrees(op, hand, final); }
      }
    }
  }

  /** Each line listed is the same write with `a` and with `b`. */
  ghost predicate EachSent(s: Show, idx: seq<nat>, a: seq<string>, b: seq<string>)
    requires AllIn(s, idx)
  {
    forall k | 0 <= k < |idx| :: RequestFor(s.lines[idx[k]].op, a) == RequestFor(s.lines[idx[k]].op, b)
  }

  /** Each voice listed sends with `a` what hubctl would with `b`. */
  ghost predicate EachSpoken(s: Show, idx: seq<nat>, a: seq<string>, b: seq<string>)
    requires AllIn(s, idx)
  {
    forall k | 0 <= k < |idx| :: SpokenFor(s.lines[idx[k]].op, a) == AsSpoken(s.lines[idx[k]].op, b)
  }

  /** Two lists of writes are one exactly where each of their lines is the same write. */
  lemma SameLineByLine(s: Show, idx: seq<nat>, a: seq<string>, b: seq<string>)
    requires AllIn(s, idx)
    ensures Requests(s, idx, a) == Requests(s, idx, b) <==> EachSent(s, idx, a, b)
    ensures Spokens(s, idx, a) == AsSpokens(s, idx, b) <==> EachSpoken(s, idx, a, b)
  {
    if Requests(s, idx, a) == Requests(s, idx, b) {
      forall k | 0 <= k < |idx| ensures RequestFor(s.lines[idx[k]].op, a) == RequestFor(s.lines[idx[k]].op, b) {
        assert Requests(s, idx, a)[k] == Requests(s, idx, b)[k];
      }
    }
    if Spokens(s, idx, a) == AsSpokens(s, idx, b) {
      forall k | 0 <= k < |idx| ensures SpokenFor(s.lines[idx[k]].op, a) == AsSpoken(s.lines[idx[k]].op, b) {
        assert Spokens(s, idx, a)[k] == AsSpokens(s, idx, b)[k];
      }
    }
  }

  /** Every line of a fate is among those with it. */
  lemma {:induction false} IsAmong(s: Show, voices: bool, fate: Fate, n: nat, i: nat) returns (k: nat)
    requires i < n <= |s.lines| && FateOf(s, voices, i) == fate
    ensures k < |WithFate(s, voices, fate, n)| && WithFate(s, voices, fate, n)[k] == i
  {
    if i == n - 1 { k := |WithFate(s, voices, fate, n - 1)|; } else { k := IsAmong(s, voices, fate, n - 1, i); }
  }

  ghost predicate AllAsMeant(s: Show, os: nat -> Outcome, fate: Fate) {
    forall i: nat | i < |s.lines| && FateOf(s, true, i) == fate :: WrittenAsMeant(s, os, i)
  }

  ghost predicate ListedAsMeant(s: Show, os: nat -> Outcome, idx: seq<nat>)
    requires AllIn(s, idx)
  {
    forall k | 0 <= k < |idx| :: WrittenAsMeant(s, os, idx[k])
  }

  /** All under the fate are written as meant exactly where all those listed under it are. */
  lemma ListedUnderAFate(s: Show, os: nat -> Outcome, fate: Fate)
    ensures AllIn(s, WithFate(s, true, fate, |s.lines|))
    ensures ListedAsMeant(s, os, WithFate(s, true, fate, |s.lines|)) <==> AllAsMeant(s, os, fate)
  {
    var idx := WithFate(s, true, fate, |s.lines|);
    if AllAsMeant(s, os, fate) {
      forall k: nat | k < |idx| ensures WrittenAsMeant(s, os, idx[k]) { FateAt(s, true, fate, |s.lines|, k); }
    }
    if ListedAsMeant(s, os, idx) {
      forall i: nat | i < |s.lines| && FateOf(s, true, i) == fate ensures WrittenAsMeant(s, os, i) {
        var k := IsAmong(s, true, fate, |s.lines|, i);
      }
    }
  }

  /** The lines of a fate are the writes they are meant to be exactly where each of them is. */
  lemma FateIsAsMeant(s: Show, os: nat -> Outcome, fate: Fate)
    ensures var hand, final := HandIds(s, true, os, |s.lines|), FinalIds(s, true, os);
            var idx := WithFate(s, true, fate, |s.lines|);
            && (fate == Sent ==> (Requests(s, idx, hand) == Requests(s, idx, final) <==> AllAsMeant(s, os, fate)))
            && (fate == Queued ==> (Spokens(s, idx, hand) == AsSpokens(s, idx, final) <==> AllAsMeant(s, os, fate)))
  {
    var idx := WithFate(s, true, fate, |s.lines|);
    ListedUnderAFate(s, os, fate);
    forall k: nat | k < |idx| ensures FateOf(s, true, idx[k]) == fate { FateAt(s, true, fate, |s.lines|, k); }
    SameLineByLine(s, idx, HandIds(s, true, os, |s.lines|), FinalIds(s, true, os));
  }

  /** In a run without voices nothing is late. */
  lemma DirectIsTheSame(s: Show, os: nat -> Outcome)
    requires WellFormed(s)
    ensures var idx := WithFate(s, false, Sent, |s.lines|);
            Requests(s, idx, HandIds(s, false, os, |s.lines|)) == Requests(s, idx, FinalIds(s, false, os))
  {
    var hand, final := HandIds(s, false, os, |s.lines|), FinalIds(s, false, os);
    var idx := WithFate(s, false, Sent, |s.lines|);
    SameLineByLine(s, idx, hand, final);
    forall k | 0 <= k < |idx|
      ensures RequestFor(s.lines[idx[k]].op, hand) == RequestFor(s.lines[idx[k]].op, final)
    {
      SameUnlessLate(s, false, os, idx[k]);
    }
  }

  /**
   Every line fares alike in both runs, and each run writes its lines with every identifier as it is in
   the end, the queued ones as hubctl would have sent them for their speaker.
   */
  ghost predicate Refines(
    direct: Show, deferred: Show, site: Site, d: Run, v: Run, replayed: seq<Call>, os: nat -> Outcome) {
    var n := |direct.lines|;
    && |deferred.lines| == n
    && (forall i: nat | i < n :: SameFate(direct, deferred, i))
    && d.site.sent == site.sent + Requests(direct, WithFate(direct, false, Sent, n), FinalIds(direct, false, os))
    && v.site.sent == site.sent + Requests(deferred, WithFate(deferred, true, Sent, n), FinalIds(deferred, true, os))
    && Writes(replayed, v.spoken)
         == AsSpokens(deferred, WithFate(deferred, true, Queued, n), FinalIds(deferred, true, os))
  }

  lemma SameBehind(a: seq<Request>, b: seq<Request>, c: seq<Request>)
    ensures a + b == a + c <==> b == c
  {
    if a + b == a + c { assert b == (a + b)[|a|..] && c == (a + c)[|a|..]; }
  }

  /** What of line `i` a queue answers too late, or leaves undecided, or sends as hubctl would not. */
  ghost predicate Faulty(s: Show, os: nat -> Outcome, i: nat)
    requires i < |s.lines|
  {
    NamesALateOne(s, os, i) || Mismatched(s, i) || QueuedOtherwise(s, i)
  }

  /**
   The same showcase on the same workspace, once without `--voices` and once with it and replayed:
   every line the one run writes is written by the other, the ones at once by hubctl and the rest by
   the replay as their speakers, with one identifier per line throughout. This holds exactly where no
   written line names a write left to a voice that answers an identifier, no line belongs to a write
   left to a voice whose answer would have decided otherwise about it, and no line left to a voice has
   a method or a body that hubctl would not have sent.
   */
  lemma DeferredRefinesDirect(
    direct: Show, deferred: Show, site: Site, lucks: nat -> Luck, lucks': nat -> Luck,
    fs: nat -> Flushing, fs': nat -> Flushing, speakers: set<string>, os: nat -> Outcome)
    requires OneShow(direct, deferred) && direct.held == deferred.held == Ids(site.marks)
    requires WellFormed(direct) && Lucky(direct, lucks) && WellFormed(deferred) && Lucky(deferred, lucks')
    requires AllSignedIn(deferred, speakers) && LuckyReplay(deferred, os)
    ensures var d, v := Ran(false, site, direct.lines, lucks, fs), Ran(true, site, direct.lines, lucks', fs');
            var replay := Replayed(Done(map[], [], [], v.site.marks), v.spoken, speakers, os, |v.spoken|);
            Refines(direct, deferred, site, d, v, replay.calls, os)
            <==> forall i: nat | i < |deferred.lines| :: !Faulty(deferred, os, i)
  {
    BothRunsWrite(direct, deferred, site, lucks, lucks', fs, fs', speakers, os);
    SameLinesIffMatched(direct, deferred);
    DirectIsTheSame(direct, os);
    FateIsAsMeant(deferred, os, Sent);
    FateIsAsMeant(deferred, os, Queued);
    var n := |direct.lines|;
    SameBehind(site.sent, Requests(deferred, WithFate(deferred, true, Sent, n), HandIds(deferred, true, os, n)),
               Requests(deferred, WithFate(deferred, true, Sent, n), FinalIds(deferred, true, os)));
    NoneIsFaulty(deferred, os);
  }

  lemma NoneIsFaulty(s: Show, os: nat -> Outcome)
    requires WellFormed(s)
    ensures (forall i: nat | i < |s.lines| :: !Faulty(s, os, i))
       <==> AllAsMeant(s, os, Sent) && AllAsMeant(s, os, Queued) && forall i: nat | i < |s.lines| :: !Mismatched(s, i)
  {
    forall i: nat | i < |s.lines|
      ensures Faulty(s, os, i) <==> !WrittenAsMeant(s, os, i) || Mismatched(s, i)
    {
      WrittenAsMeantIff(s, os, i);
    }
  }
}
