/**
 The three ways a deferred showcase can write other things than the direct one, each in its smallest
 form: everything is accepted, everyone is signed in, and the workspace is empty.
 */
module DeferredCases {
  import opened Wrappers
  import opened Placeholders
  import opened Json
  import opened Voices
  import opened Showcase
  import opened Replay
  import opened Templates
  import opened Program
  import opened Deferred

  const EMPTY_SITE := Site([], map[], map[], multiset{}, multiset{})

  /** What Ann says, and the signed-in person's write that belongs to it. */
  function TwoLines(verb: string, first: Template, second: Template): seq<Line> {
    [Line(None, Op.Say("Ann", "first", verb, first, None)),
     Line(Some(Owner(0, false)), Op.Write("second", "POST", second, None))]
  }

  /** Each write answered alike: by `id`, where it answers at all. */
  function ShowOf(lines: seq<Line>, id: string, answering: Answering): Show {
    Show(lines, map[], (i: nat) => id, (i: nat) => answering)
  }

  function AllAnswer(id: string, answering: Answering): nat -> Luck {
    var reply := if answering.AnswersNothing? then None else Some(id);
    (i: nat) => Luck(Created.Refused, Rejected, Reply(true, reply, map[]))
  }

  function AllGive(id: string): nat -> Outcome { (k: nat) => Outcome(Answer.Answered(id, "", None), true) }

  /** What a showcase of such lines comes to in three lists: sent directly, sent with voices, and replayed. */
  ghost predicate ComesTo(
    s: Show, lucks: nat -> Luck, os: nat -> Outcome, fs: nat -> Flushing,
    direct: seq<Request>, deferred: seq<Request>, replayed: seq<Request>)
  {
    var v := Ran(true, EMPTY_SITE, s.lines, lucks, fs);
    && Ran(false, EMPTY_SITE, s.lines, lucks, fs).site.sent == direct
    && v.site.sent == deferred
    && var done := Replayed(Done(map[], [], [], v.site.marks), v.spoken, {"Ann"}, os, |v.spoken|);
       Writes(done.calls, v.spoken) == replayed
  }

  ghost predicate AsExpected(s: Show, lucks: nat -> Luck, os: nat -> Outcome) {
    WellFormed(s) && Lucky(s, lucks) && s.held == Ids(EMPTY_SITE.marks) && AllSignedIn(s, {"Ann"}) && LuckyReplay(s, os)
  }

  lemma WritesByFate(s: Show, lucks: nat -> Luck, os: nat -> Outcome, fs: nat -> Flushing)
    requires AsExpected(s, lucks, os)
    ensures var n := |s.lines|;
            ComesTo(s, lucks, os, fs,
                    Requests(s, WithFate(s, false, Sent, n), HandIds(s, false, os, n)),
                    Requests(s, WithFate(s, true, Sent, n), HandIds(s, true, os, n)),
                    Spokens(s, WithFate(s, true, Queued, n), HandIds(s, true, os, n)))
  {
    BothRunsWrite(s, s, EMPTY_SITE, lucks, lucks, fs, fs, {"Ann"}, os);
  }

  ghost predicate Readable(verb: string, first: Template, second: Template, id: string, answering: Answering) {
    && verb != "MARK" && verb != "GET" && PlainTemplate(first) && PlainTemplate(second)
    && Lines(first) == {} && Lines(second) <= {0} && Plain(id) && (id != "" <==> answering.AnswersNamed?)
  }

  lemma TwoLinesAreAsExpected(verb: string, first: Template, second: Template, id: string, answering: Answering)
    requires Readable(verb, first, second, id, answering)
    ensures AsExpected(ShowOf(TwoLines(verb, first, second), id, answering), AllAnswer(id, answering), AllGive(id))
  {
    var s := ShowOf(TwoLines(verb, first, second), id, answering);
    assert GoodLine(s, 0) && GoodLine(s, 1) && PlainId(s, 0) && PlainId(s, 1);
  }

  /** Hers is left to a voice, and the other is written before it, or not at all. */
  lemma TwoLinesFare(verb: string, first: Template, second: Template, id: string, answering: Answering)
    ensures var s := ShowOf(TwoLines(verb, first, second), id, answering);
            && FateOf(s, false, 0) == Sent && FateOf(s, true, 0) == Queued && FateOf(s, true, 1) == Sent
            && FateOf(s, false, 1) == if answering.AnswersNothing? then Skipped else Sent
  {
    var s := ShowOf(TwoLines(verb, first, second), id, answering);
    assert OwnerDue(s, true, 0) && OwnerDue(s, true, 1) && OwnerDue(s, false, 0);
    assert !IsVoiced(s, 0);
  }

  lemma OneRequest(s: Show, i: nat, ids: seq<string>)
    requires i < |s.lines|
    ensures Requests(s, [i], ids) == [RequestFor(s.lines[i].op, ids)]
    ensures Spokens(s, [i], ids) == [SpokenFor(s.lines[i].op, ids)]
  {
    assert [i][..0] == [];
  }

  lemma TwoRequests(s: Show, i: nat, j: nat, ids: seq<string>)
    requires i < |s.lines| && j < |s.lines|
    ensures Requests(s, [i, j], ids) == [RequestFor(s.lines[i].op, ids), RequestFor(s.lines[j].op, ids)]
  {
    assert [i, j][..1] == [i];
    OneRequest(s, i, ids);
  }

  /** What the two lines come to. */
  lemma TwoLinesWrite(
    verb: string, first: Template, second: Template, id: string, answering: Answering, fs: nat -> Flushing)
    requires Readable(verb, first, second, id, answering)
    ensures var s := ShowOf(TwoLines(verb, first, second), id, answering);
            var hers := Request("", SentVerb(verb), Inst(first, []), None);
            var other := Request("", "POST", Inst(second, [id]), None);
            ComesTo(s, AllAnswer(id, answering), AllGive(id), fs,
                  if answering.AnswersNothing? then [hers] else [hers, other],
                  [Request("", "POST", Inst(second, [""]), None)],
                  [Request("Ann", verb, Inst(first, []), Some(Object(End)))])
  {
    var s := ShowOf(TwoLines(verb, first, second), id, answering);
    TwoLinesAreAsExpected(verb, first, second, id, answering);
    WritesByFate(s, AllAnswer(id, answering), AllGive(id), fs);
    TwoLinesSentDirectly(verb, first, second, id, answering);
    TwoLinesSentWithVoices(verb, first, second, id, answering);
  }

  lemma TwoLinesSentDirectly(verb: string, first: Template, second: Template, id: string, answering: Answering)
    requires Readable(verb, first, second, id, answering)
    ensures var s := ShowOf(TwoLines(verb, first, second), id, answering);
            var hers := Request("", SentVerb(verb), Inst(first, []), None);
            var other := Request("", "POST", Inst(second, [id]), None);
            Requests(s, WithFate(s, false, Sent, 2), HandIds(s, false, AllGive(id), 2))
            == if answering.AnswersNothing? then [hers] else [hers, other]
  {
    var s := ShowOf(TwoLines(verb, first, second), id, answering);
    var direct := HandIds(s, false, AllGive(id), 2);
    TwoLinesFall(verb, first, second, id, answering);
    InHand(verb, first, second, id, answering);
    TheLinesRead(verb, first, second, id, answering, direct, id);
    if answering.AnswersNothing? {
      OneRequest(s, 0, direct);
    } else {
      TwoRequests(s, 0, 1, direct);
    }
  }

  lemma TwoLinesSentWithVoices(verb: string, first: Template, second: Template, id: string, answering: Answering)
    requires Readable(verb, first, second, id, answering)
    ensures var s := ShowOf(TwoLines(verb, first, second), id, answering);
            var hand := HandIds(s, true, AllGive(id), 2);
            && Requests(s, WithFate(s, true, Sent, 2), hand) == [Request("", "POST", Inst(second, [""]), None)]
            && Spokens(s, WithFate(s, true, Queued, 2), hand)
               == [Request("Ann", verb, Inst(first, []), Some(Object(End)))]
  {
    var s := ShowOf(TwoLines(verb, first, second), id, answering);
    var hand := HandIds(s, true, AllGive(id), 2);
    TwoLinesFall(verb, first, second, id, answering);
    InHand(verb, first, second, id, answering);
    TheLinesRead(verb, first, second, id, answering, hand, "");
    OneRequest(s, 1, hand);
    OneRequest(s, 0, hand);
  }

  lemma TwoLinesFall(verb: string, first: Template, second: Template, id: string, answering: Answering)
    ensures var s := ShowOf(TwoLines(verb, first, second), id, answering);
            && WithFate(s, false, Sent, 2) == (if answering.AnswersNothing? then [0] else [0, 1])
            && WithFate(s, true, Sent, 2) == [1] && WithFate(s, true, Queued, 2) == [0]
  {
    var s := ShowOf(TwoLines(verb, first, second), id, answering);
    TwoLinesFare(verb, first, second, id, answering);
    OfTwo(s, false, Sent);
    OfTwo(s, true, Sent);
    OfTwo(s, true, Queued);
  }

  lemma OfTwo(s: Show, voices: bool, fate: Fate)
    requires |s.lines| == 2
    ensures WithFate(s, voices, fate, 2)
         == (if FateOf(s, voices, 0) == fate then [0] else []) + (if FateOf(s, voices, 1) == fate then [1] else [])
  {
    LineAdded(s, voices, fate, 0);
    LineAdded(s, voices, fate, 1);
  }

  /** Of hers hubctl has the identifier where it wrote her line itself. */
  lemma InHand(verb: string, first: Template, second: Template, id: string, answering: Answering)
    ensures var s := ShowOf(TwoLines(verb, first, second), id, answering);
            At(HandIds(s, false, AllGive(id), 2), 0) == id && At(HandIds(s, true, AllGive(id), 2), 0) == ""
  {
    TwoLinesFare(verb, first, second, id, answering);
  }

  lemma TheLinesRead(
    verb: string, first: Template, second: Template, id: string, answering: Answering, ids: seq<string>, x: string)
    requires Readable(verb, first, second, id, answering) && At(ids, 0) == x
    ensures var ls := TwoLines(verb, first, second);
            && RequestFor(ls[0].op, ids) == Request("", SentVerb(verb), Inst(first, []), None)
            && SpokenFor(ls[0].op, ids) == Request("Ann", verb, Inst(first, []), Some(Object(End)))
            && RequestFor(ls[1].op, ids) == Request("", "POST", Inst(second, [x]), None)
  {
    InstAgrees(first, ids, []);
    InstAgrees(second, ids, [x]);
  }

  /** A literal reads as itself, and an identifier behind one follows it. */
  lemma LiteralReads(text: string, ids: seq<string>)
    ensures Inst([Lit(text)], ids) == text && Lines([Lit(text)]) == {}
    ensures Inst([Lit(text), Id(0)], ids) == text + At(ids, 0) && Lines([Lit(text), Id(0)]) == {0}
  {
    assert [Lit(text)][1..] == [] && [Lit(text), Id(0)][1..] == [Id(0)] && [Id(0)][1..] == [];
  }

  /**
   Ann's write is answered with no body. Without voices the line that belongs to it is skipped; with
   them it is written, and before hers.
   */
  lemma AnUnansweredOwnerIsDecidedOtherwise(fs: nat -> Flushing)
    ensures var s := ShowOf(TwoLines("POST", [Lit("/a")], [Lit("/b")]), "", AnswersNothing);
            && AsExpected(s, AllAnswer("", AnswersNothing), AllGive(""))
            && ComesTo(s, AllAnswer("", AnswersNothing), AllGive(""), fs,
                       [Request("", "POST", "/a", None)],
                       [Request("", "POST", "/b", None)],
                       [Request("Ann", "POST", "/a", Some(Object(End)))])
  {
    LiteralReads("/a", []);
    LiteralReads("/b", [""]);
    TwoLinesAreAsExpected("POST", [Lit("/a")], [Lit("/b")], "", AnswersNothing);
    TwoLinesWrite("POST", [Lit("/a")], [Lit("/b")], "", AnswersNothing, fs);
  }

  /** Ann's write is answered an identifier, which a line written before the replay lacks. */
  lemma ALateNameIsLeftOut(fs: nat -> Flushing)
    ensures var s := ShowOf(TwoLines("POST", [Lit("/a")], [Lit("/a/"), Id(0)]), "n-1", AnswersNamed);
            && AsExpected(s, AllAnswer("n-1", AnswersNamed), AllGive("n-1"))
            && ComesTo(s, AllAnswer("n-1", AnswersNamed), AllGive("n-1"), fs,
                       [Request("", "POST", "/a", None), Request("", "POST", "/a/n-1", None)],
                       [Request("", "POST", "/a/", None)],
                       [Request("Ann", "POST", "/a", Some(Object(End)))])
  {
    LiteralReads("/a", []);
    LiteralReads("/a/", [""]);
    LiteralReads("/a/", ["n-1"]);
    assert "/a/" + "n-1" == "/a/n-1" && "/a/" + "" == "/a/";
    TwoLinesAreAsExpected("POST", [Lit("/a")], [Lit("/a/"), Id(0)], "n-1", AnswersNamed);
    TwoLinesWrite("POST", [Lit("/a")], [Lit("/a/"), Id(0)], "n-1", AnswersNamed, fs);
  }

  /** Hubctl knows no DELETE and posts instead; the replay deletes. */
  lemma AnotherMethodIsSentOtherwise(fs: nat -> Flushing)
    ensures var s := ShowOf(TwoLines("DELETE", [Lit("/a")], [Lit("/b")]), "", AnswersUnnamed);
            && AsExpected(s, AllAnswer("", AnswersUnnamed), AllGive(""))
            && ComesTo(s, AllAnswer("", AnswersUnnamed), AllGive(""), fs,
                       [Request("", "POST", "/a", None), Request("", "POST", "/b", None)],
                       [Request("", "POST", "/b", None)],
                       [Request("Ann", "DELETE", "/a", Some(Object(End)))])
  {
    LiteralReads("/a", []);
    LiteralReads("/b", [""]);
    TwoLinesAreAsExpected("DELETE", [Lit("/a")], [Lit("/b")], "", AnswersUnnamed);
    TwoLinesWrite("DELETE", [Lit("/a")], [Lit("/b")], "", AnswersUnnamed, fs);
  }
}
