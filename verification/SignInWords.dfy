/**
 What a sign-in sends of what the person gave it: every request carries the word of the environment
 or of the very next lines, trimmed, and a run that stops says why.
 */
module SignInWords {
  import opened Wrappers
  import opened Strings
  import opened Profiles
  import opened SignIn
  import opened SignInSteps

  // ---------------------------------------------------------------- which lines a request is from

  /** How many of the lines one request takes. */
  function LinesTaken(r: Request, p: Person): nat {
    match r
    case Start(_) => if p.envPassword == "" then 1 else 0
    case Verify(_, _, _) => if p.recovery || p.envTotp == "" then 1 else 0
    case SetPassword(_, _) => 2
    case Agree(_, _) => if p.agrees then 0 else 1
    case Confirm(_, _) => if p.envTotp == "" then 1 else 0
  }

  /** And all of some requests: the lines behind them are still to be read. */
  function TakenBy(calls: seq<Request>, p: Person): nat {
    if calls == [] then 0 else TakenBy(calls[..|calls| - 1], p) + LinesTaken(calls[|calls| - 1], p)
  }

  predicate NoLine(lines: seq<string>, at: nat) { at >= |lines| || TrimSpace(lines[at]) == "" }

  predicate IsLine(text: string, lines: seq<string>, at: nat) { !NoLine(lines, at) && text == TrimSpace(lines[at]) }

  /** The environment's word where it says something, else the line. */
  predicate IsGiven(text: string, env: string, lines: seq<string>, at: nat) {
    if env == "" then IsLine(text, lines, at) else text == TrimSpace(env)
  }

  /** Agreed to, by the flag or by the line. */
  predicate Agrees(p: Person, lines: seq<string>, at: nat) {
    p.agrees || (!NoLine(lines, at) && IsYes(TrimSpace(lines[at])))
  }

  /** What a request sends is what was given: the password, the code, the new password typed twice, the yes. */
  predicate SendsTheGiven(r: Request, p: Person, lines: seq<string>, at: nat) {
    match r
    case Start(password) => IsGiven(password, p.envPassword, lines, at)
    case Verify(_, recovery, code) =>
      recovery == p.recovery && IsGiven(code, if p.recovery then "" else p.envTotp, lines, at)
    case SetPassword(_, password) => IsLine(password, lines, at) && IsLine(password, lines, at + 1)
    case Agree(_, _) => Agrees(p, lines, at)
    case Confirm(_, code) => IsGiven(code, p.envTotp, lines, at)
  }

  /** Request `k` sends what was given behind the lines of those before it. */
  predicate SentAt(calls: seq<Request>, p: Person, lines: seq<string>, k: nat)
    requires k < |calls|
  {
    SendsTheGiven(calls[k], p, lines, TakenBy(calls[..k], p))
  }

  predicate AllSent(calls: seq<Request>, p: Person, lines: seq<string>) {
    TakenBy(calls, p) <= |lines| && forall k: nat | k < |calls| :: SentAt(calls, p, lines, k)
  }

  // ---------------------------------------------------------------- why a run stops

  /** The challenge the last answer held. */
  function ChallengeAfter(i: Installation, calls: seq<Request>): Option<Challenge> {
    match i.serve(calls)
    case NoReply => None
    case Answer(_, body) =>
      if calls != [] && calls[|calls| - 1].Confirm? then
        if body.confirmed.Some? then body.confirmed.value.challenge else None
      else body.challenge
  }

  /** The reason is the last answer's, or the next line's. */
  predicate HasReason(i: Installation, p: Person, r: Run, lines: seq<string>, why: Why) {
    var at := TakenBy(r.calls, p);
    match why
    case NothingGiven => NoLine(lines, at) || NoLine(lines, at + 1)
    case Unanswered => r.calls != [] && i.serve(r.calls).NoReply?
    case Unreadable => r.calls != [] && i.serve(r.calls).Answer? && Misread(r.calls[|r.calls| - 1], i.serve(r.calls))
    case HalfAPair =>
      && i.serve(r.calls).Answer? && i.serve(r.calls).body.pair.Some?
      && var pair := i.serve(r.calls).body.pair.value; pair.access == "" || pair.refresh.NoToken?
    case TypingsDiffer =>
      !NoLine(lines, at) && !NoLine(lines, at + 1) && TrimSpace(lines[at]) != TrimSpace(lines[at + 1])
    case TermsNotNamed =>
      ChallengeAfter(i, r.calls).Some? && TERMS in ChallengeAfter(i, r.calls).value.methods
      && ChallengeAfter(i, r.calls).value.terms.None?
    case Declined => !Agrees(p, lines, at) && !NoLine(lines, at)
  }

  /** The answer is not in the shape it is read in: a confirmation's, the next step's, or the pair's. */
  predicate Misread(asked: Request, answer: Reply)
    requires answer.Answer?
  {
    if asked.Confirm? then answer.body.confirmed.None?
    else if answer.accepted && !asked.Agree? then answer.body.challenge.None?
    else answer.body.pair.None?
  }

  /** All that was sent was given; a run that stops has its reason, and any other has read no line too many. */
  predicate SaidAndDone(i: Installation, p: Person, r: Run, lines: seq<string>) {
    && AllSent(r.calls, p, lines)
    && if r.end.Stopped? then HasReason(i, p, r, lines, r.end.why)
       else r.lines == lines[TakenBy(r.calls, p)..]
  }

  // ---------------------------------------------------------------- request by request

  /** What is read of the lines from `at` on. */
  lemma ReadsTheLine(env: string, lines: seq<string>, at: nat)
    requires at <= |lines|
    ensures var t := Read(env, lines[at..]);
            && (env == "" && NoLine(lines, at) <==> t.text.None?)
            && (t.text.Some? ==> IsGiven(t.text.value, env, lines, at))
            && (t.text.Some? ==> t.rest == if env == "" then lines[at + 1..] else lines[at..])
            && (env == "" && t.text.Some? ==> at < |lines|)
  {
    if at < |lines| { assert lines[at..][0] == lines[at] && lines[at..][1..] == lines[at + 1..]; }
  }

  lemma OneMoreSent(calls: seq<Request>, r: Request, p: Person, lines: seq<string>)
    requires AllSent(calls, p, lines) && SendsTheGiven(r, p, lines, TakenBy(calls, p))
    requires TakenBy(calls, p) + LinesTaken(r, p) <= |lines|
    ensures TakenBy(calls + [r], p) == TakenBy(calls, p) + LinesTaken(r, p)
    ensures AllSent(calls + [r], p, lines)
  {
    var all := calls + [r];
    assert all[..|calls|] == calls;
    forall k: nat | k < |all| ensures SentAt(all, p, lines, k) {
      if k < |calls| { assert all[..k] == calls[..k] && SentAt(calls, p, lines, k); }
    }
  }

  lemma EndedIsDone(i: Installation, p: Person, calls: seq<Request>, lines: seq<string>)
    requires AllSent(calls, p, lines) && calls != []
    requires var last := calls[|calls| - 1]; last.Agree? || (!last.Confirm? && !SaysOwing(i, calls))
    ensures SaidAndDone(i, p, Ended(i, calls, lines[TakenBy(calls, p)..]), lines)
  {}

  lemma AgreedIsDone(i: Installation, p: Person, calls: seq<Request>, lines: seq<string>, c: Challenge)
    requires AllSent(calls, p, lines) && c.terms.Some? && Agrees(p, lines, TakenBy(calls, p))
    ensures SaidAndDone(i, p, TermsRun(i, p, calls, lines[TakenBy(calls, p)..], c), lines)
  {
    var agree := Agree(c.pending, c.terms.value);
    AgreedIsPosted(i, p, calls, lines, c, TakenBy(calls, p));
    OneMoreSent(calls, agree, p, lines);
    EndedIsDone(i, p, calls + [agree], lines);
  }

  lemma AgreedIsPosted(
    i: Installation, p: Person, calls: seq<Request>, lines: seq<string>, c: Challenge, at: nat)
    requires at <= |lines| && c.terms.Some? && Agrees(p, lines, at)
    ensures var rest := if p.agrees then lines[at..] else lines[at + 1..];
            TermsRun(i, p, calls, lines[at..], c) == Ended(i, calls + [Agree(c.pending, c.terms.value)], rest)
  {
    if !p.agrees { ReadsTheLine("", lines, at); }
  }

  lemma TermsAreDone(i: Installation, p: Person, calls: seq<Request>, lines: seq<string>, c: Challenge)
    requires AllSent(calls, p, lines) && ChallengeAfter(i, calls) == Some(c) && TERMS in c.methods
    ensures SaidAndDone(i, p, TermsRun(i, p, calls, lines[TakenBy(calls, p)..], c), lines)
  {
    if c.terms.Some? {
      if Agrees(p, lines, TakenBy(calls, p)) {
        AgreedIsDone(i, p, calls, lines, c);
      } else {
        ReadsTheLine("", lines, TakenBy(calls, p));
      }
    }
  }

  predicate TypedTwice(lines: seq<string>, at: nat) {
    !NoLine(lines, at) && !NoLine(lines, at + 1) && TrimSpace(lines[at]) == TrimSpace(lines[at + 1])
  }

  /** Without two equal typings the change ends there, with nothing sent. */
  lemma NotTypedTwice(i: Installation, p: Person, calls: seq<Request>, lines: seq<string>, c: Challenge)
    requires WindsDown(i) && AllSent(calls, p, lines)
    requires TERMS !in c.methods && (PASSWORD_CHANGE in c.methods ==> !TypedTwice(lines, TakenBy(calls, p)))
    ensures SaidAndDone(i, p, OwedRun(i, p, calls, lines[TakenBy(calls, p)..], c), lines)
  {
    var at := TakenBy(calls, p);
    ReadsTheLine("", lines, at);
    if !NoLine(lines, at) { ReadsTheLine("", lines, at + 1); }
  }

  lemma TwoTypingsAreSent(i: Installation, p: Person, calls: seq<Request>, lines: seq<string>, c: Challenge)
    requires WindsDown(i) && AllSent(calls, p, lines) && TypedTwice(lines, TakenBy(calls, p))
    requires TERMS !in c.methods && PASSWORD_CHANGE in c.methods
    ensures var at := TakenBy(calls, p); var calls' := calls + [SetPassword(c.pending, TrimSpace(lines[at]))];
            && AllSent(calls', p, lines) && TakenBy(calls', p) == at + 2
            && OwedRun(i, p, calls, lines[at..], c)
               == if SaysOwing(i, calls') then FurtherRun(i, p, calls', lines[at + 2..])
                  else Ended(i, calls', lines[at + 2..])
  {
    var at := TakenBy(calls, p);
    ReadsTheLine("", lines, at);
    ReadsTheLine("", lines, at + 1);
    OneMoreSent(calls, SetPassword(c.pending, TrimSpace(lines[at])), p, lines);
  }

  lemma {:induction false} OwedIsDone(
    i: Installation, p: Person, calls: seq<Request>, lines: seq<string>, c: Challenge)
    requires WindsDown(i) && AllSent(calls, p, lines) && calls != [] && ChallengeAfter(i, calls) == Some(c)
    ensures SaidAndDone(i, p, OwedRun(i, p, calls, lines[TakenBy(calls, p)..], c), lines)
    decreases i.owes(calls)
  {
    var at := TakenBy(calls, p);
    if TERMS in c.methods {
      TermsAreDone(i, p, calls, lines, c);
    } else if PASSWORD_CHANGE in c.methods && TypedTwice(lines, at) {
      var change := SetPassword(c.pending, TrimSpace(lines[at]));
      TwoTypingsAreSent(i, p, calls, lines, c);
      GoesOn(i, p, calls, change, lines);
      if SaysOwing(i, calls + [change]) && ChallengeAfter(i, calls + [change]).Some? {
        OwedIsDone(i, p, calls + [change], lines, ChallengeAfter(i, calls + [change]).value);
      }
    } else {
      NotTypedTwice(i, p, calls, lines, c);
    }
  }

  /** After a request that is no confirmation: the pair, or the next step where it can be read. */
  lemma GoesOn(i: Installation, p: Person, calls: seq<Request>, r: Request, lines: seq<string>)
    requires WindsDown(i) && AllSent(calls + [r], p, lines) && !r.Confirm? && !r.Agree?
    ensures var calls' := calls + [r]; var rest := lines[TakenBy(calls', p)..];
            && (!SaysOwing(i, calls') ==> SaidAndDone(i, p, Ended(i, calls', rest), lines))
            && (SaysOwing(i, calls') ==> ChallengeAfter(i, calls') == i.serve(calls').body.challenge)
            && (SaysOwing(i, calls') && ChallengeAfter(i, calls').None? ==>
                  SaidAndDone(i, p, FurtherRun(i, p, calls', rest), lines))
  {
    if !SaysOwing(i, calls + [r]) { EndedIsDone(i, p, calls + [r], lines); }
  }

  lemma SecondIsDone(i: Installation, p: Person, calls: seq<Request>, lines: seq<string>)
    requires WindsDown(i) && AllSent(calls, p, lines) && |calls| == 1 && calls[0].Start? && SaysOwing(i, calls)
    ensures SaidAndDone(i, p, SecondRun(i, p, calls, lines[TakenBy(calls, p)..]), lines)
  {
    var at, c := TakenBy(calls, p), ChallengeAfter(i, calls);
    if c.Some? && !AsksCode(c.value) {
      OwedIsDone(i, p, calls, lines, c.value);
    } else if c.Some? {
      var env := if p.recovery then "" else p.envTotp;
      ReadsTheLine(env, lines, at);
      var code := Read(env, lines[at..]);
      if code.text.Some? {
        var verify := Verify(c.value.pending, p.recovery, code.text.value);
        OneMoreSent(calls, verify, p, lines);
        GoesOn(i, p, calls, verify, lines);
        if SaysOwing(i, calls + [verify]) && ChallengeAfter(i, calls + [verify]).Some? {
          OwedIsDone(i, p, calls + [verify], lines, ChallengeAfter(i, calls + [verify]).value);
        }
      }
    }
  }

  /**
   Whatever the installation answers: each request of a sign-in sends exactly what the environment says,
   or the lines behind those of the requests before it, trimmed; a new password was typed twice; and a
   sign-in that stops does so for the answer or the line the reason names.
   */
  lemma EveryWordSentWasGiven(i: Installation, p: Person, lines: seq<string>)
    requires WindsDown(i)
    ensures SaidAndDone(i, p, SignInRun(i, p, lines), lines)
    ensures SignInRun(i, p, lines).calls == [] <==> p.envPassword == "" && NoLine(lines, 0)
  {
    assert lines[0..] == lines;
    ReadsTheLine(p.envPassword, lines, 0);
    var password := Read(p.envPassword, lines);
    if password.text.Some? {
      var start := Start(password.text.value);
      OneMoreSent([], start, p, lines);
      assert [] + [start] == [start];
      GoesOn(i, p, [], start, lines);
      if SaysOwing(i, [start]) {
        SecondIsDone(i, p, [start], lines);
        if i.serve([start]).body.challenge.Some? { SecondIsOrderly(i, p, [start], password.rest); }
      }
    }
  }

  /** So does a confirmation and the sign-in it completes. */
  lemma EveryWordConfirmedWasGiven(i: Installation, p: Person, pending: string, lines: seq<string>)
    requires WindsDown(i)
    ensures SaidAndDone(i, p, ConfirmRun(i, p, pending, lines), lines)
  {
    assert lines[0..] == lines;
    ReadsTheLine(p.envTotp, lines, 0);
    var code := Read(p.envTotp, lines);
    if code.text.Some? {
      var confirm := Confirm(pending, code.text.value);
      OneMoreSent([], confirm, p, lines);
      assert [] + [confirm] == [confirm];
      ConfirmedIsDone(i, p, pending, lines, confirm);
    }
  }

  lemma ConfirmedIsDone(i: Installation, p: Person, pending: string, lines: seq<string>, confirm: Request)
    requires WindsDown(i) && confirm.Confirm? && AllSent([confirm], p, lines)
    requires var code := Read(p.envTotp, lines);
             code.text.Some? && confirm == Confirm(pending, code.text.value)
             && code.rest == lines[TakenBy([confirm], p)..]
    ensures SaidAndDone(i, p, ConfirmRun(i, p, pending, lines), lines)
  {
    if ChallengeAfter(i, [confirm]).Some? {
      OwedIsDone(i, p, [confirm], lines, ChallengeAfter(i, [confirm]).value);
    }
  }

  /** Every way to type yes; the long s folds to an s. */
  const YES: set<string> := {
    "yes", "Yes", "yEs", "YEs", "yeS", "YeS", "yES", "YES", "ye\U{17f}", "Ye\U{17f}", "yE\U{17f}", "YE\U{17f}"}

  lemma OnlyYesIsYes(s: string)
    ensures IsYes(s) <==> s in YES
  {
    if IsYes(s) { assert s == [s[0], s[1], s[2]]; }
  }

  // ---------------------------------------------------------------- what is held

  /** What a sign-in holds has both its halves. */
  lemma HoldsBothHalves(i: Installation, p: Person, lines: seq<string>)
    requires WindsDown(i)
    ensures var end := SignInRun(i, p, lines).end;
            end.Finished? ==> end.session.access != "" && end.session.refresh.Token?
  {
    EverySignInIsOrderly(i, p, lines);
  }

  /** The profile a run leaves: its pair with the address and the workspace it was called with, and nothing else. */
  lemma HoldsWhatItEndsWith(url: string, tenant: string, end: End)
    ensures var p := ProfileOf(url, tenant, end);
            && (p.Some? <==> end.Finished? || end.EnrolmentLeft?)
            && (p.Some? ==>
                  && p.value.baseUrl == url && p.value.tenant == tenant && p.value.token == ""
                  && p.value.device == "" && p.value.clock == "" && p.value.cursor == ""
                  && p.value.session == if end.Finished? then end.session else NO_SESSION)
  {}
}
