/**
 What holds of every sign-in: it ends, presents each step's pending credential at most once and to
 the step that was offered, and holds a session only on a complete pair; and against an
 installation that answers honestly, exactly which owed steps it can finish.
 */
module SignInSteps {
  import opened Wrappers
  import opened Profiles
  import opened SignIn

  // ---------------------------------------------------------------- every installation

  /** The request answers the challenge with the step it offers; a code only as the first step. */
  predicate Answers(r: Request, c: Challenge, first: bool) {
    match r
    case Start(_) => false
    case Confirm(_, _) => false
    case Verify(pending, _, _) => pending == c.pending && first && AsksCode(c)
    case SetPassword(pending, _) =>
      pending == c.pending && PASSWORD_CHANGE in c.methods && TERMS !in c.methods && (first ==> !AsksCode(c))
    case Agree(pending, terms) =>
      pending == c.pending && TERMS in c.methods && c.terms == Some(terms) && (first ==> !AsksCode(c))
  }

  /** Request `k` answers the challenge the request before it was answered with. */
  predicate Follows(i: Installation, calls: seq<Request>, k: nat)
    requires k < |calls|
  {
    && SaysOwing(i, calls[..k])
    && i.serve(calls[..k]).body.challenge.Some?
    && Answers(calls[k], i.serve(calls[..k]).body.challenge.value, k == 1)
  }

  predicate AllFollow(i: Installation, calls: seq<Request>, from: nat) {
    forall k | from <= k < |calls| :: Follows(i, calls, k)
  }

  /** The last answer was the complete pair; a 202 only where it answered the terms. */
  predicate Concluded(i: Installation, calls: seq<Request>, s: Session) {
    && calls != []
    && i.serve(calls).Answer?
    && i.serve(calls).body.pair == Some(s)
    && Complete(s)
    && (i.serve(calls).accepted ==> calls[|calls| - 1].Agree?)
  }

  /** The last answer was a step this client cannot take. */
  predicate LeftOwing(i: Installation, calls: seq<Request>, c: Challenge) {
    && SaysOwing(i, calls)
    && i.serve(calls).body.challenge == Some(c)
    && TERMS !in c.methods && PASSWORD_CHANGE !in c.methods && (|calls| == 1 ==> !AsksCode(c))
  }

  predicate Orderly(i: Installation, r: Run, from: nat) {
    && AllFollow(i, r.calls, from)
    && (r.end.Finished? ==> Concluded(i, r.calls, r.end.session))
    && (r.end.EnrolmentLeft? ==> LeftOwing(i, r.calls, r.end.challenge))
    && !r.end.Armed?
  }

  /** One more request in answer to the challenge the last answer held. */
  lemma OneMore(i: Installation, calls: seq<Request>, r: Request)
    requires calls != [] && SaysOwing(i, calls) && i.serve(calls).body.challenge.Some?
    requires Answers(r, i.serve(calls).body.challenge.value, |calls| == 1)
    ensures AllFollow(i, calls + [r], |calls|)
  {
    assert (calls + [r])[..|calls|] == calls;
  }

  lemma AllFollowOn(i: Installation, calls: seq<Request>, all: seq<Request>, from: nat)
    requires from <= |calls| && calls <= all && AllFollow(i, calls, from) && AllFollow(i, all, |calls|)
    ensures AllFollow(i, all, from)
  {
    forall k | from <= k < |all| ensures Follows(i, all, k) {
      if k < |calls| {
        assert all[..k] == calls[..k];
        assert Follows(i, calls, k);
      }
    }
  }

  lemma {:induction false} OwedIsOrderly(
    i: Installation, p: Person, calls: seq<Request>, lines: seq<string>, c: Challenge)
    requires WindsDown(i) && calls != [] && SaysOwing(i, calls) && i.serve(calls).body.challenge == Some(c)
    requires |calls| == 1 ==> !AsksCode(c)
    ensures var r := OwedRun(i, p, calls, lines, c);
            calls <= r.calls && Orderly(i, r, |calls|) && |r.calls| <= |calls| + 1 + i.owes(calls)
    decreases i.owes(calls)
  {
    var r := OwedRun(i, p, calls, lines, c);
    var chosen := Read("", lines);
    var again := Read("", chosen.rest);
    if TERMS in c.methods {
      if c.terms.Some? { OneMore(i, calls, Agree(c.pending, c.terms.value)); }
    } else if PASSWORD_CHANGE in c.methods && chosen.text.Some? && chosen.text == again.text {
      var change := SetPassword(c.pending, again.text.value);
      var calls' := calls + [change];
      OneMore(i, calls, change);
      if SaysOwing(i, calls') && i.serve(calls').body.challenge.Some? {
        OwedIsOrderly(i, p, calls', again.rest, i.serve(calls').body.challenge.value);
        AllFollowOn(i, calls', r.calls, |calls|);
      }
    }
  }

  /**
   Every sign-in, against any installation whose owed steps decrease: its requests are the password
   and then answers to the challenges in turn, no more than the steps owed and two; a session is held
   only on a complete pair.
   */
  lemma EverySignInIsOrderly(i: Installation, p: Person, lines: seq<string>)
    requires WindsDown(i)
    ensures var r := SignInRun(i, p, lines);
            && Orderly(i, r, 1)
            && (r.calls != [] ==> r.calls[0].Start? && |r.calls| <= 2 + i.owes(r.calls[..1]))
  {
    var password := Read(p.envPassword, lines);
    if password.text.Some? {
      var calls := [Start(password.text.value)];
      if SaysOwing(i, calls) && i.serve(calls).body.challenge.Some? {
        SecondIsOrderly(i, p, calls, password.rest);
        assert SignInRun(i, p, lines).calls[..1] == calls;
      }
    }
  }

  lemma SecondIsOrderly(i: Installation, p: Person, calls: seq<Request>, lines: seq<string>)
    requires WindsDown(i) && |calls| == 1 && SaysOwing(i, calls) && i.serve(calls).body.challenge.Some?
    ensures var r := SecondRun(i, p, calls, lines);
            calls <= r.calls && Orderly(i, r, 1) && |r.calls| <= 2 + i.owes(calls)
  {
    var c := i.serve(calls).body.challenge.value;
    var r := SecondRun(i, p, calls, lines);
    var code := Read(if p.recovery then "" else p.envTotp, lines);
    if !AsksCode(c) {
      OwedIsOrderly(i, p, calls, lines, c);
    } else if code.text.Some? {
      var verify := Verify(c.pending, p.recovery, code.text.value);
      var calls' := calls + [verify];
      OneMore(i, calls, verify);
      if SaysOwing(i, calls') && i.serve(calls').body.challenge.Some? {
        OwedIsOrderly(i, p, calls', code.rest, i.serve(calls').body.challenge.value);
        AllFollowOn(i, calls', r.calls, 1);
      }
    }
  }

  /** No two challenges of the installation carry the same pending credential. */
  ghost predicate MintsAnew(i: Installation) {
    forall a, b | |a| < |b| && SaysOwing(i, a) && SaysOwing(i, b)
                  && i.serve(a).body.challenge.Some? && i.serve(b).body.challenge.Some? ::
      i.serve(a).body.challenge.value.pending != i.serve(b).body.challenge.value.pending
  }

  function PendingOf(r: Request): string { if r.Start? then "" else r.pending }

  /** Each challenge's pending credential is presented at most once. */
  lemma PresentedAtMostOnce(i: Installation, p: Person, lines: seq<string>, j: nat, k: nat)
    requires WindsDown(i) && MintsAnew(i) && 1 <= j < k < |SignInRun(i, p, lines).calls|
    ensures var calls := SignInRun(i, p, lines).calls; PendingOf(calls[j]) != PendingOf(calls[k])
  {
    EverySignInIsOrderly(i, p, lines);
    var calls := SignInRun(i, p, lines).calls;
    assert Follows(i, calls, j) && Follows(i, calls, k);
    assert |calls[..j]| < |calls[..k]|;
  }

  /**
   `hubctl mfa confirm` holds the pair it is answered without looking at its halves: what it held is
   complete exactly where the confirmation's own pair was, or the steps after it ended in one.
   */
  lemma ConfirmHoldsWhatItIsGiven(i: Installation, p: Person, pending: string, lines: seq<string>)
    requires WindsDown(i)
    ensures var r := ConfirmRun(i, p, pending, lines);
            r.end.Finished? ==>
              && r.calls != [] && i.serve(r.calls[..1]).Answer? && i.serve(r.calls[..1]).body.confirmed.Some?
              && var c := i.serve(r.calls[..1]).body.confirmed.value;
                 if c.challenge.Some? then Complete(r.end.session) else c.tokens == Some(r.end.session)
  {
    var code := Read(p.envTotp, lines);
    if code.text.Some? {
      var calls := [Confirm(pending, code.text.value)];
      var r := ConfirmRun(i, p, pending, lines);
      if i.serve(calls).Answer? && i.serve(calls).body.confirmed.Some?
         && i.serve(calls).body.confirmed.value.challenge.Some?
      {
        OwedEndsComplete(i, p, calls, code.rest, i.serve(calls).body.confirmed.value.challenge.value);
      }
      assert r.calls[..1] == calls;
    }
  }

  lemma {:induction false} OwedEndsComplete(
    i: Installation, p: Person, calls: seq<Request>, lines: seq<string>, c: Challenge)
    requires WindsDown(i)
    ensures var r := OwedRun(i, p, calls, lines, c);
            calls <= r.calls && (r.end.Finished? ==> Complete(r.end.session))
    decreases i.owes(calls)
  {
    var again := Read("", Read("", lines).rest);
    var chosen := Read("", lines);
    if TERMS !in c.methods && PASSWORD_CHANGE in c.methods && chosen.text.Some? && again.text == chosen.text {
      var calls' := calls + [SetPassword(c.pending, again.text.value)];
      if SaysOwing(i, calls') && i.serve(calls').body.challenge.Some? {
        OwedEndsComplete(i, p, calls', again.rest, i.serve(calls').body.challenge.value);
      }
    }
  }

  /** A confirmation answered with an empty access token: a session is held that reads back as none. */
  lemma ConfirmCanHoldHalfAPair(p: Person, pending: string, code: string)
    requires p.envTotp == "" && Strings.TrimSpace(code) != ""
    ensures var half := Session("s", "", 0, Token(0, 0), 0);
            var i := Installation(_ => Answer(false, Body(None, None, Some(Confirmation(None, Some(half))))), _ => 0);
            && WindsDown(i)
            && ConfirmRun(i, p, pending, [code]).end == Finished(half) && !Complete(half)
  {}

  // ---------------------------------------------------------------- an honest installation

  /** One step an installation owes. */
  datatype Step = Step(methods: seq<Offer>, terms: Option<Terms>)

  /** The steps in order, the pending credential each is minted, and the pair at the end. */
  datatype Plan = Plan(steps: seq<Step>, pending: nat -> string, pair: Session)

  predicate Right(s: Step, pending: string, r: Request) {
    match r
    case Start(_) => false
    case Confirm(_, _) => false
    case Verify(p, recovery, _) => p == pending && (if recovery then RECOVERY else TOTP) in s.methods
    case SetPassword(p, _) => p == pending && PASSWORD_CHANGE in s.methods
    case Agree(p, terms) => p == pending && TERMS in s.methods && s.terms == Some(terms)
  }

  /** How many steps the requests have passed; none where one of them was refused. */
  function Passed(plan: Plan, calls: seq<Request>): (n: Option<nat>)
    ensures n.Some? ==> calls != [] && n.value <= |plan.steps| && n.value == |calls| - 1
  {
    if calls == [] then None
    else if |calls| == 1 then (if calls[0].Start? then Some(0) else None)
    else
      var before := Passed(plan, calls[..|calls| - 1]);
      if before.Some? && before.value < |plan.steps|
         && Right(plan.steps[before.value], plan.pending(before.value), calls[|calls| - 1])
      then Some(before.value + 1) else None
  }

  function Owing(plan: Plan, n: nat): Challenge
    requires n < |plan.steps|
  {
    Challenge(plan.pending(n), plan.steps[n].methods, plan.steps[n].terms)
  }

  function Served(plan: Plan, calls: seq<Request>): Reply {
    var n := Passed(plan, calls);
    if n.None? then NoReply
    else if n.value < |plan.steps| then Answer(true, Body(Some(Owing(plan, n.value)), Some(NO_SESSION), None))
    else Answer(false, Body(None, Some(plan.pair), None))
  }

  function StepsLeft(plan: Plan, calls: seq<Request>): nat {
    if calls == [] then |plan.steps| + 1
    else
      var n := Passed(plan, calls);
      if n.None? then 0 else |plan.steps| - n.value
  }

  function Honest(plan: Plan): Installation {
    Installation(calls => Served(plan, calls), calls => StepsLeft(plan, calls))
  }

  lemma HonestWindsDown(plan: Plan)
    ensures WindsDown(Honest(plan))
  {
    forall calls, r | SaysOwing(Honest(plan), calls + [r])
      ensures StepsLeft(plan, calls + [r]) < StepsLeft(plan, calls)
    {
      assert (calls + [r])[..|calls + [r]| - 1] == calls;
    }
  }

  predicate CodeFirst(plan: Plan) { plan.steps != [] && AsksCode(Owing(plan, 0)) }

  /** From step `n` on every step is a change of the password, but the last may be the terms, named. */
  predicate Answerable(plan: Plan, n: nat) {
    forall i | n <= i < |plan.steps| ::
      if TERMS in plan.steps[i].methods then i == |plan.steps| - 1 && plan.steps[i].terms.Some?
      else PASSWORD_CHANGE in plan.steps[i].methods
  }

  /** A line that is there, and not blank. */
  predicate Says(lines: seq<string>, k: nat) { k < |lines| && Strings.TrimSpace(lines[k]) != "" }

  /** The lines answer step `i`: yes to the terms, or one new password typed twice. */
  predicate AnswersStep(plan: Plan, p: Person, lines: seq<string>, n: nat, i: nat)
    requires n <= i < |plan.steps|
  {
    var k := 2 * (i - n);
    if TERMS in plan.steps[i].methods then p.agrees || (Says(lines, k) && IsYes(Strings.TrimSpace(lines[k])))
    else Says(lines, k) && Says(lines, k + 1) && Strings.TrimSpace(lines[k]) == Strings.TrimSpace(lines[k + 1])
  }

  /** The lines answer every step from `n` on, two to each but the terms. */
  predicate AnswersFrom(plan: Plan, p: Person, lines: seq<string>, n: nat) {
    forall i | n <= i < |plan.steps| :: AnswersStep(plan, p, lines, n, i)
  }

  lemma AnswersOneThenTheRest(plan: Plan, p: Person, lines: seq<string>, n: nat)
    requires n < |plan.steps| && |lines| >= 2
    ensures AnswersFrom(plan, p, lines, n)
       <==> AnswersStep(plan, p, lines, n, n) && AnswersFrom(plan, p, lines[2..], n + 1)
  {
    var rest, next := lines[2..], n + 1;
    forall i | next <= i < |plan.steps|
      ensures AnswersStep(plan, p, lines, n, i) == AnswersStep(plan, p, rest, next, i)
    {
      var k := 2 * (i - next);
      assert k < |rest| ==> rest[k] == lines[k + 2];
      assert k + 1 < |rest| ==> rest[k + 1] == lines[k + 3];
    }
    if AnswersStep(plan, p, lines, n, n) && AnswersFrom(plan, p, rest, next) {
      forall i | n <= i < |plan.steps| ensures AnswersStep(plan, p, lines, n, i) {
        if i > n { assert AnswersStep(plan, p, rest, next, i); }
      }
    }
    if AnswersFrom(plan, p, lines, n) {
      forall i | next <= i < |plan.steps| ensures AnswersStep(plan, p, rest, next, i) {
        assert AnswersStep(plan, p, lines, n, i);
      }
    }
  }

  lemma AnswerableOneThenTheRest(plan: Plan, n: nat)
    requires n < |plan.steps|
    ensures TERMS !in plan.steps[n].methods ==>
              (Answerable(plan, n) <==> PASSWORD_CHANGE in plan.steps[n].methods && Answerable(plan, n + 1))
    ensures TERMS in plan.steps[n].methods ==>
              (Answerable(plan, n) <==> n == |plan.steps| - 1 && plan.steps[n].terms.Some?)
  {}

  /** A change of the password: the two lines it reads are one new password, or the run stops there. */
  lemma TypesTwice(lines: seq<string>)
    ensures var chosen := Read("", lines); var again := Read("", chosen.rest);
            && (chosen.text.Some? && again.text.Some? && chosen.text == again.text
                <==> Says(lines, 0) && Says(lines, 1) && Strings.TrimSpace(lines[0]) == Strings.TrimSpace(lines[1]))
            && (Says(lines, 0) && Says(lines, 1) ==>
                  again.rest == lines[2..] && again.text == Some(Strings.TrimSpace(lines[1])))
  {
    if |lines| >= 2 { assert lines[1..][1..] == lines[2..]; }
  }

  /** Whoever types whatever, the steps from `n` on end in the pair exactly where each can be answered and is. */
  lemma {:induction false} OwedReaches(plan: Plan, p: Person, calls: seq<Request>, lines: seq<string>, n: nat)
    requires Complete(plan.pair) && Passed(plan, calls) == Some(n) && n < |plan.steps|
    ensures WindsDown(Honest(plan))
    ensures var end := OwedRun(Honest(plan), p, calls, lines, Owing(plan, n)).end;
            && (end.Finished? ==> end.session == plan.pair)
            && (end.Finished? <==> Answerable(plan, n) && AnswersFrom(plan, p, lines, n))
    decreases |plan.steps| - n
  {
    HonestWindsDown(plan);
    AnswerableOneThenTheRest(plan, n);
    if TERMS in Owing(plan, n).methods {
      TermsReach(plan, p, calls, lines, n);
    } else if PASSWORD_CHANGE in Owing(plan, n).methods {
      TypesTwice(lines);
      if AnswersStep(plan, p, lines, n, n) {
        ChangeReaches(plan, p, calls, lines, n);
        AnswersOneThenTheRest(plan, p, lines, n);
        if n + 1 < |plan.steps| {
          var change := SetPassword(Owing(plan, n).pending, Strings.TrimSpace(lines[1]));
          OwedReaches(plan, p, calls + [change], lines[2..], n + 1);
        }
      }
    }
  }

  lemma TermsReach(plan: Plan, p: Person, calls: seq<Request>, lines: seq<string>, n: nat)
    requires Complete(plan.pair) && Passed(plan, calls) == Some(n) && n < |plan.steps| && TERMS in plan.steps[n].methods
    ensures var end := TermsRun(Honest(plan), p, calls, lines, Owing(plan, n)).end;
            && (end.Finished? ==> end.session == plan.pair)
            && (end.Finished?
                <==> n == |plan.steps| - 1 && plan.steps[n].terms.Some? && AnswersStep(plan, p, lines, n, n))
  {
    var c := Owing(plan, n);
    if c.terms.Some? { PassesOn(plan, calls, Agree(c.pending, c.terms.value), n); }
  }

  /** A new password typed twice is accepted, and the run is at the next step, or at the pair. */
  lemma ChangeReaches(plan: Plan, p: Person, calls: seq<Request>, lines: seq<string>, n: nat)
    requires Complete(plan.pair) && Passed(plan, calls) == Some(n) && n < |plan.steps|
    requires TERMS !in plan.steps[n].methods && PASSWORD_CHANGE in plan.steps[n].methods
    requires AnswersStep(plan, p, lines, n, n)
    ensures WindsDown(Honest(plan))
    ensures var change := SetPassword(Owing(plan, n).pending, Strings.TrimSpace(lines[1]));
            var run := OwedRun(Honest(plan), p, calls, lines, Owing(plan, n));
            && Passed(plan, calls + [change]) == Some(n + 1)
            && if n + 1 < |plan.steps| then
                 run.end == OwedRun(Honest(plan), p, calls + [change], lines[2..], Owing(plan, n + 1)).end
               else run.end == Finished(plan.pair)
  {
    HonestWindsDown(plan);
    TypesTwice(lines);
    PassesOn(plan, calls, SetPassword(Owing(plan, n).pending, Strings.TrimSpace(lines[1])), n);
  }

  lemma PassesOn(plan: Plan, calls: seq<Request>, r: Request, n: nat)
    requires Passed(plan, calls) == Some(n) && n < |plan.steps| && Right(plan.steps[n], plan.pending(n), r)
    ensures Passed(plan, calls + [r]) == Some(n + 1)
  {
    assert (calls + [r])[..|calls + [r]| - 1] == calls;
  }

  /** The first step is one this client and this person can take. */
  predicate CanFinish(plan: Plan, p: Person, lines: seq<string>) {
    if CodeFirst(plan) then
      var code := Read(if p.recovery then "" else p.envTotp, lines);
      && (if p.recovery then RECOVERY else TOTP) in plan.steps[0].methods
      && code.text.Some? && Answerable(plan, 1) && AnswersFrom(plan, p, code.rest, 1)
    else Answerable(plan, 0) && AnswersFrom(plan, p, lines, 0)
  }

  /**
   Whoever signs in, whatever they type: the sign-in finishes exactly where the owed steps are a code
   first if anywhere (of the kind the person was told to give), then changes of the password, then at
   most the named terms as the very last, and every question asked on the way is answered.
   */
  lemma FinishesIffAnswerable(plan: Plan, p: Person, lines: seq<string>)
    requires Complete(plan.pair)
    ensures WindsDown(Honest(plan))
    ensures var end, password := SignInRun(Honest(plan), p, lines).end, Read(p.envPassword, lines);
            && (end.Finished? ==> end.session == plan.pair)
            && (end.Finished? <==> password.text.Some? && CanFinish(plan, p, password.rest))
  {
    HonestWindsDown(plan);
    var password := Read(p.envPassword, lines);
    if password.text.Some? {
      var calls := [Start(password.text.value)];
      assert Passed(plan, calls) == Some(0);
      if plan.steps != [] { SecondReaches(plan, p, calls, password.rest); }
    }
  }

  /**
   Terms with a step behind them are the end of it: whatever the person says and types, the sign-in does
   not finish, unless a code is asked for instead.
   */
  lemma NothingFollowsTheTerms(plan: Plan, p: Person, lines: seq<string>, n: nat)
    requires Complete(plan.pair) && n + 1 < |plan.steps| && TERMS in plan.steps[n].methods
    requires n == 0 ==> !AsksCode(Owing(plan, 0))
    ensures WindsDown(Honest(plan))
    ensures !SignInRun(Honest(plan), p, lines).end.Finished?
  {
    FinishesIffAnswerable(plan, p, lines);
    assert TERMS in plan.steps[n].methods && n != |plan.steps| - 1;
    assert !Answerable(plan, 0) && (n > 0 ==> !Answerable(plan, 1));
  }

  /** So nobody finishes a sign-in that owes the named terms and then a change of the password. */
  lemma AChangeOwedAfterTheTerms(p: Person, lines: seq<string>, terms: Terms, pending: nat -> string, pair: Session)
    requires Complete(pair)
    ensures var plan := Plan([Step([TERMS], Some(terms)), Step([PASSWORD_CHANGE], None)], pending, pair);
            WindsDown(Honest(plan)) && !SignInRun(Honest(plan), p, lines).end.Finished?
  {
    var plan := Plan([Step([TERMS], Some(terms)), Step([PASSWORD_CHANGE], None)], pending, pair);
    NothingFollowsTheTerms(plan, p, lines, 0);
  }

  lemma SecondReaches(plan: Plan, p: Person, calls: seq<Request>, lines: seq<string>)
    requires Complete(plan.pair) && plan.steps != [] && Passed(plan, calls) == Some(0)
    ensures WindsDown(Honest(plan)) && SaysOwing(Honest(plan), calls)
    ensures var end := SecondRun(Honest(plan), p, calls, lines).end;
            (end.Finished? ==> end.session == plan.pair) && (end.Finished? <==> CanFinish(plan, p, lines))
  {
    HonestWindsDown(plan);
    var c := Owing(plan, 0);
    if !AsksCode(c) {
      OwedReaches(plan, p, calls, lines, 0);
    } else {
      var code := Read(if p.recovery then "" else p.envTotp, lines);
      if code.text.Some? { CodeReaches(plan, p, calls, code.text.value, code.rest); }
    }
  }

  /** The code sent: refused where that kind is not offered, and otherwise past the first step. */
  lemma CodeReaches(plan: Plan, p: Person, calls: seq<Request>, code: string, rest: seq<string>)
    requires Complete(plan.pair) && plan.steps != [] && Passed(plan, calls) == Some(0)
    ensures WindsDown(Honest(plan))
    ensures var i, calls' := Honest(plan), calls + [Verify(Owing(plan, 0).pending, p.recovery, code)];
            var end := if SaysOwing(i, calls') then FurtherRun(i, p, calls', rest).end else Ended(i, calls', rest).end;
            && (end.Finished? ==> end.session == plan.pair)
            && (end.Finished?
                <==> (if p.recovery then RECOVERY else TOTP) in plan.steps[0].methods
                     && Answerable(plan, 1) && AnswersFrom(plan, p, rest, 1))
  {
    HonestWindsDown(plan);
    var verify := Verify(Owing(plan, 0).pending, p.recovery, code);
    assert (calls + [verify])[..|calls + [verify]| - 1] == calls;
    if Right(plan.steps[0], plan.pending(0), verify) && |plan.steps| > 1 {
      OwedReaches(plan, p, calls + [verify], rest, 1);
    }
  }
}
