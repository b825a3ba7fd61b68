/**
 The sign-in of a person (`cmd/hubctl/Login.go`, the end of `Mfa.go`): a password, and then every
 step the installation says is still owed - a code, a new password, the terms of use - until it
 answers a pair of tokens, or a step this client cannot answer.
 */
module SignIn {
  import opened Wrappers
  import opened Profiles
  import opened Strings

  datatype Offer = TOTP | RECOVERY | PASSKEY | ENROLL | PASSWORD_CHANGE | LINK | TERMS

  datatype Terms = Terms(url: string, version: Option<string>)

  datatype Challenge = Challenge(pending: string, methods: seq<Offer>, terms: Option<Terms>)

  datatype Confirmation = Confirmation(challenge: Option<Challenge>, tokens: Option<Session>)

  /** An answer's bytes, as whichever shape they are read in; none where they do not read as it. */
  datatype Body = Body(challenge: Option<Challenge>, pair: Option<Session>, confirmed: Option<Confirmation>)

  datatype Request =
    | Start(password: string)
    | Verify(pending: string, recovery: bool, code: string)
    | SetPassword(pending: string, password: string)
    | Agree(pending: string, terms: Terms)
    | Confirm(pending: string, code: string)

  /** `NoReply` is a refusal or no answer at all; `accepted` is the status 202. */
  datatype Reply = NoReply | Answer(accepted: bool, body: Body)

  /** The installation: what it answers to the last of the requests so far, and how many steps it says are owed then. */
  datatype Installation = Installation(serve: seq<Request> -> Reply, owes: seq<Request> -> nat)

  predicate SaysOwing(i: Installation, calls: seq<Request>) { i.serve(calls).Answer? && i.serve(calls).accepted }

  /** The steps owed strictly decrease with each step accepted. */
  ghost predicate WindsDown(i: Installation) {
    forall calls, r :: SaysOwing(i, calls + [r]) ==> i.owes(calls + [r]) < i.owes(calls)
  }

  // ---------------------------------------------------------------- the person

  datatype Person = Person(recovery: bool, agrees: bool, envPassword: string, envTotp: string)

  datatype Typed = Typed(text: Option<string>, rest: seq<string>)

  /** `readCredential`: the environment where it says something, else the next line, which must not be blank. */
  function Read(env: string, lines: seq<string>): Typed {
    if env != "" then Typed(Some(TrimSpace(env)), lines)
    else if lines == [] then Typed(None, lines)
    else if TrimSpace(lines[0]) == "" then Typed(None, lines[1..])
    else Typed(Some(TrimSpace(lines[0])), lines[1..])
  }

  /** `strings.EqualFold(answer, "yes")`; the long s folds to an s. */
  predicate IsYes(s: string) {
    && |s| == 3 && (s[0] == 'y' || s[0] == 'Y') && (s[1] == 'e' || s[1] == 'E')
    && (s[2] == 's' || s[2] == 'S' || s[2] == '\U{17f}')
  }

  // ---------------------------------------------------------------- what a sign-in does

  datatype Why = NothingGiven | Unanswered | Unreadable | HalfAPair | TypingsDiffer | TermsNotNamed | Declined

  datatype End = Finished(session: Session) | EnrolmentLeft(challenge: Challenge) | Armed | Stopped(why: Why)

  datatype Run = Run(calls: seq<Request>, lines: seq<string>, end: End)

  predicate Complete(s: Session) { s.access != "" && s.refresh != NoToken }

  /** `readSessionTokens`. */
  function PairOf(b: Body): End {
    if b.pair.None? then Stopped(Unreadable)
    else if !Complete(b.pair.value) then Stopped(HalfAPair)
    else Finished(b.pair.value)
  }

  function Ended(i: Installation, calls: seq<Request>, lines: seq<string>): Run {
    match i.serve(calls)
    case NoReply => Run(calls, lines, Stopped(Unanswered))
    case Answer(_, body) => Run(calls, lines, PairOf(body))
  }

  /** `termsOwed`. */
  function TermsRun(i: Installation, p: Person, calls: seq<Request>, lines: seq<string>, c: Challenge): Run {
    if c.terms.None? then Run(calls, lines, Stopped(TermsNotNamed))
    else
      var typed := if p.agrees then Typed(Some("yes"), lines) else Read("", lines);
      if typed.text.None? then Run(calls, typed.rest, Stopped(NothingGiven))
      else if !IsYes(typed.text.value) then Run(calls, typed.rest, Stopped(Declined))
      else Ended(i, calls + [Agree(c.pending, c.terms.value)], typed.rest)
  }

  /** `owedStep`: the terms before the change of the password, and anything else is an enrolment. */
  ghost function OwedRun(i: Installation, p: Person, calls: seq<Request>, lines: seq<string>, c: Challenge): Run
    requires WindsDown(i)
    decreases i.owes(calls), 1
  {
    if TERMS in c.methods then TermsRun(i, p, calls, lines, c)
    else if PASSWORD_CHANGE in c.methods then
      var chosen := Read("", lines);
      var again := Read("", chosen.rest);
      if chosen.text.None? then Run(calls, chosen.rest, Stopped(NothingGiven))
      else if again.text.None? then Run(calls, again.rest, Stopped(NothingGiven))
      else if chosen.text != again.text then Run(calls, again.rest, Stopped(TypingsDiffer))
      else
        var calls' := calls + [SetPassword(c.pending, chosen.text.value)];
        if SaysOwing(i, calls') then FurtherRun(i, p, calls', again.rest) else Ended(i, calls', again.rest)
    else Run(calls, lines, EnrolmentLeft(c))
  }

  /** `furtherStep`. */
  ghost function FurtherRun(i: Installation, p: Person, calls: seq<Request>, lines: seq<string>): Run
    requires WindsDown(i) && SaysOwing(i, calls)
    decreases i.owes(calls), 2
  {
    var c := i.serve(calls).body.challenge;
    if c.None? then Run(calls, lines, Stopped(Unreadable)) else OwedRun(i, p, calls, lines, c.value)
  }

  predicate AsksCode(c: Challenge) { TOTP in c.methods || RECOVERY in c.methods }

  /** `secondStep`. */
  ghost function SecondRun(i: Installation, p: Person, calls: seq<Request>, lines: seq<string>): Run
    requires WindsDown(i) && SaysOwing(i, calls)
  {
    var c := i.serve(calls).body.challenge;
    if c.None? then Run(calls, lines, Stopped(Unreadable))
    else if !AsksCode(c.value) then OwedRun(i, p, calls, lines, c.value)
    else
      var code := Read(if p.recovery then "" else p.envTotp, lines);
      if code.text.None? then Run(calls, code.rest, Stopped(NothingGiven))
      else
        var calls' := calls + [Verify(c.value.pending, p.recovery, code.text.value)];
        if SaysOwing(i, calls') then FurtherRun(i, p, calls', code.rest) else Ended(i, calls', code.rest)
  }

  /** `signIn`, from the password on. */
  ghost function SignInRun(i: Installation, p: Person, lines: seq<string>): Run
    requires WindsDown(i)
  {
    var password := Read(p.envPassword, lines);
    if password.text.None? then Run([], password.rest, Stopped(NothingGiven))
    else
      var calls := [Start(password.text.value)];
      if SaysOwing(i, calls) then SecondRun(i, p, calls, password.rest) else Ended(i, calls, password.rest)
  }

  /** `mfaConfirm`: the sign-in an enrolment was owed in goes on from here, or ends with the pair as it came. */
  ghost function ConfirmRun(i: Installation, p: Person, pending: string, lines: seq<string>): Run
    requires WindsDown(i)
  {
    var code := Read(p.envTotp, lines);
    if code.text.None? then Run([], code.rest, Stopped(NothingGiven))
    else
      var calls := [Confirm(pending, code.text.value)];
      match i.serve(calls)
      case NoReply => Run(calls, code.rest, Stopped(Unanswered))
      case Answer(_, body) =>
        if body.confirmed.None? then Run(calls, code.rest, Stopped(Unreadable))
        else if body.confirmed.value.challenge.Some? then
          OwedRun(i, p, calls, code.rest, body.confirmed.value.challenge.value)
        else if body.confirmed.value.tokens.None? then Run(calls, code.rest, Armed)
        else Run(calls, code.rest, Finished(body.confirmed.value.tokens.value))
  }

  /** The profile a run ends with: the pair with nothing beside it, an address to go on from, or none. */
  function ProfileOf(url: string, tenant: string, end: End): Option<Profile> {
    match end
    case Finished(session) => Some(Profile(url, "", tenant, session, "", "", ""))
    case EnrolmentLeft(_) => Some(NO_PROFILE.(baseUrl := url, tenant := tenant))
    case Armed => None
    case Stopped(_) => None
  }

  // ---------------------------------------------------------------- the object

  class Cli {
    const installation: Installation
    const person: Person
    const url: string
    const tenant: string
    const writable: bool      // whether the profile can be written
    var calls: seq<Request>   // what was sent
    var lines: seq<string>    // what is still to be read
    var disk: File
    var profile: Profile

    constructor (
      i: Installation, p: Person, url: string, tenant: string, writable: bool,
      lines: seq<string>, disk: File, profile: Profile)
      requires WindsDown(i)
      ensures installation == i && person == p && this.url == url && this.tenant == tenant && this.writable == writable
      ensures calls == [] && this.lines == lines && this.disk == disk && this.profile == profile
    {
      installation, person, this.url, this.tenant, this.writable := i, p, url, tenant, writable;
      calls, this.lines, this.disk, this.profile := [], lines, disk, profile;
    }

    /** The run this object has made, with the profile it ends with written where it can be. */
    ghost predicate Made(r: Run, disk': File, profile': Profile)
      reads this
    {
      var p := ProfileOf(url, tenant, r.end);
      && calls == r.calls && lines == r.lines
      && disk == (if p.Some? && writable then Whole(Encode(p.value)) else disk')
      && profile == if p.Some? && writable then p.value else profile'
    }

    method ReadCredential(env: string) returns (text: Option<string>)
      modifies this`lines
      ensures Typed(text, lines) == Read(env, old(lines))
    {
      if env != "" {
        return Some(TrimSpace(env));
      }
      if lines == [] {
        return None;
      }
      var answer := TrimSpace(lines[0]);
      lines := lines[1..];
      text := if answer == "" then None else Some(answer);
    }

    method PostStatus(r: Request) returns (reply: Reply)
      modifies this`calls
      ensures calls == old(calls) + [r] && reply == installation.serve(calls)
    {
      calls := calls + [r];
      reply := installation.serve(calls);
    }

    method Hold(p: Profile)
      modifies this`disk, this`profile
      ensures disk == (if writable then Whole(Encode(p)) else old(disk))
      ensures profile == if writable then p else old(profile)
    {
      if writable {
        disk, profile := Whole(Encode(p)), p;
      }
    }

    /** Reads the pair out of the last answer, and holds it. */
    method HoldPair(reply: Reply) returns (end: End)
      requires reply == installation.serve(calls)
      modifies this`disk, this`profile
      ensures end == Ended(installation, calls, lines).end
      ensures Made(Ended(installation, calls, lines), old(disk), old(profile))
    {
      if reply.NoReply? {
        return Stopped(Unanswered);
      }
      end := PairOf(reply.body);
      if end.Finished? {
        Hold(Profile(url, "", tenant, end.session, "", "", ""));
      }
    }

    method Login() returns (end: End)
      requires WindsDown(installation) && calls == []
      modifies this
      ensures end == SignInRun(installation, person, old(lines)).end
      ensures Made(SignInRun(installation, person, old(lines)), old(disk), old(profile))
    {
      var password := ReadCredential(person.envPassword);
      if password.None? {
        return Stopped(NothingGiven);
      }
      var reply := PostStatus(Start(password.value));
      assert calls == [Start(password.value)];
      if reply.Answer? && reply.accepted {
        end := SecondStep();
      } else {
        end := HoldPair(reply);
      }
    }

    method MfaConfirm(pending: string) returns (end: End)
      requires WindsDown(installation) && calls == []
      modifies this
      ensures end == ConfirmRun(installation, person, pending, old(lines)).end
      ensures Made(ConfirmRun(installation, person, pending, old(lines)), old(disk), old(profile))
    {
      var code := ReadCredential(person.envTotp);
      if code.None? {
        return Stopped(NothingGiven);
      }
      var reply := PostStatus(Confirm(pending, code.value));
      assert calls == [Confirm(pending, code.value)];
      if reply.NoReply? {
        return Stopped(Unanswered);
      }
      var confirmed := reply.body.confirmed;
      if confirmed.None? {
        return Stopped(Unreadable);
      }
      if confirmed.value.challenge.Some? {
        end := OwedStep(confirmed.value.challenge.value);
        return;
      }
      if confirmed.value.tokens.None? {
        return Armed;
      }
      Hold(Profile(url, "", tenant, confirmed.value.tokens.value, "", "", ""));
      end := Finished(confirmed.value.tokens.value);
    }

    method SecondStep() returns (end: End)
      requires WindsDown(installation) && SaysOwing(installation, calls)
      modifies this
      ensures end == SecondRun(installation, person, old(calls), old(lines)).end
      ensures Made(SecondRun(installation, person, old(calls), old(lines)), old(disk), old(profile))
    {
      var read := installation.serve(calls).body.challenge;
      if read.None? {
        return Stopped(Unreadable);
      }
      var challenge := read.value;
      if !AsksCode(challenge) {
        end := OwedStep(challenge);
        return;
      }
      var code := ReadCredential(if person.recovery then "" else person.envTotp);
      if code.None? {
        return Stopped(NothingGiven);
      }
      var reply := PostStatus(Verify(challenge.pending, person.recovery, code.value));
      if reply.Answer? && reply.accepted {
        end := FurtherStep();
      } else {
        end := HoldPair(reply);
      }
    }

    method FurtherStep() returns (end: End)
      requires WindsDown(installation) && SaysOwing(installation, calls)
      modifies this
      ensures end == FurtherRun(installation, person, old(calls), old(lines)).end
      ensures Made(FurtherRun(installation, person, old(calls), old(lines)), old(disk), old(profile))
      decreases installation.owes(calls), 2
    {
      var owed := installation.serve(calls).body.challenge;
      if owed.None? {
        return Stopped(Unreadable);
      }
      end := OwedStep(owed.value);
    }

    method OwedStep(challenge: Challenge) returns (end: End)
      requires WindsDown(installation)
      modifies this
      ensures end == OwedRun(installation, person, old(calls), old(lines), challenge).end
      ensures Made(OwedRun(installation, person, old(calls), old(lines), challenge), old(disk), old(profile))
      decreases installation.owes(calls), 1
    {
      if TERMS in challenge.methods {
        end := TermsOwed(challenge);
      } else if PASSWORD_CHANGE in challenge.methods {
        end := ChangeOwed(challenge);
      } else {
        Hold(NO_PROFILE.(baseUrl := url, tenant := tenant));
        end := EnrolmentLeft(challenge);
      }
    }

    method ChangeOwed(challenge: Challenge) returns (end: End)
      requires WindsDown(installation) && TERMS !in challenge.methods && PASSWORD_CHANGE in challenge.methods
      modifies this
      ensures end == OwedRun(installation, person, old(calls), old(lines), challenge).end
      ensures Made(OwedRun(installation, person, old(calls), old(lines), challenge), old(disk), old(profile))
      decreases installation.owes(calls), 0
    {
      var chosen := ReadCredential("");
      if chosen.None? {
        return Stopped(NothingGiven);
      }
      var again := ReadCredential("");
      if again.None? {
        return Stopped(NothingGiven);
      }
      if chosen != again {
        return Stopped(TypingsDiffer);
      }
      var reply := PostStatus(SetPassword(challenge.pending, chosen.value));
      if reply.Answer? && reply.accepted {
        end := FurtherStep();
      } else {
        end := HoldPair(reply);
      }
    }

    method TermsOwed(challenge: Challenge) returns (end: End)
      modifies this
      ensures end == TermsRun(installation, person, old(calls), old(lines), challenge).end
      ensures Made(TermsRun(installation, person, old(calls), old(lines), challenge), old(disk), old(profile))
    {
      if challenge.terms.None? {
        return Stopped(TermsNotNamed);
      }
      if !person.agrees {
        var answer := ReadCredential("");
        if answer.None? {
          return Stopped(NothingGiven);
        }
        if !IsYes(answer.value) {
          return Stopped(Declined);
        }
      }
      var reply := PostStatus(Agree(challenge.pending, challenge.terms.value));
      end := HoldPair(reply);
    }
  }
}
