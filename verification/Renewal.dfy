/**
 The credential protocol over many invocations of hubctl (`cmd/hubctl/Login.go`, `Command.go`,
 `Session.go`, `Auth.go`): load and resolve the profile, renew the session before anything else
 runs, run one command, with the process free to die and every read or write of the profile free
 to fail. The server retires a refresh token as it exchanges it, and ends the whole family when a
 retired one comes back.
 */
module Renewal {
  import opened Wrappers
  import opened Profiles

  // ---------------------------------------------------------------- the server

  /** One sign-in's tokens: which serial is good, whether the family lives, whether reuse ended it. */
  datatype Family = Family(current: nat, alive: bool, reused: bool)

  type Families = seq<Family>

  predicate Known(fs: Families, t: Token) { t.Token? && t.family < |fs| }

  predicate IsRetired(fs: Families, t: Token) { Known(fs, t) && t.serial < fs[t.family].current }

  predicate IsGood(fs: Families, t: Token) {
    Known(fs, t) && fs[t.family].alive && t.serial == fs[t.family].current
  }

  /**
   What happened that matters to the rotation, in order: a token presented, the server rotating one,
   and a write of the profile taking effect, with the refresh token the file holds from then on.
   */
  datatype Event = Presented(token: Token, retired: bool) | Rotated(token: Token) | Wrote(held: Token)

  /** A request's way: never sent, refused whatever it carries, carried out with the answer lost, or answered. */
  datatype Net =
    | Unsent | Declined | Lost
    | Answered(id: string, access: string, accessExpires: int, refreshExpires: int)

  // ---------------------------------------------------------------- one process

  /** A write of the profile: done, failed, or the process dying with it or without it in effect. */
  datatype Write = Done | Failed | Dies(effective: bool)

  /** The world and the process in it: the profile file, the server, what happened, and the profile in memory. */
  datatype State = State(disk: File, families: Families, trace: seq<Event>, profile: Profile, running: bool)

  /** What goes wrong in one renewal: the exchange, and each read and write of the profile around it. */
  datatype Faults = Faults(net: Net, reload: bool, save: Write, forgetReload: bool, forgetSave: Write)

  /** The refresh token a profile file holds. */
  function HeldToken(f: File): Token {
    if f.Whole? && f.stored.session.Some? then f.stored.session.value.refresh else NoToken
  }

  /** A write of the profile file taking effect, or not. */
  function Put(s: State, f: File, w: Write): State {
    var written := s.(disk := f, trace := s.trace + [Wrote(HeldToken(f))]);
    var s' := if w.Done? || (w.Dies? && w.effective) then written else s;
    if w.Dies? then s'.(running := false) else s'
  }

  function Save(s: State, p: Profile, w: Write): State { Put(s, Whole(Encode(p)), w) }

  /** `forgetSession`: dropped in memory, and on disk where the profile can be read and written. */
  function Forgotten(s: State, reload: bool, w: Write): State {
    var dropped := s.(profile := s.profile.(session := NO_SESSION));
    var stored := if reload then Load(s.disk) else None;
    if stored.None? then dropped else Save(dropped, stored.value.(session := NO_SESSION), w)
  }

  /**
   The exchange as the server sees it: the token presented, rotated where it is good, fatal where it is
   retired, and nothing where it is refused before the token is looked at.
   */
  function Exchanged(s: State, t: Token, net: Net): State {
    if net.Unsent? then s
    else
      var presented := s.(trace := s.trace + [Presented(t, IsRetired(s.families, t))]);
      if IsRetired(s.families, t) && !net.Declined? then
        var f := s.families[t.family];
        presented.(families := s.families[t.family := f.(alive := false, reused := true)])
      else if IsGood(s.families, t) && !net.Declined? then
        var f := s.families[t.family];
        presented.(families := s.families[t.family := f.(current := f.current + 1)],
                   trace := presented.trace + [Rotated(t)])
      else presented
  }

  predicate Granted(s: State, t: Token, net: Net) { net.Answered? && IsGood(s.families, t) }

  function NextSession(t: Token, net: Net): Session
    requires t.Token? && net.Answered?
  {
    Session(net.id, net.access, net.accessExpires, Token(t.family, t.serial + 1), net.refreshExpires)
  }

  /**
   `renewSession`, `exchangeRefresh` within it: the new pair is written before it is used, or the
   session forgotten.
   */
  function Renewed(s: State, now: int, f: Faults): State {
    var session := s.profile.session;
    if IsEmpty(session) || !RefreshDue(session, now) then s
    else
      var asked := Exchanged(s, session.refresh, f.net);
      var stored := if f.reload then Load(asked.disk) else None;
      if !Granted(s, session.refresh, f.net) || stored.None? then Forgotten(asked, f.forgetReload, f.forgetSave)
      else
        var next := NextSession(session.refresh, f.net);
        var saved := Save(asked, stored.value.(session := next), f.save);
        if f.save.Done? then saved.(profile := saved.profile.(session := next))
        else if f.save.Failed? then Forgotten(saved, f.forgetReload, f.forgetSave)
        else saved
  }

  // ---------------------------------------------------------------- the commands, by what they touch

  datatype Command =
    | Call                                                   // any command that only calls with the credential
    | SignIn(url: string, tenant: string, net: Net, save: Write)
    | EnrolmentOwed(url: string, tenant: string, save: Write)
    | AuthLogin(url: string, token: string, verified: bool, save: Write)
    | AuthLogout(removal: Write)
    | Revoke(ended: set<nat>, end: Revocation, own: bool, reload: bool, save: Write)
    | Sync(saves: seq<SyncSave>)

  /** A revocation: refused, carried out with its answer lost, or carried out and answered. */
  datatype Revocation = Refused | Unheard | Heard

  /** One save of a sync: the device it acts as, its clock and its cursor by then. */
  datatype SyncSave = SyncSave(device: string, clock: string, cursor: string, save: Write)

  /** A sync saves the profile it loaded as it goes along; a save that fails is its end. */
  function Synced(s: State, saves: seq<SyncSave>): State
    decreases |saves|
  {
    if saves == [] then s
    else
      var p := s.profile.(device := saves[0].device, clock := saves[0].clock, cursor := saves[0].cursor);
      var saved := Save(s.(profile := p), p, saves[0].save);
      if saves[0].save.Done? then Synced(saved, saves[1..]) else saved
  }

  function Ended(fs: Families, ended: set<nat>): (out: Families)
    ensures |out| == |fs| && forall i | 0 <= i < |fs| ::
              out[i].current == fs[i].current && out[i].reused == fs[i].reused
  {
    seq(|fs|, i requires 0 <= i < |fs| => if i in ended then fs[i].(alive := false) else fs[i])
  }

  /** What a finished sign-in holds: the first pair of a family of its own. */
  function FirstSession(family: nat, net: Net): Session
    requires net.Answered?
  {
    Session(net.id, net.access, net.accessExpires, Token(family, 0), net.refreshExpires)
  }

  function Dispatched(s: State, c: Command): State {
    match c
    case Call => s
    case SignIn(url, tenant, net, w) =>
      if net.Unsent? || net.Declined? then s
      else
        var minted := s.(families := s.families + [Family(0, true, false)]);
        if net.Lost? then minted
        else
          var p := Profile(url, "", tenant, FirstSession(|s.families|, net), "", "", "");
          var saved := Save(minted, p, w);
          if w.Done? then saved.(profile := p) else saved
    case EnrolmentOwed(url, tenant, w) =>
      var p := NO_PROFILE.(baseUrl := url, tenant := tenant);
      var saved := Save(s, p, w);
      if w.Done? then saved.(profile := p) else saved
    case AuthLogin(url, token, verified, w) =>
      if !verified then s else Save(s, NO_PROFILE.(baseUrl := url, token := token), w)
    case AuthLogout(w) => Put(s, Absent, w)
    case Revoke(ended, end, own, reload, w) =>
      if end.Refused? then s
      else
        var over := s.(families := Ended(s.families, ended));
        if own && end.Heard? then Forgotten(over, reload, w) else over
    case Sync(saves) => Synced(s, saves)
  }

  /** One invocation: the shell it is called from, what goes wrong, and the command. */
  datatype Invocation = Invocation(
    envToken: string, envTenant: string, flagUrl: string, envUrl: string, normalise: string -> Option<string>,
    readable: bool, now: int, faults: Faults, command: Command)

  function Prepared(s: State, i: Invocation): Option<State> {
    var p := if i.readable then Resolved(s.disk, i.envToken, i.envTenant, i.flagUrl, i.envUrl, i.normalise) else None;
    if p.None? then None else Some(s.(profile := p.value, running := true))
  }

  /** The state in which the command is dispatched, where the invocation gets that far. */
  function AtDispatch(s: State, i: Invocation): Option<State> {
    var ready := Prepared(s, i);
    if ready.None? then None
    else
      var renewed := Renewed(ready.value, i.now, i.faults);
      if renewed.running then Some(renewed) else None
  }

  function Invoked(s: State, i: Invocation): State {
    var ready := Prepared(s, i);
    if ready.None? then s
    else
      var renewed := Renewed(ready.value, i.now, i.faults);
      if renewed.running then Dispatched(renewed, i.command) else renewed
  }

  function InvokedAll(s: State, runs: seq<Invocation>): State {
    if runs == [] then s else Invoked(InvokedAll(s, runs[..|runs| - 1]), runs[|runs| - 1])
  }

  const FRESH := State(Absent, [], [], NO_PROFILE, false)

  // ---------------------------------------------------------------- the object

  /** One process of hubctl against the profile file and the server. */
  class Cli {
    var disk: File
    var families: Families
    var trace: seq<Event>
    var profile: Profile
    var running: bool

    ghost function Now(): State reads this { State(disk, families, trace, profile, running) }

    method SaveProfile(p: Profile, w: Write) returns (ok: bool)
      modifies this`disk, this`trace, this`running
      ensures Now() == Save(old(Now()), p, w) && ok == w.Done?
    {
      if w.Done? || (w.Dies? && w.effective) {
        disk := Whole(Encode(p));
        trace := trace + [Wrote(HeldToken(disk))];
      }
      if w.Dies? {
        running := false;
      }
      ok := w.Done?;
    }

    method ForgetSession(reload: bool, w: Write)
      modifies this
      ensures Now() == Forgotten(old(Now()), reload, w)
    {
      profile := profile.(session := NO_SESSION);
      var stored := if reload then Load(disk) else None;
      if stored.None? {
        return;
      }
      var _ := SaveProfile(stored.value.(session := NO_SESSION), w);
    }

    /** The server's half of the exchange. */
    method Present(t: Token, net: Net) returns (granted: bool)
      modifies this`families, this`trace
      ensures Now() == Exchanged(old(Now()), t, net) && granted == Granted(old(Now()), t, net)
    {
      granted := net.Answered? && IsGood(families, t);
      if net.Unsent? {
        return;
      }
      trace := trace + [Presented(t, IsRetired(families, t))];
      if IsRetired(families, t) && !net.Declined? {
        families := families[t.family := families[t.family].(alive := false, reused := true)];
      } else if IsGood(families, t) && !net.Declined? {
        families := families[t.family := families[t.family].(current := families[t.family].current + 1)];
        trace := trace + [Rotated(t)];
      }
    }

    /** The next pair, once it is stored. */
    method ExchangeRefresh(session: Session, f: Faults) returns (renewed: Option<Session>)
      modifies this
      ensures var asked := Exchanged(old(Now()), session.refresh, f.net);
              var stored := if f.reload then Load(asked.disk) else None;
              if !Granted(old(Now()), session.refresh, f.net) || stored.None? then Now() == asked && renewed == None
              else
                var next := NextSession(session.refresh, f.net);
                Now() == Save(asked, stored.value.(session := next), f.save)
                && renewed == if f.save.Done? then Some(next) else None
    {
      var granted := Present(session.refresh, f.net);
      if !granted {
        return None;
      }
      var next := NextSession(session.refresh, f.net);
      var stored := if f.reload then Load(disk) else None;
      if stored.None? {
        return None;
      }
      var ok := SaveProfile(stored.value.(session := next), f.save);
      renewed := if ok then Some(next) else None;
    }

    method RenewSession(now: int, f: Faults)
      requires running
      modifies this
      ensures Now() == Renewed(old(Now()), now, f)
    {
      var session := profile.session;
      if IsEmpty(session) || !RefreshDue(session, now) {
        return;
      }
      var renewed := ExchangeRefresh(session, f);
      if !running {
        return;
      }
      if renewed.None? {
        ForgetSession(f.forgetReload, f.forgetSave);
        return;
      }
      profile := profile.(session := renewed.value);
    }

    method Run(i: Invocation)
      modifies this
      ensures Now() == Invoked(old(Now()), i)
    {
      var p := if i.readable then Resolved(disk, i.envToken, i.envTenant, i.flagUrl, i.envUrl, i.normalise) else None;
      if p.None? {
        return;
      }
      profile, running := p.value, true;
      RenewSession(i.now, i.faults);
      if running {
        Dispatch(i.command);
      }
    }

    method HoldSession(url: string, tenant: string, session: Session, w: Write)
      modifies this
      ensures var p := Profile(url, "", tenant, session, "", "", "");
              Now() == if w.Done? then Save(old(Now()), p, w).(profile := p) else Save(old(Now()), p, w)
    {
      var p := Profile(url, "", tenant, session, "", "", "");
      var ok := SaveProfile(p, w);
      if ok {
        profile := p;
      }
    }

    method Dispatch(c: Command)
      modifies this
      ensures Now() == Dispatched(old(Now()), c)
    {
      match c
      case Call =>
      case SignIn(url, tenant, net, w) =>
        if net.Unsent? || net.Declined? {
          return;
        }
        families := families + [Family(0, true, false)];
        if net.Answered? {
          HoldSession(url, tenant, FirstSession(|families| - 1, net), w);
        }
      case EnrolmentOwed(url, tenant, w) =>
        var p := NO_PROFILE.(baseUrl := url, tenant := tenant);
        var ok := SaveProfile(p, w);
        if ok {
          profile := p;
        }
      case AuthLogin(url, token, verified, w) =>
        if verified {
          var _ := SaveProfile(NO_PROFILE.(baseUrl := url, token := token), w);
        }
      case AuthLogout(w) =>
        if w.Done? || (w.Dies? && w.effective) {
          disk := Absent;
          trace := trace + [Wrote(NoToken)];
        }
        if w.Dies? {
          running := false;
        }
      case Revoke(ended, end, own, reload, w) =>
        if end.Refused? {
          return;
        }
        families := Ended(families, ended);
        if own && end.Heard? {
          ForgetSession(reload, w);
        }
      case Sync(saves) => SyncAll(saves);
    }

    method SyncAll(saves: seq<SyncSave>)
      modifies this
      ensures Now() == Synced(old(Now()), saves)
    {
      ghost var before := Now();
      var ok, i := true, 0;
      while ok && i < |saves|
        invariant i <= |saves|
        invariant Synced(before, saves) == if ok then Synced(Now(), saves[i..]) else Now()
      {
        assert saves[i..][1..] == saves[i + 1..];
        profile := profile.(device := saves[i].device, clock := saves[i].clock, cursor := saves[i].cursor);
        ok := SaveProfile(profile, saves[i].save);
        i := i + 1;
      }
    }
  }
}
