/**
 The stored profile (`cmd/hubctl/Profile.go`): what it holds, how it is read and resolved, and
 the write through a temporary file that a crash can interrupt anywhere.
 */
module Profiles {
  import opened Wrappers

  /** A refresh token, as the family of the sign-in it belongs to and its place in the rotation. */
  datatype Token = NoToken | Token(family: nat, serial: nat)

  datatype Session = Session(
    id: string, access: string, accessExpires: int, refresh: Token, refreshExpires: int)

  const NO_SESSION := Session("", "", 0, NoToken, 0)

  datatype Profile = Profile(
    baseUrl: string, token: string, tenant: string, session: Session, device: string, clock: string, cursor: string)

  const NO_PROFILE := Profile("", "", "", NO_SESSION, "", "", "")

  predicate IsEmpty(s: Session) { s.access == "" }

  /** What travels on a call: the session's access token where there is a session, else the personal token. */
  function Credential(p: Profile): string { if !IsEmpty(p.session) then p.session.access else p.token }

  /** One minute, in nanoseconds. */
  const REFRESH_MARGIN := 60_000_000_000

  predicate RefreshDue(s: Session, now: int) { s.refresh != NoToken && now >= s.accessExpires - REFRESH_MARGIN }

  // ---------------------------------------------------------------- the file

  /** The shape on disk: a session is there or it is not. */
  datatype Stored = Stored(
    baseUrl: string, token: string, tenant: string, session: Option<Session>,
    device: string, clock: string, cursor: string)

  /** A file: none, bytes no profile reads from, or a whole profile. */
  datatype File = Absent | Torn | Whole(stored: Stored)

  function Encode(p: Profile): Stored {
    var session := if IsEmpty(p.session) then None else Some(p.session);
    Stored(p.baseUrl, p.token, p.tenant, session, p.device, p.clock, p.cursor)
  }

  function Decode(s: Stored): Profile {
    var session := if s.session.Some? then s.session.value else NO_SESSION;
    Profile(s.baseUrl, s.token, s.tenant, session, s.device, s.clock, s.cursor)
  }

  /** `LoadProfile`: no file is nobody signed in, not an error. */
  function Load(f: File): Option<Profile> {
    match f
    case Absent => Some(NO_PROFILE)
    case Torn => None
    case Whole(stored) => Some(Decode(stored))
  }

  function FileAt(files: map<string, File>, path: string): File { if path in files then files[path] else Absent }

  /** What saving keeps of a profile: a session without an access token reads as none. */
  function Kept(p: Profile): Profile { if IsEmpty(p.session) then p.(session := NO_SESSION) else p }

  /** `ResolveProfile`: the environment over the file, the flag over both; no address is no profile at all. */
  function Resolved(f: File, envToken: string, envTenant: string, flagUrl: string, envUrl: string,
                    normalise: string -> Option<string>): Option<Profile>
  {
    var loaded := Load(f);
    if loaded.None? then None
    else
      var p := loaded.value;
      var p := if envToken != "" then p.(token := envToken, session := NO_SESSION) else p;
      var p := if envTenant != "" then p.(tenant := envTenant) else p;
      var p := if flagUrl != "" then p.(baseUrl := flagUrl) else if envUrl != "" then p.(baseUrl := envUrl) else p;
      if p.baseUrl == "" then Some(NO_PROFILE)
      else
        var url := normalise(p.baseUrl);
        if url.None? then None else Some(p.(baseUrl := url.value))
  }

  // ---------------------------------------------------------------- the write, step by step

  /** The steps of `SaveProfile`: directory, temporary file, its mode, half its bytes, all of them, close, rename. */
  const STEPS := 7

  /**
   The files once `n` of the steps are done. Whatever `n`, the profile's path reads as the whole old
   profile or as the whole new one, the new one exactly from the rename on.
   */
  function AfterSteps(
    files: map<string, File>, path: string, temp: string, p: Profile, n: nat): (after: map<string, File>)
    requires temp != path && temp !in files
    ensures Load(FileAt(after, path)) == if n < STEPS then Load(FileAt(files, path)) else Some(Kept(p))
    ensures forall other | other != path && other != temp :: FileAt(after, other) == FileAt(files, other)
  {
    if n < 2 then files
    else if n < 5 then files[temp := Torn]
    else if n < STEPS then files[temp := Whole(Encode(p))]
    else (files - {temp})[path := Whole(Encode(p))]
  }

  /** Nothing goes wrong, step `at` reports an error, or the process dies after `steps` of them. */
  datatype Fault = NoFault | FailsAt(at: nat) | DiesAfter(steps: nat)

  datatype SaveEnd = Replaced | Reported | Interrupted

  class Disk {
    var files: map<string, File>

    /**
     `temp` is the name `os.CreateTemp` answers, which no file has. The deferred removal of the
     temporary file runs on every way out but a crash.
     */
    method SaveProfile(path: string, temp: string, p: Profile, fault: Fault) returns (end: SaveEnd)
      requires temp != path && temp !in files
      modifies this
      ensures end == match fault
                     case NoFault => Replaced
                     case FailsAt(at) => if at < STEPS then Reported else Replaced
                     case DiesAfter(steps) => if steps < STEPS then Interrupted else Replaced
      ensures files == match end
                       case Replaced => old(files)[path := Whole(Encode(p))]
                       case Reported => old(files)
                       case Interrupted => AfterSteps(old(files), path, temp, p, fault.steps)
    {
      ghost var before := files;
      for step := 0 to STEPS
        invariant files == AfterSteps(before, path, temp, p, step)
        invariant fault.FailsAt? ==> step <= fault.at
        invariant fault.DiesAfter? ==> step <= fault.steps
      {
        if fault == DiesAfter(step) {
          return Interrupted;
        }
        if fault == FailsAt(step) {
          files := files - {temp};
          assert files == before;
          return Reported;
        }
        match step
        case 1 => files := files[temp := Torn];
        case 4 => files := files[temp := Whole(Encode(p))];
        case 6 =>
          var written := files[temp];
          files := (files - {temp})[path := written];
        case _ =>
      }
      assert (before - {temp}) == before;
      end := Replaced;
    }
  }

  /** What was saved is what is read: a second save of it changes nothing more. */
  lemma LoadAfterSave(p: Profile)
    ensures Load(Whole(Encode(p))) == Some(Kept(p))
    ensures Encode(Kept(p)) == Encode(p)
    ensures Credential(Kept(p)) == Credential(p)
  {}
}
