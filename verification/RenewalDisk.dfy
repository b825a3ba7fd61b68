/**
 What an invocation takes from the profile file and leaves in it: which address, workspace and
 credential a call is made with, and what is on disk after a renewal, a revocation and every other
 command that writes.
 */
module RenewalDisk {
  import opened Wrappers
  import opened Profiles
  import opened Renewal

  // ---------------------------------------------------------------- what an invocation is made with

  /** The first of some words that says something. */
  function FirstSaid(words: seq<string>): string {
    if words == [] then "" else if words[0] != "" then words[0] else FirstSaid(words[1..])
  }

  lemma FirstOfOne(a: string)
    ensures FirstSaid([a]) == a
  {
    assert [a][1..] == [];
  }

  lemma FirstOfThree(a: string, b: string, c: string)
    ensures FirstSaid([a, b, c]) == if a != "" then a else if b != "" then b else c
    ensures FirstSaid([a, b]) == if a != "" then a else b
  {
    FirstOfOne(b);
    FirstOfOne(c);
    assert [a, b, c][1..] == [b, c] && [b, c][1..] == [c] && [a, b][1..] == [b];
    assert FirstSaid([b, c]) == if b != "" then b else c;
  }

  /**
   The flag's address before the environment's before the file's, and the environment's workspace and
   token before the file's; a token of the environment leaves no session.
   */
  lemma ResolvedReads(
    f: File, envToken: string, envTenant: string, flagUrl: string, envUrl: string,
    normalise: string -> Option<string>)
    ensures var r := Resolved(f, envToken, envTenant, flagUrl, envUrl, normalise);
            if Load(f).None? then r.None?
            else
              var stored := Load(f).value;
              var address := FirstSaid([flagUrl, envUrl, stored.baseUrl]);
              if address == "" then r == Some(NO_PROFILE)
              else if normalise(address).None? then r.None?
              else
                && r.Some? && r.value.baseUrl == normalise(address).value
                && r.value.tenant == FirstSaid([envTenant, stored.tenant])
                && r.value.token == FirstSaid([envToken, stored.token])
                && r.value.session == (if envToken == "" then stored.session else NO_SESSION)
                && (r.value.device, r.value.clock, r.value.cursor) == (stored.device, stored.clock, stored.cursor)
  {
    if Load(f).Some? {
      FirstOfThree(flagUrl, envUrl, Load(f).value.baseUrl);
      FirstOfThree(envTenant, Load(f).value.tenant, "");
      FirstOfThree(envToken, Load(f).value.token, "");
    }
  }

  /** The environment's token travels before the stored session, and that before the stored token. */
  lemma CarriedIsTheFirst(s: State, i: Invocation)
    requires Prepared(s, i).Some? && Load(s.disk).Some?
    requires FirstSaid([i.flagUrl, i.envUrl, Load(s.disk).value.baseUrl]) != ""
    ensures var stored := Load(s.disk).value;
            Credential(Prepared(s, i).value.profile) == FirstSaid([i.envToken, stored.session.access, stored.token])
  {
    var stored := Load(s.disk).value;
    ResolvedReads(s.disk, i.envToken, i.envTenant, i.flagUrl, i.envUrl, i.normalise);
    FirstOfThree(i.envToken, stored.token, "");
    FirstOfThree(i.envToken, stored.session.access, stored.token);
  }

  // ---------------------------------------------------------------- what forgetting leaves

  predicate TakesEffect(w: Write) { w.Done? || (w.Dies? && w.effective) }

  /** The profile that was there, with nobody's session in it. */
  predicate SignedOut(before: Profile, after: Profile) {
    && IsEmpty(after.session) && after.session.refresh == NoToken
    && (after.baseUrl, after.token, after.tenant) == (before.baseUrl, before.token, before.tenant)
    && (after.device, after.clock, after.cursor) == (before.device, before.clock, before.cursor)
  }

  /**
   The session is gone from memory, and from the file where that could be read and written; of nothing
   else in it is anything lost.
   */
  predicate Forgets(s: State, s': State, reload: bool, w: Write) {
    && SignedOut(s.profile, s'.profile)
    && s'.families == s.families
    && s'.running == (s.running && !(reload && Load(s.disk).Some? && w.Dies?))
    && if reload && Load(s.disk).Some? && TakesEffect(w) then
         Load(s'.disk).Some? && SignedOut(Load(s.disk).value, Load(s'.disk).value)
       else s'.disk == s.disk
  }

  lemma ForgottenForgets(s: State, reload: bool, w: Write)
    ensures Forgets(s, Forgotten(s, reload, w), reload, w)
  {}

  /** A profile written where nothing goes wrong is the one read. */
  lemma SavedIsRead(s: State, p: Profile, w: Write)
    ensures var s' := Save(s, p, w);
            && Load(s'.disk) == (if TakesEffect(w) then Some(Kept(p)) else Load(s.disk))
            && s'.families == s.families && s'.profile == s.profile && s'.running == (s.running && !w.Dies?)
  {
    LoadAfterSave(p);
  }

  // ---------------------------------------------------------------- what a renewal leaves

  /** The pair an exchange of `t` is answered. */
  predicate IsNext(session: Session, t: Token, net: Net)
    requires t.Token? && net.Answered?
  {
    && session.id == net.id && session.access == net.access
    && session.accessExpires == net.accessExpires && session.refreshExpires == net.refreshExpires
    && session.refresh.Token? && session.refresh.family == t.family && session.refresh.serial == t.serial + 1
  }

  /** The file holds the pair, with everything else as it was; a pair without an access token as none. */
  predicate HoldsNext(before: Profile, after: Profile, t: Token, net: Net)
    requires t.Token? && net.Answered?
  {
    && (if net.access == "" then IsEmpty(after.session) else IsNext(after.session, t, net))
    && (after.baseUrl, after.token, after.tenant) == (before.baseUrl, before.token, before.tenant)
    && (after.device, after.clock, after.cursor) == (before.device, before.clock, before.cursor)
  }

  /**
   A session that is not due is left alone. A due one is exchanged: granted and stored, it is the next
   pair in memory and on disk; not granted, not stored, or the file not to be read, it is forgotten in
   both; and a process that dies leaves the old pair or the next one.
   */
  lemma RenewalLeaves(s: State, now: int, f: Faults)
    ensures var s', session := Renewed(s, now, f), s.profile.session;
            if IsEmpty(session) || !RefreshDue(session, now) then s' == s
            else
              var stored := Load(s.disk);
              var asked := Exchanged(s, session.refresh, f.net);
              if !Granted(s, session.refresh, f.net) || !f.reload || stored.None? || f.save.Failed? then
                Forgets(asked, s', f.forgetReload, f.forgetSave) && asked.disk == s.disk && asked.profile == s.profile
              else
                && (TakesEffect(f.save) ==>
                      Load(s'.disk).Some? && HoldsNext(stored.value, Load(s'.disk).value, session.refresh, f.net))
                && (!TakesEffect(f.save) ==> s'.disk == s.disk)
                && (f.save.Done? ==> IsNext(s'.profile.session, session.refresh, f.net))
                && s'.running == (s.running && !f.save.Dies?)
  {
    var session := s.profile.session;
    if !IsEmpty(session) && RefreshDue(session, now) {
      var asked := Exchanged(s, session.refresh, f.net);
      var stored := if f.reload then Load(asked.disk) else None;
      if !Granted(s, session.refresh, f.net) || stored.None? {
        ForgottenForgets(asked, f.forgetReload, f.forgetSave);
      } else {
        var next := NextSession(session.refresh, f.net);
        SavedIsRead(asked, stored.value.(session := next), f.save);
        if f.save.Failed? {
          ForgottenForgets(asked, f.forgetReload, f.forgetSave);
        }
      }
    }
  }

  // ---------------------------------------------------------------- what is over stays over

  /** No family comes back to life, and none that is over is rotated; the others are rotated forward only. */
  predicate OverStaysOver(before: Families, after: Families) {
    && |before| <= |after|
    && forall i | 0 <= i < |before| ::
         && before[i].current <= after[i].current
         && (!before[i].alive ==> !after[i].alive && after[i].current == before[i].current)
  }

  lemma ForgettingEndsNothing(s: State, reload: bool, w: Write)
    ensures Forgotten(s, reload, w).families == s.families
  {}

  lemma RenewalKeepsOver(s: State, now: int, f: Faults)
    ensures OverStaysOver(s.families, Renewed(s, now, f).families)
  {
    var session := s.profile.session;
    if !IsEmpty(session) && RefreshDue(session, now) {
      var asked := Exchanged(s, session.refresh, f.net);
      ForgettingEndsNothing(asked, f.forgetReload, f.forgetSave);
    }
  }

  lemma DispatchKeepsOver(s: State, c: Command)
    ensures OverStaysOver(s.families, Dispatched(s, c).families)
  {
    if c.Sync? { SyncLeaves(s, c.saves); }
  }

  /** Whatever is invoked, and however it fails. */
  lemma OverIsOver(s: State, i: Invocation)
    ensures OverStaysOver(s.families, Invoked(s, i).families)
  {
    if Prepared(s, i).Some? {
      var ready := Prepared(s, i).value;
      RenewalKeepsOver(ready, i.now, i.faults);
      DispatchKeepsOver(Renewed(ready, i.now, i.faults), i.command);
    }
  }

  // ---------------------------------------------------------------- what the commands leave

  /** The families a revocation ends are over, and no other; the counts in them stay. */
  predicate EndsOnly(before: Families, after: Families, ended: set<nat>) {
    && |after| == |before|
    && forall i | 0 <= i < |before| ::
         && after[i].alive == (before[i].alive && i !in ended)
         && after[i].current == before[i].current && after[i].reused == before[i].reused
  }

  /**
   A revocation carried out ends what it was to end; heard, and of this shell's own session, it takes
   that out of memory and off the file. Refused it leaves everything.
   */
  lemma RevocationLeaves(s: State, ended: set<nat>, end: Revocation, own: bool, reload: bool, w: Write)
    ensures var s' := Dispatched(s, Revoke(ended, end, own, reload, w));
            if end.Refused? then s' == s
            else
              && EndsOnly(s.families, s'.families, ended)
              && if own && end.Heard? then Forgets(s.(families := s'.families), s', reload, w)
                 else s'.disk == s.disk && s'.profile == s.profile
  {
    if !end.Refused? {
      var over := s.(families := Ended(s.families, ended));
      ForgottenForgets(over, reload, w);
    }
  }

  /** After such a revocation the next invocation has no session: it renews nothing and carries a token or nothing. */
  lemma NothingRevokedIsCarried(s: State, ended: set<nat>, i: Invocation)
    requires Load(s.disk).Some?
    ensures var s' := Dispatched(s, Revoke(ended, Heard, true, true, Done));
            && Load(s'.disk).Some? && SignedOut(Load(s.disk).value, Load(s'.disk).value)
            && (Prepared(s', i).Some? ==>
                  var ready := Prepared(s', i).value;
                  && IsEmpty(ready.profile.session) && Renewed(ready, i.now, i.faults) == ready
                  && Credential(ready.profile) in {i.envToken, Load(s.disk).value.token, ""})
  {
    RevocationLeaves(s, ended, Heard, true, true, Done);
    var s' := Dispatched(s, Revoke(ended, Heard, true, true, Done));
    ResolvedReads(s'.disk, i.envToken, i.envTenant, i.flagUrl, i.envUrl, i.normalise);
    FirstOfThree(i.envToken, Load(s'.disk).value.token, "");
  }

  /** A profile of these and nothing else but its session. */
  predicate HoldsOnly(p: Profile, url: string, token: string, tenant: string) {
    p.baseUrl == url && p.token == token && p.tenant == tenant && p.device == "" && p.clock == "" && p.cursor == ""
  }

  /**
   A finished sign-in leaves its address, its workspace and the first pair of a new family, and nothing
   that was there: in memory where the write worked, on disk where it took effect.
   */
  lemma SignInLeaves(s: State, url: string, tenant: string, net: Net, w: Write)
    requires net.Answered?
    ensures var s' := Dispatched(s, SignIn(url, tenant, net, w));
            && s'.families == s.families + [Family(0, true, false)]
            && (w.Done? ==>
                  && HoldsOnly(s'.profile, url, "", tenant)
                  && s'.profile.session.access == net.access && s'.profile.session.refresh == Token(|s.families|, 0))
            && (!TakesEffect(w) ==> s'.disk == s.disk)
            && (TakesEffect(w) ==>
                  && Load(s'.disk).Some? && HoldsOnly(Load(s'.disk).value, url, "", tenant)
                  && var held := Load(s'.disk).value.session;
                     if net.access == "" then held == NO_SESSION
                     else
                       && held.id == net.id && held.access == net.access && held.accessExpires == net.accessExpires
                       && held.refresh == Token(|s.families|, 0) && held.refreshExpires == net.refreshExpires)
  {}

  /**
   An enrolment owed leaves an address and a workspace, a token verified its address and itself, and a
   log-out no file.
   */
  lemma StoringLeaves(s: State, url: string, text: string, w: Write)
    ensures var owed := Dispatched(s, EnrolmentOwed(url, text, w));
            if TakesEffect(w) then
              && Load(owed.disk).Some? && HoldsOnly(Load(owed.disk).value, url, "", text)
              && IsEmpty(Load(owed.disk).value.session)
            else owed.disk == s.disk
    ensures var stored := Dispatched(s, AuthLogin(url, text, true, w));
            if TakesEffect(w) then
              && Load(stored.disk).Some? && HoldsOnly(Load(stored.disk).value, url, text, "")
              && IsEmpty(Load(stored.disk).value.session)
            else stored.disk == s.disk
    ensures Dispatched(s, AuthLogin(url, text, false, w)) == s
    ensures Dispatched(s, AuthLogout(w)).disk == if TakesEffect(w) then Absent else s.disk
  {}

  /** How many of a sync's saves are done before one is not. */
  function SavesDone(saves: seq<SyncSave>): (n: nat)
    ensures n <= |saves|
  {
    if saves == [] || !saves[0].save.Done? then 0 else 1 + SavesDone(saves[1..])
  }

  /** The profile a sync loaded, as the device it acts as, with the clock and cursor of one save. */
  predicate SyncedAs(loaded: Profile, p: Profile, save: SyncSave) {
    && p.device == save.device && p.clock == save.clock && p.cursor == save.cursor
    && (p.baseUrl, p.token, p.tenant, p.session) == (loaded.baseUrl, loaded.token, loaded.tenant, loaded.session)
  }

  /** The last save of a sync that takes effect, as a count of the saves up to it. */
  function LastWritten(saves: seq<SyncSave>): (n: nat)
    ensures n <= |saves|
  {
    var n := SavesDone(saves);
    if n < |saves| && TakesEffect(saves[n].save) then n + 1 else n
  }

  /** A sync leaves on disk the profile it loaded with what its last save in effect says, or the file as it was. */
  lemma {:induction false} SyncLeaves(s: State, saves: seq<SyncSave>)
    ensures var s', n := Dispatched(s, Sync(saves)), LastWritten(saves);
            && s'.families == s.families
            && if n == 0 then s'.disk == s.disk
               else exists p :: SyncedAs(s.profile, p, saves[n - 1]) && Load(s'.disk) == Some(Kept(p))
    decreases |saves|
  {
    if saves != [] {
      var first := saves[0];
      var p := s.profile.(device := first.device, clock := first.clock, cursor := first.cursor);
      var saved := Save(s.(profile := p), p, first.save);
      SavedIsRead(s.(profile := p), p, first.save);
      assert SyncedAs(s.profile, p, first);
      if first.save.Done? {
        SyncLeaves(saved, saves[1..]);
        SyncsOn(s, saved, saves);
      }
    }
  }

  /** What is left after a first save done is left of all of them. */
  lemma SyncsOn(s: State, saved: State, saves: seq<SyncSave>)
    requires saves != [] && saves[0].save.Done? && SyncedAs(s.profile, saved.profile, saves[0])
    ensures LastWritten(saves) == LastWritten(saves[1..]) + 1
    ensures forall p, save | SyncedAs(saved.profile, p, save) :: SyncedAs(s.profile, p, save)
  {}
}
