/**
 What the credential protocol keeps over every finite sequence of invocations, each of which may
 fail or die anywhere: when a retired token comes back, and what the profile may hold.
 */
module RenewalTrace {
  import opened Wrappers
  import opened Profiles
  import opened Renewal

  // ---------------------------------------------------------------- the window a retired token comes from

  /**
   Event `i` is the server retiring `t`, and no write since has put anything else in the profile:
   with `strict`, no write at all.
   */
  ghost predicate WindowAt(trace: seq<Event>, t: Token, i: nat, n: nat, strict: bool) {
    i < n <= |trace| && trace[i] == Rotated(t)
    && forall k | i < k < n && trace[k].Wrote? :: !strict && trace[k].held == t
  }

  ghost predicate InWindow(trace: seq<Event>, t: Token, n: nat, strict: bool) {
    exists i: nat :: WindowAt(trace, t, i, n, strict)
  }

  /** Event `j`, where it is the presentation of a retired token, comes out of such a window. */
  ghost predicate ExplainedAt(trace: seq<Event>, j: nat, strict: bool) {
    j < |trace| && trace[j].Presented? && trace[j].retired ==> InWindow(trace, trace[j].token, j, strict)
  }

  ghost predicate Explained(trace: seq<Event>, strict: bool) { forall j: nat :: ExplainedAt(trace, j, strict) }

  /** A family ended by reuse is one whose retired token was presented. */
  ghost predicate ReuseSeen(s: State, f: nat) {
    f < |s.families| && s.families[f].reused ==>
      exists j: nat :: j < |s.trace| && s.trace[j].Presented? && s.trace[j].retired && s.trace[j].token.Token?
                       && s.trace[j].token.family == f
  }

  // ---------------------------------------------------------------- what the trace records

  /** What the profile holds after the events: what the last write put there. */
  function LastHeld(trace: seq<Event>): Token {
    if trace == [] then NoToken
    else if trace[|trace| - 1].Wrote? then trace[|trace| - 1].held
    else LastHeld(trace[..|trace| - 1])
  }

  /**
   What is presented is what the profile held, known as retired where it was rotated before; and a
   rotation answers the presentation before it, and retires the token.
   */
  ghost predicate RecordedAt(trace: seq<Event>, fs: Families, j: nat) {
    j < |trace| ==>
      match trace[j]
      case Wrote(_) => true
      case Presented(t, retired) =>
        t == LastHeld(trace[..j]) && (retired || !exists i | 0 <= i < j :: trace[i] == Rotated(t))
      case Rotated(t) => j > 0 && trace[j - 1] == Presented(t, false) && IsRetired(fs, t)
  }

  ghost predicate Recorded(trace: seq<Event>, fs: Families) { forall j: nat :: RecordedAt(trace, fs, j) }

  /** Families are added to, and rotate on. */
  predicate Later(fs: Families, fs': Families) {
    |fs| <= |fs'| && forall i | 0 <= i < |fs| :: fs[i].current <= fs'[i].current
  }

  lemma RecordedLater(trace: seq<Event>, fs: Families, fs': Families)
    requires Recorded(trace, fs) && Later(fs, fs')
    ensures Recorded(trace, fs')
  {
    forall j: nat ensures RecordedAt(trace, fs', j) { assert RecordedAt(trace, fs, j); }
  }

  lemma RecordedGrows(trace: seq<Event>, fs: Families, e: Event)
    requires Recorded(trace, fs) && RecordedAt(trace + [e], fs, |trace|)
    ensures Recorded(trace + [e], fs)
    ensures LastHeld(trace + [e]) == if e.Wrote? then e.held else LastHeld(trace)
  {
    assert (trace + [e])[..|trace|] == trace;
    forall j: nat ensures RecordedAt(trace + [e], fs, j) {
      assert RecordedAt(trace, fs, j);
      if j < |trace| { assert (trace + [e])[..j] == trace[..j]; }
    }
  }

  /** A token the server would rotate was not rotated before. */
  lemma NotRotatedYet(trace: seq<Event>, fs: Families, t: Token)
    requires Recorded(trace, fs) && !IsRetired(fs, t)
    ensures !exists i | 0 <= i < |trace| :: trace[i] == Rotated(t)
  {
    forall i | 0 <= i < |trace| ensures trace[i] != Rotated(t) { assert RecordedAt(trace, fs, i); }
  }

  // ---------------------------------------------------------------- what every state keeps

  function DiskSession(f: File): Option<Session> { if f.Whole? then f.stored.session else None }

  /** Never both credentials, and no session without an access token. */
  predicate OneCredential(f: File) {
    f.Whole? ==> (f.stored.session.Some? ==> f.stored.token == "" && !IsEmpty(f.stored.session.value))
  }

  predicate KnownToken(fs: Families, t: Token) {
    t.Token? ==> Known(fs, t) && t.serial <= fs[t.family].current
  }

  /** The first clock left out, the one at `b` reads earlier than one before it and one after it. */
  predicate DipAt(clocks: seq<int>, a: nat, b: nat, c: nat) {
    1 <= a < b < c < |clocks| && clocks[b] < clocks[a] && clocks[b] < clocks[c]
  }

  ghost predicate NoDip(clocks: seq<int>) { forall a: nat, b: nat, c: nat :: !DipAt(clocks, a, b, c) }

  /** The session was due at one clock, and at a later one it was not. */
  predicate DueThenNot(session: Session, clocks: seq<int>, a: nat, b: nat) {
    1 <= a < b < |clocks| && RefreshDue(session, clocks[a]) && !RefreshDue(session, clocks[b])
  }

  /** Where the profile holds a retired token: it was due when it was exchanged, and a write since found it not due. */
  ghost predicate HeldExplained(s: State, clocks: seq<int>) {
    IsRetired(s.families, HeldToken(s.disk)) ==>
      var t, session := HeldToken(s.disk), DiskSession(s.disk).value;
      && InWindow(s.trace, t, |s.trace|, false)
      && (exists a: nat :: DueAt(session, clocks, a))
      && (InWindow(s.trace, t, |s.trace|, true) || exists a: nat, b: nat :: DueThenNot(session, clocks, a, b))
  }

  predicate DueAt(session: Session, clocks: seq<int>, a: nat) {
    1 <= a < |clocks| && RefreshDue(session, clocks[a])
  }

  /** The state while or after an invocation runs at the last of the clocks. */
  ghost predicate Kept(s: State, clocks: seq<int>) {
    && OneCredential(s.disk)
    && KnownToken(s.families, HeldToken(s.disk))
    && HeldExplained(s, clocks)
    && Explained(s.trace, false) && (NoDip(clocks) ==> Explained(s.trace, true))
    && (forall f: nat :: ReuseSeen(s, f))
    && Recorded(s.trace, s.families) && LastHeld(s.trace) == HeldToken(s.disk)
  }

  /** In a running process a session in memory is the one on disk, and not beside a token. */
  predicate MemoryKept(s: State) {
    IsEmpty(s.profile.session) || (DiskSession(s.disk) == Some(s.profile.session) && s.profile.token == "")
  }

  // ---------------------------------------------------------------- adding one event

  lemma WindowGrows(trace: seq<Event>, e: Event, t: Token, n: nat, strict: bool)
    requires n <= |trace| && InWindow(trace, t, n, strict)
    ensures InWindow(trace + [e], t, n, strict)
    ensures n == |trace| && (e.Wrote? ==> !strict && e.held == t) ==> InWindow(trace + [e], t, n + 1, strict)
  {
    var i: nat :| WindowAt(trace, t, i, n, strict);
    assert WindowAt(trace + [e], t, i, n, strict);
    if n == |trace| && (e.Wrote? ==> !strict && e.held == t) {
      assert WindowAt(trace + [e], t, i, n + 1, strict);
    }
  }

  lemma ExplainedGrows(trace: seq<Event>, e: Event, strict: bool)
    requires Explained(trace, strict)
    requires e.Presented? && e.retired ==> InWindow(trace, e.token, |trace|, strict)
    ensures Explained(trace + [e], strict)
  {
    forall j: nat ensures ExplainedAt(trace + [e], j, strict) {
      assert ExplainedAt(trace, j, strict);
      if j < |trace| && trace[j].Presented? && trace[j].retired {
        WindowGrows(trace, e, trace[j].token, j, strict);
      } else if j == |trace| && e.Presented? && e.retired {
        WindowGrows(trace, e, e.token, |trace|, strict);
      }
    }
  }

  lemma BothExplainedGrow(trace: seq<Event>, e: Event, clocks: seq<int>)
    requires Explained(trace, false) && (NoDip(clocks) ==> Explained(trace, true))
    requires e.Presented? && e.retired ==>
               InWindow(trace, e.token, |trace|, false) && (NoDip(clocks) ==> InWindow(trace, e.token, |trace|, true))
    ensures Explained(trace + [e], false) && (NoDip(clocks) ==> Explained(trace + [e], true))
  {
    ExplainedGrows(trace, e, false);
    if NoDip(clocks) { ExplainedGrows(trace, e, true); }
  }

  lemma ReuseStillSeen(s: State, s': State, e: Event, f: nat)
    requires ReuseSeen(s, f) && s'.trace == s.trace + [e]
    requires f < |s'.families| && s'.families[f].reused ==>
               || (f < |s.families| && s.families[f].reused)
               || (e.Presented? && e.retired && e.token.Token? && e.token.family == f)
    ensures ReuseSeen(s', f)
  {
    if f < |s.families| && s.families[f].reused {
      var j: nat :| j < |s.trace| && s.trace[j].Presented? && s.trace[j].retired && s.trace[j].token.Token?
                    && s.trace[j].token.family == f;
      assert s'.trace[j] == s.trace[j];
    } else if e.Presented? && e.retired {
      assert s'.trace[|s.trace|] == e;
    }
  }

  // ---------------------------------------------------------------- a write of the profile

  /**
   A write keeps the state where what it writes holds no retired token, or holds again the session that
   is there and is not due.
   */
  lemma PutKeeps(s: State, file: File, w: Write, clocks: seq<int>)
    requires Kept(s, clocks) && clocks != [] && OneCredential(file) && KnownToken(s.families, HeldToken(file))
    requires IsRetired(s.families, HeldToken(file)) ==>
               DiskSession(file) == DiskSession(s.disk) && !RefreshDue(DiskSession(file).value, clocks[|clocks| - 1])
    ensures Kept(Put(s, file, w), clocks)
  {
    if w.Done? || (w.Dies? && w.effective) {
      var s', e := Put(s, file, w), Wrote(HeldToken(file));
      BothExplainedGrow(s.trace, e, clocks);
      RecordedGrows(s.trace, s.families, e);
      if IsRetired(s.families, HeldToken(file)) { HeldAgain(s, file, clocks); }
      forall f: nat ensures ReuseSeen(s', f) {
        assert ReuseSeen(s, f);
        ReuseStillSeen(s, s', e, f);
      }
    } else {
      SameWorld(s, Put(s, file, w), clocks);
    }
  }

  /** The retired token written again: its window is open still, and it was due before and is not now. */
  lemma HeldAgain(s: State, file: File, clocks: seq<int>)
    requires HeldExplained(s, clocks) && clocks != [] && IsRetired(s.families, HeldToken(file))
    requires DiskSession(file) == DiskSession(s.disk) && !RefreshDue(DiskSession(file).value, clocks[|clocks| - 1])
    ensures InWindow(s.trace + [Wrote(HeldToken(file))], HeldToken(file), |s.trace| + 1, false)
    ensures exists a: nat :: DueAt(DiskSession(file).value, clocks, a)
    ensures exists a: nat, b: nat :: DueThenNot(DiskSession(file).value, clocks, a, b)
  {
    var t := HeldToken(file);
    assert t == HeldToken(s.disk);
    WindowGrows(s.trace, Wrote(t), t, |s.trace|, false);
    var a: nat :| DueAt(DiskSession(file).value, clocks, a);
    assert DueThenNot(DiskSession(file).value, clocks, a, |clocks| - 1);
  }

  /** Only the profile in memory, and whether the process runs, may differ. */
  lemma SameWorld(s: State, s': State, clocks: seq<int>)
    requires Kept(s, clocks) && s'.disk == s.disk && s'.families == s.families && s'.trace == s.trace
    ensures Kept(s', clocks)
  {
    forall f: nat ensures ReuseSeen(s', f) { assert ReuseSeen(s, f); }
  }

  lemma ForgottenKeeps(s: State, reload: bool, w: Write, clocks: seq<int>)
    requires Kept(s, clocks) && clocks != []
    ensures Kept(Forgotten(s, reload, w), clocks) && MemoryKept(Forgotten(s, reload, w))
  {
    var dropped := s.(profile := s.profile.(session := NO_SESSION));
    SameWorld(s, dropped, clocks);
    var stored := if reload then Load(s.disk) else None;
    if stored.Some? {
      PutKeeps(dropped, Whole(Encode(stored.value.(session := NO_SESSION))), w, clocks);
    }
  }

  // ---------------------------------------------------------------- the exchange

  /** A retired token that is due again has been written in between only where the clocks dipped. */
  lemma DueAgain(s: State, session: Session, clocks: seq<int>)
    requires HeldExplained(s, clocks) && clocks != [] && DiskSession(s.disk) == Some(session)
    requires IsRetired(s.families, HeldToken(s.disk)) && RefreshDue(session, clocks[|clocks| - 1])
    ensures InWindow(s.trace, session.refresh, |s.trace|, false)
    ensures NoDip(clocks) ==> InWindow(s.trace, session.refresh, |s.trace|, true)
  {
    if !InWindow(s.trace, session.refresh, |s.trace|, true) {
      var a: nat, b: nat :| DueThenNot(session, clocks, a, b);
      assert DipAt(clocks, a, b, |clocks| - 1);
    }
  }

  /** A retired token is presented only out of its window, and an exchanged one leaves the profile in one. */
  lemma ExchangedKeeps(s: State, net: Net, clocks: seq<int>)
    requires Kept(s, clocks) && MemoryKept(s) && |clocks| >= 2 && !IsEmpty(s.profile.session)
    requires RefreshDue(s.profile.session, clocks[|clocks| - 1])
    ensures var t := s.profile.session.refresh;
            var s' := Exchanged(s, t, net);
            && Kept(s', clocks)
            && s'.disk == s.disk && s'.profile == s.profile && s'.running == s.running
            && (Granted(s, t, net) ==> Known(s'.families, t) && s'.families[t.family].current == t.serial + 1)
  {
    var t := s.profile.session.refresh;
    if !net.Unsent? {
      PresentedKeeps(s, net, clocks);
      if IsRetired(s.families, t) {
        WindowsGrow(s, t, Presented(t, true));
      } else if IsGood(s.families, t) && !net.Declined? {
        RotatedKeeps(s, Exchanged(s, t, net).(trace := s.trace + [Presented(t, false)]), t, clocks);
      }
    }
  }

  lemma WindowsGrow(s: State, t: Token, e: Event)
    requires !e.Wrote? && InWindow(s.trace, t, |s.trace|, false)
    ensures InWindow(s.trace + [e], t, |s.trace| + 1, false)
    ensures InWindow(s.trace, t, |s.trace|, true) ==> InWindow(s.trace + [e], t, |s.trace| + 1, true)
  {
    WindowGrows(s.trace, e, t, |s.trace|, false);
    if InWindow(s.trace, t, |s.trace|, true) { WindowGrows(s.trace, e, t, |s.trace|, true); }
  }

  /** What presenting the token in memory adds to the trace, before anything is rotated. */
  lemma PresentedKeeps(s: State, net: Net, clocks: seq<int>)
    requires Kept(s, clocks) && MemoryKept(s) && clocks != [] && !IsEmpty(s.profile.session) && !net.Unsent?
    requires RefreshDue(s.profile.session, clocks[|clocks| - 1])
    ensures var t := s.profile.session.refresh;
            var mid := Exchanged(s, t, net).(trace := s.trace + [Presented(t, IsRetired(s.families, t))]);
            && Explained(mid.trace, false) && (NoDip(clocks) ==> Explained(mid.trace, true))
            && (forall f: nat :: ReuseSeen(mid, f))
            && Recorded(mid.trace, mid.families) && LastHeld(mid.trace) == t
            && (IsRetired(s.families, t) ==> InWindow(s.trace, t, |s.trace|, false))
  {
    var t := s.profile.session.refresh;
    var e := Presented(t, IsRetired(s.families, t));
    var mid := Exchanged(s, t, net).(trace := s.trace + [e]);
    if IsRetired(s.families, t) {
      DueAgain(s, s.profile.session, clocks);
    } else {
      NotRotatedYet(s.trace, s.families, t);
    }
    BothExplainedGrow(s.trace, e, clocks);
    assert (s.trace + [e])[..|s.trace|] == s.trace;
    RecordedGrows(s.trace, s.families, e);
    RecordedLater(mid.trace, s.families, mid.families);
    forall f: nat ensures ReuseSeen(mid, f) {
      assert ReuseSeen(s, f);
      ReuseStillSeen(s, mid, e, f);
    }
  }

  lemma RotatedKeeps(s: State, mid: State, t: Token, clocks: seq<int>)
    requires OneCredential(s.disk) && t == HeldToken(s.disk) && t.Token? && mid.disk == s.disk && |clocks| >= 2
    requires DiskSession(s.disk).Some? && RefreshDue(DiskSession(s.disk).value, clocks[|clocks| - 1])
    requires Known(mid.families, t) && mid.families[t.family].current == t.serial + 1
    requires mid.trace == s.trace + [Presented(t, false)] && LastHeld(mid.trace) == t
    requires Explained(mid.trace, false) && (NoDip(clocks) ==> Explained(mid.trace, true))
    requires Recorded(mid.trace, mid.families) && forall f: nat :: ReuseSeen(mid, f)
    ensures Kept(mid.(trace := mid.trace + [Rotated(t)]), clocks)
  {
    var s' := mid.(trace := mid.trace + [Rotated(t)]);
    BothExplainedGrow(mid.trace, Rotated(t), clocks);
    RecordedGrows(mid.trace, mid.families, Rotated(t));
    assert WindowAt(s'.trace, t, |mid.trace|, |s'.trace|, true);
    assert WindowAt(s'.trace, t, |mid.trace|, |s'.trace|, false);
    assert DueAt(DiskSession(s.disk).value, clocks, |clocks| - 1);
    forall f: nat ensures ReuseSeen(s', f) {
      assert ReuseSeen(mid, f);
      ReuseStillSeen(mid, s', Rotated(t), f);
    }
  }

  // ---------------------------------------------------------------- the renewal

  /** A session in memory after it holds no retired token, unless it is not due. */
  predicate NotDueWhereRetired(s: State, now: int) {
    var session := s.profile.session;
    !IsEmpty(session) && IsRetired(s.families, session.refresh) ==> !RefreshDue(session, now)
  }

  lemma RenewedKeeps(s: State, f: Faults, clocks: seq<int>)
    requires Kept(s, clocks) && MemoryKept(s) && s.running && clocks != []
    requires DiskSession(s.disk).Some? ==> |clocks| >= 2
    ensures var s' := Renewed(s, clocks[|clocks| - 1], f);
            && Kept(s', clocks)
            && (s'.running ==>
                  MemoryKept(s') && s'.profile.token == s.profile.token && NotDueWhereRetired(s', clocks[|clocks| - 1]))
  {
    var session, now := s.profile.session, clocks[|clocks| - 1];
    if !IsEmpty(session) && RefreshDue(session, now) {
      var t := session.refresh;
      var asked := Exchanged(s, t, f.net);
      ExchangedKeeps(s, f.net, clocks);
      var stored := if f.reload then Load(asked.disk) else None;
      if !Granted(s, t, f.net) || stored.None? {
        ForgottenKeeps(asked, f.forgetReload, f.forgetSave, clocks);
      } else {
        StoredKeeps(asked, stored.value, t, f, clocks);
      }
    }
  }

  /** The next pair written into the profile, or forgotten where that failed. */
  lemma StoredKeeps(s: State, stored: Profile, t: Token, f: Faults, clocks: seq<int>)
    requires Kept(s, clocks) && clocks != [] && t.Token? && f.net.Answered?
    requires Load(s.disk) == Some(stored) && stored.token == "" && stored.token == s.profile.token
    requires Known(s.families, t) && s.families[t.family].current == t.serial + 1
    ensures var next := NextSession(t, f.net);
            var saved := Save(s, stored.(session := next), f.save);
            var s' := if f.save.Done? then saved.(profile := saved.profile.(session := next))
                      else if f.save.Failed? then Forgotten(saved, f.forgetReload, f.forgetSave) else saved;
            && Kept(s', clocks)
            && (s'.running ==>
                  MemoryKept(s') && s'.profile.token == s.profile.token && NotDueWhereRetired(s', clocks[|clocks| - 1]))
  {
    var next := NextSession(t, f.net);
    var saved := Save(s, stored.(session := next), f.save);
    PutKeeps(s, Whole(Encode(stored.(session := next))), f.save, clocks);
    if f.save.Failed? {
      ForgottenKeeps(saved, f.forgetReload, f.forgetSave, clocks);
    } else {
      SameWorld(saved, saved.(profile := saved.profile.(session := next)), clocks);
    }
  }

  // ---------------------------------------------------------------- the commands

  lemma FamiliesGrow(s: State, fs: Families, clocks: seq<int>)
    requires Kept(s, clocks) && |s.families| <= |fs|
    requires forall i | 0 <= i < |s.families| ::
               fs[i].current == s.families[i].current && fs[i].reused == s.families[i].reused
    requires forall i | |s.families| <= i < |fs| :: !fs[i].reused
    ensures Kept(s.(families := fs), clocks)
  {
    var s' := s.(families := fs);
    assert IsRetired(fs, HeldToken(s.disk)) == IsRetired(s.families, HeldToken(s.disk));
    RecordedLater(s.trace, s.families, fs);
    forall f: nat ensures ReuseSeen(s', f) { assert ReuseSeen(s, f); }
  }

  lemma {:induction false} SyncedKeeps(s: State, saves: seq<SyncSave>, clocks: seq<int>)
    requires Kept(s, clocks) && MemoryKept(s) && clocks != [] && NotDueWhereRetired(s, clocks[|clocks| - 1])
    ensures Kept(Synced(s, saves), clocks)
    decreases |saves|
  {
    if saves != [] {
      var p := s.profile.(device := saves[0].device, clock := saves[0].clock, cursor := saves[0].cursor);
      SameWorld(s, s.(profile := p), clocks);
      PutKeeps(s.(profile := p), Whole(Encode(p)), saves[0].save, clocks);
      if saves[0].save.Done? { SyncedKeeps(Save(s.(profile := p), p, saves[0].save), saves[1..], clocks); }
    }
  }

  lemma SignedInKeeps(s: State, url: string, tenant: string, net: Net, w: Write, clocks: seq<int>)
    requires Kept(s, clocks) && clocks != []
    ensures Kept(Dispatched(s, SignIn(url, tenant, net, w)), clocks)
  {
    if !net.Unsent? && !net.Declined? {
      var minted := s.(families := s.families + [Family(0, true, false)]);
      FamiliesGrow(s, minted.families, clocks);
      if net.Answered? {
        var p := Profile(url, "", tenant, FirstSession(|s.families|, net), "", "", "");
        PutKeeps(minted, Whole(Encode(p)), w, clocks);
        if w.Done? { SameWorld(Save(minted, p, w), Save(minted, p, w).(profile := p), clocks); }
      }
    }
  }

  lemma DispatchedKeeps(s: State, c: Command, clocks: seq<int>)
    requires Kept(s, clocks) && MemoryKept(s) && clocks != [] && NotDueWhereRetired(s, clocks[|clocks| - 1])
    ensures Kept(Dispatched(s, c), clocks)
  {
    match c
    case Call =>
    case SignIn(url, tenant, net, w) => SignedInKeeps(s, url, tenant, net, w, clocks);
    case EnrolmentOwed(url, tenant, w) =>
      var p := NO_PROFILE.(baseUrl := url, tenant := tenant);
      PutKeeps(s, Whole(Encode(p)), w, clocks);
      if w.Done? { SameWorld(Save(s, p, w), Save(s, p, w).(profile := p), clocks); }
    case AuthLogin(url, token, verified, w) =>
      if verified { PutKeeps(s, Whole(Encode(NO_PROFILE.(baseUrl := url, token := token))), w, clocks); }
    case AuthLogout(w) => PutKeeps(s, Absent, w, clocks);
    case Revoke(ended, end, own, reload, w) =>
      if !end.Refused? {
        FamiliesGrow(s, Ended(s.families, ended), clocks);
        if own && end.Heard? { ForgottenKeeps(s.(families := Ended(s.families, ended)), reload, w, clocks); }
      }
    case Sync(saves) => SyncedKeeps(s, saves, clocks);
  }

  // ---------------------------------------------------------------- whole runs

  /** The state is kept as the next invocation begins. */
  lemma KeptAtTheNext(s: State, clocks: seq<int>, now: int)
    requires Kept(s, clocks)
    ensures Kept(s, clocks + [now])
  {
    var later := clocks + [now];
    if IsRetired(s.families, HeldToken(s.disk)) {
      var session := DiskSession(s.disk).value;
      var a: nat :| DueAt(session, clocks, a);
      assert DueAt(session, later, a);
      if !InWindow(s.trace, HeldToken(s.disk), |s.trace|, true) {
        var a: nat, b: nat :| DueThenNot(session, clocks, a, b);
        assert DueThenNot(session, later, a, b);
      }
    }
    if NoDip(later) {
      forall a: nat, b: nat, c: nat ensures !DipAt(clocks, a, b, c) { assert !DipAt(later, a, b, c); }
    }
  }

  lemma InvokedKeeps(s: State, i: Invocation, clocks: seq<int>)
    requires Kept(s, clocks) && (DiskSession(s.disk).Some? ==> clocks != [])
    ensures Kept(Invoked(s, i), clocks + [i.now])
  {
    KeptAtTheNext(s, clocks, i.now);
    var ready := Prepared(s, i);
    if ready.Some? {
      SameWorld(s, ready.value, clocks + [i.now]);
      RenewedKeeps(ready.value, i.faults, clocks + [i.now]);
      var renewed := Renewed(ready.value, i.now, i.faults);
      if renewed.running { DispatchedKeeps(renewed, i.command, clocks + [i.now]); }
    }
  }

  function ClocksOf(runs: seq<Invocation>): (clocks: seq<int>)
    ensures |clocks| == |runs| && forall i | 0 <= i < |runs| :: clocks[i] == runs[i].now
  {
    if runs == [] then [] else ClocksOf(runs[..|runs| - 1]) + [runs[|runs| - 1].now]
  }

  lemma {:induction false} EveryRunKeeps(runs: seq<Invocation>)
    ensures Kept(InvokedAll(FRESH, runs), ClocksOf(runs))
  {
    if runs == [] {
      assert Kept(FRESH, []);
    } else {
      var before := runs[..|runs| - 1];
      EveryRunKeeps(before);
      InvokedKeeps(InvokedAll(FRESH, before), runs[|runs| - 1], ClocksOf(before));
    }
  }

  function TraceOf(runs: seq<Invocation>): seq<Event> { InvokedAll(FRESH, runs).trace }

  /** A retired token presented at `j`. */
  predicate ReuseAt(trace: seq<Event>, j: nat) { j < |trace| && trace[j].Presented? && trace[j].retired }

  /**
   Whatever fails or dies, a retired token is presented only after an exchange that reached the
   server and after which no profile write put anything else in its place.
   */
  lemma ReuseFollowsALostWrite(runs: seq<Invocation>, j: nat)
    requires ReuseAt(TraceOf(runs), j)
    ensures InWindow(TraceOf(runs), TraceOf(runs)[j].token, j, false)
  {
    EveryRunKeeps(runs);
    assert ExplainedAt(TraceOf(runs), j, false);
  }

  /** The stored profile never holds both a token and a session. */
  lemma NeverBothCredentials(runs: seq<Invocation>)
    ensures OneCredential(InvokedAll(FRESH, runs).disk)
  {
    EveryRunKeeps(runs);
  }

  /**
   Without a token in the environment, what a command carries is what is on disk, or nothing: a
   renewed pair is stored before it is used.
   */
  lemma CarriedIsStored(runs: seq<Invocation>, i: Invocation)
    requires i.envToken == "" && AtDispatch(InvokedAll(FRESH, runs), i).Some?
    ensures var s := AtDispatch(InvokedAll(FRESH, runs), i).value;
            && (Credential(s.profile) == "" || Some(Credential(s.profile)) == StoredCredential(s.disk))
            && (!IsEmpty(s.profile.session) ==> DiskSession(s.disk) == Some(s.profile.session))
  {
    EveryRunKeeps(runs);
    var s, clocks := InvokedAll(FRESH, runs), ClocksOf(runs) + [i.now];
    var ready := Prepared(s, i).value;
    KeptAtTheNext(s, ClocksOf(runs), i.now);
    SameWorld(s, ready, clocks);
    RenewedKeeps(ready, i.faults, clocks);
    if IsEmpty(ready.profile.session) {
      assert Renewed(ready, i.now, i.faults) == ready;
    }
  }

  function StoredCredential(f: File): Option<string> { if f.Whole? then Some(Credential(Decode(f.stored))) else None }

  // ---------------------------------------------------------------- no window, no reuse

  /** The token retired at `i` was replaced in the profile before anything was presented again. */
  predicate ReplacedAt(trace: seq<Event>, i: nat, j: nat) {
    i < j < |trace| && trace[i].Rotated? && trace[j].Presented? ==>
      exists k | i < k < j :: trace[k].Wrote? && trace[k].held != trace[i].token
  }

  lemma WindowIsOpen(trace: seq<Event>, i: nat, j: nat)
    requires ReuseAt(trace, j) && WindowAt(trace, trace[j].token, i, j, false)
    ensures !ReplacedAt(trace, i, j)
  {}

  /** Where only one token is written, it is what the profile holds. */
  lemma {:induction false} HeldMeanwhile(trace: seq<Event>, t: Token, m: nat, n: nat)
    requires m <= n <= |trace| && LastHeld(trace[..m]) == t
    requires forall k | m <= k < n && trace[k].Wrote? :: trace[k].held == t
    ensures LastHeld(trace[..n]) == t
  {
    if m < n {
      HeldMeanwhile(trace, t, m, n - 1);
      assert trace[..n][..n - 1] == trace[..n - 1];
    }
  }

  /** The first presentation after `i`. */
  lemma {:induction false} FirstPresented(trace: seq<Event>, i: nat, j: nat) returns (k: nat)
    requires i < j < |trace| && trace[j].Presented?
    ensures i < k <= j && trace[k].Presented?
    ensures forall m | i < m < k :: !trace[m].Presented?
    decreases j
  {
    if m :| i < m < j && trace[m].Presented? { k := FirstPresented(trace, i, m); } else { k := j; }
  }

  /** A token rotated and not replaced is what is presented next, and is retired by then. */
  lemma UnreplacedIsPresented(trace: seq<Event>, fs: Families, i: nat, j: nat) returns (k: nat)
    requires Recorded(trace, fs) && !ReplacedAt(trace, i, j)
    ensures k <= j && ReuseAt(trace, k)
  {
    var t := trace[i].token;
    k := FirstPresented(trace, i, j);
    assert RecordedAt(trace, fs, i) && RecordedAt(trace, fs, i - 1) && RecordedAt(trace, fs, k);
    assert trace[..i][..i - 1] == trace[..i - 1] && trace[..i + 1][..i] == trace[..i];
    HeldMeanwhile(trace, t, i + 1, k);
    assert trace[i] == Rotated(t);
  }

  /**
   No retired token is ever presented exactly where each token rotated is replaced in the profile
   before anything is presented again; and then no family dies by reuse.
   */
  lemma NoReuseIffReplaced(runs: seq<Invocation>)
    ensures (forall i: nat, j: nat :: ReplacedAt(TraceOf(runs), i, j))
       <==> (forall j: nat :: !ReuseAt(TraceOf(runs), j))
    ensures (forall j: nat :: !ReuseAt(TraceOf(runs), j)) ==>
              forall f | f in InvokedAll(FRESH, runs).families :: !f.reused
  {
    var s := InvokedAll(FRESH, runs);
    EveryRunKeeps(runs);
    if j: nat :| ReuseAt(s.trace, j) {
      ReuseFollowsALostWrite(runs, j);
      var i: nat :| WindowAt(s.trace, s.trace[j].token, i, j, false);
      WindowIsOpen(s.trace, i, j);
    } else {
      forall i: nat, j: nat ensures ReplacedAt(s.trace, i, j) {
        if !ReplacedAt(s.trace, i, j) { var k := UnreplacedIsPresented(s.trace, s.families, i, j); }
      }
      NoReuseSeen(s);
    }
  }

  lemma NoReuseSeen(s: State)
    requires (forall f: nat :: ReuseSeen(s, f)) && forall j: nat :: !ReuseAt(s.trace, j)
    ensures forall f | f in s.families :: !f.reused
  {
    forall f: nat | f < |s.families| ensures !s.families[f].reused {
      assert ReuseSeen(s, f);
      if s.families[f].reused {
        var j: nat :| j < |s.trace| && s.trace[j].Presented? && s.trace[j].retired && s.trace[j].token.Token?
                      && s.trace[j].token.family == f;
        assert ReuseAt(s.trace, j);
        assert false;
      }
    }
  }
}
