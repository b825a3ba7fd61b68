/**
 The clocks under which nothing at all is written between a lost exchange and the retired token
 coming back, and what a process that dies in that window leaves behind.
 */
module RenewalClocks {
  import opened Wrappers
  import opened Profiles
  import opened Renewal
  import opened RenewalTrace

  /** Every retired token presented comes out of a window in which no profile write took effect. */
  ghost predicate NoWriteFallsIn(runs: seq<Invocation>) { Explained(TraceOf(runs), true) }

  /** Where the clocks do not dip, no profile write took effect since the token presented was exchanged. */
  lemma ReuseFollowsNoWrite(runs: seq<Invocation>, j: nat)
    requires NoDip(ClocksOf(runs)) && ReuseAt(TraceOf(runs), j)
    ensures InWindow(TraceOf(runs), TraceOf(runs)[j].token, j, true)
  {
    EveryRunKeeps(runs);
    assert ExplainedAt(TraceOf(runs), j, true);
  }

  // ---------------------------------------------------------------- the witness

  function Identity(url: string): Option<string> { Some(url) }

  function Plainly(now: int, readable: bool, f: Faults, c: Command): Invocation {
    Invocation("", "", "", "", Identity, readable, now, f, c)
  }

  const SMOOTH := Faults(Unsent, true, Done, true, Done)

  const UNHEARD := Faults(Lost, true, Done, true, Done)

  /** The exchange is answered, and the process dies before the profile is written. */
  function Dying(expires: int): Faults { Faults(Answered("s", "a", expires, expires), true, Dies(false), true, Done) }

  function SigningIn(now: int, expires: int): Invocation {
    Plainly(now, true, SMOOTH, SignIn("https://h", "", Answered("s", "a", expires, expires), Done))
  }

  function Syncing(now: int): Invocation { Plainly(now, true, SMOOTH, Sync([SyncSave("d", "", "", Done)])) }

  /** What signing in, dying in the window, syncing and calling leave, where the session expires at `expires`. */
  function Held(expires: int, device: string): Profile {
    Profile("https://h", "", "", FirstSession(0, Answered("s", "a", expires, expires)), device, "", "")
  }

  const FIRST := Token(0, 0)

  const WINDOW: seq<Event> := [Wrote(FIRST), Presented(FIRST, false), Rotated(FIRST)]

  lemma SignsIn(now: int, expires: int)
    ensures var s := Invoked(FRESH, SigningIn(now, expires));
            && s.disk == Whole(Encode(Held(expires, ""))) && s.families == [Family(0, true, false)]
            && s.trace == [Wrote(FIRST)]
  {}

  /** A session that is due is exchanged, and the process dies with it. */
  lemma DiesInTheWindow(s: State, now: int, expires: int)
    requires s.disk == Whole(Encode(Held(expires, ""))) && s.families == [Family(0, true, false)]
    requires s.trace == [Wrote(FIRST)] && now >= expires - REFRESH_MARGIN
    ensures var s' := Invoked(s, Plainly(now, true, Dying(expires), Call));
            s'.disk == s.disk && s'.families == [Family(1, true, false)] && s'.trace == WINDOW
  {
    var p := Held(expires, "");
    assert Prepared(s, Plainly(now, true, Dying(expires), Call)) == Some(s.(profile := p, running := true));
  }

  /** A session that is not due is left alone, and written again by the sync. */
  lemma SyncsTheToken(s: State, now: int, expires: int)
    requires s.disk == Whole(Encode(Held(expires, ""))) && now < expires - REFRESH_MARGIN
    ensures var s' := Invoked(s, Syncing(now));
            && s'.disk == Whole(Encode(Held(expires, "d"))) && s'.families == s.families
            && s'.trace == s.trace + [Wrote(FIRST)]
  {
    var p, i := Held(expires, ""), Syncing(now);
    var ready := s.(profile := p, running := true);
    assert Prepared(s, i) == Some(ready) && Renewed(ready, now, i.faults) == ready;
    var saves := [SyncSave("d", "", "", Done)];
    var saved := Save(ready.(profile := Held(expires, "d")), Held(expires, "d"), Done);
    assert Synced(ready, saves) == Synced(saved, saves[1..]);
  }

  /** A session that is due again is presented again. */
  lemma ComesBack(s: State, now: int, expires: int, device: string)
    requires s.disk == Whole(Encode(Held(expires, device))) && s.families == [Family(1, true, false)]
    requires now >= expires - REFRESH_MARGIN
    ensures var s' := Invoked(s, Plainly(now, true, UNHEARD, Call));
            s'.families == [Family(1, false, true)] && s.trace + [Presented(FIRST, true)] <= s'.trace
  {
    var p, i := Held(expires, device), Plainly(now, true, UNHEARD, Call);
    var ready := s.(profile := p, running := true);
    assert Prepared(s, i) == Some(ready);
    assert Exchanged(ready, FIRST, Lost).trace == s.trace + [Presented(FIRST, true)];
  }

  /** A process that dies between the exchange and the write leaves a token whose next use ends the family. */
  lemma DyingInTheWindowEndsTheFamily(now: int, later: int)
    requires now <= later
    ensures var dying := Plainly(now, true, Dying(now), Call);
            var next := Plainly(later, true, UNHEARD, Call);
            var s := Invoked(Invoked(Invoked(FRESH, SigningIn(now, now)), dying), next);
            s.families == [Family(1, false, true)] && ReuseAt(s.trace, 3) && s.trace[3].token == FIRST
  {
    var s1 := Invoked(FRESH, SigningIn(now, now));
    SignsIn(now, now);
    DiesInTheWindow(s1, now, now);
    var s2 := Invoked(s1, Plainly(now, true, Dying(now), Call));
    ComesBack(s2, later, now, "");
    assert (WINDOW + [Presented(FIRST, true)])[3] == Presented(FIRST, true);
  }

  // ---------------------------------------------------------------- every sequence of clocks

  /** The invocation at clock `k` of the witness; every other one cannot read the profile. */
  function WitnessAt(clocks: seq<int>, a: nat, b: nat, c: nat, expires: int, k: nat): Invocation
    requires k < |clocks|
  {
    if k == 0 then SigningIn(clocks[k], expires)
    else if k == a then Plainly(clocks[k], true, Dying(expires), Call)
    else if k == b then Syncing(clocks[k])
    else Plainly(clocks[k], k == c, UNHEARD, Call)
  }

  function Witness(clocks: seq<int>, a: nat, b: nat, c: nat, expires: int, n: nat): (runs: seq<Invocation>)
    requires n <= |clocks|
    ensures |runs| == n
  {
    if n == 0 then []
    else Witness(clocks, a, b, c, expires, n - 1) + [WitnessAt(clocks, a, b, c, expires, n - 1)]
  }

  lemma {:induction false} WitnessClocks(clocks: seq<int>, a: nat, b: nat, c: nat, expires: int, n: nat)
    requires n <= |clocks|
    ensures ClocksOf(Witness(clocks, a, b, c, expires, n)) == clocks[..n]
  {
    if n > 0 {
      WitnessClocks(clocks, a, b, c, expires, n - 1);
      var front := Witness(clocks, a, b, c, expires, n - 1);
      assert (front + [WitnessAt(clocks, a, b, c, expires, n - 1)])[..n - 1] == front;
    }
  }

  /** The session is due where the process dies and where the token comes back, and not at the sync. */
  predicate Dips(clocks: seq<int>, a: nat, b: nat, c: nat, expires: int) {
    && 1 <= a < b < c < |clocks|
    && clocks[b] < expires - REFRESH_MARGIN <= clocks[a] && expires - REFRESH_MARGIN <= clocks[c]
  }

  /** What the witness has left after `n` invocations. */
  predicate WitnessLeaves(s: State, a: nat, b: nat, c: nat, expires: int, n: nat) {
    if n == 0 then s == FRESH
    else if n <= a then
      && s.disk == Whole(Encode(Held(expires, ""))) && s.families == [Family(0, true, false)]
      && s.trace == [Wrote(FIRST)]
    else if n <= b then
      s.disk == Whole(Encode(Held(expires, ""))) && s.families == [Family(1, true, false)] && s.trace == WINDOW
    else if n <= c then
      && s.disk == Whole(Encode(Held(expires, "d"))) && s.families == [Family(1, true, false)]
      && s.trace == WINDOW + [Wrote(FIRST)]
    else WINDOW + [Wrote(FIRST), Presented(FIRST, true)] <= s.trace
  }

  lemma WitnessStep(clocks: seq<int>, a: nat, b: nat, c: nat, expires: int, n: nat, s: State)
    requires n < |clocks| && Dips(clocks, a, b, c, expires) && WitnessLeaves(s, a, b, c, expires, n)
    ensures WitnessLeaves(Invoked(s, WitnessAt(clocks, a, b, c, expires, n)), a, b, c, expires, n + 1)
  {
    if n == 0 {
      SignsIn(clocks[n], expires);
    } else if n == a {
      DiesInTheWindow(s, clocks[n], expires);
    } else if n == b {
      SyncsTheToken(s, clocks[n], expires);
    } else if n == c {
      ComesBack(s, clocks[n], expires, "d");
      assert WINDOW + [Wrote(FIRST)] + [Presented(FIRST, true)] == WINDOW + [Wrote(FIRST), Presented(FIRST, true)];
    } else {
      assert Invoked(s, WitnessAt(clocks, a, b, c, expires, n)) == s;
    }
  }

  lemma {:induction false} WitnessRuns(clocks: seq<int>, a: nat, b: nat, c: nat, expires: int, n: nat)
    requires n <= |clocks| && Dips(clocks, a, b, c, expires)
    ensures WitnessLeaves(InvokedAll(FRESH, Witness(clocks, a, b, c, expires, n)), a, b, c, expires, n)
  {
    if n > 0 {
      WitnessRuns(clocks, a, b, c, expires, n - 1);
      NextWitness(clocks, a, b, c, expires, n - 1);
    }
  }

  lemma NextWitness(clocks: seq<int>, a: nat, b: nat, c: nat, expires: int, n: nat)
    requires n < |clocks| && Dips(clocks, a, b, c, expires)
    requires WitnessLeaves(InvokedAll(FRESH, Witness(clocks, a, b, c, expires, n)), a, b, c, expires, n)
    ensures WitnessLeaves(InvokedAll(FRESH, Witness(clocks, a, b, c, expires, n + 1)), a, b, c, expires, n + 1)
  {
    var front := Witness(clocks, a, b, c, expires, n);
    WitnessStep(clocks, a, b, c, expires, n, InvokedAll(FRESH, front));
    OneMoreRun(front, WitnessAt(clocks, a, b, c, expires, n));
  }

  lemma OneMoreRun(runs: seq<Invocation>, i: Invocation)
    ensures InvokedAll(FRESH, runs + [i]) == Invoked(InvokedAll(FRESH, runs), i)
  {
    assert (runs + [i])[..|runs|] == runs;
  }

  /** The last event of the witness is a retired token coming back after a write that held it. */
  lemma WriteInTheWindow(trace: seq<Event>)
    requires WINDOW + [Wrote(FIRST), Presented(FIRST, true)] <= trace
    ensures ReuseAt(trace, 4) && !ExplainedAt(trace, 4, true)
  {
    var front := WINDOW + [Wrote(FIRST), Presented(FIRST, true)];
    assert forall k | 0 <= k < 5 :: trace[k] == front[k];
    forall i: nat ensures !WindowAt(trace, FIRST, i, 4, true) {
      if i < 4 && trace[i] == Rotated(FIRST) { assert trace[3].Wrote?; }
    }
  }

  lemma ADipLetsAWriteIn(clocks: seq<int>, a: nat, b: nat, c: nat)
    requires DipAt(clocks, a, b, c)
    ensures exists runs :: ClocksOf(runs) == clocks && !NoWriteFallsIn(runs)
  {
    var expires := (if clocks[a] <= clocks[c] then clocks[a] else clocks[c]) + REFRESH_MARGIN;
    var runs := Witness(clocks, a, b, c, expires, |clocks|);
    WitnessClocks(clocks, a, b, c, expires, |clocks|);
    assert clocks[..|clocks|] == clocks;
    WitnessRuns(clocks, a, b, c, expires, |clocks|);
    WriteInTheWindow(TraceOf(runs));
    assert ClocksOf(runs) == clocks && !NoWriteFallsIn(runs);
  }

  /**
   No profile write falls between a lost exchange and its token coming back, whatever else happens,
   exactly where, the first clock left out, none reads earlier than one before it and one after it.
   */
  lemma NoWriteFallsInIffNoDip(clocks: seq<int>)
    ensures (forall runs | ClocksOf(runs) == clocks :: NoWriteFallsIn(runs)) <==> NoDip(clocks)
  {
    if NoDip(clocks) {
      forall runs | ClocksOf(runs) == clocks ensures NoWriteFallsIn(runs) { EveryRunKeeps(runs); }
    } else {
      var a: nat, b: nat, c: nat :| DipAt(clocks, a, b, c);
      ADipLetsAWriteIn(clocks, a, b, c);
    }
  }

  /** Four invocations, the third at a clock set back: the retired token is written again before it comes back. */
  lemma AClockGoingBackRewritesTheToken(now: int)
    ensures var back := now - REFRESH_MARGIN - 1;
            var s := Invoked(Invoked(Invoked(Invoked(FRESH,
                       SigningIn(now, now)), Plainly(now, true, Dying(now), Call)), Syncing(back)),
                       Plainly(now, true, UNHEARD, Call));
            && ReuseAt(s.trace, 4) && s.trace[3] == Wrote(s.trace[4].token)
            && !InWindow(s.trace, s.trace[4].token, 4, true)
  {
    var back := now - REFRESH_MARGIN - 1;
    var s1 := Invoked(FRESH, SigningIn(now, now));
    SignsIn(now, now);
    DiesInTheWindow(s1, now, now);
    var s2 := Invoked(s1, Plainly(now, true, Dying(now), Call));
    SyncsTheToken(s2, back, now);
    var s3 := Invoked(s2, Syncing(back));
    ComesBack(s3, now, now, "d");
    var s4 := Invoked(s3, Plainly(now, true, UNHEARD, Call));
    var front := WINDOW + [Wrote(FIRST), Presented(FIRST, true)];
    assert s3.trace + [Presented(FIRST, true)] == front;
    assert s4.trace[3] == front[3] && s4.trace[4] == front[4];
    WriteInTheWindow(s4.trace);
  }
}
