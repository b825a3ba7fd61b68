/**
 Many operators change the installation's settings, or a plan, at once: what the level ends as, and
 exactly when no change is lost (`cmd/hubctl/AdminInstance.go`, `AdminPlan.go`, the version a save
 quotes in `Schedule.go`).
 */
module SettingsRuns {
  import opened Wrappers
  import opened Versioned
  import opened Settings

  type Commands = nat -> Command

  /** What is decided once a client's save of what it read is accepted. */
  function Sent(known: map<Key, Kind>, c: Command, read: Store): Option<Store> {
    var changed := Changed(View(known, read), c);
    if changed.Some? then Some(Saved(known, changed.value)) else None
  }

  /** `versionPrecondition`: a version read as none, or below one, is not quoted at all. */
  function Precondition(version: int): Option<int> { if version <= 0 then None else Some(version) }

  function SettingsProtocol(known: map<Key, Kind>, cs: Commands): Protocol<Store> {
    Protocol((c, read) => Sent(known, cs(c), read), Precondition)
  }

  /** A plan's save quotes its version always. */
  function Quoted(version: int): Option<int> { Some(version) }

  /** The commands' effects on what is decided, one after the other. */
  function Effects(known: map<Key, Kind>, cs: Commands, s: Store, log: seq<nat>): Store {
    if log == [] then s
    else
      var before := Effects(known, cs, s, log[..|log| - 1]);
      var effect := Effect(known, before, cs(log[|log| - 1]));
      if effect.Some? then effect.value else before
  }

  lemma {:induction false} FoldingIsEffects(known: map<Key, Kind>, cs: Commands, s: Store, log: seq<nat>)
    requires WellFormed(known, s)
    ensures WellFormed(known, Effects(known, cs, s, log))
    ensures Folded(SettingsProtocol(known, cs), s, log) == Effects(known, cs, s, log)
  {
    if log != [] {
      FoldingIsEffects(known, cs, s, log[..|log| - 1]);
      OneCommandOneChange(known, Effects(known, cs, s, log[..|log| - 1]), cs(log[|log| - 1]));
    }
  }

  /** Whatever the interleaving, the level ends with the accepted commands' effects, in the order they were accepted. */
  ghost predicate NoneIsLost(known: map<Key, Kind>, s: Store, version: int) {
    forall cs: Commands, steps :: Serial(known, cs, s, version, steps)
  }

  ghost predicate Serial(known: map<Key, Kind>, cs: Commands, s: Store, version: int, steps: seq<Step>) {
    var end := Ran(SettingsProtocol(known, cs), Fresh(s, version), steps);
    end.store == Effects(known, cs, s, end.log)
  }

  lemma NoChangeIsLost(known: map<Key, Kind>, cs: Commands, s: Store, version: int, steps: seq<Step>)
    requires WellFormed(known, s) && version > 0
    ensures Serial(known, cs, s, version, steps)
  {
    var p := SettingsProtocol(known, cs);
    assert QuotesFrom(p, version);
    EveryInterleavingIsSerial(p, s, version, steps);
    FoldingIsEffects(known, cs, s, Ran(p, Fresh(s, version), steps).log);
  }

  predicate Names(c: Command, k: Key) { (c.SetKey? || c.ClearKey?) && k == Key(c.area, c.name) }

  /** A key no accepted command named is decided as it was; so is everything beside the areas. */
  lemma {:induction false} UnnamedIsUnchanged(known: map<Key, Kind>, cs: Commands, s: Store, log: seq<nat>, k: Key)
    requires WellFormed(known, s)
    ensures var after := Effects(known, cs, s, log);
            && ((forall c | c in log :: !Names(cs(c), k)) ==> AgreeAt(after.decided, s.decided, k))
            && ((forall c | c in log :: !cs(c).SetCooldown?) ==> after.cooldown == s.cooldown)
            && ((forall c | c in log :: !cs(c).Reserve?) ==> after.reserved == s.reserved)
            && ((forall c | c in log :: !cs(c).SetSwitch?) ==> after.switches == s.switches)
  {
    if log != [] {
      var before := log[..|log| - 1];
      assert log[|log| - 1] in log && forall c | c in before :: c in log;
      UnnamedIsUnchanged(known, cs, s, before, k);
    }
  }

  lemma SentIsEffect(known: map<Key, Kind>, cs: Commands, s: Store, c: nat)
    requires WellFormed(known, s)
    ensures SettingsProtocol(known, cs).change(c, s) == Effect(known, s, cs(c))
  {
    OneCommandOneChange(known, s, cs(c));
  }

  /** One client sets the cooldown, every other switches metering on. */
  function CooldownAndMetering(
    days: int): Commands { c => if c == 0 then SetCooldown(Some(days)) else SetSwitch(METERING, true) }

  const BOTH_READ_THEN_SAVE := [Read(0), Read(1), Put(0, true), Put(1, true)]

  lemma TheSecondStays(known: map<Key, Kind>, s: Store, version: int, days: int)
    requires WellFormed(known, s) && version <= 0
    ensures Ran(SettingsProtocol(known, CooldownAndMetering(days)), Fresh(s, version), BOTH_READ_THEN_SAVE)
         == System(s.(switches := s.switches[METERING := true]), version + 2, map[], [0, 1])
  {
    var p := SettingsProtocol(known, CooldownAndMetering(days));
    var first, second := s.(cooldown := Some(days)), s.(switches := s.switches[METERING := true]);
    TheTwoChanges(known, s, days);
    FourSteps(p, s, version);
    assert p.quote(version).None?;
    BothAccepted(p, s, version, first, second);
  }

  lemma TheTwoChanges(known: map<Key, Kind>, s: Store, days: int)
    requires WellFormed(known, s)
    ensures var p := SettingsProtocol(known, CooldownAndMetering(days));
            p.change(0, s) == Some(s.(cooldown := Some(days)))
            && p.change(1, s) == Some(s.(switches := s.switches[METERING := true]))
  {
    SentIsEffect(known, CooldownAndMetering(days), s, 0);
    SentIsEffect(known, CooldownAndMetering(days), s, 1);
  }

  /** Two clients read, then both save: the cooldown the first set is gone. */
  lemma AVersionBelowOneLosesAChange(known: map<Key, Kind>, s: Store, version: int)
    requires WellFormed(known, s) && version <= 0
    ensures var days := if s.cooldown == Some(1) then 2 else 1;
            !Serial(known, CooldownAndMetering(days), s, version, BOTH_READ_THEN_SAVE)
  {
    var days := if s.cooldown == Some(1) then 2 else 1;
    TheSecondStays(known, s, version, days);
    TwoEffects(known, CooldownAndMetering(days), s);
  }

  lemma TwoEffects(known: map<Key, Kind>, cs: Commands, s: Store)
    requires cs(0).SetCooldown? && cs(1) == SetSwitch(METERING, true)
    ensures Effects(known, cs, s, [0, 1]) == Store(s.decided, s.switches[METERING := true], cs(0).days, s.reserved)
  {
    assert [0, 1][..1] == [0] && [0][..0] == [];
    assert Effects(known, cs, s, []) == s;
    assert Effects(known, cs, s, [0]) == s.(cooldown := cs(0).days);
  }

  /** Two saves that quote no version are both accepted, and the second is what stays. */
  lemma BothAccepted(p: Protocol<Store>, s: Store, version: int, a: Store, b: Store)
    requires p.change(0, s) == Some(a) && p.change(1, s) == Some(b) && p.quote(version).None?
    ensures Stepped(p, Stepped(p, TwoRead(p, s, version), Put(0, true)), Put(1, true))
         == System(b, version + 2, map[], [0, 1])
  {
    var first := Stepped(p, TwoRead(p, s, version), Put(0, true));
    assert first == System(a, version + 1, map[1 := Snapshot(s, version)], [0]);
  }

  function TwoRead(p: Protocol<Store>, s: Store, version: int): System<Store> {
    System(s, version, map[0 := Snapshot(s, version), 1 := Snapshot(s, version)], [])
  }

  lemma FourSteps(p: Protocol<Store>, s: Store, version: int)
    ensures Ran(p, Fresh(s, version), BOTH_READ_THEN_SAVE)
         == Stepped(p, Stepped(p, TwoRead(p, s, version), Put(0, true)), Put(1, true))
  {
    var start := Fresh(s, version);
    var all := [Read(0), Read(1), Put(0, true), Put(1, true)];
    assert all[..3] == [Read(0), Read(1), Put(0, true)];
    assert all[..3][..2] == [Read(0), Read(1)];
    assert all[..3][..2][..1] == [Read(0)];
    assert all[..3][..2][..1][..0] == [];
    assert Ran(p, start, [Read(0)]) == Stepped(p, start, Read(0));
    assert Ran(p, start, [Read(0), Read(1)]) == TwoRead(p, s, version);
  }

  /** Exactly from version 1 on is no change of the settings ever lost. */
  lemma NoneIsLostIffVersioned(known: map<Key, Kind>, s: Store, version: int)
    requires WellFormed(known, s)
    ensures NoneIsLost(known, s, version) <==> version > 0
  {
    if version > 0 {
      forall cs: Commands, steps ensures Serial(known, cs, s, version, steps) {
        NoChangeIsLost(known, cs, s, version, steps);
      }
    } else {
      AVersionBelowOneLosesAChange(known, s, version);
    }
  }

  // ---------------------------------------------------------------- plans

  /** A plan: what it is called and leaves out, and what it decides (it has no localisation). */
  datatype Plan = Plan(displayName: string, leftOut: seq<string>, values: Store)

  /** One command on a plan: a new name, what it leaves out, and one key set or cleared, each or none. */
  datatype PlanCommand = PlanCommand(displayName: string, leaveOut: Option<seq<string>>, key: Option<Command>)

  /** The body of a plan's save. */
  datatype PlanChange = PlanChange(displayName: string, leftOut: seq<string>, level: Level)

  predicate IsKeyCommand(c: Option<Command>) { c.Some? ==> c.value.SetKey? || c.value.ClearKey? }

  function PlanChanged(known: map<Key, Kind>, read: Plan, c: PlanCommand): Option<PlanChange> {
    var level := View(known, read.values);
    var keyed := if c.key.Some? then Changed(level, c.key.value) else Some(level);
    if keyed.None? then None
    else Some(PlanChange(if c.displayName != "" then c.displayName else read.displayName,
                         if c.leaveOut.Some? then c.leaveOut.value else read.leftOut, keyed.value))
  }

  /** `adminPlanSet` between the read and the save. */
  method PlanSet(known: map<Key, Kind>, held: Plan, c: PlanCommand) returns (change: Option<PlanChange>)
    requires IsKeyCommand(c.key) && WellFormed(known, held.values)
    ensures change == PlanChanged(known, held, c)
  {
    var displayName, leftOut := held.displayName, held.leftOut;
    if c.displayName != "" {
      displayName := c.displayName;
    }
    if c.leaveOut.Some? {
      leftOut := c.leaveOut.value;
    }
    var document := new Document(View(known, held.values));
    if c.key.Some? {
      var ok := document.Change(c.key.value);
      if !ok {
        return None;
      }
    }
    change := Some(PlanChange(displayName, leftOut, document.Now()));
  }

  function PlanSaved(known: map<Key, Kind>, body: PlanChange): Plan {
    Plan(body.displayName, body.leftOut, Saved(known, body.level))
  }

  function PlanSent(known: map<Key, Kind>, c: PlanCommand, read: Plan): Option<Plan> {
    var changed := PlanChanged(known, read, c);
    if changed.Some? then Some(PlanSaved(known, changed.value)) else None
  }

  function PlanProtocol(known: map<Key, Kind>, cs: nat -> PlanCommand): Protocol<Plan> {
    Protocol((c, read) => PlanSent(known, cs(c), read), Quoted)
  }

  /** What a command means for the plan. */
  function PlanEffect(known: map<Key, Kind>, plan: Plan, c: PlanCommand): Option<Plan> {
    var values := if c.key.Some? then Effect(known, plan.values, c.key.value) else Some(plan.values);
    if values.None? then None
    else Some(Plan(if c.displayName == "" then plan.displayName else c.displayName,
                   if c.leaveOut.None? then plan.leftOut else c.leaveOut.value, values.value))
  }

  function PlanEffects(known: map<Key, Kind>, cs: nat -> PlanCommand, plan: Plan, log: seq<nat>): Plan {
    if log == [] then plan
    else
      var before := PlanEffects(known, cs, plan, log[..|log| - 1]);
      var effect := PlanEffect(known, before, cs(log[|log| - 1]));
      if effect.Some? then effect.value else before
  }

  lemma OnePlanCommand(known: map<Key, Kind>, plan: Plan, c: PlanCommand)
    requires WellFormed(known, plan.values)
    ensures PlanSent(known, c, plan) == PlanEffect(known, plan, c)
    ensures PlanEffect(known, plan, c).Some? ==> WellFormed(known, PlanEffect(known, plan, c).value.values)
  {
    SendingBackChangesNothing(known, plan.values);
    if c.key.Some? { OneCommandOneChange(known, plan.values, c.key.value); }
  }

  lemma {:induction false} FoldingIsPlanEffects(
    known: map<Key, Kind>, cs: nat -> PlanCommand, plan: Plan, log: seq<nat>)
    requires WellFormed(known, plan.values)
    ensures WellFormed(known, PlanEffects(known, cs, plan, log).values)
    ensures Folded(PlanProtocol(known, cs), plan, log) == PlanEffects(known, cs, plan, log)
  {
    if log != [] {
      FoldingIsPlanEffects(known, cs, plan, log[..|log| - 1]);
      OnePlanCommand(known, PlanEffects(known, cs, plan, log[..|log| - 1]), cs(log[|log| - 1]));
    }
  }

  /** A plan's changes are never lost, at any version: its save always quotes one. */
  lemma NoPlanChangeIsLost(known: map<Key, Kind>, cs: nat -> PlanCommand, plan: Plan, version: int, steps: seq<Step>)
    requires WellFormed(known, plan.values)
    ensures var end := Ran(PlanProtocol(known, cs), Fresh(plan, version), steps);
            end.store == PlanEffects(known, cs, plan, end.log)
  {
    var p := PlanProtocol(known, cs);
    assert QuotesFrom(p, version);
    EveryInterleavingIsSerial(p, plan, version, steps);
    FoldingIsPlanEffects(known, cs, plan, Ran(p, Fresh(plan, version), steps).log);
  }
}
