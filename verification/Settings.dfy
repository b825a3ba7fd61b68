/**
 The installation's settings (`cmd/hubctl/AdminInstance.go`): one key of the level is set or
 cleared by reading it whole, changing it in place and sending it back.
 */
module Settings {
  import opened Wrappers
  import opened Strings
  import Client

  datatype Kind = COUNT | FLAG | CHOICE | CHOICES | LINK | TEXT | LOCALE | TIME_ZONE

  datatype Value = NoValue | Number(number: int) | Flag(flag: bool) | Choices(choices: seq<string>) | Word(word: string)

  /** One key as it travels; `kind` is what the server declares, which a save does not say again. */
  datatype Entry = Entry(decided: bool, value: Value, locked: bool, kind: Option<Kind>)

  type Area = map<string, Entry>

  datatype Switch = METERING | OWNERS_CHANGE_ADDRESS | OWNERS_OWN_DOMAINS

  /** The level as it travels: the areas that are there, and what is beside them. */
  datatype Level = Level(
    areas: map<string, Area>, switches: map<Switch, bool>, cooldown: Option<int>, reserved: Option<seq<string>>)

  const AREAS: set<string> := {"sign_in", "legal", "localisation", "quotas", "ai", "module"}

  datatype Command =
    | SetKey(area: string, name: string, raw: string, locked: bool)
    | ClearKey(area: string, name: string)
    | SetSwitch(which: Switch, on: bool)
    | SetCooldown(days: Option<int>)
    | Reserve(names: seq<string>)

  // ---------------------------------------------------------------- values

  /** `strings.Split(s, ",")`. */
  function SplitCommas(s: string): (parts: seq<string>)
    ensures parts != []
    decreases |s|
  {
    var n := UpTo(s, ',');
    if n == |s| then [s] else [s[..n]] + SplitCommas(s[n + 1..])
  }

  function TrimmedAll(parts: seq<string>): seq<string> {
    if parts == [] then [] else [TrimSpace(parts[0])] + TrimmedAll(parts[1..])
  }

  /** `settingValue`: a word that does not read as its kind is sent as the word. */
  function SettingValue(kind: Option<Kind>, raw: string): Value {
    if kind == Some(COUNT) && Client.Atoi(raw).Some? then Number(Client.Atoi(raw).value)
    else if kind == Some(FLAG) && (raw == "true" || raw == "false") then Flag(raw == "true")
    else if kind == Some(CHOICES) then Choices(TrimmedAll(SplitCommas(raw)))
    else Word(raw)
  }

  // ---------------------------------------------------------------- the change

  /** The level with one command's change made to it; none where the command names no key of the level. */
  function Changed(l: Level, c: Command): Option<Level> {
    match c
    case SetKey(area, name, raw, locked) =>
      if area in l.areas && name in l.areas[area] then
        var entry := Entry(true, SettingValue(l.areas[area][name].kind, raw), locked, None);
        Some(l.(areas := l.areas[area := l.areas[area][name := entry]]))
      else None
    case ClearKey(area, name) =>
      if area in l.areas && name in l.areas[area]
      then Some(l.(areas := l.areas[area := l.areas[area] - {name}])) else None
    case SetSwitch(which, on) => Some(l.(switches := l.switches[which := on]))
    case SetCooldown(days) => Some(l.(cooldown := days))
    case Reserve(names) => Some(l.(reserved := Some(names)))
  }

  class Document {
    var areas: map<string, Area>
    var switches: map<Switch, bool>
    var cooldown: Option<int>
    var reserved: Option<seq<string>>

    function Now(): Level reads this { Level(areas, switches, cooldown, reserved) }

    constructor (l: Level)
      ensures Now() == l
    {
      areas, switches, cooldown, reserved := l.areas, l.switches, l.cooldown, l.reserved;
    }

    /** `areaOf`: the area, made where the read answered none. */
    method AreaOf(area: string) returns (known: bool)
      modifies this`areas
      ensures known <==> area in AREAS
      ensures areas == if known && area !in old(areas) then old(areas)[area := map[]] else old(areas)
    {
      known := area in AREAS;
      if known && area !in areas {
        areas := areas[area := map[]];
      }
    }

    /** The change of one command; `ok` is whether there is something to send. */
    method Change(c: Command) returns (ok: bool)
      requires forall area | area in areas :: area in AREAS
      modifies this
      ensures ok <==> Changed(old(Now()), c).Some?
      ensures ok ==> Now() == Changed(old(Now()), c).value
    {
      match c
      case SetKey(area, name, raw, locked) =>
        ok := AreaOf(area);
        ok := ok && name in areas[area];
        if ok {
          var entry := Entry(true, SettingValue(areas[area][name].kind, raw), locked, None);
          areas := areas[area := areas[area][name := entry]];
        }
      case ClearKey(area, name) =>
        ok := AreaOf(area);
        ok := ok && name in areas[area];
        if ok {
          areas := areas[area := areas[area] - {name}];
        }
      case SetSwitch(which, on) => ok, switches := true, switches[which := on];
      case SetCooldown(days) => ok, cooldown := true, days;
      case Reserve(names) => ok, reserved := true, Some(names);
    }
  }

  // ---------------------------------------------------------------- the command line

  /** `rest`: the key and what follows it. */
  function ReadCommand(rest: seq<string>, setting: bool, locked: bool): Option<Command> {
    if |rest| == 0 || (setting && |rest| < 2) then None
    else if rest[0] == "metering" then ReadSwitch(METERING, rest, setting)
    else if rest[0] == "owners_change_address" then ReadSwitch(OWNERS_CHANGE_ADDRESS, rest, setting)
    else if rest[0] == "owners_own_domains" then ReadSwitch(OWNERS_OWN_DOMAINS, rest, setting)
    else if rest[0] == "address_change_cooldown_days" then
      if !setting then Some(SetCooldown(None))
      else
        var days := Client.Atoi(rest[1]);
        if days.Some? then Some(SetCooldown(days)) else None
    else if rest[0] == "reserved_short_names" then
      var names := if setting then NamesIn(rest[1..]) else [];
      if setting && names == [] then None else Some(Reserve(names))
    else
      var dot := UpTo(rest[0], '.');
      if dot == |rest[0]| || dot == 0 || dot + 1 == |rest[0]| then None
      else
        var area, name := rest[0][..dot], rest[0][dot + 1..];
        Some(if setting then SetKey(area, name, rest[1], locked) else ClearKey(area, name))
  }

  function Lower(s: string): string {
    if s == "" then "" else [if 'A' <= s[0] <= 'Z' then (s[0] as int + 32) as char else s[0]] + Lower(s[1..])
  }

  function ReadSwitch(which: Switch, rest: seq<string>, setting: bool): Option<Command>
    requires setting ==> |rest| >= 2
  {
    if !setting then Some(SetSwitch(which, false))
    else if Lower(rest[1]) in {"on", "true", "yes"} then Some(SetSwitch(which, true))
    else if Lower(rest[1]) in {"off", "false", "no"} then Some(SetSwitch(which, false))
    else None
  }

  function NonBlank(parts: seq<string>): seq<string> {
    if parts == [] then []
    else (if TrimSpace(parts[0]) == "" then [] else [TrimSpace(parts[0])]) + NonBlank(parts[1..])
  }

  function NamesIn(rest: seq<string>): seq<string> {
    if rest == [] then [] else NonBlank(SplitCommas(rest[0])) + NamesIn(rest[1..])
  }

  lemma NoDotInAWord(s: string)
    requires s in {"metering", "owners_change_address", "owners_own_domains",
                   "address_change_cooldown_days", "reserved_short_names"}
    ensures '.' !in s
  {}

  /** A key as `show` prints it reads as that key, whatever the name holds. */
  lemma ShownKeyReadsBack(area: string, name: string, raw: string, locked: bool)
    requires area != "" && name != "" && '.' !in area
    ensures ReadCommand([area + "." + name, raw], true, locked) == Some(SetKey(area, name, raw, locked))
    ensures ReadCommand([area + "." + name], false, locked) == Some(ClearKey(area, name))
  {
    var key := area + "." + name;
    UpToFirst(area, '.', "." + name);
    assert area + ("." + name) == key;
    assert key[|area|] == '.' && key[..|area|] == area && key[|area| + 1..] == name;
    assert '.' in key;
    if key in {"metering", "owners_change_address", "owners_own_domains",
               "address_change_cooldown_days", "reserved_short_names"} { NoDotInAWord(key); }
  }

  // ---------------------------------------------------------------- the server's level

  datatype Key = Key(area: string, name: string)

  datatype Decision = Decision(value: Value, locked: bool)

  /** What the installation has decided. */
  datatype Store = Store(
    decided: map<Key, Decision>, switches: map<Switch, bool>, cooldown: Option<int>, reserved: Option<seq<string>>)

  function NamesOf(known: map<Key, Kind>, area: string): set<string> {
    set k | k in known && k.area == area :: k.name
  }

  function EntryOf(known: map<Key, Kind>, s: Store, k: Key): Entry
    requires k in known
  {
    if k in s.decided then Entry(true, s.decided[k].value, s.decided[k].locked, Some(known[k]))
    else Entry(false, NoValue, false, Some(known[k]))
  }

  function AreaView(known: map<Key, Kind>, s: Store, area: string): (a: Area)
    ensures a.Keys == NamesOf(known, area)
    ensures forall name | Key(area, name) in known :: name in a && a[name] == EntryOf(known, s, Key(area, name))
  {
    map name | name in NamesOf(known, area) :: EntryOf(known, s, Key(area, name))
  }

  /** What a read answers: every key of every area, decided or not. */
  function View(known: map<Key, Kind>, s: Store): (l: Level)
    ensures l.areas.Keys == AREAS && forall area | area in AREAS :: l.areas[area] == AreaView(known, s, area)
  {
    Level(map area | area in AREAS :: AreaView(known, s, area), s.switches, s.cooldown, s.reserved)
  }

  predicate Decides(l: Level, k: Key) {
    k.area in l.areas && k.name in l.areas[k.area] && l.areas[k.area][k.name].decided
  }

  /** What a save decides: the keys it knows that the body decides, and nothing the body leaves out. */
  function Saved(known: map<Key, Kind>, l: Level): Store {
    Store(map k | k in known && Decides(l, k) ::
            Decision(l.areas[k.area][k.name].value, l.areas[k.area][k.name].locked),
          l.switches, l.cooldown, l.reserved)
  }

  predicate WellFormed(known: map<Key, Kind>, s: Store) {
    (forall k | k in known :: k.area in AREAS) && s.decided.Keys <= known.Keys
  }

  /** What a command means for what is decided. */
  function Effect(known: map<Key, Kind>, s: Store, c: Command): Option<Store> {
    match c
    case SetKey(area, name, raw, locked) =>
      var k := Key(area, name);
      if k in known
      then Some(s.(decided := s.decided[k := Decision(SettingValue(Some(known[k]), raw), locked)])) else None
    case ClearKey(area, name) =>
      if Key(area, name) in known then Some(s.(decided := s.decided - {Key(area, name)})) else None
    case SetSwitch(which, on) => Some(s.(switches := s.switches[which := on]))
    case SetCooldown(days) => Some(s.(cooldown := days))
    case Reserve(names) => Some(s.(reserved := Some(names)))
  }

  lemma ViewDecides(known: map<Key, Kind>, s: Store, k: Key)
    requires WellFormed(known, s) && k in known
    ensures k.area in AREAS && k.name in View(known, s).areas[k.area]
    ensures View(known, s).areas[k.area][k.name] == EntryOf(known, s, k)
    ensures Decides(View(known, s), k) <==> k in s.decided
  {}

  lemma ViewKnows(known: map<Key, Kind>, s: Store, area: string, name: string)
    requires WellFormed(known, s)
    ensures area in View(known, s).areas && name in View(known, s).areas[area] <==> Key(area, name) in known
  {
    if Key(area, name) in known { ViewDecides(known, s, Key(area, name)); }
  }

  /** A level read and sent back as it is decides what was decided. */
  lemma SendingBackChangesNothing(known: map<Key, Kind>, s: Store)
    requires WellFormed(known, s)
    ensures Saved(known, View(known, s)) == s
  {
    var back := Saved(known, View(known, s));
    forall k | k in known ensures AgreeAt(back.decided, s.decided, k) { SavedAsRead(known, s, k); }
    AgreeingMaps(known, back.decided, s.decided);
  }

  lemma SavedAsRead(known: map<Key, Kind>, s: Store, k: Key)
    requires WellFormed(known, s) && k in known
    ensures AgreeAt(Saved(known, View(known, s)).decided, s.decided, k)
  {
    ViewDecides(known, s, k);
  }

  /** Saving a level read and changed by one command is that command's effect on what is decided. */
  lemma OneCommandOneChange(known: map<Key, Kind>, s: Store, c: Command)
    requires WellFormed(known, s)
    ensures Changed(View(known, s), c).Some? <==> Effect(known, s, c).Some?
    ensures Effect(known, s, c).Some? ==>
              && Saved(known, Changed(View(known, s), c).value) == Effect(known, s, c).value
              && WellFormed(known, Effect(known, s, c).value)
  {
    if c.SetKey? || c.ClearKey? {
      ViewKnows(known, s, c.area, c.name);
      if Key(c.area, c.name) in known { OneKeyOneChange(known, s, c); }
    } else {
      SendingBackChangesNothing(known, s);
      SavedBeside(known, View(known, s), c);
    }
  }

  lemma SavedBeside(known: map<Key, Kind>, l: Level, c: Command)
    requires !c.SetKey? && !c.ClearKey?
    ensures Saved(known, Changed(l, c).value).decided == Saved(known, l).decided
  {
    var a, b := Saved(known, Changed(l, c).value).decided, Saved(known, l).decided;
    assert Changed(l, c).value.areas == l.areas;
    forall k | k in known ensures AgreeAt(a, b, k) { assert Decides(Changed(l, c).value, k) <==> Decides(l, k); }
    AgreeingMaps(known, a, b);
  }

  /** What one command leaves at key `k`. */
  lemma ChangedAt(l: Level, c: Command, k: Key)
    requires (c.SetKey? || c.ClearKey?) && Changed(l, c).Some? && k.area in l.areas && k.name in l.areas[k.area]
    ensures var after, own := Changed(l, c).value, k == Key(c.area, c.name);
            && k.area in after.areas
            && (k.name in after.areas[k.area] <==> c.SetKey? || !own)
            && (own && c.SetKey? ==>
                  after.areas[k.area][k.name]
                  == Entry(true, SettingValue(l.areas[k.area][k.name].kind, c.raw), c.locked, None))
            && (!own ==> after.areas[k.area][k.name] == l.areas[k.area][k.name])
  {}

  lemma SavedAt(known: map<Key, Kind>, s: Store, c: Command, k: Key)
    requires WellFormed(known, s) && (c.SetKey? || c.ClearKey?) && Key(c.area, c.name) in known && k in known
    requires Changed(View(known, s), c).Some?
    ensures var saved, effect := Saved(known, Changed(View(known, s), c).value), Effect(known, s, c).value;
            AgreeAt(saved.decided, effect.decided, k)
  {
    var l := View(known, s);
    ViewDecides(known, s, k);
    ChangedAt(l, c, k);
    SavedEntry(known, Changed(l, c).value, k);
    EffectAt(known, s, c, k);
  }

  /** What a command means for key `k`. */
  lemma EffectAt(known: map<Key, Kind>, s: Store, c: Command, k: Key)
    requires (c.SetKey? || c.ClearKey?) && Key(c.area, c.name) in known && k in known
    ensures var effect, own := Effect(known, s, c).value.decided, k == Key(c.area, c.name);
            && (own ==> (k in effect <==> c.SetKey?))
            && (own && c.SetKey? ==> effect[k] == Decision(SettingValue(Some(known[k]), c.raw), c.locked))
            && (!own ==> AgreeAt(effect, s.decided, k))
  {}

  lemma SavedEntry(known: map<Key, Kind>, l: Level, k: Key)
    requires k in known
    ensures k in Saved(known, l).decided <==> Decides(l, k)
    ensures Decides(l, k) ==>
              Saved(known, l).decided[k] == Decision(l.areas[k.area][k.name].value, l.areas[k.area][k.name].locked)
  {}

  lemma OneKeyOneChange(known: map<Key, Kind>, s: Store, c: Command)
    requires WellFormed(known, s) && (c.SetKey? || c.ClearKey?) && Key(c.area, c.name) in known
    requires Changed(View(known, s), c).Some?
    ensures Saved(known, Changed(View(known, s), c).value) == Effect(known, s, c).value
  {
    var saved, effect := Saved(known, Changed(View(known, s), c).value), Effect(known, s, c).value;
    forall k | k in known ensures AgreeAt(saved.decided, effect.decided, k) { SavedAt(known, s, c, k); }
    AgreeingMaps(known, saved.decided, effect.decided);
  }

  predicate AgreeAt(a: map<Key, Decision>, b: map<Key, Decision>, k: Key) {
    (k in a <==> k in b) && (k in a ==> a[k] == b[k])
  }

  lemma AgreeingMaps(known: map<Key, Kind>, a: map<Key, Decision>, b: map<Key, Decision>)
    requires a.Keys <= known.Keys && b.Keys <= known.Keys && forall k | k in known :: AgreeAt(a, b, k)
    ensures a == b
  {
    forall k ensures AgreeAt(a, b, k) {
      if k in known { assert AgreeAt(a, b, k); } else { assert k !in a.Keys && k !in b.Keys; }
    }
  }
}
