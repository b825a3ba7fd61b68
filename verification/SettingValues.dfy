/**
 What is typed and what is decided: the value a word is saved as under each kind, the words that are
 no key, and that the last command accepted for a key is what the level ends with.
 */
module SettingValues {
  import opened Wrappers
  import opened Strings
  import opened Decimals
  import opened Versioned
  import opened Settings
  import opened SettingsRuns
  import Client

  // ---------------------------------------------------------------- words and numbers

  lemma FlagWords()
    ensures SettingValue(Some(FLAG), "true") == Flag(true)
    ensures SettingValue(Some(FLAG), "false") == Flag(false)
  {}

  predicate AllDigits(s: string) { s != "" && forall c | c in s :: IsDigit(c) }

  /** `raw` is `n` in decimal, with a sign or none. */
  predicate SpellsWith(raw: string, sign: string, digits: string, n: int) {
    && raw == sign + digits && sign in {"", "+", "-"} && AllDigits(digits)
    && n == if sign == "-" then 0 - NumberOf(digits) else NumberOf(digits)
  }

  predicate Fits(n: int) { -Client.MAX_INT - 1 <= n <= Client.MAX_INT }

  /** Every numeral is read as its number, where 64 bits hold it. */
  lemma NumeralIsRead(raw: string, sign: string, digits: string, n: int)
    requires SpellsWith(raw, sign, digits, n)
    ensures Client.Atoi(raw) == if Fits(n) then Some(n) else None
  {
    assert digits[0] in digits;
    assert raw[|sign|] == digits[0] && raw[|sign|..] == digits && raw[..|sign|] == sign;
  }

  /** And nothing else is. */
  lemma OnlyNumeralsAreRead(raw: string)
    requires Client.Atoi(raw).Some?
    ensures exists sign, digits :: SpellsWith(raw, sign, digits, Client.Atoi(raw).value)
  {
    var n := Client.Atoi(raw).value;
    if raw[0] == '-' || raw[0] == '+' {
      assert raw == [raw[0]] + raw[1..];
      assert SpellsWith(raw, [raw[0]], raw[1..], n);
    } else {
      assert raw == "" + raw;
      assert SpellsWith(raw, "", raw, n);
    }
  }

  /** A number typed under COUNT is that number, and any other word is sent as it is. */
  lemma CountWords(raw: string, sign: string, digits: string, n: int)
    ensures SpellsWith(raw, sign, digits, n) ==>
              SettingValue(Some(COUNT), raw) == if Fits(n) then Number(n) else Word(raw)
    ensures (forall s, d, m :: !SpellsWith(raw, s, d, m)) ==> SettingValue(Some(COUNT), raw) == Word(raw)
  {
    if SpellsWith(raw, sign, digits, n) { NumeralIsRead(raw, sign, digits, n); }
    if Client.Atoi(raw).Some? { OnlyNumeralsAreRead(raw); }
  }

  /** A number as it is written out is that number. */
  lemma CountOfDigits(n: nat)
    requires n <= Client.MAX_INT
    ensures SettingValue(Some(COUNT), Digits(n)) == Number(n)
  {
    NumberOfDigits(n);
    assert "" + Digits(n) == Digits(n);
    CountWords(Digits(n), "", Digits(n), n);
  }

  /** Under any other kind, and where a flag is neither word, it is sent as it is. */
  lemma OtherWords(kind: Option<Kind>, raw: string)
    requires kind !in {Some(COUNT), Some(CHOICES)} && (kind == Some(FLAG) ==> raw != "true" && raw != "false")
    ensures SettingValue(kind, raw) == Word(raw)
  {}

  // ---------------------------------------------------------------- choices

  /** A word with blanks around it. */
  datatype Padded = Padded(before: string, word: string, after: string)

  function TextOf(p: Padded): string { p.before + p.word + p.after }

  predicate IsChoice(p: Padded) {
    && Blank(p.before) && Blank(p.after) && ',' !in p.word
    && (p.word != "" ==> !IsSpace(p.word[0]) && !IsSpace(p.word[|p.word| - 1]))
  }

  /** The words with commas between them. */
  function Listed(ps: seq<Padded>): string
    requires ps != []
  {
    if |ps| == 1 then TextOf(ps[0]) else TextOf(ps[0]) + ("," + Listed(ps[1..]))
  }

  function WordsOf(ps: seq<Padded>): (words: seq<string>)
    ensures |words| == |ps| && forall i | 0 <= i < |ps| :: words[i] == ps[i].word
  {
    seq(|ps|, i requires 0 <= i < |ps| => ps[i].word)
  }

  lemma ChoiceText(p: Padded)
    requires IsChoice(p)
    ensures ',' !in TextOf(p) && TrimSpace(TextOf(p)) == p.word
  {
    if p.word == "" {
      assert forall c | c in p.before + p.after :: c in p.before || c in p.after;
      assert TextOf(p) == p.before + p.after;
      BlankTrimsToNothing(p.before + p.after);
    } else {
      Trimmed(p.before, p.word, p.after);
    }
  }

  /** One text in front of a comma is split off. */
  lemma SplitsOff(text: string, rest: string)
    requires ',' !in text
    ensures SplitCommas(text) == [text]
    ensures SplitCommas(text + ("," + rest)) == [text] + SplitCommas(rest)
  {
    assert text + "" == text;
    UpToFirst(text, ',', "");
    UpToFirst(text, ',', "," + rest);
    var all := text + ("," + rest);
    assert all[..|text|] == text && all[|text| + 1..] == rest;
  }

  lemma {:induction false} ListedReads(ps: seq<Padded>)
    requires ps != [] && forall p | p in ps :: IsChoice(p)
    ensures TrimmedAll(SplitCommas(Listed(ps))) == WordsOf(ps)
  {
    ChoiceText(ps[0]);
    if |ps| == 1 {
      SplitsOff(TextOf(ps[0]), "");
      assert [TextOf(ps[0])][1..] == [];
    } else {
      SplitsOff(TextOf(ps[0]), Listed(ps[1..]));
      ListedReads(ps[1..]);
      OneMoreTrimmed(TextOf(ps[0]), SplitCommas(Listed(ps[1..])));
      assert WordsOf(ps) == [ps[0].word] + WordsOf(ps[1..]);
    }
  }

  lemma OneMoreTrimmed(text: string, rest: seq<string>)
    ensures TrimmedAll([text] + rest) == [TrimSpace(text)] + TrimmedAll(rest)
  {
    assert ([text] + rest)[1..] == rest;
  }

  /** Words listed with commas are those choices, in order, whatever blanks stand around them. */
  lemma ChoiceWords(ps: seq<Padded>)
    requires ps != [] && forall p | p in ps :: IsChoice(p)
    ensures SettingValue(Some(CHOICES), Listed(ps)) == Choices(WordsOf(ps))
  {
    ListedReads(ps);
  }

  // ---------------------------------------------------------------- the words that are no key

  lemma {:induction false} LowerReads(s: string)
    ensures |Lower(s)| == |s|
    ensures forall i | 0 <= i < |s| ::
              Lower(s)[i] == if 'A' <= s[i] <= 'Z' then 'a' + (s[i] - 'A') else s[i]
  {
    if s != "" { LowerReads(s[1..]); }
  }

  predicate IsSwitch(key: string, which: Switch) {
    || (key == "metering" && which == METERING)
    || (key == "owners_change_address" && which == OWNERS_CHANGE_ADDRESS)
    || (key == "owners_own_domains" && which == OWNERS_OWN_DOMAINS)
  }

  /** A switch is set on and off by their words in any letters, by nothing else, and cleared is off. */
  lemma SwitchesRead(key: string, which: Switch, word: string, locked: bool)
    requires IsSwitch(key, which)
    ensures ReadCommand([key], false, locked) == Some(SetSwitch(which, false))
    ensures ReadCommand([key, word], true, locked)
         == if Lower(word) in {"on", "true", "yes"} then Some(SetSwitch(which, true))
            else if Lower(word) in {"off", "false", "no"} then Some(SetSwitch(which, false))
            else None
  {}

  /** The cooldown is a number, and cleared is none. */
  lemma CooldownReads(raw: string, sign: string, digits: string, n: int, locked: bool)
    requires SpellsWith(raw, sign, digits, n)
    ensures ReadCommand(["address_change_cooldown_days"], false, locked) == Some(SetCooldown(None))
    ensures ReadCommand(["address_change_cooldown_days", raw], true, locked)
         == if Fits(n) then Some(SetCooldown(Some(n))) else None
  {
    NumeralIsRead(raw, sign, digits, n);
  }

  /** Of some words, those that are not empty. */
  function Said(words: seq<string>): seq<string> {
    if words == [] then [] else (if words[0] == "" then [] else [words[0]]) + Said(words[1..])
  }

  lemma {:induction false} NonBlankAreSaid(parts: seq<string>)
    ensures NonBlank(parts) == Said(TrimmedAll(parts))
  {
    if parts != [] {
      NonBlankAreSaid(parts[1..]);
      assert TrimmedAll(parts)[1..] == TrimmedAll(parts[1..]);
    }
  }

  /** The reserved names are those listed that are not blank; none is no command, and cleared is none of them. */
  lemma ReservedNamesRead(ps: seq<Padded>, locked: bool)
    requires ps != [] && forall p | p in ps :: IsChoice(p)
    ensures ReadCommand(["reserved_short_names"], false, locked) == Some(Reserve([]))
    ensures ReadCommand(["reserved_short_names", Listed(ps)], true, locked)
         == if Said(WordsOf(ps)) == [] then None else Some(Reserve(Said(WordsOf(ps))))
  {
    ListedReads(ps);
    NonBlankAreSaid(SplitCommas(Listed(ps)));
    ReservedText(Listed(ps), locked);
  }

  lemma ReservedText(text: string, locked: bool)
    ensures ReadCommand(["reserved_short_names"], false, locked) == Some(Reserve([]))
    ensures var names := NonBlank(SplitCommas(text));
            ReadCommand(["reserved_short_names", text], true, locked)
            == if names == [] then None else Some(Reserve(names))
  {
    OneArgument(text);
  }

  lemma FirstAndBehind(a: seq<string>, b: seq<string>)
    requires a != []
    ensures (a + b)[0] == a[0] && (a + b)[1..] == a[1..] + b
  {}

  lemma Regrouped(x: seq<string>, y: seq<string>, z: seq<string>)
    ensures x + (y + z) == x + y + z
  {}

  /** Names in several arguments are those of each, in order. */
  lemma {:induction false} NamesInTurn(a: seq<string>, b: seq<string>)
    ensures NamesIn(a + b) == NamesIn(a) + NamesIn(b)
  {
    if a == [] {
      assert a + b == b && [] + NamesIn(b) == NamesIn(b);
    } else {
      FirstAndBehind(a, b);
      NamesInTurn(a[1..], b);
      Regrouped(NonBlank(SplitCommas(a[0])), NamesIn(a[1..]), NamesIn(b));
    }
  }

  /** They may be typed as any number of arguments. */
  lemma ReservedArgumentsRead(rest: seq<string>, locked: bool)
    requires rest != []
    ensures ReadCommand(["reserved_short_names"] + rest, true, locked)
         == if NamesIn(rest) == [] then None else Some(Reserve(NamesIn(rest)))
  {
    assert (["reserved_short_names"] + rest)[1..] == rest;
  }

  lemma OneArgument(text: string)
    ensures NamesIn([text]) == NonBlank(SplitCommas(text))
    ensures ["reserved_short_names", text][1..] == [text]
  {
    assert [text][1..] == [];
  }

  // ---------------------------------------------------------------- what the level ends with

  /** Of the accepted commands, none from `from` on names the key. */
  predicate NoneNames(cs: Commands, log: seq<nat>, from: nat, k: Key) {
    forall i | from <= i < |log| :: !Names(cs(log[i]), k)
  }

  /** The key is decided as the command's word reads under its kind, or is not once it is cleared. */
  predicate DecidedBy(store: Store, kind: Kind, c: Command, k: Key)
    requires Names(c, k)
  {
    if c.ClearKey? then k !in store.decided
    else k in store.decided && store.decided[k] == Decision(SettingValue(Some(kind), c.raw), c.locked)
  }

  /** What one command leaves decided at a key. */
  lemma EffectOn(known: map<Key, Kind>, s: Store, c: Command, k: Key)
    requires k in known
    ensures var after := if Effect(known, s, c).Some? then Effect(known, s, c).value else s;
            if Names(c, k) then DecidedBy(after, known[k], c, k) else AgreeAt(after.decided, s.decided, k)
  {}

  lemma EffectsNext(known: map<Key, Kind>, cs: Commands, s: Store, log: seq<nat>, k: Key)
    requires k in known && log != []
    ensures var before, last := Effects(known, cs, s, log[..|log| - 1]), cs(log[|log| - 1]);
            var after := Effects(known, cs, s, log);
            if Names(last, k) then DecidedBy(after, known[k], last, k) else AgreeAt(after.decided, before.decided, k)
  {
    EffectOn(known, Effects(known, cs, s, log[..|log| - 1]), cs(log[|log| - 1]), k);
  }

  /** The last accepted command for a key decides it. */
  lemma {:induction false} TheLastDecides(
    known: map<Key, Kind>, cs: Commands, s: Store, log: seq<nat>, at: nat, k: Key)
    requires k in known && at < |log| && Names(cs(log[at]), k) && NoneNames(cs, log, at + 1, k)
    ensures DecidedBy(Effects(known, cs, s, log), known[k], cs(log[at]), k)
    decreases |log|
  {
    EffectsNext(known, cs, s, log, k);
    if at < |log| - 1 {
      NoneInFront(cs, log, at, k);
      TheLastDecides(known, cs, s, log[..|log| - 1], at, k);
    }
  }

  lemma NoneInFront(cs: Commands, log: seq<nat>, at: nat, k: Key)
    requires at < |log| - 1 && NoneNames(cs, log, at + 1, k)
    ensures NoneNames(cs, log[..|log| - 1], at + 1, k) && !Names(cs(log[|log| - 1]), k)
    ensures log[..|log| - 1][at] == log[at]
  {}

  /**
   However many clients there are and however they interleave, from version 1 on: the last accepted
   command for a key is what the level ends with there, as its word reads under the key's kind.
   */
  lemma TheLastAcceptedDecides(
    known: map<Key, Kind>, cs: Commands, s: Store, version: int, steps: seq<Step>, at: nat, k: Key)
    requires WellFormed(known, s) && version > 0 && k in known
    requires var log := Ran(SettingsProtocol(known, cs), Fresh(s, version), steps).log;
             at < |log| && Names(cs(log[at]), k) && NoneNames(cs, log, at + 1, k)
    ensures var end := Ran(SettingsProtocol(known, cs), Fresh(s, version), steps);
            DecidedBy(end.store, known[k], cs(end.log[at]), k)
  {
    NoChangeIsLost(known, cs, s, version, steps);
    var end := Ran(SettingsProtocol(known, cs), Fresh(s, version), steps);
    assert Serial(known, cs, s, version, steps);
    TheLastDecides(known, cs, s, end.log, at, k);
  }

  /** So a flag whose last accepted command sets it to `true` or `false` is that in the end. */
  lemma AFlagSetIsDecided(
    known: map<Key, Kind>, cs: Commands, s: Store, version: int, steps: seq<Step>, at: nat, k: Key, on: bool)
    requires WellFormed(known, s) && version > 0 && k in known && known[k] == FLAG
    requires var log := Ran(SettingsProtocol(known, cs), Fresh(s, version), steps).log;
             && at < |log| && Names(cs(log[at]), k) && NoneNames(cs, log, at + 1, k)
             && cs(log[at]).SetKey? && cs(log[at]).raw == if on then "true" else "false"
    ensures var end := Ran(SettingsProtocol(known, cs), Fresh(s, version), steps);
            k in end.store.decided && end.store.decided[k] == Decision(Flag(on), cs(end.log[at]).locked)
  {
    TheLastAcceptedDecides(known, cs, s, version, steps, at, k);
    FlagWords();
  }

  /** The last accepted switch, cooldown or list of reserved names is what stands in the end. */
  lemma {:induction false} TheLastStands(known: map<Key, Kind>, cs: Commands, s: Store, log: seq<nat>, at: nat)
    requires at < |log|
    ensures var after, c := Effects(known, cs, s, log), cs(log[at]);
            && (c.SetSwitch? && (forall i | at < i < |log| :: !(cs(log[i]).SetSwitch? && cs(log[i]).which == c.which))
                ==> c.which in after.switches && after.switches[c.which] == c.on)
            && (c.SetCooldown? && (forall i | at < i < |log| :: !cs(log[i]).SetCooldown?)
                ==> after.cooldown == c.days)
            && (c.Reserve? && (forall i | at < i < |log| :: !cs(log[i]).Reserve?)
                ==> after.reserved == Some(c.names))
    decreases |log|
  {
    if at < |log| - 1 {
      var front := log[..|log| - 1];
      assert forall i | 0 <= i < |front| :: front[i] == log[i];
      TheLastStands(known, cs, s, front, at);
    }
  }
}
