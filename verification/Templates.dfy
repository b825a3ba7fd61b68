/**
 The showcase's texts as its content writes them: literal words around the identifiers of
 objects made earlier (`"/items/" + item + "/comments"`), and what they read as while some of
 those identifiers are still placeholders.
 */
module Templates {
  import opened Wrappers
  import opened Placeholders
  import opened Json
  import opened Voices
  import opened Showcase
  import opened Replay

  /** A literal, or the identifier the content got from its write number `line`. */
  datatype Part = Lit(s: string) | Id(line: nat)

  type Template = seq<Part>

  function At(ids: seq<string>, i: nat): string { if i < |ids| then ids[i] else "" }

  function Inst(t: Template, ids: seq<string>): string {
    if t == [] then ""
    else (if t[0].Lit? then t[0].s else At(ids, t[0].line)) + Inst(t[1..], ids)
  }

  function InstBody(b: Json<Template>, ids: seq<string>): Body {
    match b
    case Null => Null
    case Bool(x) => Bool(x)
    case Number(n) => Number(n)
    case Text(t) => Text(Inst(t, ids))
    case Array(fs) => Array(InstFields(fs, ids))
    case Object(fs) => Object(InstFields(fs, ids))
  }

  function InstFields(fs: Fields<Template>, ids: seq<string>): Fields<string> {
    if fs.End? then End else Field(fs.key, InstBody(fs.value, ids), InstFields(fs.rest, ids))
  }

  // ---------------------------------------------------------------- what a template refers to

  function Lines(t: Template): set<nat> { set p | p in t && p.Id? :: p.line }

  function BodyLines(b: Json<Template>): set<nat> {
    match b
    case Text(t) => Lines(t)
    case Array(fs) => FieldsLines(fs)
    case Object(fs) => FieldsLines(fs)
    case _ => {}
  }

  function FieldsLines(fs: Fields<Template>): set<nat> {
    if fs.End? then {} else BodyLines(fs.value) + FieldsLines(fs.rest)
  }

  /** The literals, member names included, open no brace. */
  predicate PlainTemplate(t: Template) { forall p | p in t && p.Lit? :: Plain(p.s) }

  predicate PlainBody(b: Json<Template>) {
    match b
    case Text(t) => PlainTemplate(t)
    case Array(fs) => PlainFields(fs)
    case Object(fs) => PlainFields(fs)
    case _ => true
  }

  predicate PlainFields(fs: Fields<Template>) {
    fs.Field? ==> Plain(fs.key) && PlainBody(fs.value) && PlainFields(fs.rest)
  }

  // ---------------------------------------------------------------- identifiers, known and still to come

  /** What an identifier is: known, or the one voice `k` will make. */
  datatype Slot = Known(s: string) | Voiced(k: nat)

  function Spell(s: Slot): string { if s.Known? then s.s else Placeholder(s.k) }

  function Spelled(slots: seq<Slot>): (ids: seq<string>)
    ensures |ids| == |slots| && forall i | 0 <= i < |ids| :: ids[i] == Spell(slots[i])
  {
    seq(|slots|, i requires 0 <= i < |slots| => Spell(slots[i]))
  }

  function FinalOf(s: Slot, made: Made): string {
    if s.Known? then s.s else if s.k in made then made[s.k] else ""
  }

  function Finals(slots: seq<Slot>, made: Made): (ids: seq<string>)
    ensures |ids| == |slots| && forall i | 0 <= i < |ids| :: ids[i] == FinalOf(slots[i], made)
  {
    seq(|slots|, i requires 0 <= i < |slots| => FinalOf(slots[i], made))
  }

  predicate PlainSlots(slots: seq<Slot>) { forall s | s in slots && s.Known? :: Plain(s.s) }

  /** The voices the lines named are still waiting for. */
  function Awaited(lines: set<nat>, slots: seq<Slot>): set<nat> {
    set i | i in lines && i < |slots| && slots[i].Voiced? :: slots[i].k
  }

  function PartLines(p: Part): set<nat> { if p.Id? then {p.line} else {} }

  lemma LinesSplit(t: Template)
    requires t != []
    ensures Lines(t) == PartLines(t[0]) + Lines(t[1..])
    ensures PlainTemplate(t) ==> PlainTemplate(t[1..])
  {
    assert t == [t[0]] + t[1..];
  }

  lemma AwaitedSplit(a: set<nat>, b: set<nat>, slots: seq<Slot>)
    ensures Awaited(a + b, slots) == Awaited(a, slots) + Awaited(b, slots)
  {}

  /** What one identifier in front adds to a text. */
  lemma SlotInFront(i: nat, slots: seq<Slot>, rest: string, made: Made)
    requires PlainSlots(slots)
    ensures var s := At(Spelled(slots), i) + rest;
            && Refs(s) == Awaited({i}, slots) + Refs(rest)
            && (MentionsVoice(s) <==> Awaited({i}, slots) != {} || MentionsVoice(rest))
            && (Awaited({i}, slots) <= made.Keys && Refs(rest) <= made.Keys ==>
                  Substituted(s, made) == At(Finals(slots, made), i) + Substituted(rest, made))
  {
    if i < |slots| {
      assert slots[i] in slots;
      if slots[i].Known? {
        assert Awaited({i}, slots) == {};
        PlainInFront(slots[i].s, rest, made);
      } else {
        assert Awaited({i}, slots) == {slots[i].k};
        PlaceholderInFront(slots[i].k, rest, made);
      }
    } else {
      assert Awaited({i}, slots) == {};
      assert "" + rest == rest;
    }
  }

  /**
   A text of plain literals and known or awaited identifiers names exactly the awaited voices, is
   noticed to wait exactly when there is one, and resolves to the text with the final identifiers.
   */
  lemma {:induction false} InstReads(t: Template, slots: seq<Slot>, made: Made)
    requires PlainTemplate(t) && PlainSlots(slots)
    ensures Refs(Inst(t, Spelled(slots))) == Awaited(Lines(t), slots)
    ensures MentionsVoice(Inst(t, Spelled(slots))) <==> Awaited(Lines(t), slots) != {}
    ensures Awaited(Lines(t), slots) <= made.Keys ==>
              Substituted(Inst(t, Spelled(slots)), made) == Inst(t, Finals(slots, made))
  {
    if t != [] {
      var rest := Inst(t[1..], Spelled(slots));
      LinesSplit(t);
      InstReads(t[1..], slots, made);
      AwaitedSplit(PartLines(t[0]), Lines(t[1..]), slots);
      if t[0].Lit? {
        assert Awaited({}, slots) == {};
        PlainInFront(t[0].s, rest, made);
      } else {
        SlotInFront(t[0].line, slots, rest, made);
      }
    }
  }

  lemma BodyReads(b: Json<Template>, slots: seq<Slot>, made: Made)
    requires PlainBody(b) && PlainSlots(slots)
    ensures BodyRefs(InstBody(b, Spelled(slots))) == Awaited(BodyLines(b), slots)
    ensures BodyMentions(InstBody(b, Spelled(slots))) <==> Awaited(BodyLines(b), slots) != {}
    ensures Awaited(BodyLines(b), slots) <= made.Keys ==>
              Resolved(InstBody(b, Spelled(slots)), made) == Some(InstBody(b, Finals(slots, made)))
  {
    match b
    case Text(t) => InstReads(t, slots, made);
    case Array(fs) => FieldsRead(fs, slots, made);
    case Object(fs) => FieldsRead(fs, slots, made);
    case _ =>
  }

  lemma {:induction false} FieldsRead(fs: Fields<Template>, slots: seq<Slot>, made: Made)
    requires PlainFields(fs) && PlainSlots(slots)
    ensures FieldsRefs(InstFields(fs, Spelled(slots))) == Awaited(FieldsLines(fs), slots)
    ensures FieldsMention(InstFields(fs, Spelled(slots))) <==> Awaited(FieldsLines(fs), slots) != {}
    ensures Awaited(FieldsLines(fs), slots) <= made.Keys ==>
              ResolvedFields(InstFields(fs, Spelled(slots)), made) == Some(InstFields(fs, Finals(slots, made)))
  {
    if fs.Field? {
      BodyReads(fs.value, slots, made);
      FieldsRead(fs.rest, slots, made);
      assert Awaited(FieldsLines(fs), slots)
          == Awaited(BodyLines(fs.value), slots) + Awaited(FieldsLines(fs.rest), slots);
      PlainInFront(fs.key, "", made);
      assert fs.key + "" == fs.key;
    }
  }

  /** The identifiers two lists agree on are all a text needs to read the same under both. */
  lemma {:induction false} InstAgrees(t: Template, a: seq<string>, b: seq<string>)
    requires forall i | i in Lines(t) :: At(a, i) == At(b, i)
    ensures Inst(t, a) == Inst(t, b)
  {
    if t != [] {
      assert t == [t[0]] + t[1..];
      assert Lines(t[1..]) <= Lines(t);
      assert t[0].Id? ==> t[0].line in Lines(t);
      InstAgrees(t[1..], a, b);
    }
  }

  lemma BodyAgrees(v: Json<Template>, a: seq<string>, b: seq<string>)
    requires forall i | i in BodyLines(v) :: At(a, i) == At(b, i)
    ensures InstBody(v, a) == InstBody(v, b)
  {
    match v
    case Text(t) => InstAgrees(t, a, b);
    case Array(fs) => FieldsAgree(fs, a, b);
    case Object(fs) => FieldsAgree(fs, a, b);
    case _ =>
  }

  lemma {:induction false} FieldsAgree(fs: Fields<Template>, a: seq<string>, b: seq<string>)
    requires forall i | i in FieldsLines(fs) :: At(a, i) == At(b, i)
    ensures InstFields(fs, a) == InstFields(fs, b)
  {
    if fs.Field? {
      BodyAgrees(fs.value, a, b);
      FieldsAgree(fs.rest, a, b);
    }
  }

  // ---------------------------------------------------------------- leaving out empty members first

  /** An identifier that is still awaited, or known and not empty, is not empty in the end either. */
  predicate SameEmptiness(slots: seq<Slot>, made: Made) {
    forall s | s in slots && s.Voiced? && s.k in made :: made[s.k] != ""
  }

  lemma {:induction false} InstEmpty(t: Template, slots: seq<Slot>, made: Made)
    requires SameEmptiness(slots, made) && Awaited(Lines(t), slots) <= made.Keys
    ensures Inst(t, Spelled(slots)) == "" <==> Inst(t, Finals(slots, made)) == ""
  {
    if t != [] {
      assert t == [t[0]] + t[1..];
      assert Lines(t[1..]) <= Lines(t);
      assert Awaited(Lines(t[1..]), slots) <= Awaited(Lines(t), slots);
      InstEmpty(t[1..], slots, made);
      if t[0].Id? && t[0].line < |slots| {
        var s := slots[t[0].line];
        assert s in slots && t[0].line in Lines(t);
        if s.Voiced? { assert s.k in Awaited(Lines(t), slots); }
      }
    }
  }

  /** Leaving out the empty members of a body first, and resolving it after, gives the final body without them. */
  lemma {:induction false} CompactReads(fs: Fields<Template>, slots: seq<Slot>, made: Made)
    requires PlainFields(fs) && PlainSlots(slots)
    requires SameEmptiness(slots, made) && Awaited(FieldsLines(fs), slots) <= made.Keys
    ensures ResolvedFields(CompactFields(InstFields(fs, Spelled(slots))), made)
         == Some(CompactFields(InstFields(fs, Finals(slots, made))))
  {
    if fs.Field? {
      assert Awaited(FieldsLines(fs), slots)
          == Awaited(BodyLines(fs.value), slots) + Awaited(FieldsLines(fs.rest), slots);
      BodyReads(fs.value, slots, made);
      CompactReads(fs.rest, slots, made);
      if fs.value.Text? { InstEmpty(fs.value.text, slots, made); }
    }
  }
}
