/**
 Former flag names (`cmd/hubctl/FlagAliases.go`): a command's arguments are rewritten to today's
 names before anything is parsed, and a flag that became a path argument is put in its place.
 */
module FlagAliases {
  import opened Wrappers
  import opened Strings

  datatype Alias = Alias(former: string, now: string, value: string, position: Option<nat>, words: map<string, string>)

  function Renamed(former: string, now: string): Alias { Alias(former, now, "", None, map[]) }
  function StandsFor(former: string, now: string, value: string): Alias { Alias(former, now, value, None, map[]) }
  function BecamePositional(former: string, at: nat): Alias { Alias(former, "", "", Some(at), map[]) }
  function RenamedWithWords(former: string, now: string, words: map<string, string>): Alias {
    Alias(former, now, "", None, words)
  }

  // ---------------------------------------------------------------- reading one argument

  function TrimDashes(s: string): string { if s != "" && s[0] == '-' then TrimDashes(s[1..]) else s }

  datatype Flag = Flag(name: string, value: string, hasValue: bool)

  /** `--name`, `-name` or `--name=value`; anything else is no flag. */
  function SplitFlag(arg: string): Flag {
    if !("-" <= arg) || arg == "-" || arg == "--" then Flag("", "", false)
    else
      var name := TrimDashes(arg);
      var at := UpTo(name, '=');
      if at < |name| then Flag(name[..at], name[at + 1..], true) else Flag(name, "", false)
  }

  function FormerName(aliases: seq<Alias>, name: string): Option<Alias> {
    if name == "" || aliases == [] then None
    else if aliases[0].former == name then Some(aliases[0])
    else FormerName(aliases[1..], name)
  }

  /** The argument spells a former name. */
  predicate IsFormer(aliases: seq<Alias>, arg: string) { FormerName(aliases, SplitFlag(arg).name).Some? }

  // ---------------------------------------------------------------- reading all of them

  /** What the arguments read as: one kept as it is, a former name rewritten, or one moved to a position. */
  datatype Piece =
    | Kept(taken: seq<string>)
    | Rewritten(taken: seq<string>, alias: Alias, text: Option<string>)
    | Moved(taken: seq<string>, alias: Alias, position: nat, value: string)

  /** A former value the next argument spells, where the alias has words and none came with the flag. */
  predicate TakesWord(a: Alias, f: Flag, args: seq<string>) {
    a.words != map[] && !f.hasValue && |args| > 1 && args[1] in a.words && a.words[args[1]] != ""
  }

  function Worded(a: Alias, value: string, hasValue: bool): string {
    if hasValue && value in a.words then a.words[value] else value
  }

  /** What the first argument reads as, with the one behind it where it takes that as its value. */
  function First(aliases: seq<Alias>, args: seq<string>): (p: Piece)
    requires args != []
    ensures |p.taken| == 1 || |p.taken| == 2
    ensures p.taken <= args
  {
    var f := SplitFlag(args[0]);
    var found := FormerName(aliases, f.name);
    if found.None? then Kept(args[..1])
    else
      var a := found.value;
      var word := TakesWord(a, f, args);
      var hasValue := f.hasValue || word;
      var value := Worded(a, if word then args[1] else f.value, hasValue);
      var taken := if word then args[..2] else args[..1];
      if a.position.Some? then
        if !hasValue && |args| > 1 then Moved(args[..2], a, a.position.value, args[1])
        else Moved(taken, a, a.position.value, value)
      else if a.value != "" then
        Rewritten(taken, a, if !hasValue || value == "true" then Some("--" + a.now + "=" + a.value) else None)
      else if hasValue then Rewritten(taken, a, Some("--" + a.now + "=" + value))
      else Rewritten(taken, a, Some("--" + a.now))
  }

  function Pieces(aliases: seq<Alias>, args: seq<string>): seq<Piece>
    decreases |args|
  {
    if args == [] then []
    else
      var p := First(aliases, args);
      [p] + Pieces(aliases, args[|p.taken|..])
  }

  function Text(p: Piece): seq<string> {
    match p
    case Kept(taken) => taken
    case Rewritten(_, _, text) => if text.Some? then [text.value] else []
    case Moved(_, _, _, _) => []
  }

  function Texts(ps: seq<Piece>): seq<string> { if ps == [] then [] else Text(ps[0]) + Texts(ps[1..]) }

  function KeptOf(ps: seq<Piece>): seq<string> {
    if ps == [] then [] else (if ps[0].Kept? then ps[0].taken else []) + KeptOf(ps[1..])
  }

  function RewrittenOf(ps: seq<Piece>): seq<string> {
    if ps == [] then [] else (if ps[0].Rewritten? then Text(ps[0]) else []) + RewrittenOf(ps[1..])
  }

  function Taken(ps: seq<Piece>): seq<string> { if ps == [] then [] else ps[0].taken + Taken(ps[1..]) }

  function Used(ps: seq<Piece>): seq<Alias> {
    if ps == [] then [] else (if ps[0].Kept? then [] else [ps[0].alias]) + Used(ps[1..])
  }

  /** The values moved, the last one to a position winning, over those already there. */
  function MovedOver(moved: map<nat, string>, ps: seq<Piece>): map<nat, string>
    decreases |ps|
  {
    if ps == [] then moved
    else MovedOver(if ps[0].Moved? then moved[ps[0].position := ps[0].value] else moved, ps[1..])
  }

  // ---------------------------------------------------------------- putting the moved ones in place

  function Leading(out: seq<string>): (n: nat)
    ensures n <= |out|
    ensures forall i | 0 <= i < n :: !("-" <= out[i])
    ensures n < |out| ==> "-" <= out[n]
  {
    if out == [] || "-" <= out[0] then 0 else 1 + Leading(out[1..])
  }

  function Inserted(s: seq<string>, at: nat, value: string): seq<string> {
    var i := if at <= |s| then at else |s|;
    s[..i] + [value] + s[i..]
  }

  /** The positional arguments once the positions below `n` are seen to. */
  function Placed(positional: seq<string>, moved: map<nat, string>, n: nat): seq<string> {
    if n == 0 then positional
    else
      var before := Placed(positional, moved, n - 1);
      if n - 1 in moved then Inserted(before, n - 1, moved[n - 1]) else before
  }

  /** How many of the moved positions lie below `n`. */
  function Below(moved: map<nat, string>, n: nat): nat {
    if n == 0 then 0 else Below(moved, n - 1) + if n - 1 in moved then 1 else 0
  }

  /** Where the loop over positions stops. */
  function Bound(out: seq<string>, moved: map<nat, string>): nat { Leading(out) + |moved| }

  function Arranged(out: seq<string>, moved: map<nat, string>): seq<string> {
    var n := Leading(out);
    Placed(out[..n], moved, n + |moved|) + out[n..]
  }

  function Result(aliases: seq<Alias>, args: seq<string>): seq<string> {
    var ps := Pieces(aliases, args);
    Arranged(Texts(ps), MovedOver(map[], ps))
  }

  // ---------------------------------------------------------------- the loop

  /** What the loop has, and what is still to be read. */
  ghost predicate ReadUpTo(
    all: seq<Piece>, out: seq<string>, moved: map<nat, string>, used: seq<Alias>, rest: seq<Piece>) {
    && Texts(all) == out + Texts(rest)
    && Used(all) == used + Used(rest)
    && MovedOver(map[], all) == MovedOver(moved, rest)
  }

  lemma ReadOne(
    all: seq<Piece>, out: seq<string>, moved: map<nat, string>, used: seq<Alias>, p: Piece, rest: seq<Piece>)
    requires ReadUpTo(all, out, moved, used, [p] + rest)
    ensures ReadUpTo(all, out + Text(p), if p.Moved? then moved[p.position := p.value] else moved,
                     if p.Kept? then used else used + [p.alias], rest)
  {
    assert ([p] + rest)[1..] == rest;
    assert out + (Text(p) + Texts(rest)) == out + Text(p) + Texts(rest);
    if !p.Kept? { assert used + ([p.alias] + Used(rest)) == used + [p.alias] + Used(rest); }
  }

  lemma FirstThenRest(aliases: seq<Alias>, args: seq<string>, i: nat)
    requires i < |args|
    ensures var p := First(aliases, args[i..]);
            i + |p.taken| <= |args| && Pieces(aliases, args[i..]) == [p] + Pieces(aliases, args[i + |p.taken|..])
  {
    var p := First(aliases, args[i..]);
    assert args[i..][|p.taken|..] == args[i + |p.taken|..];
  }

  lemma OneFurther(
    aliases: seq<Alias>, args: seq<string>, i: nat,
    all: seq<Piece>, out: seq<string>, moved: map<nat, string>, used: seq<Alias>)
    requires i < |args| && ReadUpTo(all, out, moved, used, Pieces(aliases, args[i..]))
    ensures var p := First(aliases, args[i..]);
            && i + |p.taken| <= |args|
            && ReadUpTo(all, out + Text(p), if p.Moved? then moved[p.position := p.value] else moved,
                        if p.Kept? then used else used + [p.alias], Pieces(aliases, args[i + |p.taken|..]))
  {
    var p := First(aliases, args[i..]);
    FirstThenRest(aliases, args, i);
    ReadOne(all, out, moved, used, p, Pieces(aliases, args[i + |p.taken|..]));
  }

  method ReadArgs(aliases: seq<Alias>, args: seq<string>)
    returns (out: seq<string>, moved: map<nat, string>, used: seq<Alias>)
    ensures var ps := Pieces(aliases, args);
            out == Texts(ps) && moved == MovedOver(map[], ps) && used == Used(ps)
  {
    out, moved, used := [], map[], [];
    var i := 0;
    ghost var all := Pieces(aliases, args);
    assert args[0..] == args;
    while i < |args|
      invariant i <= |args|
      invariant ReadUpTo(all, out, moved, used, Pieces(aliases, args[i..]))
    {
      i, out, moved, used := ReadTurn(aliases, args, i, all, out, moved, used);
    }
    assert args[|args|..] == [];
  }

  method ReadTurn(
    aliases: seq<Alias>, args: seq<string>, start: nat,
    ghost all: seq<Piece>, out: seq<string>, moved: map<nat, string>, used: seq<Alias>)
    returns (i: nat, out': seq<string>, moved': map<nat, string>, used': seq<Alias>)
    requires start < |args| && ReadUpTo(all, out, moved, used, Pieces(aliases, args[start..]))
    ensures start < i <= |args| && ReadUpTo(all, out', moved', used', Pieces(aliases, args[i..]))
  {
    OneFurther(aliases, args, start, all, out, moved, used);
    i, out', moved', used' := ReadNext(aliases, args, start, out, moved, used);
  }

  /** One turn of the loop, from argument `i`. */
  method ReadNext(
    aliases: seq<Alias>, args: seq<string>, start: nat, out: seq<string>, moved: map<nat, string>, used: seq<Alias>)
    returns (i: nat, out': seq<string>, moved': map<nat, string>, used': seq<Alias>)
    requires start < |args|
    ensures var p := First(aliases, args[start..]);
            && i == start + |p.taken| <= |args|
            && out' == out + Text(p)
            && moved' == (if p.Moved? then moved[p.position := p.value] else moved)
            && used' == if p.Kept? then used else used + [p.alias]
  {
    i, out', moved', used' := start, out, moved, used;
    var f := SplitFlag(args[i]);
    var found := FormerName(aliases, f.name);
    if found.None? {
      return i + 1, out + [args[i]], moved, used;
    }
    var alias := found.value;
    var value, hasValue := f.value, f.hasValue;
    used' := used + [alias];
    if alias.words != map[] {
      if !hasValue && i + 1 < |args| && args[i + 1] in alias.words && alias.words[args[i + 1]] != "" {
        i := i + 1;
        value, hasValue := args[i], true;
      }
      if value in alias.words && hasValue {
        value := alias.words[value];
      }
    }
    if alias.position.Some? {
      if !hasValue && i + 1 < |args| {
        i := i + 1;
        value := args[i];
      }
      moved' := moved[alias.position.value := value];
    } else if alias.value != "" {
      if !hasValue || value == "true" {
        out' := out + ["--" + alias.now + "=" + alias.value];
      }
    } else if hasValue {
      out' := out + ["--" + alias.now + "=" + value];
    } else {
      out' := out + ["--" + alias.now];
    }
    assert out + [] == out;
    i := i + 1;
  }

  method WithFormerNames(aliases: seq<Alias>, args: seq<string>) returns (result: seq<string>, used: seq<Alias>)
    ensures result == Result(aliases, args)
    ensures used == Used(Pieces(aliases, args))
  {
    if aliases == [] {
      NoFormerName(aliases, args);
      return args, [];
    }
    var out, moved;
    out, moved, used := ReadArgs(aliases, args);
    result := Arrange(out, moved);
  }

  method Arrange(out: seq<string>, moved: map<nat, string>) returns (result: seq<string>)
    ensures result == Arranged(out, moved)
  {
    if moved == map[] {
      ArrangedNothing(out);
      return out;
    }
    var leading := CountLeading(out);
    var positional := Place(out[..leading], moved, leading + |moved|);
    result := positional + out[leading..];
  }

  method CountLeading(out: seq<string>) returns (leading: nat)
    ensures leading == Leading(out)
  {
    leading := 0;
    while leading < |out| && !("-" <= out[leading])
      invariant leading <= Leading(out)
    {
      LeadingReached(out, leading);
      leading := leading + 1;
    }
    LeadingReached(out, leading);
  }

  /** The loop over positions. */
  method Place(start: seq<string>, moved: map<nat, string>, bound: nat) returns (positional: seq<string>)
    ensures positional == Placed(start, moved, bound)
  {
    positional := start;
    for at := 0 to bound
      invariant positional == Placed(start, moved, at)
    {
      if at in moved {
        var cut := if at <= |positional| then at else |positional|;
        positional := positional[..cut] + ([moved[at]] + positional[cut..]);
        assert positional == Inserted(Placed(start, moved, at), at, moved[at]);
      }
    }
  }

  lemma LeadingReached(out: seq<string>, n: nat)
    requires n <= Leading(out)
    ensures n < |out| && !("-" <= out[n]) ==> n < Leading(out)
    ensures n == |out| || "-" <= out[n] ==> n == Leading(out)
  {}

  lemma ArrangedNothing(out: seq<string>)
    ensures Arranged(out, map[]) == out
  {
    PlacedNothing(out[..Leading(out)], Leading(out));
  }

  lemma {:induction false} PlacedNothing(positional: seq<string>, n: nat)
    ensures Placed(positional, map[], n) == positional
  {
    if n > 0 { PlacedNothing(positional, n - 1); }
  }

  /** Arguments with no former name come back unchanged. */
  lemma NoFormerName(aliases: seq<Alias>, args: seq<string>)
    requires forall arg | arg in args :: !IsFormer(aliases, arg)
    ensures Result(aliases, args) == args && Used(Pieces(aliases, args)) == []
  {
    AllKept(aliases, args);
    ArrangedNothing(args);
  }

  lemma KeptInFront(taken: seq<string>, ps: seq<Piece>)
    ensures var all := [Kept(taken)] + ps;
            Texts(all) == taken + Texts(ps) && Used(all) == Used(ps) && MovedOver(map[], all) == MovedOver(map[], ps)
  {
    assert ([Kept(taken)] + ps)[1..] == ps && [] + Used(ps) == Used(ps);
  }

  lemma {:induction false} AllKept(aliases: seq<Alias>, args: seq<string>)
    requires forall arg | arg in args :: !IsFormer(aliases, arg)
    ensures var ps := Pieces(aliases, args);
            Texts(ps) == args && Used(ps) == [] && MovedOver(map[], ps) == map[]
    decreases |args|
  {
    if args != [] {
      assert args[0] in args;
      AllKept(aliases, args[1..]);
      KeptInFront(args[..1], Pieces(aliases, args[1..]));
      assert args == args[..1] + args[1..];
    }
  }
}
