/**
 What a former flag name means, whatever stands around it: the arguments are rewritten as if today's
 spelling had been written in its place.
 */
module FormerValues {
  import opened Wrappers
  import opened Strings
  import opened FlagAliases
  import opened FormerNames

  // ---------------------------------------------------------------- how a flag is spelled

  function Dashes(n: nat): string { if n == 0 then "" else "-" + Dashes(n - 1) }

  /** `--name`, or with a single dash. */
  function Bare(n: nat, name: string): string { Dashes(n) + name }

  /** `--name=value`. */
  function With(n: nat, name: string, value: string): string { Dashes(n) + (name + ("=" + value)) }

  lemma {:induction false} DashesAreTrimmed(n: nat, rest: string)
    requires rest != "" && rest[0] != '-'
    ensures TrimDashes(Dashes(n) + rest) == rest
  {
    if n == 0 {
      assert "" + rest == rest;
    } else {
      assert Dashes(n) + rest == "-" + (Dashes(n - 1) + rest);
      assert (Dashes(n) + rest)[1..] == Dashes(n - 1) + rest;
      DashesAreTrimmed(n - 1, rest);
    }
  }

  lemma {:induction false} OnlyDashes(n: nat)
    ensures |Dashes(n)| == n && forall c | c in Dashes(n) :: c == '-'
  {
    if n > 0 { OnlyDashes(n - 1); }
  }

  lemma SpelledIsAFlag(n: nat, rest: string)
    requires n > 0 && rest != "" && rest[0] != '-'
    ensures "-" <= Dashes(n) + rest && Dashes(n) + rest != "-" && Dashes(n) + rest != "--"
  {
    OnlyDashes(n);
    assert (Dashes(n) + rest)[n] == rest[0];
    assert Dashes(n)[0] in Dashes(n);
  }

  /** Both spellings read as the name, with the value or without. */
  lemma SpellingReads(n: nat, name: string, value: string)
    requires n > 0 && PlainName(name)
    ensures SplitFlag(Bare(n, name)) == Flag(name, "", false)
    ensures SplitFlag(With(n, name, value)) == Flag(name, value, true)
  {
    SpelledIsAFlag(n, name);
    DashesAreTrimmed(n, name);
    NoEquals(name);
    assert name[..|name|] == name;
    var all := name + ("=" + value);
    SpelledIsAFlag(n, all);
    DashesAreTrimmed(n, all);
    UpToFirst(name, '=', "=" + value);
    assert all[..|name|] == name && all[|name|] == '=' && all[|name| + 1..] == value;
  }

  // ---------------------------------------------------------------- reading what stands around

  /** The piece reads the same whatever follows it. */
  predicate Complete(p: Piece)
    requires p.taken != []
  {
    p.Kept? || |p.taken| == 2 || SplitFlag(p.taken[0]).hasValue || (p.alias.position.None? && p.alias.words == map[])
  }

  /** The last of the arguments waits for nothing behind it. */
  predicate Completed(aliases: seq<Alias>, args: seq<string>) {
    var ps := Pieces(aliases, args);
    ps == [] || (ps[|ps| - 1].taken != [] && Complete(ps[|ps| - 1]))
  }

  lemma FirstReadsAlike(aliases: seq<Alias>, args: seq<string>, rest: seq<string>)
    requires args != [] && (|args| > 1 || Complete(First(aliases, args)))
    ensures First(aliases, args + rest) == First(aliases, args)
  {
    var all := args + rest;
    assert all[0] == args[0] && all[..1] == args[..1];
    if |args| > 1 { assert all[1] == args[1] && all[..2] == args[..2]; }
  }

  lemma FromTheFirst(aliases: seq<Alias>, args: seq<string>)
    requires args != []
    ensures var p := First(aliases, args); Pieces(aliases, args) == [p] + Pieces(aliases, args[|p.taken|..])
  {}

  lemma BehindIsCompleted(aliases: seq<Alias>, args: seq<string>)
    requires args != [] && Completed(aliases, args)
    ensures Completed(aliases, args[|First(aliases, args).taken|..])
    ensures |args| > 1 || Complete(First(aliases, args))
  {
    var p := First(aliases, args);
    FromTheFirst(aliases, args);
    StaysCompleted(p, Pieces(aliases, args[|p.taken|..]));
  }

  /** The first piece of completed arguments, and what follows them or not. */
  lemma FirstOfBoth(aliases: seq<Alias>, args: seq<string>, rest: seq<string>)
    requires args != [] && Completed(aliases, args)
    ensures var p := First(aliases, args); var behind := args[|p.taken|..];
            Pieces(aliases, args + rest) == [p] + Pieces(aliases, behind + rest)
  {
    var p := First(aliases, args);
    BehindIsCompleted(aliases, args);
    FirstReadsAlike(aliases, args, rest);
    FromTheFirst(aliases, args + rest);
    DropOfBoth(args, rest, |p.taken|);
  }

  lemma DropOfBoth(args: seq<string>, rest: seq<string>, n: nat)
    requires n <= |args|
    ensures (args + rest)[n..] == args[n..] + rest
  {}

  lemma StaysCompleted(p: Piece, ps: seq<Piece>)
    ensures ps != [] ==> ([p] + ps)[|ps|] == ps[|ps| - 1]
  {}

  lemma InFrontOfBoth(p: Piece, a: seq<Piece>, b: seq<Piece>)
    ensures [p] + (a + b) == [p] + a + b
  {}

  /** Completed arguments and what follows them are read one after the other. */
  lemma {:induction false} ReadOneAfterTheOther(aliases: seq<Alias>, args: seq<string>, rest: seq<string>)
    requires Completed(aliases, args)
    ensures Pieces(aliases, args + rest) == Pieces(aliases, args) + Pieces(aliases, rest)
    decreases |args|
  {
    if args == [] {
      assert args + rest == rest;
    } else {
      var p := First(aliases, args);
      var behind := args[|p.taken|..];
      FromTheFirst(aliases, args);
      BehindIsCompleted(aliases, args);
      FirstOfBoth(aliases, args, rest);
      ReadOneAfterTheOther(aliases, behind, rest);
      InFrontOfBoth(p, Pieces(aliases, behind), Pieces(aliases, rest));
    }
  }

  lemma {:induction false} TextsOfBoth(a: seq<Piece>, b: seq<Piece>)
    ensures Texts(a + b) == Texts(a) + Texts(b)
  {
    if a == [] {
      assert a + b == b;
    } else {
      assert (a + b)[1..] == a[1..] + b;
      TextsOfBoth(a[1..], b);
      assert Text(a[0]) + (Texts(a[1..]) + Texts(b)) == Text(a[0]) + Texts(a[1..]) + Texts(b);
    }
  }

  lemma {:induction false} MovedByBoth(moved: map<nat, string>, a: seq<Piece>, b: seq<Piece>)
    ensures MovedOver(moved, a + b) == MovedOver(MovedOver(moved, a), b)
    decreases |a|
  {
    if a == [] {
      assert a + b == b;
    } else {
      assert (a + b)[1..] == a[1..] + b;
      MovedByBoth(if a[0].Moved? then moved[a[0].position := a[0].value] else moved, a[1..], b);
    }
  }

  /** The arguments read as the front, one piece `p`, and the rest. */
  predicate ReadsAs(aliases: seq<Alias>, front: seq<string>, p: Piece, rest: seq<string>, all: seq<string>) {
    Pieces(aliases, all) == Pieces(aliases, front) + ([p] + Pieces(aliases, rest))
  }

  lemma TextsAround(a: seq<Piece>, p: Piece, b: seq<Piece>)
    ensures Texts(a + ([p] + b)) == Texts(a) + Text(p) + Texts(b)
  {
    TextsOfBoth(a, [p] + b);
    assert ([p] + b)[1..] == b;
    assert Texts(a) + (Text(p) + Texts(b)) == Texts(a) + Text(p) + Texts(b);
  }

  lemma MovedAround(a: seq<Piece>, p: Piece, b: seq<Piece>)
    ensures var moved := MovedOver(map[], a);
            MovedOver(map[], a + ([p] + b)) == MovedOver(if p.Moved? then moved[p.position := p.value] else moved, b)
  {
    MovedByBoth(map[], a, [p] + b);
    assert ([p] + b)[1..] == b;
  }

  /** What one piece in the middle adds. */
  lemma OneInTheMiddle(aliases: seq<Alias>, front: seq<string>, p: Piece, rest: seq<string>, all: seq<string>)
    requires ReadsAs(aliases, front, p, rest, all)
    ensures var a, b := Pieces(aliases, front), Pieces(aliases, rest);
            var moved := MovedOver(map[], a);
            && Texts(Pieces(aliases, all)) == Texts(a) + Text(p) + Texts(b)
            && MovedOver(map[], Pieces(aliases, all))
               == MovedOver(if p.Moved? then moved[p.position := p.value] else moved, b)
  {
    TextsAround(Pieces(aliases, front), p, Pieces(aliases, rest));
    MovedAround(Pieces(aliases, front), p, Pieces(aliases, rest));
  }

  /** Arguments that read as this piece, of `taken`, in the middle. */
  lemma PieceInTheMiddle(aliases: seq<Alias>, front: seq<string>, taken: seq<string>, rest: seq<string>, p: Piece)
    requires Completed(aliases, front) && taken != [] && First(aliases, taken + rest) == p && p.taken == taken
    ensures ReadsAs(aliases, front, p, rest, front + taken + rest)
  {
    assert front + taken + rest == front + (taken + rest);
    ReadOneAfterTheOther(aliases, front, taken + rest);
    assert (taken + rest)[|taken|..] == rest;
  }

  /** Two pieces that say the same, and move nothing, are the same in any arguments. */
  lemma SameInAnyArguments(
    aliases: seq<Alias>, front: seq<string>, p: Piece, q: Piece, rest: seq<string>, a: seq<string>, b: seq<string>)
    requires ReadsAs(aliases, front, p, rest, a) && ReadsAs(aliases, front, q, rest, b)
    requires Text(p) == Text(q) && !p.Moved? && !q.Moved?
    ensures Result(aliases, a) == Result(aliases, b)
  {
    OneInTheMiddle(aliases, front, p, rest, a);
    OneInTheMiddle(aliases, front, q, rest, b);
  }

  // ---------------------------------------------------------------- a row of the table

  /** Row `i` is the one its former name finds. */
  predicate IsRow(aliases: seq<Alias>, i: nat) {
    && i < |aliases| && PlainName(aliases[i].former)
    && forall j: nat | j < i :: aliases[j].former != aliases[i].former
  }

  lemma {:induction false} RowIsFound(aliases: seq<Alias>, i: nat)
    requires IsRow(aliases, i)
    ensures FormerName(aliases, aliases[i].former) == Some(aliases[i])
  {
    if i > 0 {
      assert aliases[0].former != aliases[i].former;
      assert forall j: nat | j < i - 1 :: aliases[1..][j] == aliases[j + 1];
      RowIsFound(aliases[1..], i - 1);
    }
  }

  /** The row's word for a value, or the value. */
  function WordFor(a: Alias, value: string): string { if value in a.words then a.words[value] else value }

  /** Today's spelling is kept as it is. */
  lemma TodayIsKept(aliases: seq<Alias>, i: nat, text: string, rest: seq<string>)
    requires IsRow(aliases, i) && NewNamesAreNew(aliases) && aliases[i].position.None?
    requires text == "--" + aliases[i].now || exists v :: text == "--" + aliases[i].now + "=" + v
    ensures First(aliases, [text] + rest) == Kept([text])
  {
    var now := aliases[i].now;
    assert aliases[i] in aliases;
    if text != "--" + now {
      var v :| text == "--" + now + "=" + v;
      ValueKeepsTheName(now, v);
    }
    assert ([text] + rest)[..1] == [text];
  }

  /**
   A renamed flag with a value is today's flag with that value, or with the row's word for it, whatever
   stands before and behind it.
   */
  lemma RenamedReadsAsToday(
    aliases: seq<Alias>, i: nat, n: nat, front: seq<string>, value: string, rest: seq<string>)
    requires IsRow(aliases, i) && aliases[i].position.None? && aliases[i].value == "" && NewNamesAreNew(aliases)
    requires n > 0 && Completed(aliases, front)
    ensures var a := aliases[i];
            Result(aliases, front + [With(n, a.former, value)] + rest)
            == Result(aliases, front + ["--" + a.now + "=" + WordFor(a, value)] + rest)
  {
    var a := aliases[i];
    var former, today := With(n, a.former, value), "--" + a.now + "=" + WordFor(a, value);
    RowIsFound(aliases, i);
    SpellingReads(n, a.former, value);
    TodayIsKept(aliases, i, today, rest);
    assert ([former] + rest)[..1] == [former];
    PieceInTheMiddle(aliases, front, [former], rest, Rewritten([former], a, Some(today)));
    PieceInTheMiddle(aliases, front, [today], rest, Kept([today]));
    SameInAnyArguments(aliases, front, Rewritten([former], a, Some(today)), Kept([today]), rest,
                       front + [former] + rest, front + [today] + rest);
  }

  lemma {:induction false} UnusedAreKept(ps: seq<Piece>)
    requires Used(ps) == []
    ensures forall p | p in ps :: p.Kept?
  {
    if ps != [] { UnusedAreKept(ps[1..]); }
  }

  lemma TodaysAreCompleted(aliases: seq<Alias>, args: seq<string>)
    requires NoneFormer(aliases, args)
    ensures Completed(aliases, args)
  {
    var ps := Pieces(aliases, args);
    AllKept(aliases, args);
    UnusedAreKept(ps);
    PiecesCoverArgs(aliases, args);
    if ps != [] { assert ps[|ps| - 1] in ps; }
  }

  /** Among arguments of today it is all that changes. */
  lemma RenamedAmongTodays(aliases: seq<Alias>, i: nat, n: nat, front: seq<string>, value: string, rest: seq<string>)
    requires IsRow(aliases, i) && aliases[i].position.None? && aliases[i].value == "" && NewNamesAreNew(aliases)
    requires n > 0 && NoneFormer(aliases, front) && NoneFormer(aliases, rest)
    ensures var a := aliases[i];
            Result(aliases, front + [With(n, a.former, value)] + rest)
            == front + ["--" + a.now + "=" + WordFor(a, value)] + rest
  {
    var today := "--" + aliases[i].now + "=" + WordFor(aliases[i], value);
    TodaysAreCompleted(aliases, front);
    RenamedReadsAsToday(aliases, i, n, front, value, rest);
    TodayIsKept(aliases, i, today, rest);
    NoFormerName(aliases, front + [today] + rest);
  }

  /** The next argument is one of the row's words. */
  predicate WordFollows(a: Alias, rest: seq<string>) { rest != [] && rest[0] in a.words && a.words[rest[0]] != "" }

  /** Without a value, and none of the row's words behind it, a renamed flag is today's flag. */
  lemma RenamedAloneReadsAsToday(aliases: seq<Alias>, i: nat, n: nat, front: seq<string>, rest: seq<string>)
    requires IsRow(aliases, i) && aliases[i].position.None? && aliases[i].value == "" && NewNamesAreNew(aliases)
    requires n > 0 && Completed(aliases, front) && !WordFollows(aliases[i], rest)
    ensures var a := aliases[i];
            Result(aliases, front + [Bare(n, a.former)] + rest) == Result(aliases, front + ["--" + a.now] + rest)
  {
    var a := aliases[i];
    var former, today := Bare(n, a.former), "--" + a.now;
    RowIsFound(aliases, i);
    SpellingReads(n, a.former, "");
    TodayIsKept(aliases, i, today, rest);
    assert ([former] + rest)[..1] == [former] && (rest != [] ==> ([former] + rest)[1] == rest[0]);
    PieceInTheMiddle(aliases, front, [former], rest, Rewritten([former], a, Some(today)));
    PieceInTheMiddle(aliases, front, [today], rest, Kept([today]));
    SameInAnyArguments(aliases, front, Rewritten([former], a, Some(today)), Kept([today]), rest,
                       front + [former] + rest, front + [today] + rest);
  }

  /** With one of the row's words behind it, it is today's flag with what the word stands for. */
  lemma RenamedWithAWordReadsAsToday(
    aliases: seq<Alias>, i: nat, n: nat, front: seq<string>, word: string, rest: seq<string>)
    requires IsRow(aliases, i) && aliases[i].position.None? && aliases[i].value == "" && NewNamesAreNew(aliases)
    requires n > 0 && Completed(aliases, front) && WordFollows(aliases[i], [word])
    ensures var a := aliases[i];
            Result(aliases, front + [Bare(n, a.former), word] + rest)
            == Result(aliases, front + ["--" + a.now + "=" + a.words[word]] + rest)
  {
    var a := aliases[i];
    var taken, today := [Bare(n, a.former), word], "--" + a.now + "=" + a.words[word];
    RowIsFound(aliases, i);
    SpellingReads(n, a.former, "");
    TodayIsKept(aliases, i, today, rest);
    assert (taken + rest)[..2] == taken && (taken + rest)[1] == word;
    PieceInTheMiddle(aliases, front, taken, rest, Rewritten(taken, a, Some(today)));
    PieceInTheMiddle(aliases, front, [today], rest, Kept([today]));
    SameInAnyArguments(aliases, front, Rewritten(taken, a, Some(today)), Kept([today]), rest,
                       front + taken + rest, front + [today] + rest);
  }

  /**
   A switch that stands for a value, bare and with none of the row's words behind it, is today's flag with
   that value.
   */
  lemma BareSwitchReadsAsToday(aliases: seq<Alias>, i: nat, n: nat, front: seq<string>, rest: seq<string>)
    requires IsRow(aliases, i) && aliases[i].position.None? && aliases[i].value != "" && NewNamesAreNew(aliases)
    requires n > 0 && Completed(aliases, front) && !WordFollows(aliases[i], rest)
    ensures var a := aliases[i];
            Result(aliases, front + [Bare(n, a.former)] + rest)
            == Result(aliases, front + ["--" + a.now + "=" + a.value] + rest)
  {
    var a := aliases[i];
    var bare, today := Bare(n, a.former), "--" + a.now + "=" + a.value;
    RowIsFound(aliases, i);
    SpellingReads(n, a.former, "");
    TodayIsKept(aliases, i, today, rest);
    assert ([bare] + rest)[..1] == [bare] && (rest != [] ==> ([bare] + rest)[1] == rest[0]);
    PieceInTheMiddle(aliases, front, [today], rest, Kept([today]));
    PieceInTheMiddle(aliases, front, [bare], rest, Rewritten([bare], a, Some(today)));
    SameInAnyArguments(aliases, front, Rewritten([bare], a, Some(today)), Kept([today]), rest,
                       front + [bare] + rest, front + [today] + rest);
  }

  /** Given a value that is true, or a word that stands for it, so it is; given anything else it is nothing. */
  lemma SwitchReadsAsToday(aliases: seq<Alias>, i: nat, n: nat, front: seq<string>, value: string, rest: seq<string>)
    requires IsRow(aliases, i) && aliases[i].position.None? && aliases[i].value != "" && NewNamesAreNew(aliases)
    requires n > 0 && Completed(aliases, front)
    ensures var a := aliases[i];
            Result(aliases, front + [With(n, a.former, value)] + rest)
            == if WordFor(a, value) == "true" then Result(aliases, front + ["--" + a.now + "=" + a.value] + rest)
               else Result(aliases, front + rest)
  {
    var a := aliases[i];
    var with, today := With(n, a.former, value), "--" + a.now + "=" + a.value;
    var text := if WordFor(a, value) == "true" then Some(today) else None;
    RowIsFound(aliases, i);
    SpellingReads(n, a.former, value);
    TodayIsKept(aliases, i, today, rest);
    assert ([with] + rest)[..1] == [with];
    PieceInTheMiddle(aliases, front, [today], rest, Kept([today]));
    PieceInTheMiddle(aliases, front, [with], rest, Rewritten([with], a, text));
    if text.Some? {
      SameInAnyArguments(aliases, front, Rewritten([with], a, text), Kept([today]), rest,
                         front + [with] + rest, front + [today] + rest);
    } else {
      NothingInTheMiddle(aliases, front, Rewritten([with], a, None), rest, front + [with] + rest);
    }
  }

  /** A switch with one of the row's words behind it is the switch given that word. */
  lemma SwitchTakesItsWord(aliases: seq<Alias>, i: nat, n: nat, front: seq<string>, word: string, rest: seq<string>)
    requires IsRow(aliases, i) && aliases[i].position.None? && aliases[i].value != ""
    requires n > 0 && Completed(aliases, front) && WordFollows(aliases[i], [word])
    ensures var a := aliases[i];
            Result(aliases, front + [Bare(n, a.former), word] + rest)
            == Result(aliases, front + [With(n, a.former, word)] + rest)
  {
    var a := aliases[i];
    var taken, with := [Bare(n, a.former), word], With(n, a.former, word);
    var text := if a.words[word] == "true" then Some("--" + a.now + "=" + a.value) else None;
    RowIsFound(aliases, i);
    SpellingReads(n, a.former, word);
    assert (taken + rest)[..2] == taken && (taken + rest)[1] == word && ([with] + rest)[..1] == [with];
    PieceInTheMiddle(aliases, front, taken, rest, Rewritten(taken, a, text));
    PieceInTheMiddle(aliases, front, [with], rest, Rewritten([with], a, text));
    SameInAnyArguments(aliases, front, Rewritten(taken, a, text), Rewritten([with], a, text), rest,
                       front + taken + rest, front + [with] + rest);
  }

  lemma NothingInTheMiddle(aliases: seq<Alias>, front: seq<string>, p: Piece, rest: seq<string>, all: seq<string>)
    requires ReadsAs(aliases, front, p, rest, all) && Text(p) == [] && !p.Moved? && Completed(aliases, front)
    ensures Result(aliases, all) == Result(aliases, front + rest)
  {
    OneInTheMiddle(aliases, front, p, rest, all);
    var a, b := Pieces(aliases, front), Pieces(aliases, rest);
    ReadOneAfterTheOther(aliases, front, rest);
    TextsOfBoth(a, b);
    MovedByBoth(map[], a, b);
    NothingBetween(Texts(a), Texts(b));
  }

  lemma NothingBetween(a: seq<string>, b: seq<string>)
    ensures a + [] + b == a + b
  {}

  // ---------------------------------------------------------------- a flag that became an argument

  /** Nothing behind moves a value to the position. */
  predicate NoneMovesTo(ps: seq<Piece>, position: nat) {
    forall p | p in ps :: p.Moved? ==> p.position != position
  }

  lemma {:induction false} StaysMoved(moved: map<nat, string>, ps: seq<Piece>, position: nat)
    requires position in moved && NoneMovesTo(ps, position)
    ensures position in MovedOver(moved, ps) && MovedOver(moved, ps)[position] == moved[position]
    decreases |ps|
  {
    if ps != [] {
      assert forall p | p in ps[1..] :: p in ps;
      StaysMoved(if ps[0].Moved? then moved[ps[0].position := ps[0].value] else moved, ps[1..], position);
    }
  }

  /** The arguments without the flag stay, and its value is the one moved to the position. */
  predicate MovesOnly(
    aliases: seq<Alias>, front: seq<string>, rest: seq<string>, all: seq<string>, at: nat, value: string) {
    var ps := Pieces(aliases, all);
    && Texts(ps) == Texts(Pieces(aliases, front)) + Texts(Pieces(aliases, rest))
    && (NoneMovesTo(Pieces(aliases, rest), at) ==> at in MovedOver(map[], ps) && MovedOver(map[], ps)[at] == value)
  }

  lemma MovedInTheMiddle(aliases: seq<Alias>, front: seq<string>, p: Piece, rest: seq<string>, all: seq<string>)
    requires ReadsAs(aliases, front, p, rest, all) && p.Moved?
    ensures MovesOnly(aliases, front, rest, all, p.position, p.value)
  {
    OneInTheMiddle(aliases, front, p, rest, all);
    NothingBetween(Texts(Pieces(aliases, front)), Texts(Pieces(aliases, rest)));
    var moved, b := MovedOver(map[], Pieces(aliases, front)), Pieces(aliases, rest);
    if NoneMovesTo(b, p.position) { StaysMoved(moved[p.position := p.value], b, p.position); }
  }

  /**
   A flag that became an argument moves the value it is given, with `=` or as the next argument, or the
   row's word for it, and with nothing behind it the empty word; unless a later one is moved to the same
   position, that is the value `MovedValueEndsInPlace` puts there.
   */
  lemma MovedIsTheValueGiven(
    aliases: seq<Alias>, i: nat, n: nat, front: seq<string>, value: string, rest: seq<string>)
    requires IsRow(aliases, i) && aliases[i].position.Some? && n > 0 && Completed(aliases, front)
    ensures var a := aliases[i]; var at := a.position.value;
            var next := if WordFollows(a, [value]) then a.words[value] else value;
            && MovesOnly(aliases, front, rest, front + [With(n, a.former, value)] + rest, at, WordFor(a, value))
            && MovesOnly(aliases, front, rest, front + [Bare(n, a.former), value] + rest, at, next)
            && MovesOnly(aliases, front, [], front + [Bare(n, a.former)] + [], at, "")
  {
    var a := aliases[i];
    var at, with, bare := a.position.value, With(n, a.former, value), Bare(n, a.former);
    var next := if WordFollows(a, [value]) then a.words[value] else value;
    RowIsFound(aliases, i);
    SpellingReads(n, a.former, value);
    assert ([with] + rest)[..1] == [with] && [bare] + [] == [bare];
    assert ([bare, value] + rest)[..2] == [bare, value] && ([bare, value] + rest)[1] == value;
    PieceInTheMiddle(aliases, front, [with], rest, Moved([with], a, at, WordFor(a, value)));
    MovedInTheMiddle(aliases, front, Moved([with], a, at, WordFor(a, value)), rest, front + [with] + rest);
    PieceInTheMiddle(aliases, front, [bare, value], rest, Moved([bare, value], a, at, next));
    MovedInTheMiddle(aliases, front, Moved([bare, value], a, at, next), rest, front + [bare, value] + rest);
    PieceInTheMiddle(aliases, front, [bare], [], Moved([bare], a, at, ""));
    MovedInTheMiddle(aliases, front, Moved([bare], a, at, ""), [], front + [bare] + []);
  }
}
