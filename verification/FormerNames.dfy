/**
 What rewriting former flag names keeps, where a moved value ends, when one is lost, and when
 rewriting twice is rewriting once.
 */
module FormerNames {
  import opened Wrappers
  import opened FlagAliases
  import opened Strings

  // ---------------------------------------------------------------- every argument is accounted for

  /** The pieces take the arguments apart without gap or overlap, and keep exactly those that spell no former name. */
  lemma {:induction false} PiecesCoverArgs(aliases: seq<Alias>, args: seq<string>)
    ensures Taken(Pieces(aliases, args)) == args
    ensures forall p | p in Pieces(aliases, args) ::
              |p.taken| > 0 && (p.Kept? ==> |p.taken| == 1) && (p.Kept? <==> !IsFormer(aliases, p.taken[0]))
    decreases |args|
  {
    if args != [] {
      var p := First(aliases, args);
      PiecesCoverArgs(aliases, args[|p.taken|..]);
      assert args == p.taken + args[|p.taken|..];
    }
  }

  /** `a` is `b` with some elements left out. */
  predicate Sub(a: seq<string>, b: seq<string>) {
    a == [] || (b != [] && if a[0] == b[0] then Sub(a[1..], b[1..]) else Sub(a, b[1..]))
  }

  lemma {:induction false} SubTail(a: seq<string>, b: seq<string>)
    requires a != [] && Sub(a, b)
    ensures Sub(a[1..], b)
    decreases |b|, 0
  {
    if a[0] == b[0] {
      if |a| > 1 { SubSkip(a[1..], b[1..], b[0]); assert [b[0]] + b[1..] == b; }
    } else {
      SubTail(a, b[1..]);
      SubSkip(a[1..], b[1..], b[0]);
      assert [b[0]] + b[1..] == b;
    }
  }

  lemma {:induction false} SubSkip(a: seq<string>, b: seq<string>, x: string)
    requires Sub(a, b)
    ensures Sub(a, [x] + b)
    decreases |b|, 1
  {
    assert ([x] + b)[1..] == b;
    if a != [] && a[0] == x { SubTail(a, b); }
  }

  /** An element put in anywhere leaves what was there in order. */
  lemma {:induction false} SubInsert(a: seq<string>, b: seq<string>, i: nat, x: string)
    requires i <= |b| && Sub(a, b)
    ensures Sub(a, b[..i] + [x] + b[i..])
    decreases i
  {
    var c := b[..i] + [x] + b[i..];
    if i == 0 {
      SubSkip(a, b, x);
      assert c == [x] + b;
    } else if a != [] {
      assert c[0] == b[0];
      assert c[1..] == b[1..][..i - 1] + [x] + b[1..][i - 1..];
      if a[0] == b[0] { SubInsert(a[1..], b[1..], i - 1, x); } else { SubInsert(a, b[1..], i - 1, x); }
    }
  }

  lemma {:induction false} KeptAmongTexts(ps: seq<Piece>)
    requires forall p | p in ps && p.Kept? :: |p.taken| == 1
    ensures Sub(KeptOf(ps), Texts(ps))
  {
    if ps != [] {
      KeptAmongTexts(ps[1..]);
      TextInFront(Text(ps[0]), Texts(ps[1..]), ps[0].Kept?, KeptOf(ps[1..]));
    }
  }

  lemma TextInFront(text: seq<string>, texts: seq<string>, kept: bool, keeps: seq<string>)
    requires |text| <= 1 && Sub(keeps, texts)
    ensures Sub((if kept then text else []) + keeps, text + texts)
  {
    if text == [] {
      assert text + texts == texts && text + keeps == keeps;
    } else if kept {
      assert (text + keeps)[1..] == keeps && (text + texts)[1..] == texts;
    } else {
      SubSkip(keeps, texts, text[0]);
      assert text + texts == [text[0]] + texts && [] + keeps == keeps;
    }
  }

  lemma {:induction false} TextsAreKeptOrRewritten(ps: seq<Piece>)
    ensures multiset(Texts(ps)) == multiset(KeptOf(ps)) + multiset(RewrittenOf(ps))
  {
    if ps != [] { TextsAreKeptOrRewritten(ps[1..]); }
  }

  // ---------------------------------------------------------------- placing

  /** The values of the positions below `n`, lowest first. */
  function ValuesBelow(moved: map<nat, string>, n: nat): seq<string> {
    if n == 0 then []
    else if n - 1 in moved then ValuesBelow(moved, n - 1) + [moved[n - 1]]
    else ValuesBelow(moved, n - 1)
  }

  lemma {:induction false} PlacedSize(positional: seq<string>, moved: map<nat, string>, n: nat)
    ensures |Placed(positional, moved, n)| == |positional| + Below(moved, n)
    ensures |ValuesBelow(moved, n)| == Below(moved, n)
  {
    if n > 0 { PlacedSize(positional, moved, n - 1); }
  }

  lemma InsertedKeeps(before: seq<string>, rest: seq<string>, at: nat, x: string, a: seq<string>)
    requires Sub(a, before + rest)
    ensures Sub(a, Inserted(before, at, x) + rest)
  {
    var i := if at <= |before| then at else |before|;
    SubInsert(a, before + rest, i, x);
    assert (before + rest)[..i] == before[..i];
    assert (before + rest)[i..] == before[i..] + rest;
    assert before[..i] + [x] + (before[i..] + rest) == Inserted(before, at, x) + rest;
  }

  lemma InsertedHolds(before: seq<string>, at: nat, x: string)
    ensures multiset(Inserted(before, at, x)) == multiset(before) + multiset{x}
  {
    var i := if at <= |before| then at else |before|;
    assert before == before[..i] + before[i..];
  }

  lemma {:induction false} PlacedKeeps(
    positional: seq<string>, rest: seq<string>, moved: map<nat, string>, n: nat, a: seq<string>)
    requires Sub(a, positional + rest)
    ensures Sub(a, Placed(positional, moved, n) + rest)
  {
    if n > 0 {
      PlacedKeeps(positional, rest, moved, n - 1, a);
      if n - 1 in moved { InsertedKeeps(Placed(positional, moved, n - 1), rest, n - 1, moved[n - 1], a); }
    }
  }

  lemma {:induction false} PlacedHolds(positional: seq<string>, moved: map<nat, string>, n: nat)
    ensures multiset(Placed(positional, moved, n)) == multiset(positional) + multiset(ValuesBelow(moved, n))
  {
    if n > 0 {
      PlacedHolds(positional, moved, n - 1);
      if n - 1 in moved {
        var before := Placed(positional, moved, n - 1);
        InsertedHolds(before, n - 1, moved[n - 1]);
        OneMoreValue(before, Inserted(before, n - 1, moved[n - 1]), positional,
                     ValuesBelow(moved, n - 1), moved[n - 1]);
      }
    }
  }

  lemma OneMoreValue(before: seq<string>, after: seq<string>, positional: seq<string>, values: seq<string>, x: string)
    requires multiset(before) == multiset(positional) + multiset(values)
    requires multiset(after) == multiset(before) + multiset{x}
    ensures multiset(after) == multiset(positional) + multiset(values + [x])
  {}

  /** Arranging keeps what was there in order, and adds the values the loop reaches. */
  lemma ArrangedKeeps(out: seq<string>, moved: map<nat, string>, a: seq<string>)
    requires Sub(a, out)
    ensures Sub(a, Arranged(out, moved))
    ensures multiset(Arranged(out, moved)) == multiset(out) + multiset(ValuesBelow(moved, Bound(out, moved)))
  {
    var n := Leading(out);
    assert out[..n] + out[n..] == out;
    PlacedKeeps(out[..n], out[n..], moved, n + |moved|, a);
    ArrangedAdds(out, moved);
  }

  lemma ArrangedAdds(out: seq<string>, moved: map<nat, string>)
    ensures multiset(Arranged(out, moved)) == multiset(out) + multiset(ValuesBelow(moved, Bound(out, moved)))
  {
    var n := Leading(out);
    assert out[..n] + out[n..] == out;
    PlacedHolds(out[..n], moved, n + |moved|);
    Bags(Placed(out[..n], moved, n + |moved|), out[n..], out[..n], ValuesBelow(moved, n + |moved|));
  }

  lemma Bags(placed: seq<string>, tail: seq<string>, head: seq<string>, values: seq<string>)
    requires multiset(placed) == multiset(head) + multiset(values)
    ensures multiset(placed + tail) == multiset(head + tail) + multiset(values)
  {}

  /**
   Every argument that is neither a former name nor a value one took comes back once, in order, and
   beside it only the rewritten flags and the values moved to positions the loop reaches.
   */
  lemma ArgumentsAreConserved(aliases: seq<Alias>, args: seq<string>)
    ensures var ps, r := Pieces(aliases, args), Result(aliases, args);
            var moved := MovedOver(map[], ps);
            && Sub(KeptOf(ps), r)
            && multiset(r) == multiset(KeptOf(ps)) + multiset(RewrittenOf(ps))
                              + multiset(ValuesBelow(moved, Bound(Texts(ps), moved)))
  {
    var ps := Pieces(aliases, args);
    PiecesCoverArgs(aliases, args);
    KeptAmongTexts(ps);
    TextsAreKeptOrRewritten(ps);
    ArrangedKeeps(Texts(ps), MovedOver(map[], ps), KeptOf(ps));
  }

  /** Where the value moved to position `p` is put: at `p`, or at the end where there is not that much yet. */
  function PlaceOf(leading: nat, moved: map<nat, string>, p: nat): nat {
    if p <= leading + Below(moved, p) then p else leading + Below(moved, p)
  }

  lemma {:induction false} StaysWherePut(positional: seq<string>, moved: map<nat, string>, p: nat, n: nat)
    requires p in moved && p < n
    ensures var q := PlaceOf(|positional|, moved, p);
            q < |Placed(positional, moved, n)| && Placed(positional, moved, n)[q] == moved[p]
    decreases n
  {
    PlacedSize(positional, moved, n - 1);
    if p < n - 1 { StaysWherePut(positional, moved, p, n - 1); }
  }

  lemma ArrangedHoldsInPlace(out: seq<string>, moved: map<nat, string>, p: nat)
    requires p in moved && p < Bound(out, moved)
    ensures var q := PlaceOf(Leading(out), moved, p); q < |Arranged(out, moved)| && Arranged(out, moved)[q] == moved[p]
  {
    StaysWherePut(out[..Leading(out)], moved, p, Bound(out, moved));
  }

  function KeysBelow(moved: map<nat, string>, n: nat): set<nat> { set p | p in moved && p < n }

  lemma {:induction false} BelowCounts(moved: map<nat, string>, n: nat)
    ensures Below(moved, n) == |KeysBelow(moved, n)|
  {
    if n == 0 {
      assert KeysBelow(moved, n) == {};
    } else {
      BelowCounts(moved, n - 1);
      var s := KeysBelow(moved, n - 1);
      assert KeysBelow(moved, n) == if n - 1 in moved then s + {n - 1} else s;
    }
  }

  lemma SmallerSet(a: set<nat>, b: set<nat>)
    requires a < b
    ensures |a| < |b|
  {
    assert |b| == |a| + |b - a| by { assert b == a + (b - a); }
  }

  /** The loop goes on past position `p` where it is not further than what stands below it. */
  lemma InPlaceIsReached(out: seq<string>, moved: map<nat, string>, p: nat)
    requires p in moved && p <= Leading(out) + Below(moved, p)
    ensures p < Bound(out, moved)
  {
    BelowCounts(moved, p);
    assert KeysBelow(moved, p) < moved.Keys by { assert p in moved.Keys - KeysBelow(moved, p); }
    SmallerSet(KeysBelow(moved, p), moved.Keys);
  }

  /**
   A value moved to position `p` ends at index `p` whenever `p` is at most the leading arguments plus
   the moved positions below it; further out it ends behind those, where the loop reaches it at all.
   */
  lemma MovedValueEndsInPlace(aliases: seq<Alias>, args: seq<string>, p: nat)
    requires p in MovedOver(map[], Pieces(aliases, args))
    ensures var ps, r := Pieces(aliases, args), Result(aliases, args); var moved := MovedOver(map[], ps);
            var q := PlaceOf(Leading(Texts(ps)), moved, p);
            && (p <= Leading(Texts(ps)) + Below(moved, p) ==> p < |r| && r[p] == moved[p])
            && (p < Bound(Texts(ps), moved) ==> q < |r| && r[q] == moved[p])
  {
    var ps := Pieces(aliases, args);
    var out, moved := Texts(ps), MovedOver(map[], ps);
    if p <= Leading(out) + Below(moved, p) { InPlaceIsReached(out, moved, p); }
    if p < Bound(out, moved) { ArrangedHoldsInPlace(out, moved, p); }
  }

  // ---------------------------------------------------------------- when a moved value is lost

  /** The positions values are moved to, one for each value, in the order they are met. */
  function Positions(ps: seq<Piece>): seq<nat> {
    if ps == [] then [] else (if ps[0].Moved? then [ps[0].position] else []) + Positions(ps[1..])
  }

  function Among(positions: seq<nat>): set<nat> { set p | p in positions }

  lemma {:induction false} MovedKeys(moved: map<nat, string>, ps: seq<Piece>)
    ensures MovedOver(moved, ps).Keys == moved.Keys + Among(Positions(ps))
    decreases |ps|
  {
    if ps != [] { MovedKeys(if ps[0].Moved? then moved[ps[0].position := ps[0].value] else moved, ps[1..]); }
  }

  /** A position met twice is counted once. */
  lemma {:induction false} DistinctCounts(positions: seq<nat>)
    ensures |Among(positions)| <= |positions|
    ensures |Among(positions)| == |positions| <==> Distinct(positions)
  {
    if positions == [] {
      assert Among(positions) == {};
    } else {
      var first, rest := positions[0], positions[1..];
      DistinctCounts(rest);
      assert Among(positions) == {first} + Among(rest) by { assert positions == [first] + rest; }
      DistinctFirst(first, rest);
    }
  }

  lemma DistinctFirst(first: nat, rest: seq<nat>)
    ensures Distinct([first] + rest) <==> first !in rest && Distinct(rest)
    ensures rest == ([first] + rest)[1..]
  {
    var all := [first] + rest;
    if Distinct(all) {
      forall i | 0 <= i < |rest| ensures rest[i] != first { assert all[0] != all[i + 1]; }
      forall i, j | 0 <= i < j < |rest| ensures rest[i] != rest[j] { assert all[i + 1] != all[j + 1]; }
    }
  }

  lemma ArrangedSize(out: seq<string>, moved: map<nat, string>)
    ensures |Arranged(out, moved)| == |out| + |KeysBelow(moved, Bound(out, moved))|
    ensures KeysBelow(moved, Bound(out, moved)) <= moved.Keys
  {
    PlacedSize(out[..Leading(out)], moved, Bound(out, moved));
    BelowCounts(moved, Bound(out, moved));
  }

  /**
   No value moved is lost exactly when no two are moved to one position, and every position lies below
   the leading arguments plus the number of values moved.
   */
  lemma NothingLostIffApartAndReached(aliases: seq<Alias>, args: seq<string>)
    ensures var ps := Pieces(aliases, args); var positions := Positions(ps);
            |Result(aliases, args)| == |Texts(ps)| + |positions|
            <==> && Distinct(positions)
                 && forall p | p in positions :: p < Leading(Texts(ps)) + |positions|
  {
    var ps := Pieces(aliases, args);
    var out, moved, positions := Texts(ps), MovedOver(map[], ps), Positions(ps);
    var s := KeysBelow(moved, Bound(out, moved));
    MovedKeys(map[], ps);
    assert moved.Keys == Among(positions) && |moved.Keys| == |moved|;
    DistinctCounts(positions);
    ArrangedSize(out, moved);
    if s == moved.Keys {
      assert forall p | p in positions :: p in s;
    } else {
      SmallerSet(s, moved.Keys);
      var p :| p in moved && p !in s;
      assert p in positions && Bound(out, moved) <= p;
    }
  }

  /** `media attach --media M` without the entry in front: the value is dropped without a word. */
  lemma MediaAttachLosesItsValue()
    ensures var table := [BecamePositional("media", 1)];
            Result(table, ["--media", "M"]) == [] && Used(Pieces(table, ["--media", "M"])) == table
  {
    var alias, args := BecamePositional("media", 1), ["--media", "M"];
    MediaReads(alias, args, "M");
    OnePiece(Moved(args, alias, 1, "M"));
    LostAtOne("M");
  }

  /** `media attach E --media A --media B`: the second value takes the first one's place, without a word. */
  lemma TheSecondTakesThePlace()
    ensures var table := [BecamePositional("media", 1)];
            Result(table, ["e", "--media", "A", "--media", "B"]) == ["e", "B"]
  {
    var alias := BecamePositional("media", 1);
    MediaReadsTwice(alias);
    TwoMoved(Kept(["e"]), Moved(["--media", "A"], alias, 1, "A"), Moved(["--media", "B"], alias, 1, "B"));
    PlacedAtOne("e", "B");
  }

  lemma MediaReadsTwice(alias: Alias)
    requires alias == BecamePositional("media", 1)
    ensures Pieces([alias], ["e", "--media", "A", "--media", "B"])
         == [Kept(["e"]), Moved(["--media", "A"], alias, 1, "A"), Moved(["--media", "B"], alias, 1, "B")]
  {
    var args, last := ["e", "--media", "A", "--media", "B"], ["--media", "B"];
    MediaFlag();
    MediaReads(alias, last, "B");
    assert args[1..] == ["--media", "A"] + last && args[..1] == ["e"];
    var middle := args[1..];
    assert middle[..2] == ["--media", "A"] && middle[2..] == last;
    assert First([alias], middle) == Moved(middle[..2], alias, 1, "A");
    assert First([alias], args) == Kept(args[..1]);
  }

  lemma TwoMoved(kept: Piece, a: Piece, b: Piece)
    requires kept.Kept? && a.Moved? && b.Moved? && a.position == b.position
    ensures Texts([kept, a, b]) == kept.taken
    ensures MovedOver(map[], [kept, a, b]) == map[b.position := b.value]
  {
    KeptInFront(kept.taken, [a, b]);
    assert [Kept(kept.taken)] + [a, b] == [kept, a, b];
    MovedInFront(a, [b], map[]);
    MovedInFront(b, [], map[a.position := a.value]);
    assert [a] + [b] == [a, b] && [b] + [] == [b] && kept.taken + [] == kept.taken;
  }

  lemma MovedInFront(p: Piece, ps: seq<Piece>, moved: map<nat, string>)
    requires p.Moved?
    ensures var all := [p] + ps;
            Texts(all) == Texts(ps) && MovedOver(moved, all) == MovedOver(moved[p.position := p.value], ps)
  {
    assert ([p] + ps)[1..] == ps && [] + Texts(ps) == Texts(ps);
  }

  lemma PlacedAtOne(front: string, value: string)
    requires !("-" <= front)
    ensures Arranged([front], map[1 := value]) == [front, value]
  {
    var moved := map[1 := value];
    assert [front][1..] == [] && Leading([front]) == 1 && |moved| == 1;
    assert Placed([front], moved, 0) == [front];
    assert Placed([front], moved, 1) == [front];
    assert Placed([front], moved, 2) == Inserted([front], 1, value) == [front, value];
    assert [front][..1] == [front];
  }

  lemma MediaReads(alias: Alias, args: seq<string>, value: string)
    requires alias == BecamePositional("media", 1) && args == ["--media", value]
    ensures Pieces([alias], args) == [Moved(args, alias, 1, value)]
  {
    MediaFlag();
    assert First([alias], args) == Moved(args[..2], alias, 1, value);
    assert args[2..] == [] && args[..2] == args;
  }

  lemma OnePiece(p: Piece)
    requires p.Moved?
    ensures Texts([p]) == [] && Used([p]) == [p.alias] && MovedOver(map[], [p]) == map[p.position := p.value]
  {
    assert [p][1..] == [];
  }

  lemma MediaFlag()
    ensures SplitFlag("--media") == Flag("media", "", false)
  {
    DashesTrimmed("media");
    NoEquals("media");
    assert "--" + "media" == "--media" && "media"[..5] == "media";
  }

  lemma DashesTrimmed(name: string)
    requires name != "" && name[0] != '-'
    ensures TrimDashes("--" + name) == name
  {
    assert ("--" + name)[1..] == "-" + name && ("-" + name)[1..] == name;
    assert TrimDashes("-" + name) == name;
  }

  lemma LostAtOne(value: string)
    ensures Arranged([], map[1 := value]) == []
  {
    assert |map[1 := value]| == 1;
    assert Placed([], map[1 := value], 0) == [];
  }

  lemma NoEquals(s: string)
    requires '=' !in s
    ensures UpTo(s, '=') == |s|
  {}

  // ---------------------------------------------------------------- rewriting twice

  /** The name an alias's new flag reads as. */
  function NewName(a: Alias): string { SplitFlag("--" + a.now).name }

  /** No new name of the table is one of its former names. */
  predicate NewNamesAreNew(aliases: seq<Alias>) {
    forall a | a in aliases && a.position.None? :: FormerName(aliases, NewName(a)).None?
  }

  lemma {:induction false} TrimWithTail(s: string, tail: string)
    requires tail == "" || tail[0] != '-'
    ensures TrimDashes(s + tail) == TrimDashes(s) + tail
  {
    if s == "" {
      assert s + tail == tail;
    } else {
      assert (s + tail)[1..] == s[1..] + tail;
      TrimWithTail(s[1..], tail);
    }
  }

  lemma {:induction false} CutWithTail(s: string, tail: string)
    requires tail != "" && tail[0] == '='
    ensures UpTo(s + tail, '=') == UpTo(s, '=')
  {
    if s == "" {
      assert s + tail == tail;
    } else {
      assert (s + tail)[1..] == s[1..] + tail;
      CutWithTail(s[1..], tail);
    }
  }

  /** A value behind the new name does not change the name it reads as. */
  lemma ValueKeepsTheName(now: string, value: string)
    ensures SplitFlag("--" + now + "=" + value).name == SplitFlag("--" + now).name
  {
    var tail := "=" + value;
    assert "--" + now + "=" + value == ("--" + now) + tail;
    TrimWithTail("--" + now, tail);
    var name := TrimDashes("--" + now);
    CutWithTail(name, tail);
    assert (name + tail)[..UpTo(name, '=')] == name[..UpTo(name, '=')];
    if now == "" {
      assert "--" + now == "--";
      assert TrimDashes("--") == "" by { assert "--"[1..] == "-" && "-"[1..] == ""; }
      assert name == "";
    }
  }

  lemma {:induction false} FormerNameIsInTable(aliases: seq<Alias>, name: string)
    ensures FormerName(aliases, name).Some? ==> FormerName(aliases, name).value in aliases
  {
    if aliases != [] { FormerNameIsInTable(aliases[1..], name); }
  }

  /** Nothing kept or rewritten reads as a former name. */
  lemma {:induction false} TextsAreToday(aliases: seq<Alias>, args: seq<string>)
    requires NewNamesAreNew(aliases)
    ensures forall t | t in Texts(Pieces(aliases, args)) :: !IsFormer(aliases, t)
    decreases |args|
  {
    if args != [] {
      var p := First(aliases, args);
      TextsAreToday(aliases, args[|p.taken|..]);
      FormerNameIsInTable(aliases, SplitFlag(args[0]).name);
      forall t | t in Text(p) ensures !IsFormer(aliases, t) {
        if p.Rewritten? {
          var value := if |t| > |p.alias.now| + 3 then t[|p.alias.now| + 3..] else "";
          assert t == "--" + p.alias.now || t == "--" + p.alias.now + "=" + value;
          ValueKeepsTheName(p.alias.now, value);
        } else {
          assert t == args[0];
        }
      }
    }
  }

  lemma ArrangedHolds(out: seq<string>, moved: map<nat, string>, t: string)
    ensures t in Arranged(out, moved) <==> t in out || exists p :: p in moved && p < Bound(out, moved) && moved[p] == t
  {
    ArrangedKeeps(out, moved, []);
    ValuesHold(moved, Bound(out, moved), t);
    assert t in Arranged(out, moved) <==> t in multiset(Arranged(out, moved));
    assert t in out <==> t in multiset(out);
    assert t in ValuesBelow(moved, Bound(out, moved)) <==> t in multiset(ValuesBelow(moved, Bound(out, moved)));
  }

  lemma {:induction false} ValuesHold(moved: map<nat, string>, n: nat, t: string)
    ensures t in ValuesBelow(moved, n) <==> exists p :: p in moved && p < n && moved[p] == t
  {
    if n > 0 { ValuesHold(moved, n - 1, t); }
  }

  lemma {:induction false} FormerIsUsed(aliases: seq<Alias>, args: seq<string>)
    requires exists arg | arg in args :: IsFormer(aliases, arg)
    ensures Used(Pieces(aliases, args)) != []
    decreases |args|
  {
    var p := First(aliases, args);
    if p.Kept? {
      assert args == [args[0]] + args[1..];
      FormerIsUsed(aliases, args[1..]);
    }
  }

  /** No value moved to a position the loop reaches reads as a former name. */
  predicate PlacedAreToday(aliases: seq<Alias>, out: seq<string>, moved: map<nat, string>) {
    forall p | p in moved && p < Bound(out, moved) :: !IsFormer(aliases, moved[p])
  }

  /**
   Where no new name is a former one, rewriting the result again meets a former name exactly when a
   value moved to a position reads as one; where none does, it changes nothing.
   */
  lemma RewritingTwiceIsOnce(aliases: seq<Alias>, args: seq<string>)
    requires NewNamesAreNew(aliases)
    ensures var ps := Pieces(aliases, args); var moved := MovedOver(map[], ps);
            var again := Result(aliases, args);
            && (Used(Pieces(aliases, again)) == []
                <==> PlacedAreToday(aliases, Texts(ps), moved))
            && (Used(Pieces(aliases, again)) == [] ==> Result(aliases, again) == again)
  {
    var ps := Pieces(aliases, args);
    var moved, again := MovedOver(map[], ps), Result(aliases, args);
    TextsAreToday(aliases, args);
    AgainReads(aliases, Texts(ps), moved);
    assert again == Arranged(Texts(ps), moved);
    if NoneFormer(aliases, again) { NoFormerName(aliases, again); } else { FormerIsUsed(aliases, again); }
  }

  predicate NoneFormer(aliases: seq<Alias>, args: seq<string>) { forall t | t in args :: !IsFormer(aliases, t) }

  lemma AgainReads(aliases: seq<Alias>, out: seq<string>, moved: map<nat, string>)
    requires forall t | t in out :: !IsFormer(aliases, t)
    ensures NoneFormer(aliases, Arranged(out, moved))
       <==> PlacedAreToday(aliases, out, moved)
  {
    if NoneFormer(aliases, Arranged(out, moved)) {
      forall p | p in moved && p < Bound(out, moved) ensures !IsFormer(aliases, moved[p]) {
        ArrangedHolds(out, moved, moved[p]);
      }
    } else {
      var t :| t in Arranged(out, moved) && IsFormer(aliases, t);
      ArrangedHolds(out, moved, t);
    }
  }

  // ---------------------------------------------------------------- the shipped table

  const FORMER_YES_NO: map<string, string> := map["yes" := "true", "no" := "false"]

  const PROVIDER_ADD: seq<Alias> := [
    Renamed("name", "display-name"), Renamed("admits", "provisioning"),
    Renamed("directory", "allowed-directories"), Renamed("domain", "allowed-email-domains")]

  const PRESETS_CREATE: seq<Alias> := [
    Renamed("from", "preset"), Renamed("default", "is-default"), Renamed("lock", "locks")]

  const PRESETS_SET: seq<Alias> := [
    Renamed("from", "preset"), RenamedWithWords("default", "is-default", FORMER_YES_NO), Renamed("lock", "locks"),
    Renamed("expected-version", "expect-version")]

  const SCHEDULE_SET: seq<Alias> := [
    StandsFor("on", "enabled", "true"), StandsFor("off", "enabled", "false"),
    StandsFor("trial", "trial-restore", "true"), StandsFor("no-trial", "trial-restore", "false")]

  /** The renames of the generated commands that replaced hand-written ones, command by command. */
  const SHIPPED: seq<(string, seq<Alias>)> := [
    ("rule ls", [StandsFor("disabled", "enabled", "false")]),
    ("rule runs", [Renamed("rule", "rule-id")]),
    ("token ls", [Renamed("account", "account-id")]),
    ("service-account create", [Renamed("name", "display-name")]),
    ("view ls", [Renamed("container", "container-id")]),
    ("backup ls", [BecamePositional("target", 0)]),
    ("container ls", [Renamed("parent", "parent-id")]),
    ("item complete", [Renamed("cascade", "cascade-children")]),
    ("item assign", [Renamed("account", "account-id")]),
    ("media attach", [BecamePositional("media", 1)]),
    ("field ls", [Renamed("collection", "collection-id")]),
    ("jumble convert", [Renamed("bucket", "bucket-id"), Renamed("collection", "collection-id")]),
    ("jumble submit", [Renamed("subject", "raw-subject"), Renamed("attachment", "attachments")]),
    ("admin tenant delete", [Renamed("confirm", "confirmation")]),
    ("admin tenant find", [Renamed("reference", "external-reference")]),
    ("admin provider add", PROVIDER_ADD),
    ("admin plan create", [Renamed("leave-out", "left-out")]),
    ("admin presets create", PRESETS_CREATE),
    ("admin presets set", PRESETS_SET),
    ("backup schedule set", SCHEDULE_SET),
    ("suggestion ls", [Renamed("target", "target-id")])
  ]

  function TableIn(rows: seq<(string, seq<Alias>)>, command: string): seq<Alias> {
    if rows == [] then [] else if rows[0].0 == command then rows[0].1 else TableIn(rows[1..], command)
  }

  /** `flagAliases[command]`. */
  function Table(command: string): seq<Alias> { TableIn(SHIPPED, command) }

  /** Name by name: a plain flag name reads as itself. */
  predicate PlainName(s: string) { s != "" && s[0] != '-' && '=' !in s }

  lemma PlainNameReads(a: Alias)
    requires PlainName(a.now)
    ensures NewName(a) == a.now
  {
    var arg := "--" + a.now;
    assert |arg| > 2 && arg[0] == '-' && arg[1] == '-' && arg[2] == a.now[0];
    assert arg[1..] == "-" + a.now && ("-" + a.now)[1..] == a.now;
    assert TrimDashes("-" + a.now) == a.now;
    NoEquals(a.now);
    assert a.now[..|a.now|] == a.now;
  }

  lemma {:induction false} NotAmong(aliases: seq<Alias>, name: string)
    requires forall a | a in aliases :: a.former != name
    ensures FormerName(aliases, name).None?
  {
    if aliases != [] { NotAmong(aliases[1..], name); }
  }

  /** In a table of plain names, it is enough that no new name is spelled as a former one. */
  predicate Apart(aliases: seq<Alias>) {
    forall a, b | a in aliases && b in aliases && a.position.None? :: PlainName(a.now) && a.now != b.former
  }

  lemma ApartIsEnough(aliases: seq<Alias>)
    requires Apart(aliases)
    ensures NewNamesAreNew(aliases)
  {
    forall a | a in aliases && a.position.None? ensures FormerName(aliases, NewName(a)).None? {
      PlainNameReads(a);
      NotAmong(aliases, a.now);
    }
  }

  /** A new name longer or shorter than every former name is none of them. */
  predicate ApartByLength(aliases: seq<Alias>) {
    && (forall i | 0 <= i < |aliases| :: aliases[i].position.None? ==> PlainName(aliases[i].now))
    && (forall i, j | 0 <= i < |aliases| && 0 <= j < |aliases| ::
          aliases[i].position.None? ==> |aliases[i].now| != |aliases[j].former|)
  }

  lemma ProviderIsApart()
    ensures ApartByLength(PROVIDER_ADD)
  {
    NewProviderNames();
    forall i, j | 0 <= i < |PROVIDER_ADD| && 0 <= j < |PROVIDER_ADD|
      ensures PlainName(PROVIDER_ADD[i].now) && |PROVIDER_ADD[i].now| >= 12 && |PROVIDER_ADD[j].former| < 12
    {}
  }

  lemma NewProviderNames()
    ensures PlainName("display-name") && PlainName("provisioning")
    ensures PlainName("allowed-directories") && PlainName("allowed-email-domains")
  {}

  lemma NewPresetNames()
    ensures PlainName("preset") && PlainName("is-default") && PlainName("locks") && PlainName("expect-version")
  {}

  lemma PresetsAreApart()
    ensures ApartByLength(PRESETS_CREATE)
  {
    NewPresetNames();
  }

  lemma PresetsSetIsApart()
    ensures ApartByLength(PRESETS_SET)
  {
    NewPresetNames();
  }

  lemma ScheduleIsApart()
    ensures ApartByLength(SCHEDULE_SET)
  {}

  lemma OneNameIsApart(a: Alias)
    requires a.position.None? ==> PlainName(a.now) && |a.now| != |a.former|
    ensures ApartByLength([a])
  {}

  lemma TwoNamesAreApart(a: Alias, b: Alias)
    requires a.position.None? && b.position.None? && PlainName(a.now) && PlainName(b.now)
    requires |a.now| != |a.former| && |a.now| != |b.former| && |b.now| != |a.former| && |b.now| != |b.former|
    ensures ApartByLength([a, b])
  {}

  lemma ShippedRowsAreApart(i: nat)
    requires i < |SHIPPED|
    ensures ApartByLength(SHIPPED[i].1)
  {
    ProviderIsApart();
    PresetsAreApart();
    PresetsSetIsApart();
    ScheduleIsApart();
    if i < 5 { FirstRows(i); } else if i < 11 { MoreRows(i); } else if i < 13 { TwoNameRows(i); }
    else if i in {13, 14, 16, 20} { LastRows(i); }
  }

  lemma FirstRows(i: nat)
    requires i < 5
    ensures ApartByLength(SHIPPED[i].1)
  {
    assert PlainName("enabled") && PlainName("rule-id") && PlainName("account-id");
    assert PlainName("display-name") && PlainName("container-id");
    OneNameIsApart(SHIPPED[i].1[0]);
  }

  lemma MoreRows(i: nat)
    requires 5 <= i < 11
    ensures ApartByLength(SHIPPED[i].1)
  {
    assert PlainName("parent-id") && PlainName("cascade-children");
    assert PlainName("account-id") && PlainName("collection-id");
    OneNameIsApart(SHIPPED[i].1[0]);
  }

  lemma TwoNameRows(i: nat)
    requires 11 <= i < 13
    ensures ApartByLength(SHIPPED[i].1)
  {
    assert PlainName("bucket-id") && PlainName("collection-id");
    assert PlainName("raw-subject") && PlainName("attachments");
    TwoNamesAreApart(SHIPPED[i].1[0], SHIPPED[i].1[1]);
  }

  lemma LastRows(i: nat)
    requires i in {13, 14, 16, 20}
    ensures ApartByLength(SHIPPED[i].1)
  {
    assert PlainName("confirmation") && PlainName("external-reference");
    assert PlainName("left-out") && PlainName("target-id");
    OneNameIsApart(SHIPPED[i].1[0]);
  }

  lemma {:induction false} TableIsARow(rows: seq<(string, seq<Alias>)>, command: string)
    ensures TableIn(rows, command) == [] || exists i | 0 <= i < |rows| :: TableIn(rows, command) == rows[i].1
  {
    if rows != [] && rows[0].0 != command { TableIsARow(rows[1..], command); }
  }

  /** No new name of the shipped table is a former one of the same command. */
  lemma ShippedNamesAreNew(command: string)
    ensures NewNamesAreNew(Table(command))
  {
    TableIsARow(SHIPPED, command);
    if Table(command) != [] {
      var i :| 0 <= i < |SHIPPED| && Table(command) == SHIPPED[i].1;
      ShippedRowsAreApart(i);
      assert Apart(SHIPPED[i].1);
    }
    ApartIsEnough(Table(command));
  }
}
