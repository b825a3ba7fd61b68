/**
 The `{voice:N}` placeholders that `hubctl workspace demo --voices` writes and
 `scripts/seed-demo.py` reads back: how hubctl spells one, how it notices one
 (`strings.Contains`), and how the replay finds and replaces them (the regular
 expression `\{voice:(\d+)\}` with `findall` and `sub`).
 */
module Placeholders {
  import opened Decimals

  const OPEN := "{voice:"

  /** Text no brace opens in, so that no placeholder can begin inside it. */
  predicate Plain(s: string) { '{' !in s }

  /** What hubctl answers for the voice it has just queued at place `n`. */
  function Placeholder(n: nat): string { OPEN + Digits(n) + "}" }

  // ---------------------------------------------------------------- finding them

  /** How many digits `s` begins with. */
  function DigitRun(s: string): (n: nat)
    ensures n <= |s|
    ensures forall c | c in s[..n] :: IsDigit(c)
    ensures n < |s| ==> !IsDigit(s[n])
  {
    if s == "" || !IsDigit(s[0]) then 0
    else
      var n := 1 + DigitRun(s[1..]);
      assert s[..n] == [s[0]] + s[1..][..n - 1];
      n
  }

  /** The length of the placeholder `s` begins with, 0 where it begins with none. */
  function MatchLength(s: string): (n: nat)
    ensures n == 0 || (|OPEN| + 1 < n <= |s| && s[0] == '{' && s[n - 1] == '}')
    ensures n > 0 ==> forall c | c in s[|OPEN|..n - 1] :: IsDigit(c)
  {
    if OPEN <= s then
      var d := DigitRun(s[|OPEN|..]);
      if d > 0 && |OPEN| + d < |s| && s[|OPEN| + d] == '}' then
        assert s[|OPEN|..][..d] == s[|OPEN|..|OPEN| + d];
        |OPEN| + d + 1
      else 0
    else 0
  }

  /** The numbers the regular expression finds in `s`, leftmost match first. */
  function Refs(s: string): set<nat>
    decreases |s|
  {
    if s == "" then {}
    else
      var m := MatchLength(s);
      if m > 0 then {NumberOf(s[|OPEN|..m - 1])} + Refs(s[m..]) else Refs(s[1..])
  }

  /** `s` with every placeholder replaced by what its voice made. */
  function Substituted(s: string, made: map<nat, string>): string
    requires Refs(s) <= made.Keys
    decreases |s|
  {
    if s == "" then ""
    else
      var m := MatchLength(s);
      if m > 0 then made[NumberOf(s[|OPEN|..m - 1])] + Substituted(s[m..], made)
      else [s[0]] + Substituted(s[1..], made)
  }

  /** Whether hubctl's `strings.Contains(s, "{voice:")` is true. */
  predicate MentionsVoice(s: string)
    decreases |s|
  {
    s != "" && (OPEN <= s || MentionsVoice(s[1..]))
  }

  // ---------------------------------------------------------------- plain text and a placeholder, followed by more

  /** Plain text in front is kept as it is by all three readings. */
  lemma {:induction false} PlainInFront(a: string, t: string, made: map<nat, string>)
    requires Plain(a)
    ensures Refs(a + t) == Refs(t)
    ensures Refs(t) <= made.Keys ==> Substituted(a + t, made) == a + Substituted(t, made)
    ensures MentionsVoice(a + t) == MentionsVoice(t)
  {
    if a == "" {
      assert a + t == t;
    } else {
      assert (a + t)[1..] == a[1..] + t;
      assert MatchLength(a + t) == 0 && !(OPEN <= a + t) by { assert (a + t)[0] == a[0]; }
      PlainInFront(a[1..], t, made);
      if Refs(t) <= made.Keys {
        assert Substituted(a + t, made) == [a[0]] + (a[1..] + Substituted(t, made));
      }
    }
  }

  lemma {:induction false} DigitRunStops(a: string, t: string)
    requires forall c | c in a :: IsDigit(c)
    requires t != "" && !IsDigit(t[0])
    ensures DigitRun(a + t) == |a|
  {
    if a == "" {
      assert a + t == t;
    } else {
      assert (a + t)[0] == a[0] && (a + t)[1..] == a[1..] + t;
      DigitRunStops(a[1..], t);
    }
  }

  /** A placeholder in front is read as its own number, and replaced as a whole. */
  lemma PlaceholderInFront(n: nat, t: string, made: map<nat, string>)
    ensures MatchLength(Placeholder(n) + t) == |Placeholder(n)|
    ensures Refs(Placeholder(n) + t) == {n} + Refs(t)
    ensures n in made && Refs(t) <= made.Keys ==>
              Substituted(Placeholder(n) + t, made) == made[n] + Substituted(t, made)
    ensures MentionsVoice(Placeholder(n) + t)
  {
    var s := Placeholder(n) + t;
    var d := Digits(n);
    assert s[|OPEN|..] == d + ("}" + t);
    DigitRunStops(d, "}" + t);
    assert s[..|OPEN|] == OPEN;
    assert s[|OPEN| + |d|] == '}';
    assert s[|Placeholder(n)|..] == t;
    assert s[|OPEN|..|Placeholder(n)| - 1] == d;
    NumberOfDigits(n);
  }

  // ---------------------------------------------------------------- replacing leaves none behind

  /**
   An identifier no placeholder can run through: it opens and closes no brace, and
   carries the hyphen every UUID carries and no placeholder does.
   */
  predicate Opaque(id: string) { '{' !in id && '}' !in id && '-' in id }

  /** No placeholder carries a hyphen. */
  lemma MatchHasNoHyphen(s: string, i: nat)
    requires i < MatchLength(s)
    ensures s[i] != '-'
  {
    var m := MatchLength(s);
    if i < |OPEN| {
      assert OPEN <= s && s[i] == OPEN[i];
      assert '-' !in OPEN;
    } else if i < m - 1 {
      var digits := s[|OPEN|..m - 1];
      assert digits[i - |OPEN|] in digits;
      assert IsDigit(s[i]);
    }
  }

  /** A placeholder that begins in `a` is over before the hyphen of `id`, so it ends inside `a`. */
  lemma NoMatchAcrossOpaque(a: string, id: string, rest: string)
    requires a != "" && Opaque(id)
    requires MatchLength(a + id + rest) > 0
    ensures MatchLength(a) == MatchLength(a + id + rest)
  {
    var s := a + id + rest;
    var m := MatchLength(s);
    var h :| 0 <= h < |id| && id[h] == '-';
    assert s[|a| + h] == '-';
    if |a| + h < m {
      MatchHasNoHyphen(s, |a| + h);
    }
    assert m <= |a|;
    assert a + (id + rest) == s;
    MatchWithin(a, id + rest, m);
  }

  lemma MatchWithin(a: string, t: string, m: nat)
    requires MatchLength(a + t) == m && 0 < m <= |a|
    ensures MatchLength(a) == m
  {
    var s := a + t;
    assert a[..|OPEN|] == s[..|OPEN|];
    var digits := a[|OPEN|..m - 1];
    assert digits == s[|OPEN|..m - 1];
    var tail := a[m - 1..];
    assert tail[0] == s[m - 1] == '}';
    assert a[|OPEN|..] == digits + tail;
    DigitRunStops(digits, tail);
  }

  /**
   Replaced by opaque identifiers, a text holds no placeholder any more. `a` is what has been
   copied so far since the last identifier, and holds none itself wherever it is cut.
   */
  lemma {:induction false} SubstitutedHoldsNone(a: string, s: string, made: map<nat, string>)
    requires Refs(s) <= made.Keys
    requires forall n | n in made :: Opaque(made[n])
    requires forall i | 0 <= i < |a| :: MatchLength((a + s)[i..]) == 0
    ensures Refs(a + Substituted(s, made)) == {}
    decreases |s|, |a|
  {
    if s == "" {
      assert a + s == a;
      NoMatchNoRefs(a);
      assert a + Substituted(s, made) == a;
    } else if MatchLength(s) == 0 {
      OneMoreCopied(a, s);
      SubstitutedHoldsNone(a + [s[0]], s[1..], made);
      assert a + Substituted(s, made) == (a + [s[0]]) + Substituted(s[1..], made);
    } else {
      var m := MatchLength(s);
      var id := made[NumberOf(s[|OPEN|..m - 1])];
      var rest := Substituted(s[m..], made);
      SubstitutedHoldsNone("", s[m..], made);
      assert "" + rest == rest;
      PlainInFront(id, rest, made);
      CopiedHoldsNone(a, s, id, rest);
      NoMatchInFront(a, id + rest);
      assert a + Substituted(s, made) == a + (id + rest);
    }
  }

  lemma OneMoreCopied(a: string, s: string)
    requires s != "" && MatchLength(s) == 0 && forall i | 0 <= i < |a| :: MatchLength((a + s)[i..]) == 0
    ensures var longer := a + [s[0]];
            && longer + s[1..] == a + s
            && forall i | 0 <= i < |longer| :: MatchLength((longer + s[1..])[i..]) == 0
  {
    assert (a + [s[0]]) + s[1..] == a + s;
    forall i | 0 <= i < |a| + 1 ensures MatchLength((a + s)[i..]) == 0 {
      if i == |a| { assert (a + s)[i..] == s; }
    }
  }

  /** What was copied so far begins no placeholder with an opaque identifier behind it either. */
  lemma CopiedHoldsNone(a: string, s: string, id: string, rest: string)
    requires Opaque(id)
    requires forall i | 0 <= i < |a| :: MatchLength((a + s)[i..]) == 0
    ensures forall i | 0 <= i < |a| :: MatchLength((a + (id + rest))[i..]) == 0
  {
    forall i | 0 <= i < |a| ensures MatchLength((a + (id + rest))[i..]) == 0 {
      assert (a + (id + rest))[i..] == a[i..] + id + rest;
      assert (a + s)[i..] == a[i..] + s;
      if MatchLength(a[i..] + id + rest) > 0 {
        NoMatchAcrossOpaque(a[i..], id, rest);
        MatchExtends(a[i..], s);
      }
    }
  }

  lemma MatchExtends(a: string, t: string)
    requires MatchLength(a) > 0
    ensures MatchLength(a + t) == MatchLength(a)
  {
    var m := MatchLength(a);
    var s := a + t;
    var digits := a[|OPEN|..m - 1];
    assert s[..|OPEN|] == a[..|OPEN|];
    assert s[|OPEN|..] == digits + s[m - 1..];
    DigitRunStops(digits, s[m - 1..]);
  }

  lemma {:induction false} NoMatchNoRefs(s: string)
    requires forall i | 0 <= i < |s| :: MatchLength(s[i..]) == 0
    ensures Refs(s) == {}
    decreases |s|
  {
    if s != "" {
      assert s[0..] == s;
      forall i | 0 <= i < |s[1..]| ensures MatchLength(s[1..][i..]) == 0 {
        assert s[1..][i..] == s[i + 1..];
      }
      NoMatchNoRefs(s[1..]);
    }
  }

  lemma {:induction false} NoMatchInFront(a: string, t: string)
    requires forall i | 0 <= i < |a| :: MatchLength((a + t)[i..]) == 0
    ensures Refs(a + t) == Refs(t)
  {
    if a == "" {
      assert a + t == t;
    } else {
      assert (a + t)[0..] == a + t;
      assert (a + t)[1..] == a[1..] + t;
      forall i | 0 <= i < |a[1..]| ensures MatchLength((a[1..] + t)[i..]) == 0 {
        assert (a[1..] + t)[i..] == (a + t)[i + 1..];
      }
      NoMatchInFront(a[1..], t);
    }
  }

  /** Without the hyphen it can: the identifier "5" completes a placeholder around it. */
  lemma SubstitutionCanMakeAPlaceholder()
    ensures var s := OPEN + Placeholder(0) + "}";
            Refs(s) == {0} && Substituted(s, map[0 := "5"]) == Placeholder(5)
  {
    var inner, made := Placeholder(0) + "}", map[0 := "5"];
    assert OPEN + Placeholder(0) + "}" == OPEN + inner;
    assert inner[0] == '{';
    UnfinishedInFront(inner, made);
    OneInside(made);
    assert Digits(5) == "5";
    assert OPEN + ("5" + "}") == Placeholder(5);
  }

  /** What follows the opening is no number, so nothing is found there. */
  lemma UnfinishedInFront(t: string, made: map<nat, string>)
    requires t != "" && t[0] == '{'
    ensures Refs(OPEN + t) == Refs(t)
    ensures Refs(t) <= made.Keys ==> Substituted(OPEN + t, made) == OPEN + Substituted(t, made)
  {
    var s := OPEN + t;
    assert s[|OPEN|..] == t && DigitRun(t) == 0;
    assert MatchLength(s) == 0;
    assert s[1..] == "voice:" + t;
    PlainInFront("voice:", t, made);
    if Refs(t) <= made.Keys { assert "{" + ("voice:" + Substituted(t, made)) == OPEN + Substituted(t, made); }
  }

  lemma OneInside(made: map<nat, string>)
    requires made == map[0 := "5"]
    ensures Refs(Placeholder(0) + "}") == {0} && Substituted(Placeholder(0) + "}", made) == "5" + "}"
  {
    PlaceholderInFront(0, "}", made);
    PlainInFront("}", "", made);
    assert "}" + "" == "}";
  }
}
