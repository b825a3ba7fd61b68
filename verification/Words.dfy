/** Splitting a name into words and joining words into a name, as Go's `strings` does. */
module Words {
  import opened Strings

  function WordLength(s: string): (n: nat)
    ensures n <= |s| && (forall c | c in s[..n] :: !IsSpace(c)) && (n < |s| ==> IsSpace(s[n]))
  {
    if s == "" || IsSpace(s[0]) then 0
    else
      var n := 1 + WordLength(s[1..]);
      assert s[..n] == [s[0]] + s[1..][..n - 1];
      n
  }

  /** `strings.Fields`. */
  function Fields(s: string): seq<string>
    decreases |s|
  {
    if s == "" then []
    else if IsSpace(s[0]) then Fields(s[1..])
    else
      var n := WordLength(s);
      [s[..n]] + Fields(s[n..])
  }

  /** `strings.Join(words, " ")`. */
  function Join(words: seq<string>): string {
    if words == [] then "" else if |words| == 1 then words[0] else words[0] + " " + Join(words[1..])
  }

  predicate IsWord(w: string) { w != "" && forall c | c in w :: !IsSpace(c) }

  /** A name written with one space between its words and none around them. */
  predicate Normal(name: string) { Join(Fields(name)) == name }

  lemma {:induction false} FieldsAreWords(s: string)
    ensures forall w | w in Fields(s) :: IsWord(w)
    decreases |s|
  {
    if s != "" {
      if IsSpace(s[0]) { FieldsAreWords(s[1..]); } else { FieldsAreWords(s[WordLength(s)..]); }
    }
  }

  function Spaces(s: string): nat { if s == "" then 0 else (if s[0] == ' ' then 1 else 0) + Spaces(s[1..]) }

  function SpacesIn(words: seq<string>): nat { if words == [] then 0 else Spaces(words[0]) + SpacesIn(words[1..]) }

  lemma {:induction false} SpacesAdd(a: string, b: string)
    ensures Spaces(a + b) == Spaces(a) + Spaces(b)
  {
    if a == "" {
      assert a + b == b;
    } else {
      assert (a + b)[1..] == a[1..] + b;
      SpacesAdd(a[1..], b);
    }
  }

  lemma {:induction false} NoSpaces(s: string)
    ensures ' ' in s <==> Spaces(s) > 0
  {
    if s != "" { NoSpaces(s[1..]); }
  }

  lemma {:induction false} SpacesJoined(words: seq<string>)
    ensures words != [] ==> Spaces(Join(words)) == SpacesIn(words) + |words| - 1
  {
    if |words| == 1 {
      assert SpacesIn(words) == Spaces(words[0]) + SpacesIn(words[1..]);
    } else if words != [] {
      SpacesJoined(words[1..]);
      SpacesAdd(words[0], " ");
      SpacesAdd(words[0] + " ", Join(words[1..]));
    }
  }

  lemma {:induction false} NoneHasSpaces(words: seq<string>)
    ensures SpacesIn(words) == 0 <==> forall w | w in words :: ' ' !in w
  {
    if words != [] {
      NoSpaces(words[0]);
      NoneHasSpaces(words[1..]);
      assert words == [words[0]] + words[1..];
    }
  }

  lemma FirstWordsAgree(a: string, b: string, x: string, y: string)
    requires ' ' !in a && ' ' !in b && a + " " + x == b + " " + y
    ensures a == b && x == y
  {
    var s, t := a + " " + x, b + " " + y;
    assert s[|a|] == ' ' && t[|b|] == ' ';
    assert a == s[..|a|] && b == t[..|b|];
    assert x == s[|a| + 1..] && y == t[|b| + 1..];
  }

  lemma {:induction false} SpacelessJoinIsInjective(a: seq<string>, b: seq<string>)
    requires |a| == |b| && Join(a) == Join(b)
    requires (forall w | w in a :: ' ' !in w) && forall w | w in b :: ' ' !in w
    ensures a == b
  {
    if |a| > 1 {
      FirstWordsAgree(a[0], b[0], Join(a[1..]), Join(b[1..]));
      SpacelessJoinIsInjective(a[1..], b[1..]);
      assert a == [a[0]] + a[1..] && b == [b[0]] + b[1..];
    }
  }

  /**
   As many arguments joined are a name exactly when they are its words: an argument with a space in
   it would leave one space too many.
   */
  lemma JoinsToItsWordsOnly(name: string, args: seq<string>)
    requires Normal(name) && |args| == |Fields(name)|
    ensures Join(args) == name <==> args == Fields(name)
  {
    var words := Fields(name);
    if Join(args) == name && args != [] {
      FieldsAreWords(name);
      forall w | w in words ensures ' ' !in w { assert IsWord(w); }
      NoneHasSpaces(words);
      SpacesJoined(words);
      SpacesJoined(args);
      NoneHasSpaces(args);
      SpacelessJoinIsInjective(args, words);
    }
  }
}
