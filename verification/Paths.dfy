/**
 A generated command's path (`cmd/hubctl/Door.go`): each placeholder of the template is replaced,
 one at a time, by the percent-encoded argument (section 2.1 of RFC 3986).
 */
module Paths {
  import opened Wrappers
  import opened Bytes
  import opened Strings

  // ---------------------------------------------------------------- percent-encoding

  /** What `url.PathEscape` leaves as it is. */
  predicate Plain(c: char) {
    'a' <= c <= 'z' || 'A' <= c <= 'Z' || '0' <= c <= '9' || c in {'-', '_', '.', '~', '$', '&', '+', '=', ':', '@'}
  }

  function HexDigit(n: int): char
    requires 0 <= n < 16
  {
    if n < 10 then ('0' as int + n) as char else ('A' as int + n - 10) as char
  }

  function HexValue(c: char): Option<int> {
    if '0' <= c <= '9' then Some(c as int - '0' as int)
    else if 'A' <= c <= 'F' then Some(c as int - 'A' as int + 10)
    else if 'a' <= c <= 'f' then Some(c as int - 'a' as int + 10)
    else None
  }

  function EscapedByte(b: Byte): string {
    if Plain(b as int as char) then [b as int as char] else ['%', HexDigit(b as int / 16), HexDigit(b as int % 16)]
  }

  function PathEscape(bytes: seq<Byte>): string {
    if bytes == [] then "" else EscapedByte(bytes[0]) + PathEscape(bytes[1..])
  }

  function Unescape(s: string): Option<seq<Byte>> {
    if s == "" then Some([])
    else if s[0] != '%' then
      var rest := Unescape(s[1..]);
      if rest.None? || s[0] as int >= 256 then None else Some([s[0] as int as Byte] + rest.value)
    else if |s| < 3 then None
    else
      var high, low, rest := HexValue(s[1]), HexValue(s[2]), Unescape(s[3..]);
      if high.None? || low.None? || rest.None? || !(0 <= high.value * 16 + low.value < 256) then None
      else Some([(high.value * 16 + low.value) as Byte] + rest.value)
  }

  const HEX := "0123456789ABCDEF"

  /** A byte that is plain is written as it is, and any other as a per cent sign and two upper-case digits. */
  lemma EscapesOneByOne(b: Byte, rest: seq<Byte>)
    ensures var c := b as int as char;
            PathEscape([b] + rest)
            == (if Plain(c) then [c] else ['%', HEX[b as int / 16], HEX[b as int % 16]]) + PathEscape(rest)
  {
    assert ([b] + rest)[1..] == rest;
  }

  lemma {:induction false} UnescapeEscaped(bytes: seq<Byte>)
    ensures Unescape(PathEscape(bytes)) == Some(bytes)
  {
    if bytes != [] {
      UnescapeEscaped(bytes[1..]);
      UnescapeOne(bytes[0], PathEscape(bytes[1..]));
      assert [bytes[0]] + bytes[1..] == bytes;
    }
  }

  lemma UnescapeOne(b: Byte, rest: string)
    requires Unescape(rest).Some?
    ensures Unescape(EscapedByte(b) + rest) == Some([b] + Unescape(rest).value)
  {
    var one := EscapedByte(b);
    var s := one + rest;
    assert s[|one|..] == rest;
    if |one| == 3 {
      HexReads(b as int / 16);
      HexReads(b as int % 16);
      assert s[0] == '%' && s[1] == one[1] && s[2] == one[2];
    } else {
      assert s[0] == b as int as char && s[1..] == rest;
    }
  }

  lemma HexReads(n: int)
    requires 0 <= n < 16
    ensures HexValue(HexDigit(n)) == Some(n)
  {}

  lemma {:induction false} EscapedIsOneSegment(bytes: seq<Byte>)
    ensures Free(PathEscape(bytes))
  {
    if bytes != [] {
      EscapedIsOneSegment(bytes[1..]);
      HexIsFree(bytes[0] as int / 16);
      HexIsFree(bytes[0] as int % 16);
    }
  }

  lemma HexIsFree(n: int)
    requires 0 <= n < 16
    ensures HexDigit(n) !in {'{', '}', '/'}
  {}

  // ---------------------------------------------------------------- templates

  /** One segment: a literal, or a placeholder with literal text around it. */
  datatype Segment = Segment(prefix: string, param: Option<string>, suffix: string)

  predicate Free(s: string) { '{' !in s && '}' !in s && '/' !in s }

  function Brace(name: string): string { "{" + name + "}" }

  function SegmentText(s: Segment): string {
    s.prefix + (if s.param.Some? then Brace(s.param.value) else "") + s.suffix
  }

  function Text(t: seq<Segment>): string {
    if t == [] then "" else "/" + SegmentText(t[0]) + Text(t[1..])
  }

  predicate FreeSegment(s: Segment) {
    Free(s.prefix) && Free(s.suffix) && (s.param.Some? ==> Free(s.param.value))
  }

  /** Braces and slashes stand only where a template puts them, and each placeholder stands once. */
  predicate WellFormed(t: seq<Segment>) {
    && (forall i | 0 <= i < |t| :: FreeSegment(t[i]))
    && forall i, j | 0 <= i < j < |t| && t[i].param.Some? :: t[i].param != t[j].param
  }

  function ParamOf(s: Segment): set<string> { if s.param.Some? then {s.param.value} else {} }

  function Params(t: seq<Segment>): set<string> { if t == [] then {} else ParamOf(t[0]) + Params(t[1..]) }

  function FilledSegment(s: Segment, values: map<string, string>): Segment {
    if s.param.Some? && s.param.value in values then Segment(s.prefix + values[s.param.value] + s.suffix, None, "")
    else s
  }

  /** Every placeholder that has a value, substituted at once. */
  function Filled(t: seq<Segment>, values: map<string, string>): (f: seq<Segment>)
    ensures |f| == |t| && forall i | 0 <= i < |t| :: f[i] == FilledSegment(t[i], values)
  {
    if t == [] then [] else [FilledSegment(t[0], values)] + Filled(t[1..], values)
  }

  // ---------------------------------------------------------------- one placeholder at a time

  /** `strings.Replace(s, old, new, 1)`. */
  function ReplaceFirst(s: string, old_: string, new_: string): string
    requires old_ != ""
  {
    if old_ <= s then new_ + s[|old_|..] else if s == "" then s else [s[0]] + ReplaceFirst(s[1..], old_, new_)
  }

  lemma {:induction false} PastLiteral(literal: string, rest: string, x: string, value: string)
    requires '{' !in literal
    ensures ReplaceFirst(literal + rest, Brace(x), value) == literal + ReplaceFirst(rest, Brace(x), value)
  {
    if literal == "" {
      var replaced := ReplaceFirst(rest, Brace(x), value);
      assert literal + rest == rest && literal + replaced == replaced;
    } else {
      var s := literal + rest;
      assert s[0] == literal[0] && Brace(x)[0] == '{';
      assert s[1..] == literal[1..] + rest;
      PastLiteral(literal[1..], rest, x, value);
      assert literal == [literal[0]] + literal[1..];
      Together([literal[0]], literal[1..], ReplaceFirst(rest, Brace(x), value));
    }
  }

  lemma Together(a: string, b: string, c: string)
    ensures a + (b + c) == a + b + c
  {}

  lemma NamesEnd(x: string, y: string, r: string, rest: string)
    requires '}' !in x && '}' !in y && x + "}" + r == y + "}" + rest
    ensures x == y
  {
    var s, t := x + "}" + r, y + "}" + rest;
    assert s[|x|] == '}' && t[|y|] == '}';
    assert x == s[..|x|] && y == t[..|y|];
  }

  lemma OnlyThisOne(x: string, y: string, rest: string)
    requires Free(x) && Free(y) && Brace(x) <= Brace(y) + rest
    ensures x == y
  {
    var s := Brace(y) + rest;
    var r := s[|Brace(x)|..];
    assert s == Brace(x) + r;
    assert s[1..] == x + "}" + r && s[1..] == y + "}" + rest;
    NamesEnd(x, y, r, rest);
  }

  lemma PastPlaceholder(y: string, rest: string, x: string, value: string)
    requires Free(x) && Free(y) && x != y
    ensures ReplaceFirst(Brace(y) + rest, Brace(x), value) == Brace(y) + ReplaceFirst(rest, Brace(x), value)
  {
    var s := Brace(y) + rest;
    if Brace(x) <= s { OnlyThisOne(x, y, rest); }
    assert s[0] == '{' && s[1..] == (y + "}") + rest;
    PastLiteral(y + "}", rest, x, value);
    Together("{", y + "}", ReplaceFirst(rest, Brace(x), value));
    assert "{" + (y + "}") == Brace(y);
  }

  lemma AtPlaceholder(x: string, rest: string, value: string)
    ensures ReplaceFirst(Brace(x) + rest, Brace(x), value) == value + rest
  {
    assert (Brace(x) + rest)[|Brace(x)|..] == rest;
  }

  lemma ThroughLiteral(front: string, suffix: string, rest: string, x: string, value: string)
    requires '{' !in front && '{' !in suffix
    ensures ReplaceFirst(front + suffix + rest, Brace(x), value) == front + suffix + ReplaceFirst(rest, Brace(x), value)
  {
    PastLiteral(front + suffix, rest, x, value);
  }

  lemma ThroughOwn(front: string, suffix: string, rest: string, x: string, value: string)
    requires '{' !in front
    ensures ReplaceFirst(front + Brace(x) + suffix + rest, Brace(x), value) == front + value + suffix + rest
  {
    assert front + Brace(x) + suffix + rest == front + (Brace(x) + (suffix + rest));
    PastLiteral(front, Brace(x) + (suffix + rest), x, value);
    AtPlaceholder(x, suffix + rest, value);
    assert front + (value + (suffix + rest)) == front + value + suffix + rest;
  }

  lemma ThroughOther(front: string, y: string, suffix: string, rest: string, x: string, value: string)
    requires '{' !in front && '{' !in suffix && Free(x) && Free(y) && x != y
    ensures ReplaceFirst(front + Brace(y) + suffix + rest, Brace(x), value)
         == front + Brace(y) + suffix + ReplaceFirst(rest, Brace(x), value)
  {
    var after := ReplaceFirst(rest, Brace(x), value);
    assert front + Brace(y) + suffix + rest == front + (Brace(y) + (suffix + rest));
    PastLiteral(front, Brace(y) + (suffix + rest), x, value);
    PastPlaceholder(y, suffix + rest, x, value);
    PastLiteral(suffix, rest, x, value);
    assert front + (Brace(y) + (suffix + after)) == front + Brace(y) + suffix + after;
  }

  /** Through one segment: filled there and nothing after it touched, or passed over. */
  lemma ThroughSegment(s: Segment, rest: string, x: string, value: string)
    requires FreeSegment(s) && Free(x)
    ensures ReplaceFirst("/" + SegmentText(s) + rest, Brace(x), value)
         == "/" + SegmentText(FilledSegment(s, map[x := value]))
            + if s.param == Some(x) then rest else ReplaceFirst(rest, Brace(x), value)
  {
    var front := "/" + s.prefix;
    if s.param.None? {
      Slashed(s.prefix, "", s.suffix);
      ThroughLiteral(front, s.suffix, rest, x, value);
    } else {
      Slashed(s.prefix, Brace(s.param.value), s.suffix);
      if s.param.value == x {
        ThroughOwn(front, s.suffix, rest, x, value);
        Slashed(s.prefix, value, s.suffix);
        assert s.prefix + value + s.suffix + "" + "" == s.prefix + value + s.suffix;
      } else {
        ThroughOther(front, s.param.value, s.suffix, rest, x, value);
      }
    }
  }

  lemma Slashed(a: string, b: string, c: string)
    ensures "/" + (a + b + c) == "/" + a + b + c
    ensures b == "" ==> "/" + a + b + c == "/" + a + c
  {}

  lemma {:induction false} ReplacingFillsOne(t: seq<Segment>, x: string, value: string)
    requires WellFormed(t) && Free(x)
    ensures ReplaceFirst(Text(t), Brace(x), value) == Text(Filled(t, map[x := value]))
  {
    if t == [] {
      assert !(Brace(x) <= "");
    } else {
      var rest := Text(t[1..]);
      ThroughSegment(t[0], rest, x, value);
      if t[0].param == Some(x) {
        NothingToFill(t[1..], map[x := value]);
      } else {
        ReplacingFillsOne(t[1..], x, value);
      }
    }
  }

  lemma NothingToFill(t: seq<Segment>, values: map<string, string>)
    requires forall i | 0 <= i < |t| :: t[i].param.Some? ==> t[i].param.value !in values
    ensures Filled(t, values) == t
  {}

  lemma FilledIsWellFormed(t: seq<Segment>, values: map<string, string>)
    requires WellFormed(t) && forall k | k in values :: Free(values[k])
    ensures WellFormed(Filled(t, values))
  {
    var f := Filled(t, values);
    forall i | 0 <= i < |f| ensures FreeSegment(f[i]) {
      assert FreeSegment(t[i]) && f[i] == FilledSegment(t[i], values);
    }
    forall i, j | 0 <= i < j < |f| && f[i].param.Some? ensures f[i].param != f[j].param {
      assert f[i] == t[i] && f[j] == FilledSegment(t[j], values);
    }
  }

  lemma {:induction false} FillingInTurn(t: seq<Segment>, values: map<string, string>, x: string, value: string)
    requires x !in values
    ensures Filled(Filled(t, values), map[x := value]) == Filled(t, values[x := value])
  {
    if t != [] { FillingInTurn(t[1..], values, x, value); }
  }

  /** The values substituted: the arguments, escaped. */
  function Bound(params: seq<string>, args: seq<seq<Byte>>, n: nat): (m: map<string, string>)
    requires n <= |params| == |args|
    ensures m.Keys == set i | 0 <= i < n :: params[i]
  {
    if n == 0 then map[] else Bound(params, args, n - 1)[params[n - 1] := PathEscape(args[n - 1])]
  }

  lemma {:induction false} BoundAreFree(params: seq<string>, args: seq<seq<Byte>>, n: nat)
    requires n <= |params| == |args|
    ensures forall k | k in Bound(params, args, n) :: Free(Bound(params, args, n)[k])
  {
    if n > 0 {
      BoundAreFree(params, args, n - 1);
      EscapedIsOneSegment(args[n - 1]);
    }
  }

  /** The arguments by the placeholder each is bound to. */
  function ArgsBy(params: seq<string>, args: seq<seq<Byte>>, n: nat): (m: map<string, seq<Byte>>)
    requires n <= |params| == |args|
    ensures m.Keys == set i | 0 <= i < n :: params[i]
  {
    if n == 0 then map[] else ArgsBy(params, args, n - 1)[params[n - 1] := args[n - 1]]
  }

  lemma {:induction false} BoundIsEscaped(params: seq<string>, args: seq<seq<Byte>>, n: nat)
    requires n <= |params| == |args|
    ensures Bound(params, args, n) == EscapedAll(ArgsBy(params, args, n))
  {
    if n > 0 {
      BoundIsEscaped(params, args, n - 1);
    }
  }

  /**
   The path of a call: whatever the order of the parameters, all of them substituted at once; where
   they are the template's own, matching the path against it gives back exactly the arguments.
   */
  method BuildPath(
    template: string, params: seq<string>, args: seq<seq<Byte>>, ghost t: seq<Segment>) returns (path: string)
    requires |params| == |args| && Distinct(params) && forall i | 0 <= i < |params| :: Free(params[i])
    requires WellFormed(t) && template == Text(t)
    ensures path == Text(Filled(t, Bound(params, args, |params|)))
    ensures Params(t) == (set p | p in params) ==>
              && Split(path).Some? && |Split(path).value| == |t|
              && MatchAll(t, Split(path).value) == Some(ArgsBy(params, args, |params|))
  {
    path := template;
    NothingToFill(t, map[]);
    for i := 0 to |params|
      invariant path == Text(Filled(t, Bound(params, args, i)))
    {
      BoundAreFree(params, args, i);
      EscapedIsOneSegment(args[i]);
      FilledIsWellFormed(t, Bound(params, args, i));
      FillingInTurn(t, Bound(params, args, i), params[i], PathEscape(args[i]));
      ReplacingFillsOne(Filled(t, Bound(params, args, i)), params[i], PathEscape(args[i]));
      path := ReplaceFirst(path, Brace(params[i]), PathEscape(args[i]));
    }
    if Params(t) == (set p | p in params) {
      BoundIsEscaped(params, args, |params|);
      assert ArgsBy(params, args, |params|).Keys == Params(t);
      PathGivesTheArgumentsBack(t, ArgsBy(params, args, |params|));
    }
  }

  // ---------------------------------------------------------------- reading a path back

  /** The segments of a path, each behind its slash. */
  function Split(path: string): Option<seq<string>>
    decreases |path|
  {
    if path == "" then Some([])
    else if path[0] != '/' then None
    else
      var n := UpTo(path[1..], '/');
      var rest := Split(path[1 + n..]);
      if rest.None? then None else Some([path[1..1 + n]] + rest.value)
  }

  /** What a segment binds: nothing, or the decoded text between the literals around the placeholder. */
  function MatchSegment(s: Segment, text: string): Option<map<string, seq<Byte>>> {
    if s.param.None? then (if text == SegmentText(s) then Some(map[]) else None)
    else if |text| < |s.prefix| + |s.suffix| || !(s.prefix <= text) || text[|text| - |s.suffix|..] != s.suffix then None
    else
      var value := Unescape(text[|s.prefix|..|text| - |s.suffix|]);
      if value.None? then None else Some(map[s.param.value := value.value])
  }

  function MatchAll(t: seq<Segment>, texts: seq<string>): Option<map<string, seq<Byte>>> {
    if |t| != |texts| then None
    else if t == [] then Some(map[])
    else
      var first, rest := MatchSegment(t[0], texts[0]), MatchAll(t[1..], texts[1..]);
      if first.None? || rest.None? then None else Some(first.value + rest.value)
  }

  function Texts(t: seq<Segment>): (texts: seq<string>)
    ensures |texts| == |t|
  {
    if t == [] then [] else [SegmentText(t[0])] + Texts(t[1..])
  }

  predicate NoSlashes(t: seq<Segment>) { t == [] || ('/' !in SegmentText(t[0]) && NoSlashes(t[1..])) }

  lemma {:induction false} SplitText(t: seq<Segment>)
    requires NoSlashes(t)
    ensures Split(Text(t)) == Some(Texts(t))
  {
    if t != [] {
      var path, one, rest := Text(t), SegmentText(t[0]), Text(t[1..]);
      assert path[1..] == one + rest;
      UpToFirst(one, '/', rest);
      assert path[1..1 + |one|] == one && path[1 + |one|..] == rest;
      SplitText(t[1..]);
    }
  }

  function EscapedAll(m: map<string, seq<Byte>>): (e: map<string, string>)
    ensures e.Keys == m.Keys && forall k | k in m :: e[k] == PathEscape(m[k])
  {
    map k | k in m :: PathEscape(m[k])
  }

  function BoundBy(s: Segment, m: map<string, seq<Byte>>): map<string, seq<Byte>>
    requires ParamOf(s) <= m.Keys
  {
    if s.param.Some? then map[s.param.value := m[s.param.value]] else map[]
  }

  function BoundByAll(t: seq<Segment>, m: map<string, seq<Byte>>): map<string, seq<Byte>>
    requires Params(t) <= m.Keys
  {
    if t == [] then map[] else BoundBy(t[0], m) + BoundByAll(t[1..], m)
  }

  lemma {:induction false} BoundIsTheArguments(t: seq<Segment>, m: map<string, seq<Byte>>)
    requires Params(t) <= m.Keys
    ensures BoundByAll(t, m).Keys == Params(t) && forall k | k in Params(t) :: BoundByAll(t, m)[k] == m[k]
  {
    if t != [] { BoundIsTheArguments(t[1..], m); }
  }

  lemma {:induction false} MatchFilled(t: seq<Segment>, m: map<string, seq<Byte>>)
    requires Params(t) <= m.Keys
    ensures MatchAll(t, Texts(Filled(t, EscapedAll(m)))) == Some(BoundByAll(t, m))
  {
    if t != [] {
      var f := Filled(t, EscapedAll(m));
      MatchFilled(t[1..], m);
      MatchFilledSegment(t[0], m);
      assert f[0] == FilledSegment(t[0], EscapedAll(m)) && f[1..] == Filled(t[1..], EscapedAll(m));
      assert Texts(f)[0] == SegmentText(f[0]) && Texts(f)[1..] == Texts(f[1..]);
    }
  }

  lemma MatchFilledSegment(s: Segment, m: map<string, seq<Byte>>)
    requires ParamOf(s) <= m.Keys
    ensures MatchSegment(s, SegmentText(FilledSegment(s, EscapedAll(m)))) == Some(BoundBy(s, m))
  {
    if s.param.Some? {
      assert s.param.value in ParamOf(s);
      var value := PathEscape(m[s.param.value]);
      var text := s.prefix + value + s.suffix;
      assert SegmentText(FilledSegment(s, EscapedAll(m))) == text;
      assert text[|s.prefix|..|text| - |s.suffix|] == value && text[|text| - |s.suffix|..] == s.suffix;
      UnescapeEscaped(m[s.param.value]);
    }
  }

  lemma {:induction false} FilledHasNoSlashes(t: seq<Segment>, m: map<string, seq<Byte>>)
    requires WellFormed(t) && Params(t) <= m.Keys
    ensures NoSlashes(Filled(t, EscapedAll(m)))
  {
    if t != [] {
      FilledHasNoSlashes(t[1..], m);
      assert FreeSegment(t[0]);
      if t[0].param.Some? {
        assert t[0].param.value in ParamOf(t[0]);
        EscapedIsOneSegment(m[t[0].param.value]);
      }
      assert '/' !in SegmentText(FilledSegment(t[0], EscapedAll(m)));
      assert Filled(t, EscapedAll(m))[1..] == Filled(t[1..], EscapedAll(m));
    }
  }

  /**
   The path of a call has as many segments as its template, and matched against it gives back exactly
   the arguments, whatever bytes they are.
   */
  lemma PathGivesTheArgumentsBack(t: seq<Segment>, m: map<string, seq<Byte>>)
    requires WellFormed(t) && Params(t) == m.Keys
    ensures var split := Split(Text(Filled(t, EscapedAll(m))));
            split.Some? && |split.value| == |t| && MatchAll(t, split.value) == Some(m)
  {
    FilledHasNoSlashes(t, m);
    SplitText(Filled(t, EscapedAll(m)));
    MatchFilled(t, m);
    BoundIsTheArguments(t, m);
    assert BoundByAll(t, m) == m;
  }
}
