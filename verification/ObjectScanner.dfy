/**
 * Finding the end of one JSON object on an open pipe, character by character,
 * and why that end is right for every object the grammar allows (RFC 8259
 * sections 2, 4 and 7).
 */
module ObjectScanner {
  import opened Collections
  import opened JsonText

  const MAX_FRAME_BYTES := 64 * 1024

  // -- the scanner ----------------------------------------------------------------------------

  /** Unicode white space, which a leading run of is skipped. */
  predicate IsSpace(c: char) {
    var n := c as int;
    || 0x09 <= n <= 0x0d || 0x1c <= n <= 0x20 || n == 0x85 || n == 0xa0 || n == 0x1680
    || 0x2000 <= n <= 0x200a || n == 0x2028 || n == 0x2029 || n == 0x202f || n == 0x205f || n == 0x3000
  }

  /** Inside the object: how many braces are open, and where in a string we are. */
  datatype State = State(depth: nat, quoted: bool, escaped: bool)

  function Open(depth: nat): State { State(depth, false, false) }

  function Next(s: State, c: char): State {
    if s.quoted then
      if s.escaped then s.(escaped := false)
      else if c == '\\' then s.(escaped := true)
      else if c == '\"' then s.(quoted := false)
      else s
    else if c == '\"' then s.(quoted := true)
    else if c == '{' then s.(depth := s.depth + 1)
    else if c == '}' && s.depth > 0 then s.(depth := s.depth - 1)
    else s
  }

  datatype Result = Record(text: string) | TooLong | NotAnObject

  /** `inside` is None before the first brace. */
  function ScanFrom(inside: Option<State>, seen: string, rest: string): Result
    decreases |rest|
  {
    if rest == [] then Record(seen)
    else
      var c, more := rest[0], seen + [rest[0]];
      if Utf8Length(more) > MAX_FRAME_BYTES then TooLong
      else if inside.Some? then
        var s := Next(inside.value, c);
        if s.depth == 0 then Record(more) else ScanFrom(Some(s), more, rest[1..])
      else if IsSpace(c) then ScanFrom(None, more, rest[1..])
      else if c != '{' then NotAnObject
      else ScanFrom(Some(Open(1)), more, rest[1..])
  }

  method HookJsonRecord(input: string) returns (r: Result)
    ensures r == ScanFrom(None, [], input)
  {
    var characters, size, i := [], 0, 0;
    var depth: nat, quoted, escaped, started := 0, false, false, false;
    while i < |input|
      invariant 0 <= i <= |input| && characters == input[..i] && size == Utf8Length(characters)
      invariant started ==> depth > 0
      invariant !started ==> depth == 0 && !quoted && !escaped
      invariant ScanFrom(None, [], input) ==
                ScanFrom(if started then Some(State(depth, quoted, escaped)) else None, characters, input[i..])
    {
      var character := input[i];
      Utf8Append(characters, [character]);
      assert Utf8Length([character]) == CharBytes(character);
      assert input[i..][0] == character && input[i..][1..] == input[i + 1..];
      size := size + CharBytes(character);
      if size > MAX_FRAME_BYTES { return TooLong; }
      characters := characters + [character];
      i := i + 1;
      if !started {
        if IsSpace(character) { continue; }
        if character != '{' { return NotAnObject; }
        started := true;
        depth := 1;
      } else if quoted {
        if escaped {
          escaped := false;
        } else if character == '\\' {
          escaped := true;
        } else if character == '\"' {
          quoted := false;
        }
      } else if character == '\"' {
        quoted := true;
      } else if character == '{' {
        depth := depth + 1;
      } else if character == '}' {
        depth := depth - 1;
        if depth == 0 { return Record(characters); }
      }
    }
    return Record(characters);
  }

  // -- JSON text --------------------------------------------------------------------------------

  /** The inside of a string literal: every quote is behind a backslash. */
  predicate Literal(raw: string)
    decreases |raw|
  {
    raw == [] || (if raw[0] == '\\' then |raw| >= 2 && Literal(raw[2..]) else raw[0] != '\"' && Literal(raw[1..]))
  }

  /** Text without quotes and braces: numbers, the three names, white space. */
  predicate Plain(text: string) {
    forall i :: 0 <= i < |text| ==> text[i] != '\"' && text[i] != '{' && text[i] != '}'
  }

  /** A JSON value with whatever white space surrounds it. */
  datatype Json =
    | Atom(text: string)
    | Str(raw: string)
    | Arr(items: seq<Json>)
    | Obj(gap: string, members: seq<Member>)
    | Spaced(before: string, inner: Json, after: string)

  datatype Member = Member(before: string, key: string, after: string, value: Json)

  predicate WellFormed(v: Json)
    decreases v
  {
    match v
    case Atom(t) => Plain(t)
    case Str(raw) => Literal(raw)
    case Arr(items) => forall i :: 0 <= i < |items| ==> WellFormed(items[i])
    case Obj(gap, members) =>
      Plain(gap) && forall i :: 0 <= i < |members| ==>
        Plain(members[i].before) && Literal(members[i].key) && Plain(members[i].after) && WellFormed(members[i].value)
    case Spaced(b, inner, a) => Plain(b) && WellFormed(inner) && Plain(a)
  }

  function QuotedText(raw: string): string { "\"" + raw + "\"" }

  function Print(v: Json): string
    decreases v, 1, 0
  {
    match v
    case Atom(t) => t
    case Str(raw) => QuotedText(raw)
    case Arr(items) => "[" + PrintItems(v, items, |items|) + "]"
    case Obj(gap, members) => "{" + (gap + PrintMembers(v, members, |members|)) + "}"
    case Spaced(b, inner, a) => b + Print(inner) + a
  }

  function PrintItems(v: Json, items: seq<Json>, n: nat): string
    requires v.Arr? && v.items == items && n <= |items|
    decreases v, 0, n
  {
    if n == 0 then ""
    else PrintItems(v, items, n - 1) + (if n == 1 then "" else ",") + Print(items[n - 1])
  }

  function PrintMembers(v: Json, members: seq<Member>, n: nat): string
    requires v.Obj? && v.members == members && n <= |members|
    decreases v, 0, n
  {
    if n == 0 then ""
    else
      var m := members[n - 1];
      PrintMembers(v, members, n - 1) + (if n == 1 then "" else ",")
      + (m.before + QuotedText(m.key) + m.after + ":" + Print(m.value))
  }

  // -- what the scanner makes of it -----------------------------------------------------------------

  /** Where the scanner is after `t`, or None if it stopped on the way. */
  function Final(s: State, t: string): Option<State>
    decreases |t|
  {
    if t == [] then Some(s)
    else
      var n := Next(s, t[0]);
      if n.depth == 0 then None else Final(n, t[1..])
  }

  lemma {:induction false} FinalAppend(s: State, a: string, b: string)
    ensures Final(s, a + b) == if Final(s, a).None? then None else Final(Final(s, a).value, b)
    decreases |a|
  {
    if a == [] {
      assert a + b == b;
    } else {
      assert (a + b)[0] == a[0] && (a + b)[1..] == a[1..] + b;
      FinalAppend(Next(s, a[0]), a[1..], b);
    }
  }

  /** Text that leaves the scanner exactly where it was, at any depth. */
  ghost predicate Neutral(t: string) { forall d: nat :: d > 0 ==> Final(Open(d), t) == Some(Open(d)) }

  lemma NeutralAppend(a: string, b: string)
    requires Neutral(a) && Neutral(b)
    ensures Neutral(a + b)
  {
    forall d: nat | d > 0 ensures Final(Open(d), a + b) == Some(Open(d)) {
      FinalAppend(Open(d), a, b);
    }
  }

  lemma {:induction false} PlainStays(d: nat, t: string)
    requires d > 0 && Plain(t)
    ensures Final(Open(d), t) == Some(Open(d))
    decreases |t|
  {
    if t != [] { PlainStays(d, t[1..]); }
  }

  lemma PlainIsNeutral(t: string)
    requires Plain(t)
    ensures Neutral(t)
  {
    forall d: nat | d > 0 ensures Final(Open(d), t) == Some(Open(d)) { PlainStays(d, t); }
  }

  lemma {:induction false} LiteralStays(d: nat, raw: string)
    requires d > 0 && Literal(raw)
    ensures Final(State(d, true, false), raw) == Some(State(d, true, false))
    decreases |raw|
  {
    if raw != [] {
      if raw[0] == '\\' {
        assert raw[1..][1..] == raw[2..];
        LiteralStays(d, raw[2..]);
      } else {
        LiteralStays(d, raw[1..]);
      }
    }
  }

  lemma StringIsNeutral(raw: string)
    requires Literal(raw)
    ensures Neutral(QuotedText(raw))
  {
    forall d: nat | d > 0 ensures Final(Open(d), QuotedText(raw)) == Some(Open(d)) {
      LiteralStays(d, raw);
      FinalAppend(State(d, true, false), raw, "\"");
      assert QuotedText(raw)[1..] == raw + "\"";
    }
  }

  lemma NestedIsNeutral(t: string)
    requires Neutral(t)
    ensures Neutral("{" + t + "}")
  {
    forall d: nat | d > 0 ensures Final(Open(d), "{" + t + "}") == Some(Open(d)) {
      FinalAppend(Open(d + 1), t, "}");
      assert ("{" + t + "}")[1..] == t + "}";
    }
  }

  lemma {:induction false} PrintIsNeutral(v: Json)
    requires WellFormed(v)
    ensures Neutral(Print(v))
    decreases v, 2, 0
  {
    match v
    case Atom(t) => PlainIsNeutral(t);
    case Str(raw) => StringIsNeutral(raw);
    case Arr(items) =>
      ItemsAreNeutral(v, items, |items|);
      PlainIsNeutral("[");
      PlainIsNeutral("]");
      NeutralAppend("[", PrintItems(v, items, |items|));
      NeutralAppend("[" + PrintItems(v, items, |items|), "]");
    case Obj(gap, members) =>
      BodyIsNeutral(v);
      NestedIsNeutral(gap + PrintMembers(v, members, |members|));
    case Spaced(b, inner, a) =>
      PlainIsNeutral(b);
      PlainIsNeutral(a);
      PrintIsNeutral(inner);
      NeutralAppend(b, Print(inner));
      NeutralAppend(b + Print(inner), a);
  }

  lemma {:induction false} ItemsAreNeutral(v: Json, items: seq<Json>, n: nat)
    requires WellFormed(v) && v.Arr? && v.items == items && n <= |items|
    ensures Neutral(PrintItems(v, items, n))
    decreases v, 0, n
  {
    if n == 0 {
      PlainIsNeutral("");
    } else {
      var comma := if n == 1 then "" else ",";
      ItemsAreNeutral(v, items, n - 1);
      PlainIsNeutral(comma);
      PrintIsNeutral(items[n - 1]);
      NeutralAppend(PrintItems(v, items, n - 1), comma);
      NeutralAppend(PrintItems(v, items, n - 1) + comma, Print(items[n - 1]));
    }
  }

  lemma MemberIsNeutral(m: Member)
    requires Plain(m.before) && Literal(m.key) && Plain(m.after) && Neutral(Print(m.value))
    ensures Neutral(m.before + QuotedText(m.key) + m.after + ":" + Print(m.value))
  {
    PlainIsNeutral(m.before);
    StringIsNeutral(m.key);
    PlainIsNeutral(m.after);
    PlainIsNeutral(":");
    NeutralAppend(m.before, QuotedText(m.key));
    NeutralAppend(m.before + QuotedText(m.key), m.after);
    NeutralAppend(m.before + QuotedText(m.key) + m.after, ":");
    NeutralAppend(m.before + QuotedText(m.key) + m.after + ":", Print(m.value));
  }

  lemma {:induction false} MembersAreNeutral(v: Json, members: seq<Member>, n: nat)
    requires WellFormed(v) && v.Obj? && v.members == members && n <= |members|
    ensures Neutral(PrintMembers(v, members, n))
    decreases v, 0, n
  {
    if n == 0 {
      PlainIsNeutral("");
    } else {
      var m, comma := members[n - 1], if n == 1 then "" else ",";
      var member := m.before + QuotedText(m.key) + m.after + ":" + Print(m.value);
      MembersAreNeutral(v, members, n - 1);
      PlainIsNeutral(comma);
      PrintIsNeutral(m.value);
      MemberIsNeutral(m);
      NeutralAppend(PrintMembers(v, members, n - 1), comma);
      NeutralAppend(PrintMembers(v, members, n - 1) + comma, member);
    }
  }

  lemma {:induction false} BodyIsNeutral(v: Json)
    requires WellFormed(v) && v.Obj?
    ensures Neutral(v.gap + PrintMembers(v, v.members, |v.members|))
    decreases v, 1, 0
  {
    PlainIsNeutral(v.gap);
    MembersAreNeutral(v, v.members, |v.members|);
    NeutralAppend(v.gap, PrintMembers(v, v.members, |v.members|));
  }

  // -- exactness --------------------------------------------------------------------------------------

  lemma {:induction false} ScanThrough(s: State, seen: string, t: string, rest: string)
    requires Final(s, t).Some? && Utf8Length(seen + t) <= MAX_FRAME_BYTES
    ensures ScanFrom(Some(s), seen, t + rest) == ScanFrom(Final(s, t), seen + t, rest)
    decreases |t|
  {
    if t == [] {
      assert t + rest == rest && seen + t == seen;
    } else {
      var more := seen + [t[0]];
      assert seen + t == more + t[1..];
      Utf8Append(more, t[1..]);
      assert (t + rest)[1..] == t[1..] + rest;
      ScanThrough(Next(s, t[0]), more, t[1..], rest);
    }
  }

  lemma {:induction false} SkipSpace(seen: string, blank: string, rest: string)
    requires (forall i :: 0 <= i < |blank| ==> IsSpace(blank[i])) && Utf8Length(seen + blank) <= MAX_FRAME_BYTES
    ensures ScanFrom(None, seen, blank + rest) == ScanFrom(None, seen + blank, rest)
    decreases |blank|
  {
    if blank == [] {
      assert blank + rest == rest && seen + blank == seen;
    } else {
      var more := seen + [blank[0]];
      assert seen + blank == more + blank[1..];
      Utf8Append(more, blank[1..]);
      assert (blank + rest)[1..] == blank[1..] + rest;
      SkipSpace(more, blank[1..], rest);
    }
  }

  lemma ScanBody(blank: string, body: string, rest: string)
    requires Neutral(body) && Utf8Length(blank + "{" + body + "}") <= MAX_FRAME_BYTES
    ensures ScanFrom(None, blank, "{" + body + "}" + rest) == Record(blank + "{" + body + "}")
  {
    var start := blank + "{";
    var tail := body + ("}" + rest);
    assert "{" + body + "}" + rest == "{" + tail;
    assert ("{" + tail)[1..] == tail;
    Utf8Append(start + body, "}");
    Utf8Append(start, body);
    assert Final(Open(1), body) == Some(Open(1));
    ScanThrough(Open(1), start, body, "}" + rest);
    assert ("}" + rest)[0] == '}';
  }

  /** For every JSON object, after any leading white space and whatever follows it,
      the scanner returns that object's text and stops exactly at its closing
      brace, as long as the object ends within the byte bound. */
  lemma ScannerStopsAtTheClosingBrace(blank: string, v: Json, rest: string)
    requires WellFormed(v) && v.Obj?
    requires forall i :: 0 <= i < |blank| ==> IsSpace(blank[i])
    requires Utf8Length(blank + Print(v)) <= MAX_FRAME_BYTES
    ensures ScanFrom(None, [], blank + Print(v) + rest) == Record(blank + Print(v))
  {
    var body := v.gap + PrintMembers(v, v.members, |v.members|);
    BodyIsNeutral(v);
    assert Print(v) == "{" + body + "}";
    assert blank + Print(v) == blank + "{" + body + "}";
    Utf8Append(blank, Print(v));
    assert [] + blank == blank;
    SkipSpace([], blank, Print(v) + rest);
    assert blank + Print(v) + rest == blank + (Print(v) + rest);
    ScanBody(blank, body, rest);
  }

  /** The program's own printer writes such literals. */
  lemma {:induction false} EscapedTextIsALiteral(s: string)
    ensures Literal(Escape(s))
    decreases |s|
  {
    if s != [] {
      EscapedTextIsALiteral(s[1..]);
      EscapedCharThenLiteral(s[0], Escape(s[1..]));
    }
  }

  lemma EscapedCharThenLiteral(c: char, rest: string)
    requires Literal(rest)
    ensures Literal(EscapeChar(c) + rest)
  {
    var t := EscapeChar(c) + rest;
    if |EscapeChar(c)| == 1 {
      assert t[1..] == rest;
    } else if |EscapeChar(c)| == 2 {
      assert t[2..] == rest;
    } else {
      HexIsOrdinary(c as int / 16);
      HexIsOrdinary(c as int % 16);
      CodeThenLiteral(HEX[c as int / 16], HEX[c as int % 16], rest);
    }
  }

  lemma HexIsOrdinary(n: nat)
    requires n < 16
    ensures HEX[n] != '\"' && HEX[n] != '\\'
  {
  }

  lemma CodeThenLiteral(a: char, b: char, rest: string)
    requires a != '\"' && a != '\\' && b != '\"' && b != '\\' && Literal(rest)
    ensures Literal("\\u00" + [a, b] + rest)
  {
    var t := "\\u00" + [a, b] + rest;
    OrdinaryThenLiteral(b, rest);
    OrdinaryThenLiteral(a, [b] + rest);
    OrdinaryThenLiteral('0', [a] + ([b] + rest));
    OrdinaryThenLiteral('0', ['0'] + ([a] + ([b] + rest)));
    assert t[2..] == ['0'] + (['0'] + ([a] + ([b] + rest)));
  }

  lemma OrdinaryThenLiteral(c: char, rest: string)
    requires c != '\"' && c != '\\' && Literal(rest)
    ensures Literal([c] + rest)
  {
    assert ([c] + rest)[1..] == rest;
  }
}
