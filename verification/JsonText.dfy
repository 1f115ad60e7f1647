/**
 * JSON string literals as the program prints them (`ensure_ascii=False`), their
 * size in UTF-8 bytes, and the reader that undoes them (RFC 8259 section 7).
 */
module JsonText {
  import opened Collections

  function CharBytes(c: char): nat {
    if c < '\U{80}' then 1 else if c < '\U{800}' then 2 else if c < '\U{10000}' then 3 else 4
  }

  function Utf8Length(s: string): nat
    decreases |s|
  {
    if s == [] then 0 else CharBytes(s[0]) + Utf8Length(s[1..])
  }

  lemma {:induction false} Utf8Append(a: string, b: string)
    ensures Utf8Length(a + b) == Utf8Length(a) + Utf8Length(b)
    decreases |a|
  {
    if a == [] {
      assert a + b == b;
    } else {
      Utf8Append(a[1..], b);
      assert (a + b)[1..] == a[1..] + b;
    }
  }

  lemma {:induction false} Utf8Bounds(s: string)
    ensures |s| <= Utf8Length(s) <= 4 * |s|
    decreases |s|
  {
    if s != [] { Utf8Bounds(s[1..]); }
  }

  predicate Ascii(s: string) { forall i :: 0 <= i < |s| ==> s[i] < '\U{80}' }

  lemma {:induction false} AsciiLength(s: string)
    requires Ascii(s)
    ensures Utf8Length(s) == |s|
    decreases |s|
  {
    if s != [] { AsciiLength(s[1..]); }
  }

  // -- printing ----------------------------------------------------------------------

  const HEX := "0123456789abcdef"

  function EscapeChar(c: char): (t: string)
    ensures CharBytes(c) <= Utf8Length(t) <= 6 * CharBytes(c)
  {
    if c == '\"' then "\\\""
    else if c == '\\' then "\\\\"
    else if c == '\n' then "\\n"
    else if c == '\r' then "\\r"
    else if c == '\t' then "\\t"
    else if c == '\U{8}' then "\\b"
    else if c == '\U{c}' then "\\f"
    else if c < ' ' then
      var t := "\\u00" + [HEX[c as int / 16], HEX[c as int % 16]];
      AsciiLength(t);
      t
    else [c]
  }

  function Escape(s: string): string { FlatMap(EscapeChar, s) }

  function Quoted(s: string): string { "\"" + Escape(s) + "\"" }

  function EscapedLength(s: string): nat { Utf8Length(Escape(s)) }

  /** Escaped size is additive: a text's share of a frame does not depend on what
      surrounds it. */
  lemma EscapedLengthAppend(a: string, b: string)
    ensures EscapedLength(a + b) == EscapedLength(a) + EscapedLength(b)
  {
    FlatMapAppend(EscapeChar, a, b);
    Utf8Append(Escape(a), Escape(b));
  }

  lemma {:induction false} EscapedLengthBounds(s: string)
    ensures Utf8Length(s) <= EscapedLength(s) <= 6 * Utf8Length(s)
    decreases |s|
  {
    if s != [] {
      EscapedLengthBounds(s[1..]);
      Utf8Append(EscapeChar(s[0]), Escape(s[1..]));
    }
  }

  lemma QuotedLength(s: string)
    ensures Utf8Length(Quoted(s)) == EscapedLength(s) + 2
  {
    Utf8Append("\"" + Escape(s), "\"");
    Utf8Append("\"", Escape(s));
  }

  // -- reading -----------------------------------------------------------------------

  function HexValue(c: char): Option<nat> {
    if '0' <= c <= '9' then Some(c as int - '0' as int)
    else if 'a' <= c <= 'f' then Some(c as int - 'a' as int + 10)
    else if 'A' <= c <= 'F' then Some(c as int - 'A' as int + 10)
    else None
  }

  /** One character of a literal's inside: its value and how many it took. A
      surrogate escape is not read here; the printer never writes one. */
  function ReadChar(t: string): (r: Option<(char, nat)>)
    requires t != []
    ensures r.Some? ==> 1 <= r.value.1 <= |t|
  {
    if t[0] == '\"' || t[0] < ' ' then None
    else if t[0] != '\\' then Some((t[0], 1))
    else if |t| < 2 then None
    else if t[1] == 'u' then
      if |t| < 6 then None
      else
        var a, b, c, d := HexValue(t[2]), HexValue(t[3]), HexValue(t[4]), HexValue(t[5]);
        if a.None? || b.None? || c.None? || d.None? then None
        else
          var n := ((a.value * 16 + b.value) * 16 + c.value) * 16 + d.value;
          if n < 0xd800 || 0xe000 <= n < 0x10000 then Some((n as char, 6)) else None
    else if t[1] == '\"' || t[1] == '\\' || t[1] == '/' then Some((t[1], 2))
    else if t[1] == 'n' then Some(('\n', 2))
    else if t[1] == 'r' then Some(('\r', 2))
    else if t[1] == 't' then Some(('\t', 2))
    else if t[1] == 'b' then Some(('\U{8}', 2))
    else if t[1] == 'f' then Some(('\U{c}', 2))
    else None
  }

  function Unescape(t: string): Option<string>
    decreases |t|
  {
    if t == [] then Some([])
    else
      var first := ReadChar(t);
      if first.None? then None
      else
        var rest := Unescape(t[first.value.1..]);
        if rest.None? then None else Some([first.value.0] + rest.value)
  }

  lemma ReadEscapedChar(c: char, rest: string)
    ensures ReadChar(EscapeChar(c) + rest) == Some((c, |EscapeChar(c)|))
  {
    var t := EscapeChar(c) + rest;
    if c < ' ' && |EscapeChar(c)| == 6 {
      var n := c as int;
      assert n < 32;
      assert t[4] == HEX[n / 16] && t[5] == HEX[n % 16];
      assert HexValue(t[4]) == Some(n / 16);
      assert HexValue(t[5]) == Some(n % 16);
      assert HexValue(t[2]) == Some(0) && HexValue(t[3]) == Some(0);
    }
  }

  /** Whatever text is quoted, reading the literal back gives that exact text. */
  lemma {:induction false} UnescapeEscape(s: string)
    ensures Unescape(Escape(s)) == Some(s)
    decreases |s|
  {
    if s != [] {
      var e, rest := EscapeChar(s[0]), Escape(s[1..]);
      var t := Escape(s);
      assert t == e + rest && t != [];
      assert ReadChar(t) == Some((s[0], |e|)) by { ReadEscapedChar(s[0], rest); }
      assert t[|e|..] == rest;
      assert Unescape(rest) == Some(s[1..]) by { UnescapeEscape(s[1..]); }
      assert s == [s[0]] + s[1..];
    }
  }

  /** A literal at the front of a text: what it says, and what follows it. */
  function ReadLiteral(t: string): Option<(string, string)> {
    if t == "" || t[0] != '\"' then None else ReadInside(t[1..])
  }

  function ReadInside(t: string): Option<(string, string)>
    decreases |t|
  {
    if t == "" then None
    else if t[0] == '\"' then Some(("", t[1..]))
    else
      var first := ReadChar(t);
      if first.None? then None
      else
        var rest := ReadInside(t[first.value.1..]);
        if rest.None? then None else Some(([first.value.0] + rest.value.0, rest.value.1))
  }

  lemma EscapedCharOpens(c: char)
    ensures EscapeChar(c) != "" && EscapeChar(c)[0] != '\"'
  {
  }

  lemma ReadInsideChar(c: char, tail: string)
    ensures (
      var rest := ReadInside(tail);
      ReadInside(EscapeChar(c) + tail) == if rest.None? then None else Some(([c] + rest.value.0, rest.value.1)))
  {
    var e := EscapeChar(c);
    var t := e + tail;
    EscapedCharOpens(c);
    assert t != "" && t[0] == e[0];
    assert ReadChar(t) == Some((c, |e|)) by { ReadEscapedChar(c, tail); }
    assert t[|e|..] == tail;
  }

  lemma {:induction false} ReadInsideBack(s: string, rest: string)
    ensures ReadInside(Escape(s) + "\"" + rest) == Some((s, rest))
    decreases |s|
  {
    if s == "" {
      assert Escape(s) + "\"" + rest == "\"" + rest && ("\"" + rest)[1..] == rest;
    } else {
      var tail := Escape(s[1..]) + "\"" + rest;
      assert Escape(s) + "\"" + rest == EscapeChar(s[0]) + tail;
      assert ReadInside(tail) == Some((s[1..], rest)) by { ReadInsideBack(s[1..], rest); }
      ReadInsideChar(s[0], tail);
      assert s == [s[0]] + s[1..];
    }
  }

  /** A printed literal reads back to the exact text, whatever follows it. */
  lemma ReadLiteralBack(s: string, rest: string)
    ensures ReadLiteral(Quoted(s) + rest) == Some((s, rest))
  {
    var t := Quoted(s) + rest;
    assert t[1..] == Escape(s) + "\"" + rest;
    ReadInsideBack(s, rest);
  }
}
