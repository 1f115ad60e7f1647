/** Unpadded base64url (RFC 4648 section 5). */
module Base64Url {
  import opened Collections

  function Symbol(n: nat): (c: char)
    requires n < 64
    ensures InAlphabet(c)
  {
    if n < 26 then ('A' as int + n) as char
    else if n < 52 then ('a' as int + (n - 26)) as char
    else if n < 62 then ('0' as int + (n - 52)) as char
    else if n == 62 then '-' else '_'
  }

  predicate InAlphabet(c: char) { 'A' <= c <= 'Z' || 'a' <= c <= 'z' || '0' <= c <= '9' || c == '-' || c == '_' }

  function Value(c: char): (n: nat)
    requires InAlphabet(c)
    ensures n < 64
  {
    if 'A' <= c <= 'Z' then c as int - 'A' as int
    else if 'a' <= c <= 'z' then c as int - 'a' as int + 26
    else if '0' <= c <= '9' then c as int - '0' as int + 52
    else if c == '-' then 62 else 63
  }

  lemma ValueOfSymbol(n: nat)
    requires n < 64
    ensures Value(Symbol(n)) == n
  {
  }

  function Encode(s: Bytes): (t: string)
    ensures AllSymbols(t)
    ensures |t| == (4 * |s| + 2) / 3
    decreases |s|
  {
    if s == [] then ""
    else if |s| == 1 then [Symbol(s[0] / 4), Symbol(s[0] % 4 * 16)]
    else if |s| == 2 then [Symbol(s[0] / 4), Symbol(s[0] % 4 * 16 + s[1] / 16), Symbol(s[1] % 16 * 4)]
    else Group(s[0], s[1], s[2]) + Encode(s[3..])
  }

  function Group(a: Byte, b: Byte, c: Byte): (t: string)
    ensures |t| == 4 && AllSymbols(t)
  {
    [Symbol(a / 4), Symbol(a % 4 * 16 + b / 16), Symbol(b % 16 * 4 + c / 64), Symbol(c % 64)]
  }

  function First(x: char, y: char): Byte
    requires InAlphabet(x) && InAlphabet(y)
  {
    Value(x) * 4 + Value(y) / 16
  }

  function Second(y: char, z: char): Byte
    requires InAlphabet(y) && InAlphabet(z)
  {
    Value(y) % 16 * 16 + Value(z) / 4
  }

  function Third(z: char, w: char): Byte
    requires InAlphabet(z) && InAlphabet(w)
  {
    Value(z) % 4 * 64 + Value(w)
  }

  predicate AllSymbols(t: string) { forall i :: 0 <= i < |t| ==> InAlphabet(t[i]) }

  function Decode(t: string): Option<Bytes> { if AllSymbols(t) then DecodeSymbols(t) else None }

  /** Decoding ignores the unused low bits of a short last group. */
  function DecodeSymbols(t: string): Option<Bytes>
    requires AllSymbols(t)
    decreases |t|
  {
    if t == "" then Some([])
    else if |t| == 1 then None
    else if |t| == 2 then Some([First(t[0], t[1])])
    else if |t| == 3 then Some([First(t[0], t[1]), Second(t[1], t[2])])
    else
      var rest := DecodeSymbols(t[4..]);
      if rest.None? then None
      else Some([First(t[0], t[1]), Second(t[1], t[2]), Third(t[2], t[3])] + rest.value)
  }

  lemma GroupBack(a: Byte, b: Byte, c: Byte)
    ensures (
      var t := Group(a, b, c);
      First(t[0], t[1]) == a && Second(t[1], t[2]) == b && Third(t[2], t[3]) == c)
  {
    ValueOfSymbol(a / 4);
    ValueOfSymbol(a % 4 * 16 + b / 16);
    ValueOfSymbol(b % 16 * 4 + c / 64);
    ValueOfSymbol(c % 64);
  }

  lemma OneBack(a: Byte)
    ensures DecodeSymbols(Encode([a])) == Some([a])
  {
    ValueOfSymbol(a / 4);
    ValueOfSymbol(a % 4 * 16);
  }

  lemma TwoBack(a: Byte, b: Byte)
    ensures DecodeSymbols(Encode([a, b])) == Some([a, b])
  {
    ValueOfSymbol(a / 4);
    ValueOfSymbol(a % 4 * 16 + b / 16);
    ValueOfSymbol(b % 16 * 4);
  }

  lemma GroupThen(g: string, t: string)
    requires |g| == 4 && AllSymbols(g) && AllSymbols(t) && DecodeSymbols(t).Some?
    ensures DecodeSymbols(g + t)
         == Some([First(g[0], g[1]), Second(g[1], g[2]), Third(g[2], g[3])] + DecodeSymbols(t).value)
  {
    assert (g + t)[4..] == t;
  }

  lemma BytesThen(a: Byte, b: Byte, c: Byte, t: string, rest: Bytes)
    requires AllSymbols(t) && DecodeSymbols(t) == Some(rest)
    ensures DecodeSymbols(Group(a, b, c) + t) == Some([a, b, c] + rest)
  {
    GroupThen(Group(a, b, c), t);
    GroupBack(a, b, c);
  }

  lemma FirstThree(s: Bytes)
    requires |s| > 2
    ensures s == [s[0], s[1], s[2]] + s[3..]
  {
  }

  lemma {:induction false} SymbolsBack(s: Bytes)
    ensures DecodeSymbols(Encode(s)) == Some(s)
    decreases |s|
  {
    if |s| == 1 {
      OneBack(s[0]);
      assert s == [s[0]];
    } else if |s| == 2 {
      TwoBack(s[0], s[1]);
      assert s == [s[0], s[1]];
    } else if |s| > 2 {
      SymbolsBack(s[3..]);
      FirstThree(s);
      BytesThen(s[0], s[1], s[2], Encode(s[3..]), s[3..]);
    }
  }

  /** Every byte string comes back, whatever its length modulo three. */
  lemma DecodeEncode(s: Bytes)
    ensures Decode(Encode(s)) == Some(s)
  {
    SymbolsBack(s);
  }
}
