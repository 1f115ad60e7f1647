/**
 * Recipient endpoint tokens: a compact JSON object in unpadded base64url behind
 * a version prefix. Minting checks its fields; parsing re-checks all of them.
 */
module RecipientToken {
  import opened Collections
  import opened JsonText
  import opened HookFrames
  import opened Base64Url

  const TOKEN_PREFIX := "cac2."
  const TOKEN_MAX_CHARS := 512
  const TOKEN_VERSION := 2

  predicate Handle(s: string) { |s| == 64 && forall i :: 0 <= i < 64 ==> HexDigit(s[i]) }

  predicate Alphanumeric(c: char) { '0' <= c <= '9' || 'A' <= c <= 'Z' || 'a' <= c <= 'z' }

  predicate NodeId(s: string) { 1 <= |s| <= 64 && forall i :: 0 <= i < |s| ==> Alphanumeric(s[i]) }

  /** A decoded token. A local one names the digest of its state root, a remote one
      its stable node. */
  datatype Token =
    | Local(handle: string, generation: string, origin: string)
    | Remote(handle: string, generation: string, node: string)

  predicate Checked(t: Token) {
    && Handle(t.handle) && Uuid(t.generation)
    && (if t.Local? then Handle(t.origin) else NodeId(t.node))
  }

  // -- a flat JSON object ----------------------------------------------------------------------------

  /** Other: any other JSON value. */
  datatype Field = Text(s: string) | Number(n: int) | Other

  datatype Pair = Pair(key: string, value: Field)

  /** Text that a string literal holds as it is. */
  predicate Simple(s: string) { forall i :: 0 <= i < |s| ==> ' ' <= s[i] < '\U{7f}' && s[i] != '\"' && s[i] != '\\' }

  function PrintField(f: Field): string
    requires SimpleField(f)
  {
    match f
    case Text(s) => "\"" + s + "\""
    case Number(n) => [('0' as int + n) as char]
  }

  function PrintPair(p: Pair): string
    requires SimpleField(p.value)
  {
    "\"" + p.key + "\":" + PrintField(p.value)
  }

  predicate SimpleField(f: Field) {
    match f
    case Text(s) => Simple(s)
    case Number(n) => 0 <= n < 10
    case Other => false
  }

  predicate SimplePair(p: Pair) { Simple(p.key) && SimpleField(p.value) }

  function PrintPairs(ps: seq<Pair>): string
    requires forall i :: 0 <= i < |ps| ==> SimplePair(ps[i])
    decreases |ps|
  {
    if ps == [] then "}"
    else assert SimplePair(ps[0]); PrintPair(ps[0]) + (if |ps| == 1 then "" else ",") + PrintPairs(ps[1..])
  }

  function PrintObject(ps: seq<Pair>): string
    requires forall i :: 0 <= i < |ps| ==> SimplePair(ps[i])
  {
    "{" + PrintPairs(ps)
  }

  /** Up to the closing quote; an escape is not read. */
  function ReadText(t: string): (r: Option<(string, string)>)
    ensures r.Some? ==> |r.value.1| < |t|
    decreases |t|
  {
    if t == "" || t[0] == '\\' || t[0] < ' ' then None
    else if t[0] == '\"' then Some(("", t[1..]))
    else
      var rest := ReadText(t[1..]);
      if rest.None? then None else Some(([t[0]] + rest.value.0, rest.value.1))
  }

  function ReadField(t: string): (r: Option<(Field, string)>)
    ensures r.Some? ==> |r.value.1| < |t|
  {
    if t == "" then None
    else if t[0] == '\"' then
      var s := ReadText(t[1..]);
      if s.None? then None else Some((Text(s.value.0), s.value.1))
    else if '0' <= t[0] <= '9' then Some((Number(t[0] as int - '0' as int), t[1..]))
    else None
  }

  function ReadPair(t: string): (r: Option<(Pair, string)>)
    ensures r.Some? ==> |r.value.1| < |t|
  {
    if t == "" || t[0] != '\"' then None
    else
      var key := ReadText(t[1..]);
      if key.None? || key.value.1 == "" || key.value.1[0] != ':' then None
      else
        var value := ReadField(key.value.1[1..]);
        if value.None? then None else Some((Pair(key.value.0, value.value.0), value.value.1))
  }

  /** Members up to the closing brace, which must end the text. */
  function ReadPairs(t: string): Option<seq<Pair>>
    decreases |t|
  {
    if t == "}" then Some([])
    else
      var first := ReadPair(t);
      if first.None? || first.value.1 == "" then None
      else
        var rest := first.value.1;
        if rest == "}" then Some([first.value.0])
        else if rest[0] != ',' then None
        else
          var more := ReadPairs(rest[1..]);
          if more.None? || more.value == [] then None else Some([first.value.0] + more.value)
  }

  function ReadObject(t: string): Option<seq<Pair>> {
    if t == "" || t[0] != '{' then None else ReadPairs(t[1..])
  }

  lemma {:induction false} ReadTextBack(s: string, rest: string)
    requires Simple(s)
    ensures ReadText(s + "\"" + rest) == Some((s, rest))
    decreases |s|
  {
    var t := s + "\"" + rest;
    if s == "" {
      assert t[1..] == rest;
    } else {
      assert t[1..] == s[1..] + "\"" + rest;
      ReadTextBack(s[1..], rest);
      assert [s[0]] + s[1..] == s;
    }
  }

  lemma ReadFieldBack(f: Field, rest: string)
    requires SimpleField(f)
    ensures ReadField(PrintField(f) + rest) == Some((f, rest))
  {
    var t := PrintField(f) + rest;
    match f
    case Text(s) =>
      assert t[1..] == s + "\"" + rest;
      ReadTextBack(s, rest);
    case Number(n) => assert t[1..] == rest;
  }

  lemma ReadPairBack(p: Pair, rest: string)
    requires SimplePair(p)
    ensures ReadPair(PrintPair(p) + rest) == Some((p, rest))
  {
    var t := PrintPair(p) + rest;
    var after := ":" + PrintField(p.value) + rest;
    assert t[0] == '\"' && t[1..] == p.key + "\"" + after;
    ReadTextBack(p.key, after);
    assert after[0] == ':' && after[1..] == PrintField(p.value) + rest;
    ReadFieldBack(p.value, rest);
  }

  lemma {:induction false} ReadPairsBack(ps: seq<Pair>)
    requires ps != [] && forall i :: 0 <= i < |ps| ==> SimplePair(ps[i])
    ensures ReadPairs(PrintPairs(ps)) == Some(ps)
    decreases |ps|
  {
    var t, comma := PrintPairs(ps), if |ps| == 1 then "" else ",";
    var rest := comma + PrintPairs(ps[1..]);
    assert t == PrintPair(ps[0]) + rest;
    ReadPairBack(ps[0], rest);
    assert t[0] == '\"';
    if |ps| == 1 {
      assert rest == "}" && ps == [ps[0]];
    } else {
      assert rest[0] == ',' && rest[1..] == PrintPairs(ps[1..]);
      ReadPairsBack(ps[1..]);
      assert [ps[0]] + ps[1..] == ps;
    }
  }

  lemma ReadObjectBack(ps: seq<Pair>)
    requires ps != [] && forall i :: 0 <= i < |ps| ==> SimplePair(ps[i])
    ensures ReadObject(PrintObject(ps)) == Some(ps)
  {
    assert PrintObject(ps)[1..] == PrintPairs(ps);
    ReadPairsBack(ps);
  }

  // -- bytes of ASCII text ------------------------------------------------------------------------------

  function ToBytes(s: string): Bytes
    requires Ascii(s)
  {
    seq(|s|, i requires 0 <= i < |s| => s[i] as int)
  }

  function FromBytes(b: Bytes): Option<string> {
    if exists i :: 0 <= i < |b| && b[i] >= 128 then None
    else Some(seq(|b|, i requires 0 <= i < |b| => b[i] as char))
  }

  lemma BytesBack(s: string)
    requires Ascii(s)
    ensures FromBytes(ToBytes(s)) == Some(s)
  {
    var b := ToBytes(s);
    assert forall i :: 0 <= i < |b| ==> b[i] < 128;
    assert seq(|b|, i requires 0 <= i < |b| => b[i] as char) == s;
  }

  // -- minting ---------------------------------------------------------------------------------------------

  /** The fields in sorted key order. */
  function Fields(t: Token): seq<Pair> {
    [Pair("g", Text(t.generation)), Pair("h", Text(t.handle))]
    + (if t.Local? then [Pair("o", Text(t.origin)), Pair("s", Text("local"))]
       else [Pair("n", Text(t.node)), Pair("s", Text("remote"))])
    + [Pair("v", Number(TOKEN_VERSION))]
  }

  lemma FieldsAreSimple(t: Token)
    requires Checked(t)
    ensures |Fields(t)| == 5 && forall i :: 0 <= i < |Fields(t)| ==> SimplePair(Fields(t)[i])
  {
    assert Simple(t.generation) && Simple(t.handle);
  }

  function Payload(t: Token): string
    requires Checked(t)
  {
    FieldsAreSimple(t);
    PrintObject(Fields(t))
  }

  lemma {:induction false} PairsAreAscii(ps: seq<Pair>)
    requires forall i :: 0 <= i < |ps| ==> SimplePair(ps[i])
    ensures Ascii(PrintPairs(ps))
    decreases |ps|
  {
    if ps != [] { PairsAreAscii(ps[1..]); }
  }

  lemma {:induction false} PairsLength(ps: seq<Pair>)
    requires forall i :: 0 <= i < |ps| ==> SimplePair(ps[i])
    requires forall i :: 0 <= i < |ps| ==> |ps[i].key| == 1 && (ps[i].value.Text? ==> |ps[i].value.s| <= 64)
    ensures |PrintPairs(ps)| <= 1 + 71 * |ps|
    decreases |ps|
  {
    if ps != [] { PairsLength(ps[1..]); }
  }

  lemma PayloadIsShortAscii(t: Token)
    requires Checked(t)
    ensures Ascii(Payload(t)) && |Payload(t)| <= 357
  {
    FieldsAreSimple(t);
    PairsAreAscii(Fields(t));
    PairsLength(Fields(t));
  }

  function Mint(t: Token): string
    requires Checked(t)
  {
    PayloadIsShortAscii(t);
    TOKEN_PREFIX + Encode(ToBytes(Payload(t)))
  }

  // -- parsing ----------------------------------------------------------------------------------------------

  datatype Parsed = NotAToken | Malformed | Ok(token: Token)

  function Lookup(ps: seq<Pair>, key: string): Option<Field>
    decreases |ps|
  {
    if ps == [] then None
    else if ps[|ps| - 1].key == key then Some(ps[|ps| - 1].value)
    else Lookup(ps[..|ps| - 1], key)
  }

  predicate HasExactly(ps: seq<Pair>, keys: set<string>) {
    (set i | 0 <= i < |ps| :: ps[i].key) == keys
  }

  function FromFields(ps: seq<Pair>): Parsed {
    var scope, h, g := Lookup(ps, "s"), Lookup(ps, "h"), Lookup(ps, "g");
    if Lookup(ps, "v") != Some(Number(TOKEN_VERSION)) || (scope != Some(Text("local")) && scope != Some(Text("remote"))) then Malformed
    else
      var last := if scope == Some(Text("local")) then "o" else "n";
      var x := Lookup(ps, last);
      if !HasExactly(ps, {"v", "s", "h", "g", last}) then Malformed
      else if h.None? || !h.value.Text? || g.None? || !g.value.Text? || !Uuid(g.value.s) then Malformed
      else if x.None? || !x.value.Text? || !Handle(h.value.s) then Malformed
      else if last == "o" then (if Handle(x.value.s) then Ok(Local(h.value.s, g.value.s, x.value.s)) else Malformed)
      else (if NodeId(x.value.s) then Ok(Remote(h.value.s, g.value.s, x.value.s)) else Malformed)
  }

  /** A JSON library: the members of the object that some bytes spell, if they do. */
  type Reader = Bytes -> Option<seq<Pair>>

  /** The library reads at least compact flat objects, and reads them right. */
  ghost predicate ReadsCompact(read: Reader) {
    forall bytes :: ReadCompact(bytes).Some? ==> read(bytes) == ReadCompact(bytes)
  }

  function ReadCompact(bytes: Bytes): Option<seq<Pair>> {
    var text := FromBytes(bytes);
    if text.Some? then ReadObject(text.value) else None
  }

  function ParseToken(read: Reader, value: string): Parsed {
    if !(TOKEN_PREFIX <= value) then NotAToken
    else if |value| > TOKEN_MAX_CHARS then Malformed
    else
      var body := value[|TOKEN_PREFIX|..];
      var decoded := if body == "" then None else Decode(body);
      if decoded.None? then Malformed
      else
        var fields := read(decoded.value);
        if fields.None? then Malformed else FromFields(fields.value)
  }

  function LastKey(t: Token): string { if t.Local? then "o" else "n" }

  /** What the members of a token's payload are. */
  lemma FieldsLookup(t: Token)
    ensures (
      var ps, last := Fields(t), LastKey(t);
      && HasExactly(ps, {"v", "s", "h", "g", last})
      && Lookup(ps, "v") == Some(Number(TOKEN_VERSION)) && Lookup(ps, "s") == Some(Text(if t.Local? then "local" else "remote"))
      && Lookup(ps, "h") == Some(Text(t.handle)) && Lookup(ps, "g") == Some(Text(t.generation))
      && Lookup(ps, last) == Some(Text(if t.Local? then t.origin else t.node)))
  {
    var ps, last := Fields(t), LastKey(t);
    var keys := set i | 0 <= i < |ps| :: ps[i].key;
    assert ps[0].key == "g" && ps[1].key == "h" && ps[2].key == last && ps[3].key == "s" && ps[4].key == "v";
    assert keys == {"v", "s", "h", "g", last} by {
      assert ps[0].key in keys && ps[1].key in keys && ps[2].key in keys && ps[3].key in keys && ps[4].key in keys;
    }
    LookupAt(ps, 4);
    LookupAt(ps, 3);
    LookupAt(ps, 2);
    LookupAt(ps, 1);
    LookupAt(ps, 0);
  }

  lemma FieldsBack(t: Token)
    requires Checked(t)
    ensures FromFields(Fields(t)) == Ok(t)
  {
    FieldsLookup(t);
  }

  lemma {:induction false} LookupAt(ps: seq<Pair>, k: nat)
    requires k < |ps| && forall i :: k < i < |ps| ==> ps[i].key != ps[k].key
    ensures Lookup(ps, ps[k].key) == Some(ps[k].value)
    decreases |ps|
  {
    if k < |ps| - 1 { LookupAt(ps[..|ps| - 1], k); }
  }

  /** Every minted token is within the length limit and, with any JSON library, parses
      back to the same scope, handle, generation and node or origin. */
  lemma MintedTokensParseBack(read: Reader, t: Token)
    requires Checked(t) && ReadsCompact(read)
    ensures |Mint(t)| <= TOKEN_MAX_CHARS
    ensures ParseToken(read, Mint(t)) == Ok(t)
    ensures forall i :: 5 <= i < |Mint(t)| ==> InAlphabet(Mint(t)[i])
  {
    PayloadIsShortAscii(t);
    var bytes := ToBytes(Payload(t));
    DecodeEncode(bytes);
    BytesBack(Payload(t));
    FieldsAreSimple(t);
    ReadObjectBack(Fields(t));
    FieldsBack(t);
    assert ReadCompact(bytes) == Some(Fields(t));
    ParseBody(read, Encode(bytes), bytes, Fields(t));
  }

  lemma ParseBody(read: Reader, body: string, bytes: Bytes, fields: seq<Pair>)
    requires body != "" && |TOKEN_PREFIX + body| <= TOKEN_MAX_CHARS
    requires Decode(body) == Some(bytes) && read(bytes) == Some(fields)
    ensures ParseToken(read, TOKEN_PREFIX + body) == FromFields(fields)
  {
    assert (TOKEN_PREFIX + body)[|TOKEN_PREFIX|..] == body;
  }

  /** As dictionaries, with the last of repeated members, they are the same. */
  ghost predicate SameMembers(ps: seq<Pair>, qs: seq<Pair>) { forall key :: Lookup(ps, key) == Lookup(qs, key) }

  lemma {:induction false} LookupMeans(ps: seq<Pair>, key: string)
    ensures Lookup(ps, key).Some? <==> exists i :: 0 <= i < |ps| && ps[i].key == key
    decreases |ps|
  {
    if ps != [] {
      var init := ps[..|ps| - 1];
      LookupMeans(init, key);
      assert forall i :: 0 <= i < |init| ==> init[i] == ps[i];
    }
  }

  lemma KeysMean(ps: seq<Pair>, keys: set<string>)
    ensures HasExactly(ps, keys) <==> forall key :: Lookup(ps, key).Some? <==> key in keys
  {
    var mine := set i | 0 <= i < |ps| :: ps[i].key;
    forall key ensures key in mine <==> Lookup(ps, key).Some? { LookupMeans(ps, key); }
    if forall key :: Lookup(ps, key).Some? <==> key in keys {
      forall key ensures key in mine <==> key in keys {}
      assert mine == keys;
    }
  }

  /** What is accepted, member by member. */
  lemma AcceptedMembers(ps: seq<Pair>, t: Token)
    requires FromFields(ps) == Ok(t)
    ensures Checked(t) && HasExactly(ps, {"v", "s", "h", "g", LastKey(t)})
    ensures Lookup(ps, "v") == Some(Number(TOKEN_VERSION)) && Lookup(ps, "s") == Some(Text(if t.Local? then "local" else "remote"))
    ensures Lookup(ps, "h") == Some(Text(t.handle)) && Lookup(ps, "g") == Some(Text(t.generation))
    ensures Lookup(ps, LastKey(t)) == Some(Text(if t.Local? then t.origin else t.node))
  {
  }

  lemma AcceptedIsAsMinted(ps: seq<Pair>, t: Token)
    requires FromFields(ps) == Ok(t)
    ensures Checked(t) && SameMembers(ps, Fields(t))
  {
    var keys := {"v", "s", "h", "g", LastKey(t)};
    var qs := Fields(t);
    AcceptedMembers(ps, t);
    FieldsLookup(t);
    KeysMean(qs, keys);
    KeysMean(ps, keys);
    forall key ensures Lookup(ps, key) == Lookup(qs, key) {
      assert Lookup(ps, key).Some? <==> key in keys;
      assert Lookup(qs, key).Some? <==> key in keys;
    }
  }

  lemma AsMintedIsAccepted(ps: seq<Pair>, t: Token)
    requires Checked(t) && SameMembers(ps, Fields(t))
    ensures FromFields(ps) == Ok(t)
  {
    var keys := {"v", "s", "h", "g", LastKey(t)};
    FieldsLookup(t);
    KeysMean(Fields(t), keys);
    KeysMean(ps, keys);
    assert HasExactly(ps, keys);
  }

  /** The checks on a payload accept exactly what minting writes for some checked token. */
  lemma FieldsAreChecked(ps: seq<Pair>, t: Token)
    ensures FromFields(ps) == Ok(t) <==> Checked(t) && SameMembers(ps, Fields(t))
  {
    if FromFields(ps) == Ok(t) { AcceptedIsAsMinted(ps, t); }
    if Checked(t) && SameMembers(ps, Fields(t)) { AsMintedIsAccepted(ps, t); }
  }

  /** Parsing accepts a value exactly if it is a prefixed, bounded spelling of a
      payload that minting could have written for a token that passes its checks. */
  lemma ParsedTokensAreChecked(read: Reader, value: string, t: Token)
    ensures ParseToken(read, value).NotAToken? <==> !(TOKEN_PREFIX <= value)
    ensures ParseToken(read, value) == Ok(t) <==>
      && TOKEN_PREFIX < value && |value| <= TOKEN_MAX_CHARS && Checked(t)
      && (var bytes := Decode(value[|TOKEN_PREFIX|..]);
          bytes.Some? && read(bytes.value).Some? && SameMembers(read(bytes.value).value, Fields(t)))
  {
    if TOKEN_PREFIX <= value && value[|TOKEN_PREFIX|..] != "" && Decode(value[|TOKEN_PREFIX|..]).Some? {
      var fields := read(Decode(value[|TOKEN_PREFIX|..]).value);
      if fields.Some? { FieldsAreChecked(fields.value, t); }
    }
  }
}
