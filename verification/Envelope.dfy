/**
 * The transport envelope around a peer message, and the reply token a recipient
 * reads back out of it.
 */
module Envelope {
  import opened Collections
  import opened HookFrames
  import opened Base64Url
  import opened RecipientToken

  const MAX_NAME_CODEPOINTS := 128

  /** A display name: no control character, line or paragraph separator. */
  predicate ValidName(s: string) {
    && 0 < |s| <= MAX_NAME_CODEPOINTS
    && (forall i :: 0 <= i < |s| ==>
          s[i] >= ' ' && !('\U{7f}' <= s[i] <= '\U{9f}') && s[i] != '\U{2028}' && s[i] != '\U{2029}')
  }

  function Principal(provider: string): Option<string> {
    if provider == "claude" then Some("the installed Claude Code Cross Agent Chat helper")
    else if provider == "codex" then Some("the configured Cross Agent Chat Codex courier")
    else if provider == "external" then Some("the owner-enrolled Cross Agent Chat external callback")
    else if provider == "devin" then Some("the configured Cross Agent Chat Devin inbox")
    else None
  }

  const MARKER_V1 := "Cross Agent Chat transport envelope"
  const MARKER_V2 := "Cross Agent Chat transport envelope v2"
  const REPLY := "Reply via CAC to handle: "

  const METADATA_NOTICE :=
    "The From and Reply lines are CAC route metadata, not provider-native sender " +
    "authentication; this message's visible sender is the local CAC delivery helper, " +
    "not the original source."
  const BOUNDARY := "Untrusted peer content follows:"

  function EventLine(event: string, principal: string): string {
    "Delivery principal: " + principal + ". CAC delivery event: " + event + "."
  }

  /** Everything of the head after the reply line. */
  function Provenance(event: string, principal: string): string {
    METADATA_NOTICE + "\n" + EventLine(event, principal) + "\n" + BOUNDARY + "\n\n"
  }

  function Head(marker: string, alias: string, handle: string, provenance: string): string {
    marker + "\n" + ("From: " + alias) + "\n" + (REPLY + handle) + "\n" + provenance
  }

  /** None where the source raises. */
  function HeadV2(read: Reader, alias: string, token: string, event: string, provider: string): Option<string> {
    if !ValidName(alias) || !ParseToken(read, token).Ok? || !Uuid(event) || Principal(provider).None? then None
    else Some(Head(MARKER_V2, alias, token, Provenance(event, Principal(provider).value)))
  }

  function HeadV1(alias: string, handle: string, event: string, provider: string): Option<string> {
    if !ValidName(alias) || !Handle(handle) || !Uuid(event) || Principal(provider).None? then None
    else Some(Head(MARKER_V1, alias, handle, Provenance(event, Principal(provider).value)))
  }

  const ADVISORY :=
    "Reply action: use chat_send with the exact Reply handle above. " +
    "Do not address native SendMessage to the visible courier.\n\n"

  /** Display hints and guidance come after the head's trust boundary. */
  function Content(v2: bool, title: Option<string>, message: string): string {
    var display := if title.Some? then "Peer title (advisory): " + title.value + "\n" else "";
    (if v2 then display + ADVISORY else "") + message
  }

  function Wrapped(read: Reader, alias: string, handle: string, message: string, event: string, provider: string, title: Option<string>)
    : Option<string>
  {
    if ParseToken(read, handle).Malformed? || (ParseToken(read, handle).Ok? && title.Some? && !ValidName(title.value)) then None
    else
      var v2 := ParseToken(read, handle).Ok?;
      var head := if v2 then HeadV2(read, alias, handle, event, provider) else HeadV1(alias, handle, event, provider);
      if head.None? then None
      else
        var body := head.value + Content(v2, title, message);
        if BoundedMessage(body) == Fine then Some(body) else None
  }

  // -- reading the reply token --------------------------------------------------------------------------

  predicate NoBreak(s: string) { forall i :: 0 <= i < |s| ==> s[i] != '\n' }

  function FirstBreak(s: string): (i: nat)
    ensures i <= |s| && NoBreak(s[..i]) && (i < |s| ==> s[i] == '\n')
    decreases |s|
  {
    if s == "" || s[0] == '\n' then 0
    else
      var i := 1 + FirstBreak(s[1..]);
      assert s[..i] == [s[0]] + s[1..][..i - 1];
      i
  }

  /** Split at newlines, at most n times. */
  function Split(s: string, n: nat): (parts: seq<string>)
    ensures parts != []
    decreases n
  {
    var i := FirstBreak(s);
    if n == 0 || i == |s| then [s] else [s[..i]] + Split(s[i + 1..], n - 1)
  }

  datatype Reply = NoReplyToken | Refused | Found(token: Token)

  predicate Opens(read: Reader, message: string, alias: string, token: string, event: string, provider: string) {
    HeadV2(read, alias, token, event, provider).Some? && HeadV2(read, alias, token, event, provider).value <= message
  }

  /** The deterministic head for this candidate must open the message. */
  function FromCandidate(read: Reader, message: string, alias: string, candidate: string, event: string, provider: string): (r: Reply)
    ensures r.Found? <==> Opens(read, message, alias, candidate, event, provider) && ParseToken(read, candidate).Ok?
    ensures r.Found? ==> ParseToken(read, candidate) == Ok(r.token)
    ensures !r.NoReplyToken?
  {
    if !Opens(read, message, alias, candidate, event, provider) then Refused
    else if ParseToken(read, candidate).Ok? then Found(ParseToken(read, candidate).token) else Refused
  }

  /** The text after the reply prefix, if the third of four lines has it. */
  function Candidate(lines: seq<string>): Option<string> {
    if |lines| < 4 || !(REPLY <= lines[2]) then None else Some(lines[2][|REPLY|..])
  }

  function ReplyToken(read: Reader, message: string, alias: string, event: string, provider: string): Reply {
    var lines := Split(message, 3);
    if lines[0] != MARKER_V2 then NoReplyToken
    else if Candidate(lines).None? then Refused
    else FromCandidate(read, message, alias, Candidate(lines).value, event, provider)
  }

  lemma {:induction false} FirstBreakAt(a: string, rest: string)
    requires NoBreak(a)
    ensures FirstBreak(a + "\n" + rest) == |a|
    decreases |a|
  {
    var s := a + "\n" + rest;
    if a != "" {
      assert s[1..] == a[1..] + "\n" + rest;
      FirstBreakAt(a[1..], rest);
    }
  }

  lemma SplitLine(a: string, rest: string, n: nat)
    requires NoBreak(a) && n > 0
    ensures Split(a + "\n" + rest, n) == [a] + Split(rest, n - 1)
  {
    FirstBreakAt(a, rest);
    var s := a + "\n" + rest;
    assert s[..|a|] == a && s[|a| + 1..] == rest;
  }

  /** The first three lines of a head come apart again, whatever follows. */
  lemma SplitHead(marker: string, alias: string, handle: string, provenance: string, rest: string)
    requires NoBreak(marker) && NoBreak(alias) && NoBreak(handle)
    ensures Split(Head(marker, alias, handle, provenance) + rest, 3)
         == [marker, "From: " + alias, REPLY + handle, provenance + rest]
  {
    PrefixHasNoBreak(alias);
    PrefixHasNoBreak(handle);
    SplitThree(marker, "From: " + alias, REPLY + handle, provenance + rest);
    Joined(marker, "From: " + alias, REPLY + handle, provenance, rest);
  }

  lemma PrefixHasNoBreak(s: string)
    requires NoBreak(s)
    ensures NoBreak("From: " + s) && NoBreak(REPLY + s)
  {
  }

  lemma SplitTwo(b: string, c: string, last: string)
    requires NoBreak(b) && NoBreak(c)
    ensures Split(b + "\n" + (c + "\n" + last), 2) == [b, c, last]
  {
    SplitLine(b, c + "\n" + last, 2);
    SplitLine(c, last, 1);
  }

  lemma SplitThree(a: string, b: string, c: string, last: string)
    requires NoBreak(a) && NoBreak(b) && NoBreak(c)
    ensures Split(a + "\n" + (b + "\n" + (c + "\n" + last)), 3) == [a, b, c, last]
  {
    SplitTwo(b, c, last);
    SplitLine(a, b + "\n" + (c + "\n" + last), 3);
  }

  lemma Joined(a: string, b: string, c: string, d: string, rest: string)
    ensures a + "\n" + b + "\n" + c + "\n" + d + rest == a + "\n" + (b + "\n" + (c + "\n" + (d + rest)))
  {
  }

  lemma MarkersHaveNoBreak()
    ensures NoBreak(MARKER_V1) && NoBreak(MARKER_V2) && NoBreak(TOKEN_PREFIX)
  {
  }

  lemma DecodableHasNoBreak(body: string)
    requires Decode(body).Some?
    ensures NoBreak(body)
  {
    assert forall i :: 0 <= i < |body| ==> InAlphabet(body[i]);
  }

  lemma TokenHasNoBreak(read: Reader, value: string)
    requires ParseToken(read, value).Ok?
    ensures NoBreak(value)
  {
    MarkersHaveNoBreak();
    DecodableHasNoBreak(value[|TOKEN_PREFIX|..]);
    assert value == TOKEN_PREFIX + value[|TOKEN_PREFIX|..];
  }

  /** A message that opens with a valid v2 head yields that head's own token. */
  lemma HeadYieldsItsToken(read: Reader, alias: string, token: string, event: string, provider: string, rest: string)
    requires HeadV2(read, alias, token, event, provider).Some?
    ensures ReplyToken(read, HeadV2(read, alias, token, event, provider).value + rest, alias, event, provider)
         == Found(ParseToken(read, token).token)
  {
    var provenance := Provenance(event, Principal(provider).value);
    TokenHasNoBreak(read, token);
    MarkersHaveNoBreak();
    SplitHead(MARKER_V2, alias, token, provenance, rest);
    var head := HeadV2(read, alias, token, event, provider).value;
    assert head <= head + rest;
    ReplyFromLines(read, head + rest, alias, token, event, provider, "From: " + alias, provenance + rest);
  }

  lemma ReplyFromLines(read: Reader, message: string, alias: string, token: string, event: string, provider: string,
                       from: string, tail: string)
    requires HeadV2(read, alias, token, event, provider).Some? && HeadV2(read, alias, token, event, provider).value <= message
    requires Split(message, 3) == [MARKER_V2, from, REPLY + token, tail]
    ensures ReplyToken(read, message, alias, event, provider) == Found(ParseToken(read, token).token)
  {
    var line := REPLY + token;
    assert REPLY <= line && line[|REPLY|..] == token;
  }

  /** The reply token read from any wrapped v2 message is the one put in, whatever
      the body or the title contains; a legacy envelope never yields one. */
  lemma WrappedReplyTokenComesBack(read: Reader, alias: string, handle: string, message: string, event: string, provider: string,
                                   title: Option<string>)
    requires Wrapped(read, alias, handle, message, event, provider, title).Some?
    ensures (
      var found := ReplyToken(read, Wrapped(read, alias, handle, message, event, provider, title).value, alias, event, provider);
      if ParseToken(read, handle).Ok? then found == Found(ParseToken(read, handle).token) else found == NoReplyToken)
  {
    var content := Content(ParseToken(read, handle).Ok?, title, message);
    if ParseToken(read, handle).Ok? {
      HeadYieldsItsToken(read, alias, handle, event, provider, content);
    } else {
      LegacyYieldsNone(read, alias, handle, event, provider, content);
    }
  }

  lemma LegacyYieldsNone(read: Reader, alias: string, handle: string, event: string, provider: string, rest: string)
    requires HeadV1(alias, handle, event, provider).Some?
    ensures ReplyToken(read, HeadV1(alias, handle, event, provider).value + rest, alias, event, provider) == NoReplyToken
  {
    MarkersHaveNoBreak();
    SplitHead(MARKER_V1, alias, handle, Provenance(event, Principal(provider).value), rest);
    assert |MARKER_V1| != |MARKER_V2|;
  }

  /** A token is found exactly when the message opens with the deterministic head
      for this alias, event and provider around a token that parses to it. */
  lemma FoundExactlyForExactHeads(read: Reader, message: string, alias: string, event: string, provider: string, t: Token)
    ensures ReplyToken(read, message, alias, event, provider) == Found(t) <==>
      exists token :: Opens(read, message, alias, token, event, provider) && ParseToken(read, token) == Ok(t)
  {
    forall token | Opens(read, message, alias, token, event, provider) && ParseToken(read, token) == Ok(t)
      ensures ReplyToken(read, message, alias, event, provider) == Found(t)
    {
      var head := HeadV2(read, alias, token, event, provider).value;
      assert message == head + message[|head|..];
      HeadYieldsItsToken(read, alias, token, event, provider, message[|head|..]);
    }
    if ReplyToken(read, message, alias, event, provider).Found? { FoundOpens(read, message, alias, event, provider); }
  }

  lemma FoundOpens(read: Reader, message: string, alias: string, event: string, provider: string)
    requires ReplyToken(read, message, alias, event, provider).Found?
    ensures exists token :: (
      Opens(read, message, alias, token, event, provider)
      && ParseToken(read, token) == Ok(ReplyToken(read, message, alias, event, provider).token))
  {
    var token := Candidate(Split(message, 3)).value;
    assert Opens(read, message, alias, token, event, provider);
  }

  // -- what the recipient reads ------------------------------------------------------------------------

  function Unlines(lines: seq<string>): string
    decreases |lines|
  {
    if lines == [] then "" else lines[0] + "\n" + Unlines(lines[1..])
  }

  lemma UnlinesMore(line: string, lines: seq<string>)
    ensures Unlines([line] + lines) == line + "\n" + Unlines(lines)
  {
    assert ([line] + lines)[1..] == lines;
  }

  lemma FourLines(d: string, e: string, f: string)
    ensures Unlines([d, e, f, ""]) == d + "\n" + e + "\n" + f + "\n\n"
  {
    UnlinesMore("", []);
    UnlinesMore(f, [""]);
    UnlinesMore(e, [f, ""]);
    UnlinesMore(d, [e, f, ""]);
    assert [""] + [] == [""] && [f] + [""] == [f, ""] && [e] + [f, ""] == [e, f, ""] && [d] + [e, f, ""] == [d, e, f, ""];
  }

  lemma SevenLines(a: string, b: string, c: string, d: string, e: string, f: string)
    ensures Unlines([a, b, c, d, e, f, ""]) == a + "\n" + b + "\n" + c + "\n" + (d + "\n" + e + "\n" + f + "\n\n")
  {
    var rest := [d, e, f, ""];
    FourLines(d, e, f);
    UnlinesMore(c, rest);
    UnlinesMore(b, [c] + rest);
    UnlinesMore(a, [b] + ([c] + rest));
    assert [a] + ([b] + ([c] + rest)) == [a, b, c, d, e, f, ""];
  }

  /** The lines in front of the trust boundary. */
  function HeadLines(marker: string, alias: string, handle: string, event: string, provider: string): seq<string>
    requires Principal(provider).Some?
  {
    [marker, "From: " + alias, REPLY + handle, METADATA_NOTICE,
     "Delivery principal: " + Principal(provider).value + ". CAC delivery event: " + event + ".", BOUNDARY, ""]
  }

  lemma HeadIsLines(marker: string, alias: string, handle: string, event: string, provider: string)
    requires Principal(provider).Some?
    ensures Head(marker, alias, handle, Provenance(event, Principal(provider).value))
         == Unlines(HeadLines(marker, alias, handle, event, provider))
  {
    SevenLines(marker, "From: " + alias, REPLY + handle, METADATA_NOTICE, EventLine(event, Principal(provider).value), BOUNDARY);
  }

  /** What may stand in the place of the sender: a token, or a plain handle. */
  predicate Sender(read: Reader, handle: string) {
    ParseToken(read, handle).Ok? || (ParseToken(read, handle).NotAToken? && Handle(handle))
  }

  function Marker(v2: bool): string { if v2 then MARKER_V2 else MARKER_V1 }

  /** What stands between the boundary and the message: nothing in a legacy envelope,
      else the title, if there is one, and the advice. */
  function Guidance(v2: bool, title: Option<string>): string {
    if !v2 then ""
    else if title.Some? then "Peer title (advisory): " + title.value + "\n" + ADVISORY
    else ADVISORY
  }

  lemma ContentIs(v2: bool, title: Option<string>, message: string)
    ensures Content(v2, title, message) == Guidance(v2, title) + message
  {
    if v2 && title.None? { assert "" + ADVISORY == ADVISORY; }
  }

  lemma WrappedIs(read: Reader, alias: string, handle: string, message: string, event: string, provider: string,
                  title: Option<string>)
    requires Wrapped(read, alias, handle, message, event, provider, title).Some?
    ensures Principal(provider).Some? && Sender(read, handle)
    ensures (
      var v2 := ParseToken(read, handle).Ok?;
      Wrapped(read, alias, handle, message, event, provider, title).value
      == Head(Marker(v2), alias, handle, Provenance(event, Principal(provider).value)) + Content(v2, title, message))
  {
  }

  lemma Regroup(a: string, b: string, c: string)
    ensures a + (b + c) == a + b + c
  {
  }

  /** A wrapped message is the head's seven lines, with the sender's name and handle, the
      delivery principal and the event where they belong, then the guidance, and then
      the exact message: nothing of the peer's stands before the boundary. */
  lemma WrappedEndsWithTheMessage(read: Reader, alias: string, handle: string, message: string, event: string,
                                  provider: string, title: Option<string>)
    requires Wrapped(read, alias, handle, message, event, provider, title).Some?
    ensures Principal(provider).Some? && Sender(read, handle)
    ensures (
      var v2 := ParseToken(read, handle).Ok?;
      Wrapped(read, alias, handle, message, event, provider, title).value
      == Unlines(HeadLines(Marker(v2), alias, handle, event, provider)) + Guidance(v2, title) + message)
  {
    var v2 := ParseToken(read, handle).Ok?;
    WrappedIs(read, alias, handle, message, event, provider, title);
    ContentIs(v2, title, message);
    HeadIsLines(Marker(v2), alias, handle, event, provider);
    Regroup(Unlines(HeadLines(Marker(v2), alias, handle, event, provider)), Guidance(v2, title), message);
  }

  /** A message is wrapped exactly for a usable name, event, recipient provider and
      sender, with a usable title or none, if the whole text is within the bound. */
  lemma WrappedExactly(read: Reader, alias: string, handle: string, message: string, event: string, provider: string,
                       title: Option<string>)
    ensures Principal(provider).Some? <==> provider in {"claude", "codex", "external", "devin"}
    ensures Wrapped(read, alias, handle, message, event, provider, title).Some? <==>
      && ValidName(alias) && Uuid(event) && Principal(provider).Some? && Sender(read, handle)
      && (ParseToken(read, handle).Ok? && title.Some? ==> ValidName(title.value))
      && (var v2 := ParseToken(read, handle).Ok?;
          BoundedMessage(Unlines(HeadLines(Marker(v2), alias, handle, event, provider)) + Guidance(v2, title) + message).Fine?)
  {
    var v2 := ParseToken(read, handle).Ok?;
    ContentIs(v2, title, message);
    if Principal(provider).Some? {
      var lines := Unlines(HeadLines(Marker(v2), alias, handle, event, provider));
      HeadIsLines(Marker(v2), alias, handle, event, provider);
      Regroup(lines, Guidance(v2, title), message);
      WrappedBody(read, alias, handle, message, event, provider, title, lines + Guidance(v2, title) + message);
    }
  }

  lemma WrappedBody(read: Reader, alias: string, handle: string, message: string, event: string, provider: string,
                    title: Option<string>, text: string)
    requires Principal(provider).Some?
    requires (
      var v2 := ParseToken(read, handle).Ok?;
      text == Head(Marker(v2), alias, handle, Provenance(event, Principal(provider).value)) + Content(v2, title, message))
    ensures Wrapped(read, alias, handle, message, event, provider, title).Some? <==>
      && ValidName(alias) && Uuid(event) && Sender(read, handle)
      && (ParseToken(read, handle).Ok? && title.Some? ==> ValidName(title.value)) && BoundedMessage(text).Fine?
  {
  }
}
