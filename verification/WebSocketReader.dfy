/**
 * Reading one message from the daemon: what the byte stream says, and the client
 * that finds it out through whatever chunks the socket delivers.
 */
module WebSocketReader {
  import opened Collections
  import opened WebSocket

  /** `pongs` are the ping payloads answered on the way. */
  datatype Reading = Message(payload: Bytes, rest: Bytes, pongs: seq<Bytes>) | Invalid | Closed | Incomplete

  function Answering(pongs: seq<Bytes>, r: Reading): Reading {
    if r.Message? then r.(pongs := pongs + r.pongs) else r
  }

  datatype Head = Whole(frame: Frame, rest: Bytes) | Broken | Cut

  /** The frame at the front of a stream, for a reader that already holds `got`
      bytes of its message. The size is judged before the body is read. */
  function FrameAt(s: Bytes, got: nat): (h: Head)
    ensures h.Whole? ==> |h.rest| < |s|
  {
    if |s| < 2 then Cut
    else if (s[0] / 16) % 8 != 0 || s[1] >= 128 then Broken
    else
      var length := ReadLength(s[1..]);
      if length.None? then Cut
      else
        var (size, used) := length.value;
        if got + size > MAX_RESPONSE_BYTES then Broken
        else if |s| < 1 + used + size then Cut
        else Whole(Frame(s[0] >= 128, s[0] % 16, s[1 + used..1 + used + size]), s[1 + used + size..])
  }

  /** The message at the front of a stream, after fragments that gave `got`. */
  function ReadFrom(s: Bytes, got: Bytes, started: bool): Reading
    decreases |s|, 0
  {
    match FrameAt(s, |got|)
    case Broken => Invalid
    case Cut => Incomplete
    case Whole(f, rest) => AfterFrame(f, rest, got, started)
  }

  function AfterFrame(f: Frame, rest: Bytes, got: Bytes, started: bool): Reading
    decreases |rest|, 1
  {
    if f.opcode == 8 then Closed
    else if f.opcode == 9 || f.opcode == 10 then
      if !f.final || |f.data| > 125 then Invalid
      else if f.opcode == 9 then Answering([f.data], ReadFrom(rest, got, started))
      else ReadFrom(rest, got, started)
    else if f.opcode != (if started then 0 else 1) then Invalid
    else if f.final then Message(got + f.data, rest, [])
    else ReadFrom(rest, got + f.data, true)
  }

  // -- what a stream may contain ------------------------------------------------------------------

  /** Any of the three spellings of a length without a mask bit; a spelling need not
      be the shortest. */
  ghost predicate SpellsLength(l: Bytes, n: nat) {
    || (|l| == 1 && l[0] == n && n < 126)
    || (|l| == 3 && l[0] == 126 && Unpack(l[1..]) == n)
    || (|l| == 9 && l[0] == 127 && Unpack(l[1..]) == n)
  }

  /** These bytes are exactly this frame: reserved bits clear, no mask. */
  ghost predicate Spells(b: Bytes, f: Frame) {
    f.opcode < 16 && exists l :: SpellsLength(l, |f.data|) && b == [FirstByte(f)] + l + f.data
  }

  function FirstByte(f: Frame): Byte
    requires f.opcode < 16
  {
    (if f.final then 128 else 0) + f.opcode
  }

  datatype Item = Fragment(data: Bytes) | Ping(data: Bytes) | Pong(data: Bytes)

  /** One message: fragments with control frames anywhere before the last one. */
  predicate OneMessage(items: seq<Item>, got: nat)
    decreases |items|
  {
    && items != []
    && (items[0].Fragment? ==> got + |items[0].data| <= MAX_RESPONSE_BYTES)
    && (!items[0].Fragment? ==> |items[0].data| <= 125 && got + |items[0].data| <= MAX_RESPONSE_BYTES)
    && (if |items| == 1 then items[0].Fragment?
        else OneMessage(items[1..], if items[0].Fragment? then got + |items[0].data| else got))
  }

  function FrameOf(item: Item, last: bool, started: bool): Frame {
    match item
    case Fragment(d) => Frame(last, if started then 0 else 1, d)
    case Ping(d) => Frame(true, 9, d)
    case Pong(d) => Frame(true, 10, d)
  }

  /** One spelled frame for each item. */
  ghost predicate Framed(frames: seq<Bytes>, items: seq<Item>, started: bool)
    decreases |items|
  {
    if items == [] then frames == []
    else
      && frames != [] && Spells(frames[0], FrameOf(items[0], |items| == 1, started))
      && Framed(frames[1..], items[1..], started || items[0].Fragment?)
  }

  function Text(items: seq<Item>): Bytes
    decreases |items|
  {
    if items == [] then [] else (if items[0].Fragment? then items[0].data else []) + Text(items[1..])
  }

  function Pings(items: seq<Item>): seq<Bytes>
    decreases |items|
  {
    if items == [] then [] else (if items[0].Ping? then [items[0].data] else []) + Pings(items[1..])
  }

  lemma SpelledLengthReads(l: Bytes, n: nat, rest: Bytes)
    requires SpellsLength(l, n)
    ensures l[0] < 128 && ReadLength(l + rest) == Some((n, |l|))
  {
    var s := l + rest;
    assert s[0] == l[0];
    if |l| == 3 { assert s[1..3] == l[1..]; }
    if |l| == 9 { assert s[1..9] == l[1..]; }
  }

  lemma ReadLengthSpells(s: Bytes)
    requires s != [] && s[0] < 128 && ReadLength(s).Some?
    ensures ReadLength(s).value.1 <= |s| && SpellsLength(s[..ReadLength(s).value.1], ReadLength(s).value.0)
  {
    var (n, used) := ReadLength(s).value;
    if used > 1 { assert s[..used][1..] == s[1..used]; }
  }

  /** A spelled frame at the front of a stream is the frame that is read. */
  lemma SpelledFrameReads(b: Bytes, f: Frame, rest: Bytes, got: nat)
    requires Spells(b, f) && got + |f.data| <= MAX_RESPONSE_BYTES
    ensures FrameAt(b + rest, got) == Whole(f, rest)
  {
    var l :| SpellsLength(l, |f.data|) && b == [FirstByte(f)] + l + f.data;
    SpelledLengthReads(l, |f.data|, f.data + rest);
    FrameParts(FirstByte(f), l, f.data, rest);
    FirstByteBack(f);
  }

  lemma FirstByteBack(f: Frame)
    requires f.opcode < 16
    ensures (FirstByte(f) / 16) % 8 == 0 && FirstByte(f) % 16 == f.opcode && (FirstByte(f) >= 128 <==> f.final)
  {
  }

  /** Whatever frame is read was spelled at the front of the stream. */
  lemma ReadFrameWasSpelled(s: Bytes, got: nat)
    requires FrameAt(s, got).Whole?
    ensures (
      var h := FrameAt(s, got);
      Spells(s[..|s| - |h.rest|], h.frame) && got + |h.frame.data| <= MAX_RESPONSE_BYTES
      && s == s[..|s| - |h.rest|] + h.rest)
  {
    var h := FrameAt(s, got);
    var (size, used) := ReadLength(s[1..]).value;
    ReadLengthSpells(s[1..]);
    var l := s[1..][..used];
    var b := s[..|s| - |h.rest|];
    assert FirstByte(h.frame) == s[0] by { ByteParts(s[0]); }
    assert b == [s[0]] + l + h.frame.data;
  }

  lemma ByteParts(b: Byte)
    requires (b / 16) % 8 == 0
    ensures b == (if b >= 128 then 128 else 0) + b % 16
  {
  }

  lemma FrameParts(first: Byte, head: Bytes, body: Bytes, rest: Bytes)
    requires head != []
    ensures (
      var s := [first] + head + body + rest;
      && s[0] == first && s[1] == head[0] && s[1..] == head + (body + rest)
      && |s| == 1 + |head| + |body| + |rest|
      && s[1 + |head|..1 + |head| + |body|] == body && s[1 + |head| + |body|..] == rest)
  {
    var s := [first] + head + body + rest;
    assert s[1 + |head|..1 + |head| + |body|] == body;
    assert s[1 + |head| + |body|..] == rest;
  }

  /** However its lengths are spelled, reading one message gives the concatenation of
      its fragments, whatever control frames are mixed in, and leaves exactly the
      bytes that follow; every ping is answered with its own payload, in order. */
  lemma {:induction false} MessagesAreAssembled(frames: seq<Bytes>, items: seq<Item>, rest: Bytes, got: Bytes, started: bool)
    requires OneMessage(items, |got|) && Framed(frames, items, started)
    ensures ReadFrom(Concat(frames) + rest, got, started) == Message(got + Text(items), rest, Pings(items))
    decreases |items|
  {
    var more, now := items[1..], started || items[0].Fragment?;
    var next := if items[0].Fragment? then got + items[0].data else got;
    var inner := ReadFrom(Concat(frames[1..]) + rest, next, now);
    ReadItem(frames, items, rest, got, started, inner);
    if |items| > 1 { MessagesAreAssembled(frames[1..], more, rest, next, now); }
    ItemJoins(items, rest, got, ReadFrom(Concat(frames) + rest, got, started), inner);
  }

  /** What reading one more item adds to what reading the later ones gives. */
  predicate ItemRead(items: seq<Item>, rest: Bytes, got: Bytes, read: Reading, inner: Reading)
    requires items != []
  {
    match items[0]
    case Fragment(d) => read == if |items| == 1 then Message(got + d, rest, []) else inner
    case Ping(d) => read == Answering([d], inner)
    case Pong(d) => read == inner
  }

  lemma ItemJoins(items: seq<Item>, rest: Bytes, got: Bytes, read: Reading, inner: Reading)
    requires items != [] && (|items| == 1 ==> items[0].Fragment?) && ItemRead(items, rest, got, read, inner)
    requires |items| > 1 ==>
      inner == Message((if items[0].Fragment? then got + items[0].data else got) + Text(items[1..]), rest, Pings(items[1..]))
    ensures read == Message(got + Text(items), rest, Pings(items))
  {
    var text, pings := Text(items[1..]), Pings(items[1..]);
    assert [] + text == text && [] + pings == pings;
    if |items| == 1 {
      assert text == [] && pings == [];
      assert Text(items) == items[0].data + [] && items[0].data + [] == items[0].data;
    } else if items[0].Fragment? {
      Reassociate(got, items[0].data, text);
    }
  }

  lemma Reassociate(a: Bytes, b: Bytes, c: Bytes)
    ensures a + (b + c) == a + b + c
  {
  }

  lemma ReadItem(frames: seq<Bytes>, items: seq<Item>, rest: Bytes, got: Bytes, started: bool, inner: Reading)
    requires OneMessage(items, |got|) && Framed(frames, items, started)
    requires inner == ReadFrom(Concat(frames[1..]) + rest, if items[0].Fragment? then got + items[0].data else got,
                               started || items[0].Fragment?)
    ensures ItemRead(items, rest, got, ReadFrom(Concat(frames) + rest, got, started), inner)
  {
    var f := FrameOf(items[0], |items| == 1, started);
    var after := Concat(frames[1..]) + rest;
    assert frames == [frames[0]] + frames[1..];
    JoinFrames(frames[0], frames[1..], rest);
    assert |items| == 1 ==> after == rest;
    SpelledFrameReads(frames[0], f, after, |got|);
    ReadWhole(frames[0] + after, got, started, f, after);
    AfterItem(items[0], |items| == 1, after, got, started);
  }

  lemma ReadWhole(s: Bytes, got: Bytes, started: bool, f: Frame, rest: Bytes)
    requires FrameAt(s, |got|) == Whole(f, rest)
    ensures ReadFrom(s, got, started) == AfterFrame(f, rest, got, started)
  {
  }

  lemma AfterItem(item: Item, last: bool, rest: Bytes, got: Bytes, started: bool)
    requires !item.Fragment? ==> |item.data| <= 125
    ensures (
      var read := AfterFrame(FrameOf(item, last, started), rest, got, started);
      && (item.Fragment? ==>
            read == if last then Message(got + item.data, rest, []) else ReadFrom(rest, got + item.data, true))
      && (item.Ping? ==> read == Answering([item.data], ReadFrom(rest, got, started)))
      && (item.Pong? ==> read == ReadFrom(rest, got, started)))
  {
  }

  /** `s` is one whole message, spelled in frames, and then `rest`. */
  ghost predicate IsMessage(s: Bytes, frames: seq<Bytes>, items: seq<Item>, rest: Bytes, got: nat, started: bool) {
    OneMessage(items, got) && Framed(frames, items, started) && s == Concat(frames) + rest
  }

  /** The item a frame carries, where it is acceptable. */
  ghost function ItemOf(f: Frame): Item {
    if f.opcode == 9 then Ping(f.data) else if f.opcode == 10 then Pong(f.data) else Fragment(f.data)
  }

  /** Whenever reading succeeds, the stream did begin with one message, and the answer
      is exactly the concatenation of that message's fragments. */
  lemma {:induction false} ReadingFindsOneMessage(s: Bytes, got: Bytes, started: bool)
    returns (frames: seq<Bytes>, items: seq<Item>)
    requires ReadFrom(s, got, started).Message?
    ensures (
      var read := ReadFrom(s, got, started);
      IsMessage(s, frames, items, read.rest, |got|, started)
      && read.payload == got + Text(items) && read.pongs == Pings(items))
    decreases |s|
  {
    var h := FrameAt(s, |got|);
    ReadFrameWasSpelled(s, |got|);
    var b, item := s[..|s| - |h.rest|], ItemOf(h.frame);
    ReadWhole(s, got, started, h.frame, h.rest);
    FrameItem(h.frame, h.rest, got, started);
    if h.frame.opcode <= 1 && h.frame.final {
      LastFrame(s, b, h.rest, got, started, item);
      return [b], [item];
    }
    var now, next := started || item.Fragment?, if item.Fragment? then got + h.frame.data else got;
    var moreFrames, moreItems := ReadingFindsOneMessage(h.rest, next, now);
    MoreFrames(s, b, h.rest, got, started, item, moreFrames, moreItems, ReadFrom(s, got, started), ReadFrom(h.rest, next, now));
    return [b] + moreFrames, [item] + moreItems;
  }

  /** An accepted frame is the frame of its item, and reading goes on accordingly. */
  lemma FrameItem(f: Frame, rest: Bytes, got: Bytes, started: bool)
    requires AfterFrame(f, rest, got, started).Message?
    ensures (
      var item, last := ItemOf(f), f.opcode <= 1 && f.final;
      && f == FrameOf(item, last, started) && (!item.Fragment? ==> |f.data| <= 125) && (item.Fragment? <==> f.opcode <= 1)
      && (last || (var inner := ReadFrom(rest, if item.Fragment? then got + f.data else got, started || item.Fragment?);
                   inner.Message? && AfterFrame(f, rest, got, started) == if item.Ping? then Answering([f.data], inner) else inner)))
  {
  }

  lemma LastFrame(s: Bytes, b: Bytes, rest: Bytes, got: Bytes, started: bool, item: Item)
    requires s == b + rest && item.Fragment? && |got| + |item.data| <= MAX_RESPONSE_BYTES
    requires Spells(b, FrameOf(item, true, started))
    ensures IsMessage(s, [b], [item], rest, |got|, started) && Text([item]) == item.data && Pings([item]) == []
  {
    OneFrame(b, rest);
    assert [item][1..] == [] && [b][1..] == [];
    assert Text([item]) == item.data + [];
    assert Framed([b][1..], [item][1..], true);
  }

  lemma MoreFrames(s: Bytes, b: Bytes, after: Bytes, got: Bytes, started: bool, item: Item,
                   frames: seq<Bytes>, items: seq<Item>, read: Reading, inner: Reading)
    requires s == b + after && |got| + |item.data| <= MAX_RESPONSE_BYTES && (!item.Fragment? ==> |item.data| <= 125)
    requires Spells(b, FrameOf(item, false, started))
    requires inner.Message? && read == if item.Ping? then Answering([item.data], inner) else inner
    requires (
      var next := if item.Fragment? then got + item.data else got;
      IsMessage(after, frames, items, inner.rest, |next|, started || item.Fragment?)
      && inner.payload == next + Text(items) && inner.pongs == Pings(items))
    ensures IsMessage(s, [b] + frames, [item] + items, read.rest, |got|, started)
    ensures read.payload == got + Text([item] + items) && read.pongs == Pings([item] + items)
  {
    var all := [item] + items;
    assert all[1..] == items && ([b] + frames)[1..] == frames && items != [];
    JoinFrames(b, frames, inner.rest);
    ItemJoins(all, inner.rest, got, read, inner);
  }

  lemma OneFrame(b: Bytes, rest: Bytes)
    ensures Concat([b]) + rest == b + rest
  {
    assert Concat([b][1..]) == [] && b + [] == b;
  }

  lemma JoinFrames(b: Bytes, frames: seq<Bytes>, rest: Bytes)
    ensures Concat([b] + frames) + rest == b + (Concat(frames) + rest)
  {
    assert ([b] + frames)[1..] == frames;
  }

  /** The stream begins with one message that gives this payload and these pongs. */
  ghost predicate Begins(s: Bytes, payload: Bytes, pongs: seq<Bytes>, rest: Bytes) {
    exists frames, items :: IsMessage(s, frames, items, rest, 0, false) && payload == Text(items) && pongs == Pings(items)
  }

  /** Reading succeeds exactly on the streams that begin with one message, and then
      with that message's own text, pings and rest. */
  lemma ReadingIsExact(s: Bytes)
    ensures ReadFrom(s, [], false).Message? ==>
      Begins(s, ReadFrom(s, [], false).payload, ReadFrom(s, [], false).pongs, ReadFrom(s, [], false).rest)
    ensures forall payload, pongs, rest :: Begins(s, payload, pongs, rest) ==>
      ReadFrom(s, [], false) == Message(payload, rest, pongs)
  {
    if ReadFrom(s, [], false).Message? {
      var frames, items := ReadingFindsOneMessage(s, [], false);
      assert [] + Text(items) == Text(items);
    }
    forall payload, pongs, rest | Begins(s, payload, pongs, rest)
      ensures ReadFrom(s, [], false) == Message(payload, rest, pongs)
    {
      var frames, items :| IsMessage(s, frames, items, rest, 0, false) && payload == Text(items) && pongs == Pings(items);
      MessagesAreAssembled(frames, items, rest, [], false);
      assert [] + Text(items) == Text(items);
    }
  }

  /** The shortest spelling, as a server writes it, is one of them. */
  lemma ShortestSpelling(f: Frame)
    requires f.opcode < 16 && |f.data| < 0x1_0000_0000_0000_0000
    ensures Spells([FirstByte(f)] + Length(|f.data|, false) + f.data, f)
  {
    var l := Length(|f.data|, false);
    assert l + [] == l;
    ReadLengthBack(|f.data|, false, []);
    ReadLengthSpells(l);
    assert l[..|l|] == l;
  }

  // -- the buffered client --------------------------------------------------------------------------

  datatype Fetched = Fetched(bytes: Bytes) | Eof | TooMuch

  datatype Result = Got(payload: Bytes) | Bad | HungUp | Overflow

  function Concat(chunks: seq<Bytes>): Bytes
    decreases |chunks|
  {
    if chunks == [] then [] else chunks[0] + Concat(chunks[1..])
  }

  function PongFrames(pongs: seq<Bytes>): seq<Frame> {
    seq(|pongs|, i requires 0 <= i < |pongs| => Frame(true, 10, pongs[i]))
  }

  /** `chunks` is what the socket will still deliver, in pieces nobody controls. */
  class Client {
    var buffer: Bytes
    var chunks: seq<Bytes>
    var sent: seq<Frame>

    constructor (chunks: seq<Bytes>)
      ensures buffer == [] && this.chunks == chunks && sent == []
    {
      buffer, this.chunks, sent := [], chunks, [];
    }

    function Stream(): Bytes
      reads this
    {
      buffer + Concat(chunks)
    }

    method Receive() returns (r: Fetched)
      modifies this`buffer, this`chunks
      ensures Stream() == old(Stream())
      ensures r.Eof? ==> old(chunks) == [] && buffer == old(buffer)
      ensures r.Fetched? ==> |chunks| < old(|chunks|)
      ensures r.TooMuch? <==> old(chunks) != [] && |buffer| > MAX_RESPONSE_BYTES
    {
      if chunks == [] { return Eof; }
      assert buffer + Concat(chunks) == (buffer + chunks[0]) + Concat(chunks[1..]);
      buffer, chunks := buffer + chunks[0], chunks[1..];
      if |buffer| > MAX_RESPONSE_BYTES { return TooMuch; }
      return Fetched([]);
    }

    /** Exactly the next `size` bytes of the stream, however it is cut up. */
    method Exact(size: nat) returns (r: Fetched)
      modifies this`buffer, this`chunks
      ensures r.Fetched? ==> |r.bytes| == size && old(Stream()) == r.bytes + Stream()
      ensures r.Eof? ==> |old(Stream())| < size && Stream() == old(Stream())
      ensures r.TooMuch? ==> |buffer| > MAX_RESPONSE_BYTES
    {
      while |buffer| < size
        invariant Stream() == old(Stream())
        decreases |chunks|
      {
        var more := Receive();
        if !more.Fetched? { return more; }
      }
      var value := buffer[..size];
      assert buffer + Concat(chunks) == value + (buffer[size..] + Concat(chunks));
      buffer := buffer[size..];
      return Fetched(value);
    }

    /** The size a length byte announces, with its extension if it has one. */
    method ReadSize(sizeByte: Byte) returns (size: Option<nat>, overflow: bool)
      modifies this`buffer, this`chunks
      ensures overflow ==> |buffer| > MAX_RESPONSE_BYTES
      ensures !overflow && size.None? ==> ReadLength([sizeByte] + old(Stream())).None?
      ensures !overflow && size.Some? ==> (
        var length := ReadLength([sizeByte] + old(Stream()));
        length.Some? && length.value.0 == size.value && 1 <= length.value.1 <= 1 + |old(Stream())|
        && Stream() == old(Stream())[length.value.1 - 1..])
    {
      ghost var s := [sizeByte] + Stream();
      var small := sizeByte % 128;
      if small < 126 { return Some(small), false; }
      var k := if small == 126 then 2 else 8;
      var more := Exact(k);
      if !more.Fetched? { return None, more.TooMuch?; }
      assert s[1..1 + k] == more.bytes;
      return Some(Unpack(more.bytes)), false;
    }

    /** The header of the next frame: its two bytes and the size they announce. */
    method NextHeader() returns (flags: Byte, sizeByte: Byte, size: Option<nat>, overflow: bool)
      modifies this`buffer, this`chunks
      ensures overflow ==> |buffer| > MAX_RESPONSE_BYTES
      ensures !overflow && size.None? ==> CutHeader(old(Stream())) || (|old(Stream())| >= 2 && BadHeader(old(Stream())))
      ensures !overflow && size.None? && |old(Stream())| >= 2 && BadHeader(old(Stream())) ==>
        old(Stream())[0] == flags && old(Stream())[1] == sizeByte
      ensures !overflow && size.None? && CutHeader(old(Stream())) ==> flags == 0 && sizeByte == 0
      ensures !overflow && size.Some? ==>
        Headed(old(Stream()), flags, size.value, Stream())
    {
      ghost var s := Stream();
      var first := Exact(2);
      if !first.Fetched? { return 0, 0, None, first.TooMuch?; }
      flags, sizeByte := first.bytes[0], first.bytes[1];
      FirstTwo(s, first.bytes, Stream());
      if (flags / 16) % 8 != 0 || sizeByte >= 128 { return flags, sizeByte, None, false; }
      size, overflow := ReadSize(sizeByte);
      if overflow || size.None? { return 0, 0, None, overflow; }
      ghost var used := ReadLength(s[1..]).value.1;
      assert s[1 + used..] == s[1..][1..][used - 1..];
    }

    /** The header and the body of the next frame. */
    method NextFrame(got: nat) returns (h: Head, overflow: bool)
      modifies this`buffer, this`chunks
      ensures overflow ==> |buffer| > MAX_RESPONSE_BYTES
      ensures !overflow ==> h == FrameAt(old(Stream()), got)
      ensures !overflow && h.Whole? ==> h.rest == Stream()
    {
      ghost var s := Stream();
      var flags, sizeByte, announced, tooMuch := NextHeader();
      if tooMuch { return Cut, true; }
      if announced.None? {
        return if (flags / 16) % 8 != 0 || sizeByte >= 128 then Broken else Cut, false;
      }
      var size := announced.value;
      if size > MAX_RESPONSE_BYTES || got + size > MAX_RESPONSE_BYTES {
        return Broken, false;
      }
      ghost var left := Stream();
      var body := Exact(size);
      if !body.Fetched? { return Cut, body.TooMuch?; }
      FrameIs(s, flags, size, left, body.bytes, Stream(), got);
      return Whole(Frame(flags >= 128, flags % 16, body.bytes), Stream()), false;
    }

    /** One whole message: whenever this returns, the answer is what the stream says,
        no matter how it was cut into chunks, and the rest of it is kept. */
    method ReadMessage() returns (r: Result)
      modifies this
      ensures r.Got? ==>
        |r.payload| <= MAX_RESPONSE_BYTES
        && exists pongs :: Begins(old(Stream()), r.payload, pongs, Stream()) && sent == old(sent) + PongFrames(pongs)
      ensures r.Bad? || r.HungUp? ==> forall payload, pongs, rest :: !Begins(old(Stream()), payload, pongs, rest)
      ensures r.Overflow? ==> |buffer| > MAX_RESPONSE_BYTES
      ensures r.Bad? ==> ReadFrom(old(Stream()), [], false).Invalid?
      ensures r.HungUp? ==> ReadFrom(old(Stream()), [], false).Closed? || ReadFrom(old(Stream()), [], false).Incomplete?
    {
      ReadingIsExact(Stream());
      var message: Bytes, started := [], false;
      ghost var pongs: seq<Bytes> := [];
      ghost var said := ReadFrom(Stream(), [], false);
      assert said.Message? ==> [] + said.pongs == said.pongs;
      while true
        invariant said == Answering(pongs, ReadFrom(Stream(), message, started))
        invariant sent == old(sent) + PongFrames(pongs)
        invariant |message| <= MAX_RESPONSE_BYTES
        decreases |Stream()|
      {
        ghost var before, had := ReadFrom(Stream(), message, started), pongs;
        var h, overflow := NextFrame(|message|);
        if overflow { return Overflow; }
        if h.Broken? { return Bad; }
        if h.Cut? { return HungUp; }
        var f := h.frame;
        assert before == AfterFrame(f, Stream(), message, started);
        if f.opcode == 8 { return HungUp; }
        if f.opcode == 9 || f.opcode == 10 {
          if !f.final || |f.data| > 125 { return Bad; }
          if f.opcode == 9 {
            sent := sent + [Frame(true, 10, f.data)];
            pongs := pongs + [f.data];
            AnsweringTwice(had, f.data, ReadFrom(Stream(), message, started));
            assert PongFrames(pongs) == PongFrames(had) + [Frame(true, 10, f.data)];
          }
        } else {
          if (f.opcode == 1 && started) || (f.opcode != 0 && f.opcode != 1) || (f.opcode == 0 && !started) { return Bad; }
          started := true;
          message := message + f.data;
          if f.final {
            assert pongs + [] == pongs;
            return Got(message);
          }
        }
      }
    }
  }

  ghost predicate BadHeader(s: Bytes)
    requires |s| >= 2
  {
    (s[0] / 16) % 8 != 0 || s[1] >= 128
  }

  ghost predicate CutHeader(s: Bytes) { |s| < 2 || (!BadHeader(s) && ReadLength(s[1..]).None?) }

  /** A good header with these flags and this size stands before `rest`. */
  ghost predicate Headed(s: Bytes, flags: Byte, size: nat, rest: Bytes) {
    && |s| >= 2 && s[0] == flags && !BadHeader(s)
    && ReadLength(s[1..]).Some? && ReadLength(s[1..]).value.0 == size
    && (var used := ReadLength(s[1..]).value.1; 1 <= used < |s| && s[1 + used..] == rest)
  }

  lemma FrameIs(s: Bytes, flags: Byte, size: nat, left: Bytes, body: Bytes, rest: Bytes, got: nat)
    requires Headed(s, flags, size, left) && left == body + rest && |body| == size && got + size <= MAX_RESPONSE_BYTES
    ensures FrameAt(s, got) == Whole(Frame(flags >= 128, flags % 16, body), rest)
  {
    CutAt(s, 1 + ReadLength(s[1..]).value.1, body, rest);
  }

  lemma FirstTwo(s: Bytes, two: Bytes, rest: Bytes)
    requires s == two + rest && |two| == 2
    ensures |s| >= 2 && s[0] == two[0] && s[1] == two[1] && s[1..] == [two[1]] + rest && s[1..][1..] == rest
  {
  }

  lemma CutAt(s: Bytes, k: nat, body: Bytes, rest: Bytes)
    requires k <= |s| && s[k..] == body + rest
    ensures k + |body| <= |s| && s[k..k + |body|] == body && s[k + |body|..] == rest
  {
    assert s[k..k + |body|] == s[k..][..|body|] && s[k + |body|..] == s[k..][|body|..];
  }

  lemma AnsweringTwice(pongs: seq<Bytes>, data: Bytes, r: Reading)
    ensures Answering(pongs, Answering([data], r)) == Answering(pongs + [data], r)
  {
    if r.Message? { assert pongs + ([data] + r.pongs) == pongs + [data] + r.pongs; }
  }
}
