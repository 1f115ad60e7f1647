/**
 * The WebSocket framing of the daemon client (RFC 6455 section 5): the masked
 * writer, and the reader that assembles one message from a buffered socket.
 * Bytes are integers below 256.
 */
module WebSocket {
  import opened Collections

  const MAX_RESPONSE_BYTES := 256 * 1024

  // -- big-endian lengths ---------------------------------------------------------------------

  function Pack(n: nat, k: nat): (s: Bytes)
    ensures |s| == k
    decreases k
  {
    if k == 0 then [] else Pack(n / 256, k - 1) + [n % 256]
  }

  function Unpack(s: Bytes): nat
    decreases |s|
  {
    if s == [] then 0 else Unpack(s[..|s| - 1]) * 256 + s[|s| - 1]
  }

  /** n is below 256 to the power k. */
  predicate Below(n: nat, k: nat)
    decreases k
  {
    if k == 0 then n == 0 else Below(n / 256, k - 1)
  }

  lemma {:induction false} UnpackPack(n: nat, k: nat)
    requires Below(n, k)
    ensures Unpack(Pack(n, k)) == n
    decreases k
  {
    if k > 0 {
      var s := Pack(n, k);
      assert s[..k - 1] == Pack(n / 256, k - 1) && s[k - 1] == n % 256;
      UnpackPack(n / 256, k - 1);
    }
  }

  lemma SmallIsBelow2(n: nat)
    requires n <= 65535
    ensures Below(n, 2)
  {
    assert Below(n / 256, 1) <==> Below(n / 256 / 256, 0);
  }

  lemma LargeIsBelow8(n: nat)
    requires n < 0x1_0000_0000_0000_0000
    ensures Below(n, 8)
  {
    var n1 := n / 256;
    var n2 := n1 / 256;
    var n3 := n2 / 256;
    var n4 := n3 / 256;
    var n5 := n4 / 256;
    var n6 := n5 / 256;
    var n7 := n6 / 256;
    assert Below(n7, 1) && Below(n6, 2) && Below(n5, 3) && Below(n4, 4);
    assert Below(n3, 5) && Below(n2, 6) && Below(n1, 7);
  }

  // -- masking -----------------------------------------------------------------------------------

  function BitXor(a: nat, b: nat): (r: nat)
    ensures r < 2
  {
    if a == b then 0 else 1
  }

  lemma Halves(y: nat, r: nat)
    requires r < 2
    ensures (2 * y + r) / 2 == y && (2 * y + r) % 2 == r
  {
  }

  /** Exclusive or of the low k bits. */
  function XorBits(a: nat, b: nat, k: nat): nat
    decreases k
  {
    if k == 0 then 0 else 2 * XorBits(a / 2, b / 2, k - 1) + BitXor(a % 2, b % 2)
  }

  predicate Bits(a: nat, k: nat)
    decreases k
  {
    if k == 0 then a == 0 else Bits(a / 2, k - 1)
  }

  lemma {:induction false} XorBitsTwice(a: nat, b: nat, k: nat)
    ensures Bits(XorBits(a, b, k), k)
    ensures Bits(a, k) ==> XorBits(XorBits(a, b, k), b, k) == a
    decreases k
  {
    if k > 0 {
      XorBitsTwice(a / 2, b / 2, k - 1);
      var y, r := XorBits(a / 2, b / 2, k - 1), BitXor(a % 2, b % 2);
      Halves(y, r);
      assert XorBits(a, b, k) == 2 * y + r;
      assert BitXor(r, b % 2) == a % 2;
    }
  }

  lemma ByteIsEightBits(a: nat)
    ensures Bits(a, 8) <==> a < 256
  {
    var a1 := a / 2;
    var a2 := a1 / 2;
    var a3 := a2 / 2;
    var a4 := a3 / 2;
    var a5 := a4 / 2;
    var a6 := a5 / 2;
    var a7 := a6 / 2;
    assert Bits(a7, 1) <==> a7 / 2 == 0;
    assert Bits(a, 8) <==> Bits(a7, 1) by {
      assert Bits(a6, 2) == Bits(a7, 1) && Bits(a5, 3) == Bits(a6, 2) && Bits(a4, 4) == Bits(a5, 3);
      assert Bits(a3, 5) == Bits(a4, 4) && Bits(a2, 6) == Bits(a3, 5) && Bits(a1, 7) == Bits(a2, 6);
    }
  }

  function Xor(a: Byte, b: Byte): Byte {
    XorBitsTwice(a, b, 8);
    ByteIsEightBits(XorBits(a, b, 8));
    XorBits(a, b, 8)
  }

  lemma XorTwice(a: Byte, m: Byte)
    ensures Xor(Xor(a, m), m) == a
  {
    ByteIsEightBits(a);
    XorBitsTwice(a, m, 8);
  }

  /** Bit k of a number, counted from the lowest. */
  function Bit(a: nat, k: nat): nat
    decreases k
  {
    if k == 0 then a % 2 else Bit(a / 2, k - 1)
  }

  lemma {:induction false} XorBitsAreExclusive(a: nat, b: nat, n: nat, k: nat)
    requires k < n
    ensures Bit(XorBits(a, b, n), k) == 1 <==> Bit(a, k) != Bit(b, k)
    ensures Bit(XorBits(a, b, n), k) < 2
    decreases n
  {
    var y, r := XorBits(a / 2, b / 2, n - 1), BitXor(a % 2, b % 2);
    Halves(y, r);
    assert XorBits(a, b, n) == 2 * y + r;
    if k > 0 { XorBitsAreExclusive(a / 2, b / 2, n - 1, k - 1); }
  }

  /** Masking sets a bit exactly where the byte and the mask differ. */
  lemma XorIsExclusive(a: Byte, b: Byte, k: nat)
    requires k < 8
    ensures Bit(Xor(a, b), k) == 1 <==> Bit(a, k) != Bit(b, k)
  {
    XorBitsAreExclusive(a, b, 8, k);
  }

  function Masked(data: Bytes, mask: Bytes): (s: Bytes)
    requires |mask| == 4
    ensures |s| == |data|
  {
    seq(|data|, i requires 0 <= i < |data| => Xor(data[i], mask[i % 4]))
  }

  lemma MaskedTwice(data: Bytes, mask: Bytes)
    requires |mask| == 4
    ensures Masked(Masked(data, mask), mask) == data
  {
    forall i | 0 <= i < |data| ensures Masked(Masked(data, mask), mask)[i] == data[i] {
      XorTwice(data[i], mask[i % 4]);
    }
  }

  // -- the frame format ----------------------------------------------------------------------------

  datatype Frame = Frame(final: bool, opcode: nat, data: Bytes)

  /** The second header byte and the extended length. `masked` sets the mask bit. */
  function Length(size: nat, masked: bool): Bytes
    requires size < 0x1_0000_0000_0000_0000
  {
    var bit := if masked then 128 else 0;
    if size < 126 then [bit + size]
    else if size <= 65535 then [bit + 126] + Pack(size, 2)
    else [bit + 127] + Pack(size, 8)
  }

  /** Reading a length back: the size and how many bytes it took. */
  function ReadLength(s: Bytes): Option<(nat, nat)>
    requires s != []
  {
    var size := s[0] % 128;
    if size < 126 then Some((size, 1))
    else
      var k := if size == 126 then 2 else 8;
      if |s| < 1 + k then None else Some((Unpack(s[1..1 + k]), 1 + k))
  }

  lemma ReadLengthBack(size: nat, masked: bool, rest: Bytes)
    requires size < 0x1_0000_0000_0000_0000
    ensures ReadLength(Length(size, masked) + rest) == Some((size, |Length(size, masked)|))
    ensures Length(size, masked)[0] >= 128 <==> masked
  {
    var head := Length(size, masked);
    var s := head + rest;
    if size >= 126 {
      var k := if size <= 65535 then 2 else 8;
      assert s[0] == head[0] && s[1..1 + k] == Pack(size, k);
      if size <= 65535 { SmallIsBelow2(size); } else { LargeIsBelow8(size); }
      UnpackPack(size, k);
    }
  }

  /** An independent decoder of client frames: reserved bits clear, mask present. */
  function DecodeClient(s: Bytes): Option<(Frame, Bytes)> {
    if |s| < 2 || (s[0] / 16) % 8 != 0 || s[1] < 128 then None
    else
      var length := ReadLength(s[1..]);
      if length.None? then None
      else
        var (size, used) := length.value;
        if |s| < 1 + used + 4 + size then None
        else
          var mask := s[1 + used..5 + used];
          var body := s[5 + used..5 + used + size];
          Some((Frame(s[0] >= 128, s[0] % 16, Masked(body, mask)), s[5 + used + size..]))
  }

  /** The writer. */
  method WriteFrame(data: Bytes, opcode: nat, mask: Bytes) returns (s: Bytes)
    requires opcode < 16 && |mask| == 4 && |data| < 0x1_0000_0000_0000_0000
    ensures s == ClientFrame(data, opcode, mask)
  {
    var size := |data|;
    var header: Bytes;
    if size < 126 {
      header := [128 + opcode, 128 + size];
    } else if size <= 65535 {
      header := [128 + opcode, 128 + 126] + Pack(size, 2);
      assert header == [128 + opcode] + ([128 + 126] + Pack(size, 2));
    } else {
      header := [128 + opcode, 128 + 127] + Pack(size, 8);
      assert header == [128 + opcode] + ([128 + 127] + Pack(size, 8));
    }
    s := header + mask + Masked(data, mask);
  }

  function ClientFrame(data: Bytes, opcode: nat, mask: Bytes): Bytes
    requires opcode < 16 && |mask| == 4 && |data| < 0x1_0000_0000_0000_0000
  {
    [128 + opcode] + Length(|data|, true) + mask + Masked(data, mask)
  }

  /** Whatever the length class and the mask, the decoder gets back the opcode and
      the data, and the bytes after the frame. */
  lemma WrittenFramesDecode(data: Bytes, opcode: nat, mask: Bytes, rest: Bytes)
    requires opcode < 16 && |mask| == 4 && |data| < 0x1_0000_0000_0000_0000
    ensures DecodeClient(ClientFrame(data, opcode, mask) + rest) == Some((Frame(true, opcode, data), rest))
  {
    var head, body := Length(|data|, true), Masked(data, mask);
    ReadLengthBack(|data|, true, mask + body + rest);
    DecodeParts(128 + opcode, head, mask, body, rest);
    MaskedTwice(data, mask);
    assert ClientFrame(data, opcode, mask) + rest == [128 + opcode] + head + mask + body + rest;
  }

  lemma DecodeParts(first: Byte, head: Bytes, mask: Bytes, body: Bytes, rest: Bytes)
    requires head != [] && |mask| == 4 && (first / 16) % 8 == 0 && head[0] >= 128
    requires ReadLength(head + (mask + body + rest)) == Some((|body|, |head|))
    ensures DecodeClient([first] + head + mask + body + rest)
         == Some((Frame(first >= 128, first % 16, Masked(body, mask)), rest))
  {
    var s := [first] + head + mask + body + rest;
    var used := |head|;
    assert s[1..] == head + (mask + body + rest);
    assert s[0] == first && s[1] == head[0];
    assert s[1 + used..5 + used] == mask;
    assert s[5 + used..5 + used + |body|] == body;
    assert s[5 + used + |body|..] == rest;
  }
}
