/** The peer wire messages and their codec over a growing byte buffer (BEP 3, "peer messages"). */
module PeerMessages {
  import opened ByteStrings

  datatype Message =
    | KeepAlive
    | Choke
    | Unchoke
    | Interested
    | NotInterested
    | Have(pieceIndex: nat)
    | Bitfield(bitfield: Bytes)
    | Request(index: nat, begin: nat, length: nat)
    | Piece(index: nat, begin: nat, block: Bytes)
    | Cancel(index: nat, begin: nat, length: nat)

  /** The numbers fit 32 bits, and so does the length of the frame. */
  predicate Sendable(m: Message) {
    match m
    case Have(i) => i < U32
    case Bitfield(v) => |v| + 1 < U32
    case Request(i, b, l) => i < U32 && b < U32 && l < U32
    case Piece(i, b, block) => i < U32 && b < U32 && |block| + 9 < U32
    case Cancel(i, b, l) => i < U32 && b < U32 && l < U32
    case _ => true
  }

  // ---- Numbers on the wire ----

  /** Four bytes, most significant first. */
  function U32Bytes(n: nat): (r: Bytes)
    ensures |r| == 4
  {
    [(n / 0x100_0000) % 256, (n / 0x1_0000) % 256, (n / 0x100) % 256, n % 256]
  }

  function U32Of(v: Bytes): (n: nat)
    requires |v| >= 4
    ensures n < U32
  {
    var (a: int, b: int, c: int, d: int) := (v[0], v[1], v[2], v[3]);
    a * 0x100_0000 + b * 0x1_0000 + c * 0x100 + d
  }

  lemma U32RoundTrip(n: nat, rest: Bytes)
    requires n < U32
    ensures U32Of(U32Bytes(n) + rest) == n
    ensures (U32Bytes(n) + rest)[4..] == rest
  {
    var q1 := n / 0x100;
    var q2 := q1 / 0x100;
    assert n / 0x1_0000 == q2 && n / 0x100_0000 == q2 / 0x100;
    assert (U32Bytes(n) + rest)[..4] == U32Bytes(n);
  }

  lemma LowByte(n: nat, m: nat)
    ensures (n + 256 * m) % 256 == n % 256
  {
  }

  lemma HighBytes(n: nat, q: nat)
    ensures (n + q * U32) / 0x100 == n / 0x100 + 256 * (q * 0x1_0000)
    ensures (n + q * U32) / 0x1_0000 == n / 0x1_0000 + 256 * (q * 0x100)
    ensures (n + q * U32) / 0x100_0000 == n / 0x100_0000 + 256 * q
  {
  }

  /** Only the low 32 bits are written. */
  lemma U32BytesWrap(n: nat, q: nat)
    ensures U32Bytes(n + q * U32) == U32Bytes(n)
  {
    HighBytes(n, q);
    LowByte(n, q * 0x100_0000);
    LowByte(n / 0x100, q * 0x1_0000);
    LowByte(n / 0x1_0000, q * 0x100);
    LowByte(n / 0x100_0000, q);
  }

  lemma CutLength(len: nat, header: nat)
    ensures U32Bytes(header + len % U32) == U32Bytes(header + len)
  {
    U32BytesWrap(header + len % U32, len / U32);
    assert header + len == header + len % U32 + len / U32 * U32;
  }

  lemma U32RoundTripBack(v: Bytes)
    requires |v| >= 4
    ensures U32Bytes(U32Of(v)) == v[..4]
  {
    var n := U32Of(v);
    var a: int, b: int, c: int := v[0], v[1], v[2];
    assert n / 0x100 == a * 0x1_0000 + b * 0x100 + c;
    assert n / 0x1_0000 == a * 0x100 + b;
    assert n / 0x100_0000 == a;
  }

  // ---- The frame format ----

  /** What follows the length prefix of a frame. */
  function Body(m: Message): Bytes {
    match m
    case KeepAlive => []
    case Choke => [0]
    case Unchoke => [1]
    case Interested => [2]
    case NotInterested => [3]
    case Have(i) => [4] + U32Bytes(i)
    case Bitfield(v) => [5] + v
    case Request(i, b, l) => [6] + U32Bytes(i) + U32Bytes(b) + U32Bytes(l)
    case Piece(i, b, block) => [7] + U32Bytes(i) + U32Bytes(b) + block
    case Cancel(i, b, l) => [8] + U32Bytes(i) + U32Bytes(b) + U32Bytes(l)
  }

  function Frame(m: Message): (r: Bytes)
    ensures |r| >= 4
  {
    U32Bytes(|Body(m)|) + Body(m)
  }

  /** The bytes of the buffer: the code reads from the front and appends at the back. */
  class BytesMut {
    var data: Bytes

    constructor (data: Bytes)
      ensures this.data == data
    {
      this.data := data;
    }

    method Advance(n: nat)
      requires n <= |data|
      modifies this
      ensures data == old(data)[n..]
    {
      data := data[n..];
    }

    method GetU8() returns (b: byte)
      requires |data| >= 1
      modifies this
      ensures b == old(data)[0] && data == old(data)[1..]
    {
      b := data[0];
      data := data[1..];
    }

    method GetU32() returns (n: nat)
      requires |data| >= 4
      modifies this
      ensures n == U32Of(old(data)) && data == old(data)[4..]
    {
      n := U32Of(data);
      data := data[4..];
    }

    method CopyToSlice(n: nat) returns (v: Bytes)
      requires n <= |data|
      modifies this
      ensures v == old(data)[..n] && data == old(data)[n..]
    {
      v := data[..n];
      data := data[n..];
    }

    method Put(v: Bytes)
      modifies this
      ensures data == old(data) + v
    {
      data := data + v;
    }

    method PutU32(n: nat)
      modifies this
      ensures data == old(data) + U32Bytes(n)
    {
      data := data + U32Bytes(n);
    }
  }

  datatype Decoded = Incomplete | Decoded(message: Message) | InvalidType | Panics

  /** The payload of a frame whose type byte has been read: the message, and how many bytes it took. */
  function DecodePayload(typ: byte, msgLen: nat, src: Bytes): (Decoded, nat)
    requires 1 <= msgLen <= |src| + 1
  {
    match typ
    case 0 => (Decoded(Choke), 0)
    case 1 => (Decoded(Unchoke), 0)
    case 2 => (Decoded(Interested), 0)
    case 3 => (Decoded(NotInterested), 0)
    case 4 => if |src| < 4 then (Panics, 0) else (Decoded(Have(U32Of(src))), 4)
    case 5 => (Decoded(Bitfield(src[..msgLen - 1])), msgLen - 1)
    case 6 =>
      if |src| < 12 then (Panics, 0)
      else (Decoded(Request(U32Of(src), U32Of(src[4..]), U32Of(src[8..]))), 12)
    case 7 =>
      if msgLen < 9 then (Panics, 0)
      else (Decoded(Piece(U32Of(src), U32Of(src[4..]), src[8..msgLen - 1])), msgLen - 1)
    case 8 =>
      if |src| < 12 then (Panics, 0)
      else (Decoded(Cancel(U32Of(src), U32Of(src[4..]), U32Of(src[8..]))), 12)
    case _ => (InvalidType, 0)
  }

  /** One call of the decoder on the buffered bytes: the result and the bytes left. */
  function DecodeOnce(src: Bytes): (r: (Decoded, Bytes))
    ensures r.0.Decoded? ==> |r.1| < |src|
    ensures r.0.Incomplete? ==> r.1 == src
  {
    if |src| < 4 || |src| < 4 + U32Of(src) then (Incomplete, src)
    else if U32Of(src) == 0 then (Decoded(KeepAlive), src[4..])
    else
      var (d, used) := DecodePayload(src[4], U32Of(src), src[5..]);
      (d, if used <= |src| - 5 then src[5 + used..] else [])
  }

  class MessageCodec {
    constructor () {}

    /** Takes one message off the buffer, or leaves the buffer alone when no frame is complete. */
    method Decode(src: BytesMut) returns (r: Decoded)
      modifies src
      ensures r == DecodeOnce(old(src.data)).0
      ensures !r.Panics? ==> src.data == DecodeOnce(old(src.data)).1
    {
      if |src.data| < 4 {
        return Incomplete;
      }
      var msgLen := U32Of(src.data);
      if |src.data| >= 4 + msgLen {
        src.Advance(4);
        if msgLen == 0 {
          return Decoded(KeepAlive);
        }
      } else {
        return Incomplete;
      }

      var msgType := src.GetU8();
      ghost var payload := src.data;
      assert payload == old(src.data)[5..];
      match msgType
      case 0 => r := Decoded(Choke);
      case 1 => r := Decoded(Unchoke);
      case 2 => r := Decoded(Interested);
      case 3 => r := Decoded(NotInterested);
      case 4 =>
        if |src.data| < 4 { return Panics; }
        var pieceIndex := src.GetU32();
        r := Decoded(Have(pieceIndex));
      case 5 =>
        var bitfield := src.CopyToSlice(msgLen - 1);
        r := Decoded(Bitfield(bitfield));
      case 6 =>
        if |src.data| < 12 { return Panics; }
        var index := src.GetU32();
        var begin := src.GetU32();
        assert src.data == payload[8..];
        var length := src.GetU32();
        r := Decoded(Request(index, begin, length));
      case 7 =>
        if msgLen < 9 { return Panics; }
        var index := src.GetU32();
        var begin := src.GetU32();
        assert src.data == payload[8..];
        var block := src.CopyToSlice(msgLen - 9);
        assert block == payload[8..msgLen - 1];
        r := Decoded(Piece(index, begin, block));
      case 8 =>
        if |src.data| < 12 { return Panics; }
        var index := src.GetU32();
        var begin := src.GetU32();
        assert src.data == payload[8..];
        var length := src.GetU32();
        r := Decoded(Cancel(index, begin, length));
      case _ => r := InvalidType;
    }

    /**
     * Appends the frame of a message to the buffer. The length of a payload is cut to 32 bits, and
     * the call panics, before it has written anything, if adding the length of the header overflows.
     */
    method Encode(item: Message, dst: BytesMut) returns (panicked: bool)
      modifies dst
      ensures panicked <==>
                || (item.Bitfield? && |item.bitfield| % 0x1_0000_0000 == 0xffff_ffff)
                || (item.Piece? && |item.block| % 0x1_0000_0000 >= 0xffff_fff7)
      ensures dst.data == old(dst.data) + if panicked then [] else Frame(item)
    {
      panicked := false;
      match item
      case KeepAlive =>
        dst.PutU32(0);
      case Choke =>
        PutEmpty(dst, 0);
      case Unchoke =>
        PutEmpty(dst, 1);
      case Interested =>
        PutEmpty(dst, 2);
      case NotInterested =>
        PutEmpty(dst, 3);
      case Have(pieceIndex) =>
        PutHave(dst, pieceIndex);
      case Bitfield(bitfield) =>
        panicked := PutBitfield(dst, bitfield);
      case Request(index, begin, length) =>
        PutTriple(dst, 6, index, begin, length);
      case Piece(index, begin, block) =>
        panicked := PutBlock(dst, index, begin, block);
      case Cancel(index, begin, length) =>
        PutTriple(dst, 8, index, begin, length);
    }

    /** A message without payload. */
    method PutEmpty(dst: BytesMut, typ: byte)
      modifies dst
      ensures dst.data == old(dst.data) + (U32Bytes(1) + [typ])
    {
      dst.PutU32(1);
      dst.Put([typ]);
    }

    /** A message with one number. */
    method PutHave(dst: BytesMut, pieceIndex: nat)
      modifies dst
      ensures dst.data == old(dst.data) + Frame(Have(pieceIndex))
    {
      dst.PutU32(5);
      dst.Put([4]);
      dst.PutU32(pieceIndex);
      AppendThree(old(dst.data), U32Bytes(5), [4], U32Bytes(pieceIndex));
    }

    /** The bits of the pieces that a peer owns. */
    method PutBitfield(dst: BytesMut, bitfield: Bytes) returns (panicked: bool)
      modifies dst
      ensures panicked <==> |bitfield| % U32 + 1 >= U32
      ensures dst.data == old(dst.data) + if panicked then [] else Frame(Bitfield(bitfield))
    {
      var len := |bitfield| % U32;
      panicked := len + 1 >= U32;
      if panicked {
        return;
      }
      CutLength(|bitfield|, 1);
      dst.PutU32(len + 1);
      dst.Put([5]);
      dst.Put(bitfield);
      AppendThree(old(dst.data), U32Bytes(|bitfield| + 1), [5], bitfield);
    }

    /** A block of a piece. */
    method PutBlock(dst: BytesMut, index: nat, begin: nat, block: Bytes) returns (panicked: bool)
      modifies dst
      ensures panicked <==> 9 + |block| % U32 >= U32
      ensures dst.data == old(dst.data) + if panicked then [] else Frame(Piece(index, begin, block))
    {
      var len := |block| % U32;
      panicked := 9 + len >= U32;
      if panicked {
        return;
      }
      CutLength(|block|, 9);
      dst.PutU32(9 + len);
      dst.Put([7]);
      dst.PutU32(index);
      dst.PutU32(begin);
      dst.Put(block);
      AppendFive(old(dst.data), U32Bytes(9 + |block|), [7], U32Bytes(index), U32Bytes(begin), block);
    }

    /** A message with three numbers. */
    method PutTriple(dst: BytesMut, typ: byte, index: nat, begin: nat, length: nat)
      modifies dst
      ensures dst.data
           == old(dst.data) + (U32Bytes(13) + ([typ] + U32Bytes(index) + U32Bytes(begin) + U32Bytes(length)))
    {
      dst.PutU32(13);
      dst.Put([typ]);
      dst.PutU32(index);
      dst.PutU32(begin);
      dst.PutU32(length);
      AppendFive(old(dst.data), U32Bytes(13), [typ], U32Bytes(index), U32Bytes(begin), U32Bytes(length));
    }
  }

  lemma AppendThree(d: Bytes, n: Bytes, t: Bytes, a: Bytes)
    ensures d + n + t + a == d + (n + (t + a))
  {
  }

  lemma AppendFive(d: Bytes, n: Bytes, t: Bytes, a: Bytes, b: Bytes, c: Bytes)
    ensures d + n + t + a + b + c == d + (n + (t + a + b + c))
  {
  }
}
