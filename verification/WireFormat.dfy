/** The peer wire format in plain bytes (BEP 3, "peer messages"): every length, type and number written out. */
module WireFormat {
  import opened ByteStrings
  import opened PeerMessages

  /** Four bytes, the most significant first. */
  function BigEndian(n: nat): Bytes
    requires n < 0x1_0000_0000
  {
    [n / 16777216, n / 65536 % 256, n / 256 % 256, n % 256]
  }

  function Number(s: Bytes, k: nat): nat
    requires k + 4 <= |s|
  {
    var (a: int, b: int, c: int, d: int) := (s[k], s[k + 1], s[k + 2], s[k + 3]);
    a * 16777216 + b * 65536 + c * 256 + d
  }

  /** All numbers have 32 bits. */
  predicate HasWireFormat(m: Message) {
    match m
    case Have(i) => i < 0x1_0000_0000
    case Bitfield(v) => |v| < 0xffff_ffff
    case Request(i, b, l) => i < 0x1_0000_0000 && b < 0x1_0000_0000 && l < 0x1_0000_0000
    case Piece(i, b, block) => i < 0x1_0000_0000 && b < 0x1_0000_0000 && |block| < 0xffff_fff7
    case Cancel(i, b, l) => i < 0x1_0000_0000 && b < 0x1_0000_0000 && l < 0x1_0000_0000
    case _ => true
  }

  function Spelled(m: Message): Bytes
    requires HasWireFormat(m)
  {
    match m
    case KeepAlive => [0, 0, 0, 0]
    case Choke => [0, 0, 0, 1, 0]
    case Unchoke => [0, 0, 0, 1, 1]
    case Interested => [0, 0, 0, 1, 2]
    case NotInterested => [0, 0, 0, 1, 3]
    case Have(i) => [0, 0, 0, 5, 4] + BigEndian(i)
    case Bitfield(v) => BigEndian(|v| + 1) + [5] + v
    case Request(i, b, l) => [0, 0, 0, 13, 6] + BigEndian(i) + BigEndian(b) + BigEndian(l)
    case Piece(i, b, block) => BigEndian(|block| + 9) + [7] + BigEndian(i) + BigEndian(b) + block
    case Cancel(i, b, l) => [0, 0, 0, 13, 8] + BigEndian(i) + BigEndian(b) + BigEndian(l)
  }

  lemma NumbersAreBigEndian(n: nat)
    requires n < 0x1_0000_0000
    ensures U32Bytes(n) == BigEndian(n)
  {
  }

  lemma SmallLengths()
    ensures U32Bytes(0) == [0, 0, 0, 0] && U32Bytes(1) == [0, 0, 0, 1]
    ensures U32Bytes(5) == [0, 0, 0, 5] && U32Bytes(13) == [0, 0, 0, 13]
  {
  }

  lemma TripleFrame(typ: byte, i: nat, b: nat, l: nat)
    requires i < 0x1_0000_0000 && b < 0x1_0000_0000 && l < 0x1_0000_0000
    ensures U32Bytes(13) + ([typ] + U32Bytes(i) + U32Bytes(b) + U32Bytes(l))
         == [0, 0, 0, 13, typ] + BigEndian(i) + BigEndian(b) + BigEndian(l)
  {
    SmallLengths();
    NumbersAreBigEndian(i);
    NumbersAreBigEndian(b);
    NumbersAreBigEndian(l);
    assert [0, 0, 0, 13] + [typ] == [0, 0, 0, 13, typ];
  }

  /** Every message is framed as it is spelled. */
  lemma FramesAreSpelled(m: Message)
    requires HasWireFormat(m)
    ensures Frame(m) == Spelled(m)
  {
    match m
    case Have(i) => HaveFrame(i);
    case Bitfield(v) => BitfieldFrame(v);
    case Request(i, b, l) => TripleFrame(6, i, b, l);
    case Piece(i, b, block) => PieceFrame(i, b, block);
    case Cancel(i, b, l) => TripleFrame(8, i, b, l);
    case _ => EmptyFrame(m);
  }

  lemma EmptyFrame(m: Message)
    requires m.KeepAlive? || m.Choke? || m.Unchoke? || m.Interested? || m.NotInterested?
    ensures Frame(m) == Spelled(m)
  {
    SmallLengths();
  }

  lemma HaveFrame(i: nat)
    requires i < 0x1_0000_0000
    ensures Frame(Have(i)) == Spelled(Have(i))
  {
    SmallLengths();
    NumbersAreBigEndian(i);
    assert [0, 0, 0, 5] + [4] == [0, 0, 0, 5, 4];
  }

  lemma BitfieldFrame(v: Bytes)
    requires |v| < 0xffff_ffff
    ensures Frame(Bitfield(v)) == Spelled(Bitfield(v))
  {
    NumbersAreBigEndian(|v| + 1);
    assert BigEndian(|v| + 1) + ([5] + v) == BigEndian(|v| + 1) + [5] + v;
  }

  lemma PieceFrame(i: nat, b: nat, block: Bytes)
    requires HasWireFormat(Piece(i, b, block))
    ensures Frame(Piece(i, b, block)) == Spelled(Piece(i, b, block))
  {
    NumbersAreBigEndian(|block| + 9);
    NumbersAreBigEndian(i);
    NumbersAreBigEndian(b);
    var length := BigEndian(|block| + 9);
    assert length + ([7] + BigEndian(i) + BigEndian(b) + block)
        == length + [7] + BigEndian(i) + BigEndian(b) + block;
  }

  // ---- Reading ----

  /** What the buffered bytes are read as, and what is left of them. */
  function Read(src: Bytes): (Decoded, Bytes) {
    if |src| < 4 || |src| < 4 + Number(src, 0) then (Incomplete, src)
    else
      var n := Number(src, 0);
      if n == 0 then (Decoded(KeepAlive), src[4..]) else ReadType(src, n)
  }

  /** A frame of `n` bytes behind its length, by its type byte. */
  function ReadType(src: Bytes, n: nat): (Decoded, Bytes)
    requires 0 < n && 4 + n <= |src|
  {
    match src[4]
    case 0 => (Decoded(Choke), src[5..])
    case 1 => (Decoded(Unchoke), src[5..])
    case 2 => (Decoded(Interested), src[5..])
    case 3 => (Decoded(NotInterested), src[5..])
    case 4 => if |src| < 9 then (Panics, src) else (Decoded(Have(Number(src, 5))), src[9..])
    case 5 => (Decoded(Bitfield(src[5..4 + n])), src[4 + n..])
    case 6 =>
      if |src| < 17 then (Panics, src)
      else (Decoded(Request(Number(src, 5), Number(src, 9), Number(src, 13))), src[17..])
    case 7 =>
      if n < 9 then (Panics, src)
      else (Decoded(Piece(Number(src, 5), Number(src, 9), src[13..4 + n])), src[4 + n..])
    case 8 =>
      if |src| < 17 then (Panics, src)
      else (Decoded(Cancel(Number(src, 5), Number(src, 9), Number(src, 13))), src[17..])
    case _ => (InvalidType, src[5..])
  }

  lemma NumberBehind(src: Bytes, k: nat, j: nat)
    requires k + j + 4 <= |src|
    ensures U32Of(src[k..][j..]) == Number(src, k + j)
  {
  }

  lemma PayloadIsRead(src: Bytes, n: nat)
    requires 0 < n && 4 + n <= |src|
    ensures var (d, used) := DecodePayload(src[4], n, src[5..]);
            && d == ReadType(src, n).0
            && (!d.Panics? ==> 5 + used <= |src| && src[5 + used..] == ReadType(src, n).1)
  {
    var payload := src[5..];
    assert payload[0..] == payload;
    if |src| >= 9 { NumberBehind(src, 5, 0); }
    if |src| >= 13 { NumberBehind(src, 5, 4); }
    if |src| >= 17 { NumberBehind(src, 5, 8); }
    assert payload[..n - 1] == src[5..4 + n];
    if n >= 9 { assert payload[8..n - 1] == src[13..4 + n]; }
  }

  /** Every buffer is read byte for byte so; an unknown type is an error if and only if its byte is above 8. */
  lemma BytesAreRead(src: Bytes)
    ensures DecodeOnce(src).0 == Read(src).0
    ensures !DecodeOnce(src).0.Panics? ==> DecodeOnce(src).1 == Read(src).1
    ensures DecodeOnce(src).0.InvalidType? <==>
              |src| >= 5 && |src| >= 4 + Number(src, 0) && Number(src, 0) != 0 && src[4] > 8
  {
    if |src| >= 4 {
      assert U32Of(src) == Number(src, 0);
      if |src| >= 4 + Number(src, 0) && Number(src, 0) > 0 { PayloadIsRead(src, Number(src, 0)); }
    }
  }
}
