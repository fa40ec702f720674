/** Byte strings and the one in-place operation on byte vectors that the program uses. */
module ByteStrings {
  type byte = b: int | 0 <= b < 256
  type Bytes = seq<byte>

  /** One more than the largest 32-bit number. */
  const U32: nat := 0x1_0000_0000

  /** The same for 64 bits. */
  const U64: nat := 0x1_0000_0000_0000_0000

  /** `Vec::splice` over a range as long as its replacement. */
  function Splice(v: Bytes, begin: nat, part: Bytes): (r: Bytes)
    requires begin + |part| <= |v|
    ensures |r| == |v|
    ensures forall k :: 0 <= k < |v| ==> r[k] == if begin <= k < begin + |part| then part[k - begin] else v[k]
  {
    v[..begin] + part + v[begin + |part|..]
  }
}
