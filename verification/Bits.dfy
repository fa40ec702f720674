/** Packed bit vectors, most significant bit first, as piece bitfields use them. */
module Bits {
  /** The bucket of a piece, and the offset of its bit from the low end of that bucket. */
  function PieceBucketOffset(pieceIdx: nat): (nat, nat) {
    (pieceIdx / 8, 7 - pieceIdx % 8)
  }

  predicate BitOf(b: bv8, offset: nat)
    requires offset < 8
  {
    b & ((1 as bv8) << offset) > 0
  }

  function OrBit(b: bv8, offset: nat): bv8
    requires offset < 8
  {
    b | ((1 as bv8) << offset)
  }

  lemma OrSetsOneBit(b: bv8, k: nat, j: nat)
    requires k < 8 && j < 8
    ensures BitOf(OrBit(b, k), j) == (j == k || BitOf(b, j))
  {
  }

  /** Bit `i` of the vector. */
  predicate Bit(v: seq<bv8>, i: nat)
    requires i < 8 * |v|
  {
    var (bucket, offset) := PieceBucketOffset(i);
    BitOf(v[bucket], offset)
  }

  ghost function BitSet(v: seq<bv8>): set<nat> {
    set i: nat | i < 8 * |v| && Bit(v, i)
  }

  /** Setting bit `i` in its bucket adds `i` to the set and nothing else. */
  lemma {:induction false} SettingABit(v: seq<bv8>, i: nat)
    requires i < 8 * |v|
    ensures var (bucket, offset) := PieceBucketOffset(i);
            BitSet(v[bucket := OrBit(v[bucket], offset)]) == BitSet(v) + {i}
  {
    var (bucket, offset) := PieceBucketOffset(i);
    var w := v[bucket := OrBit(v[bucket], offset)];
    forall j: nat | j < 8 * |v| ensures Bit(w, j) == (j == i || Bit(v, j)) {
      if j / 8 == bucket { OrSetsOneBit(v[bucket], offset, 7 - j % 8); }
    }
  }

  /** The number of one bits in a byte. */
  function CountOnes(b: bv8): nat {
    CountOnesBelow(b, 8)
  }

  /** The ones among the `k` most significant bits of a byte. */
  function CountOnesBelow(b: bv8, k: nat): nat
    requires k <= 8
  {
    if k == 0 then 0 else CountOnesBelow(b, k - 1) + if BitOf(b, 8 - k) then 1 else 0
  }

  function SumOnes(v: seq<bv8>): nat {
    if v == [] then 0 else SumOnes(v[..|v| - 1]) + CountOnes(v[|v| - 1])
  }

  ghost function BitsBelow(v: seq<bv8>, n: nat): set<nat>
    requires n <= 8 * |v|
  {
    set i: nat | i < n && Bit(v, i)
  }

  lemma OneMoreBit(v: seq<bv8>, n: nat)
    requires n < 8 * |v|
    ensures |BitsBelow(v, n + 1)| == |BitsBelow(v, n)| + if Bit(v, n) then 1 else 0
  {
    assert BitsBelow(v, n + 1) == BitsBelow(v, n) + if Bit(v, n) then {n} else {};
  }

  lemma AllButLastByte(v: seq<bv8>)
    requires v != []
    ensures BitsBelow(v, 8 * (|v| - 1)) == BitSet(v[..|v| - 1])
  {
  }

  lemma {:induction false} LastByteOnes(v: seq<bv8>, k: nat)
    requires v != [] && k <= 8
    ensures |BitsBelow(v, 8 * (|v| - 1) + k)| == |BitSet(v[..|v| - 1])| + CountOnesBelow(v[|v| - 1], k)
  {
    if k == 0 {
      AllButLastByte(v);
    } else {
      LastByteOnes(v, k - 1);
      OneMoreBit(v, 8 * (|v| - 1) + k - 1);
    }
  }

  /** Adding up the ones byte by byte counts the members of the set. */
  lemma {:induction false} SumOnesCountsBits(v: seq<bv8>)
    ensures SumOnes(v) == |BitSet(v)|
  {
    if v == [] {
      assert BitSet(v) == {};
    } else {
      SumOnesCountsBits(v[..|v| - 1]);
      LastByteOnes(v, 8);
      assert BitSet(v) == BitsBelow(v, 8 * |v|);
    }
  }

  /** A byte is 255 exactly when its eight bits are set. */
  lemma FullByte(b: bv8)
    ensures b == 255 <==> forall k: nat :: k < 8 ==> BitOf(b, k)
  {
    if b != 255 {
      assert !BitOf(b, 0) || !BitOf(b, 1) || !BitOf(b, 2) || !BitOf(b, 3)
          || !BitOf(b, 4) || !BitOf(b, 5) || !BitOf(b, 6) || !BitOf(b, 7);
    } else {
      assert BitOf(b, 0) && BitOf(b, 1) && BitOf(b, 2) && BitOf(b, 3);
      assert BitOf(b, 4) && BitOf(b, 5) && BitOf(b, 6) && BitOf(b, 7);
    }
  }
}
