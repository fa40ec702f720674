/** The packed piece bitfield shared by all downloaders, proved to be the picker of Picker.dfy. */
module Bitfields {
  import opened Bits
  import opened Wrappers
  import Picker

  class Bitfield {
    const pieceOwnership: array<bv8>
    const totalPieces: nat
    var cur: nat
    var confirmed: nat

    /** The bits spell a picker state, and the padding bits behind the last piece are 0. */
    ghost predicate Valid()
      reads this, pieceOwnership
    {
      && pieceOwnership.Length == (totalPieces + 7) / 8
      && View().Valid()
    }

    ghost function View(): Picker.State
      reads this, pieceOwnership
    {
      Picker.State(totalPieces, BitSet(pieceOwnership[..]), cur, confirmed)
    }

    constructor Zero(numPieces: nat)
      ensures Valid() && fresh(pieceOwnership)
      ensures View() == Picker.Zero(numPieces)
    {
      var len := (numPieces + 7) / 8;
      pieceOwnership := new bv8[len](_ => 0);
      totalPieces := numPieces;
      cur := 0;
      confirmed := 0;
      new;
      assert forall b | b in pieceOwnership[..] :: b == 0;
      assert BitSet(pieceOwnership[..]) == {};
    }

    predicate Has(pieceIdx: nat)
      requires pieceIdx < 8 * pieceOwnership.Length
      reads this, pieceOwnership
      ensures Has(pieceIdx) == (pieceIdx in View().owned)
    {
      var (bucket, offset) := PieceBucketOffset(pieceIdx);
      assert pieceOwnership[..][bucket] == pieceOwnership[bucket];
      BitOf(pieceOwnership[bucket], offset)
    }

    /** The next missing piece in turn, or nothing when every piece is owned. */
    method PickPiece() returns (r: Option<nat>)
      requires Valid()
      modifies this
      ensures Valid()
      ensures (View(), r) == old(View()).Pick()
    {
      if cur >= totalPieces && confirmed >= totalPieces {
        return None;
      }
      while confirmed < totalPieces
        invariant Valid() && confirmed == old(confirmed)
        invariant View().Pick() == old(View()).Pick()
        decreases if cur == confirmed then 0 else totalPieces - cur
      {
        ghost var before := View();
        var bitIndex := cur;
        cur := cur + 1;
        if cur == totalPieces {
          cur := confirmed;
        }
        assert View() == before.(cur := before.Next());
        if !Has(bitIndex) {
          return Some(bitIndex);
        }
      }
      return None;
    }

    /** The bit write of `Set`. */
    method SetBit(pieceIdx: nat)
      requires pieceIdx < 8 * pieceOwnership.Length
      modifies pieceOwnership
      ensures View() == old(View()).(owned := old(View()).owned + {pieceIdx})
    {
      var (bucket, offset) := PieceBucketOffset(pieceIdx);
      SettingABit(pieceOwnership[..], pieceIdx);
      pieceOwnership[bucket] := OrBit(pieceOwnership[bucket], offset);
      assert pieceOwnership[..] == old(pieceOwnership[..])[bucket := pieceOwnership[bucket]];
    }

    /** The tail of `Set`: moves the low-water mark on from `confirmed`, past every owned piece. */
    method AdvanceConfirmed() returns (panicked: bool)
      requires confirmed < 8 * pieceOwnership.Length
      modifies this`confirmed
      ensures old(confirmed) < confirmed <= 8 * pieceOwnership.Length && confirmed !in View().owned
      ensures forall i: nat :: old(confirmed) < i < confirmed ==> i in View().owned
      ensures panicked <==> confirmed == 8 * pieceOwnership.Length
    {
      confirmed := confirmed + 1;
      while confirmed < 8 * pieceOwnership.Length && Has(confirmed)
        invariant old(confirmed) < confirmed <= 8 * pieceOwnership.Length
        invariant forall i: nat :: old(confirmed) < i < confirmed ==> i in View().owned
        decreases 8 * pieceOwnership.Length - confirmed
      {
        confirmed := confirmed + 1;
      }
      panicked := confirmed >= 8 * pieceOwnership.Length;
    }

    /**
     * Records a piece as owned. When the number of pieces is a multiple of 8 there is no padding
     * bit, and recording the last missing piece reads one bit past the vector: the new state is
     * stored, and then the call panics. An index behind the last piece sets a padding bit, and one
     * behind the vector panics at once.
     */
    method Set(pieceIdx: nat) returns (panicked: bool)
      requires Valid()
      modifies this, pieceOwnership
      ensures pieceIdx < totalPieces ==> View() == old(View()).Set(pieceIdx) && Valid()
      ensures pieceIdx < totalPieces ==> (panicked <==> totalPieces % 8 == 0 && old(View()).Missing() == {pieceIdx})
      ensures totalPieces <= pieceIdx < 8 * pieceOwnership.Length ==>
                && View() == old(View()).(
                     owned := old(View()).owned + {pieceIdx},
                     confirmed := if old(confirmed) == pieceIdx then pieceIdx + 1 else old(confirmed))
                && (panicked <==> old(confirmed) == pieceIdx && pieceIdx % 8 == 7)
      ensures pieceIdx >= 8 * pieceOwnership.Length ==> panicked && View() == old(View())
    {
      if pieceIdx >= 8 * pieceOwnership.Length {
        return true;
      }
      SetBit(pieceIdx);
      panicked := false;
      if confirmed == pieceIdx {
        panicked := AdvanceConfirmed();
      }
      if pieceIdx < totalPieces {
        MarkAfterPiece(old(View()), pieceIdx, 8 * pieceOwnership.Length, confirmed);
      } else {
        MarkAfterPadding(old(View()), pieceIdx, 8 * pieceOwnership.Length, confirmed);
      }
    }

    /** The number of missing pieces, computed from the number of one bits. */
    method Remaining() returns (r: nat)
      requires Valid()
      ensures r == |View().Missing()|
    {
      ghost var bits := pieceOwnership[..];
      var numOwned := 0;
      for i := 0 to pieceOwnership.Length
        invariant numOwned == SumOnes(bits[..i])
      {
        assert bits[..i + 1][..i] == bits[..i];
        numOwned := numOwned + CountOnes(pieceOwnership[i]);
      }
      assert bits[..pieceOwnership.Length] == bits;
      SumOnesCountsBits(bits);
      OwnedAndMissing(View());
      r := totalPieces - numOwned;
    }
  }

  lemma FirstAbsentIs(have: set<nat>, total: nat, c: nat, r: nat)
    requires c <= total && (forall i <- have :: i < total)
    requires c <= r && r !in have && forall i: nat :: c <= i < r ==> i in have
    ensures Picker.FirstAbsent(have, total, c) == r
  {
    var first := Picker.FirstAbsent(have, total, c);
    assert first !in have;
    assert !(c <= first < r) && !(c <= r < first);
  }

  /** Where the mark is after index `i` was set in a vector of `bits` bits. */
  ghost predicate MarkMoved(s: Picker.State, i: nat, bits: nat, mark: nat) {
    if s.confirmed == i then
      i < mark <= bits && mark !in s.owned + {i} && forall j: nat :: i < j < mark ==> j in s.owned + {i}
    else mark == s.confirmed
  }

  /** The mark after a piece was set, and when it has left the vector. */
  lemma MarkAfterPiece(s: Picker.State, i: nat, bits: nat, mark: nat)
    requires s.Valid() && bits == (s.total + 7) / 8 * 8 && i < s.total && MarkMoved(s, i, bits, mark)
    ensures s.(owned := s.owned + {i}, confirmed := mark) == s.Set(i)
    ensures s.confirmed == i && mark == bits <==> s.total % 8 == 0 && s.Missing() == {i}
  {
    SetPanicsIffLast(s, i);
    if s.confirmed == i {
      assert s.total !in s.owned + {i};
      FirstAbsentIs(s.owned + {i}, s.total, i + 1, mark);
    }
  }

  /** The mark after a padding bit was set: it moves only when every piece is owned. */
  lemma MarkAfterPadding(s: Picker.State, i: nat, bits: nat, mark: nat)
    requires s.Valid() && bits == (s.total + 7) / 8 * 8 && s.total <= i < bits && MarkMoved(s, i, bits, mark)
    ensures mark == if s.confirmed == i then i + 1 else s.confirmed
    ensures s.confirmed == i && mark == bits <==> s.confirmed == i && i % 8 == 7
  {
    if s.confirmed == i {
      assert i + 1 !in s.owned + {i};
    }
  }

  lemma SetPanicsIffLast(s: Picker.State, i: nat)
    requires s.Valid() && i < s.total
    ensures s.Missing() == {i} <==> s.confirmed == i && s.Set(i).confirmed == s.total
  {
    Picker.CompleteIffConfirmed(s.Set(i));
    if s.Missing() == {i} {
      if s.confirmed < s.total { assert s.confirmed in s.Missing(); }
      assert i in s.Missing();
      assert s.Set(i).Missing() == {};
    } else if s.confirmed == i {
      assert i in s.Missing();
      var j :| j in s.Missing() && j != i;
      assert j in s.Set(i).Missing();
    }
  }

  lemma OwnedAndMissing(s: Picker.State)
    requires s.Valid()
    ensures |s.owned| + |s.Missing()| == s.total
  {
    Picker.AllMissingAtFirst(s.total);
    assert s.owned + s.Missing() == Picker.Zero(s.total).Missing();
  }

  /** Setting a missing piece lowers the number remaining by exactly one; setting an owned one does not change it. */
  lemma RemainingAfterSet(s: Picker.State, i: nat)
    requires s.Valid() && i < s.total
    ensures |s.Set(i).Missing()| == |s.Missing()| - if i in s.owned then 0 else 1
  {
    OwnedAndMissing(s);
    OwnedAndMissing(s.Set(i));
    if i in s.owned { assert s.owned + {i} == s.owned; }
  }

  // ---- The first message of a peer: does it own everything? ----

  datatype SeedCheck = Seed | NotSeed | Panics

  /**
   * Checks a peer's bitfield: all bytes but the last against 255, then the rest bit by bit. An
   * empty bitfield underflows a subtraction, and one that is too short but full is read past its
   * end.
   */
  method IsSeed(totalPieces: nat, bitfield: seq<bv8>) returns (r: SeedCheck)
    ensures r == SeedCheckOf(totalPieces, bitfield)
  {
    if |bitfield| == 0 {
      return Panics;
    }
    if |bitfield| > 1 {
      for idx := 0 to |bitfield| - 1
        invariant forall k: nat :: k < idx ==> bitfield[k] == 255
      {
        if bitfield[idx] != 255 {
          SomeBitClear(bitfield, idx);
          return NotSeed;
        }
      }
    }
    var lastIdx := (|bitfield| - 1) * 8;
    var idx := lastIdx;
    while idx < totalPieces
      invariant lastIdx <= idx && (idx <= totalPieces || idx == lastIdx)
      invariant idx <= 8 * |bitfield|
      invariant forall i: nat :: lastIdx <= i < idx ==> Bit(bitfield, i)
    {
      if idx / 8 >= |bitfield| {
        FullBytesFullBits(bitfield);
        return Panics;
      }
      var (bucket, offset) := PieceBucketOffset(idx);
      if !BitOf(bitfield[bucket], offset) {
        assert !Bit(bitfield, idx);
        return NotSeed;
      }
      idx := idx + 1;
    }
    r := Seed;
  }

  ghost predicate AllFull(bitfield: seq<bv8>, n: nat)
    requires n <= |bitfield|
  {
    forall k: nat :: k < n ==> bitfield[k] == 255
  }

  ghost function SeedCheckOf(total: nat, v: seq<bv8>): SeedCheck {
    if v == [] || (8 * |v| < total && forall i: nat :: i < 8 * |v| ==> Bit(v, i)) then Panics
    else if AllFull(v, |v| - 1) && forall i: nat :: 8 * (|v| - 1) <= i < total && i < 8 * |v| ==> Bit(v, i) then Seed
    else NotSeed
  }

  lemma SomeBitClear(v: seq<bv8>, k: nat)
    requires k < |v| && v[k] != 255
    ensures exists i: nat :: 8 * k <= i < 8 * k + 8 && !Bit(v, i)
  {
    FullByte(v[k]);
    var j: nat :| j < 8 && !BitOf(v[k], j);
    assert (8 * k + 7 - j) / 8 == k && 7 - (8 * k + 7 - j) % 8 == j;
    assert !Bit(v, 8 * k + 7 - j);
  }

  lemma FullBytesFullBits(v: seq<bv8>)
    requires v != [] && AllFull(v, |v| - 1)
    ensures forall i: nat :: i < 8 * (|v| - 1) ==> Bit(v, i)
  {
    forall i: nat | i < 8 * (|v| - 1) ensures Bit(v, i) {
      FullByte(v[i / 8]);
    }
  }

  /** With exactly enough bytes, the byte-wise check says "seed" just when every piece bit is set. */
  lemma SeedIffAllPieces(total: nat, v: seq<bv8>)
    requires v != [] && |v| == (total + 7) / 8
    ensures SeedCheckOf(total, v) == if AllPieces(total, v) then Seed else NotSeed
  {
    if AllFull(v, |v| - 1) {
      FullBytesFullBits(v);
    } else {
      var k: nat :| k < |v| - 1 && v[k] != 255;
      SomeBitClear(v, k);
    }
  }

  ghost predicate AllPieces(total: nat, v: seq<bv8>)
    requires total <= 8 * |v|
  {
    forall i: nat :: i < total ==> Bit(v, i)
  }

  /** With spare bytes the check only asks whether every byte but the last is 255. */
  lemma SpareBytesCheck(total: nat, v: seq<bv8>)
    requires |v| > (total + 7) / 8
    ensures SeedCheckOf(total, v) == if AllFull(v, |v| - 1) then Seed else NotSeed
  {
  }

  /** With spare bytes "seed" still implies that every piece bit is set. */
  lemma SeedImpliesAllPieces(total: nat, v: seq<bv8>)
    requires 8 * |v| >= total && SeedCheckOf(total, v) == Seed
    ensures AllPieces(total, v)
  {
    FullBytesFullBits(v);
  }

  /**
   * For every bitfield that is long enough: the check agrees with "every piece bit is set" if and
   * only if there is no spare byte, or every byte but the last is 255, or some piece bit is clear.
   * So a seed is rejected exactly when it sends spare bytes and one before the last is not 255.
   */
  lemma CheckIsRightIff(total: nat, v: seq<bv8>)
    requires v != [] && |v| >= (total + 7) / 8
    ensures (SeedCheckOf(total, v) == if AllPieces(total, v) then Seed else NotSeed) <==>
              |v| == (total + 7) / 8 || AllFull(v, |v| - 1) || !AllPieces(total, v)
  {
    if |v| == (total + 7) / 8 {
      SeedIffAllPieces(total, v);
    } else {
      SpareBytesCheck(total, v);
      if AllFull(v, |v| - 1) { FullBytesFullBits(v); }
    }
  }

  /** Too short a bitfield is never accepted: it is read past its end if it is empty or every byte is 255. */
  lemma TooShortIsNeverAccepted(total: nat, v: seq<bv8>)
    requires |v| < (total + 7) / 8 || v == []
    ensures SeedCheckOf(total, v) == if AllFull(v, |v|) then Panics else NotSeed
  {
    if v != [] {
      if AllFull(v, |v|) {
        forall i: nat | i < 8 * |v| ensures Bit(v, i) { FullByte(v[i / 8]); }
      } else {
        var k: nat :| k < |v| && v[k] != 255;
        SomeBitClear(v, k);
      }
    }
  }

  /** One spare byte is enough: a seed of six pieces is rejected. */
  lemma SpareBytesRejectASeed()
    ensures AllPieces(6, [0xFC, 0]) && SeedCheckOf(6, [0xFC, 0]) == NotSeed
  {
    var v: seq<bv8> := [0xFC, 0];
    forall i: nat | i < 6 ensures Bit(v, i) {
      assert BitOf(0xFC, 7) && BitOf(0xFC, 6) && BitOf(0xFC, 5) && BitOf(0xFC, 4) && BitOf(0xFC, 3) && BitOf(0xFC, 2);
    }
    assert v[0] != 255;
  }
}
