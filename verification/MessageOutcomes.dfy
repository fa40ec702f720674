/**
 * How the handling of a message ends, said on the message and the state alone: which error it is, what
 * is recorded, and what is handed on.
 */
module MessageOutcomes {
  import opened ByteStrings
  import opened MetaInfo
  import opened DownloadSpec
  import opened DownloadProofs
  import opened DownloadSteps
  import Picker
  import PeerMessages

  /** The message brings a block that was asked for and has not arrived yet. */
  ghost predicate BringsAwaited(s: State, msg: PeerMessages.Message) {
    msg.Piece? && BlockDownload(msg.index, msg.begin, |msg.block|) in s.pendingBlocks
  }

  /** That block is the last one of its piece: no other is awaited, and none is left to be requested. */
  ghost predicate BringsLast(s: State, msg: PeerMessages.Message) {
    && BringsAwaited(s, msg) && msg.index in s.pendingPieces
    && (forall b <- s.pendingBlocks :: b.pieceIndex == msg.index ==> b.blockBegin == msg.begin)
    && s.pendingPieces[msg.index].requested == s.pendingPieces[msg.index].pieceLength
  }

  /** The bytes of the piece with the block in its place. */
  ghost function PieceWith(s: State, msg: PeerMessages.Message): Bytes
    requires msg.Piece? && msg.index in s.pendingPieces
  {
    var bytes := s.pendingPieces[msg.index].bytes;
    if msg.begin + |msg.block| <= |bytes|
    then bytes[..msg.begin] + msg.block + bytes[msg.begin + |msg.block|..]
    else bytes
  }

  /** Recording the piece panics: it is the last one missing, and the number of pieces is a multiple of 8. */
  ghost predicate RecordingPanics(owned: set<nat>, total: nat, index: nat) {
    total % 8 == 0 && index !in owned && forall p: nat :: p < total && p != index ==> p in owned
  }

  ghost predicate HashIsWrong(t: Torrent, s: State, msg: PeerMessages.Message)
    requires msg.Piece? && msg.index in s.pendingPieces && msg.index < |t.info.pieces|
  {
    t.sha1(PieceWith(s, msg)) != t.info.pieces[msg.index]
  }

  /** What a message that brings the last block of a piece leads to. */
  datatype Ending = NotLast | PanicsRecording | WrongHash | HandsOn

  ghost function EndingOf(t: Torrent, s: State, bf: Picker.State, msg: PeerMessages.Message): Ending
    requires t.info.Valid() && bf.total == t.info.NumPieces()
    requires BringsLast(s, msg) ==> msg.index < bf.total
  {
    if !BringsLast(s, msg) then NotLast
    else if RecordingPanics(bf.owned, bf.total, msg.index) then PanicsRecording
    else if HashIsWrong(t, s, msg) then WrongHash
    else HandsOn
  }

  lemma RecordingPanicsIff(bf: Picker.State, index: nat)
    requires bf.Valid() && index < bf.total
    ensures SetPanics(bf, index) <==> RecordingPanics(bf.owned, bf.total, index)
  {
    if RecordingPanics(bf.owned, bf.total, index) {
      assert bf.Missing() == {index};
    } else if SetPanics(bf, index) {
      assert index in bf.Missing();
      forall p: nat | p < bf.total && p != index ensures p in bf.owned { assert p !in bf.Missing(); }
    }
  }

  /** The counter says what is left: one block remains if and only if the one that arrives is the last. */
  lemma LastIffOneRemains(info: Info, s: State, msg: PeerMessages.Message)
    requires info.Valid() && Inv(info, s) && BringsAwaited(s, msg)
    ensures msg.index in s.pendingPieces && msg.index < info.NumPieces()
    ensures s.pendingPieces[msg.index].remainingBlocks == 1 <==> BringsLast(s, msg)
    ensures s.pendingPieces[msg.index].pieceHash == info.pieces[msg.index]
  {
    var b, p := BlockDownload(msg.index, msg.begin, |msg.block|), msg.index;
    assert PendingOk(info, s, p);
    var mine := Mine(s.pendingBlocks, p);
    assert b in mine && mine == {b} + (mine - {b});
    if BringsLast(s, msg) {
      forall c <- mine ensures c == b { assert c in s.pendingBlocks; }
      assert mine == {b};
    } else if s.pendingPieces[p].remainingBlocks == 1 {
      assert mine - {b} == {};
      forall c <- s.pendingBlocks | c.pieceIndex == p ensures c.blockBegin == msg.begin { assert c in mine; }
    }
  }

  /** What is needed of the state after the block was accepted. */
  lemma AfterAccepting(info: Info, s: State, msg: PeerMessages.Message)
    requires Supported(info) && Inv(info, s) && NoneFinished(s) && !Overflowed(s) && BringsAwaited(s, msg)
    ensures CanTake(s, msg)
    ensures var s1 := Accept(s, msg.index, msg.begin, msg.block);
            && Inv(info, s1) && !Overflowed(s1)
            && s1.pendingPieces.Keys == s.pendingPieces.Keys
            && (forall p <- s1.pendingPieces :: p != msg.index ==> s1.pendingPieces[p] == s.pendingPieces[p])
            && s1.pendingPieces[msg.index] == s.pendingPieces[msg.index].(
                 remainingBlocks := s.pendingPieces[msg.index].remainingBlocks - 1, bytes := PieceWith(s, msg))
  {
    AwaitedIsPending(info, s, msg.index, msg.begin, msg.block);
    AcceptKeeps(info, s, msg.index, msg.begin, msg.block);
  }

  ghost predicate CanTake(s: State, msg: PeerMessages.Message) {
    && msg.Piece? && Awaited(s, msg.index, msg.begin, msg.block) && s.inflight > 0
    && msg.index in s.pendingPieces && msg.index in s.log.accepted
    && s.pendingPieces[msg.index].remainingBlocks > 0
    && msg.begin + |msg.block| <= |s.pendingPieces[msg.index].bytes|
  }

  /** Only these three kinds of message change anything. */
  ghost predicate Matters(s: State, msg: PeerMessages.Message) {
    msg.Choke? || (msg.Unchoke? && s.chokedUs) || BringsAwaited(s, msg)
  }

  /** What the effect of a message is, apart from the requests that it leads to. */
  ghost predicate EndsAsItShould(t: Torrent, s: State, bf: Picker.State, msg: PeerMessages.Message, e: Effect)
    requires t.info.Valid() && bf.total == t.info.NumPieces()
    requires BringsLast(s, msg) ==> msg.index < bf.total
  {
    var ending := EndingOf(t, s, bf, msg);
    && (e.outcome == Failed(BitfieldOutOfOrder) <==> msg.Bitfield?)
    && (e.outcome == Failed(UnrequestedBlock) <==> msg.Piece? && !BringsAwaited(s, msg))
    && (e.outcome == Failed(ValidationFailed) <==> ending.WrongHash?)
    && e.outcome != Failed(UnrequestedPiece)
    && (e.outcome.Panicked? <==> msg.Request? || msg.Cancel? || ending.PanicsRecording? || Overflowed(e.s))
    && e.out == (if ending.HandsOn? then [Delivery(msg.index, PieceWith(s, msg))] else [])
    && e.bf.owned == bf.owned + (if ending.NotLast? then {} else {msg.index})
    && e.s.chokedUs == (if msg.Choke? then true else if msg.Unchoke? then false else s.chokedUs)
    && (!Matters(s, msg) ==> e.s == s && e.bf == bf)
  }

  lemma AskingEnds(t: Torrent, s: State, bf: Picker.State, out: seq<Delivery>, order: seq<nat>, e: Effect)
    requires Supported(t.info) && Picks(t.info, bf) && Inv(t.info, s) && NoneFinished(s) && !Overflowed(s)
    requires Asks(t.info, s, bf, out, order, e)
    ensures e.out == out && e.bf.owned == bf.owned && e.s.chokedUs == s.chokedUs
    ensures e.outcome == if Overflowed(e.s) then Panicked else Done
  {
    RequestPiecesKeeps(t.info, s, bf, order);
  }

  lemma BlockEnds(t: Torrent, s: State, bf: Picker.State, msg: PeerMessages.Message, order: seq<nat>, e: Effect)
    requires Supported(t.info) && Picks(t.info, bf) && Inv(t.info, s) && NoneFinished(s) && !Overflowed(s)
    requires BringsAwaited(s, msg) && HandlesPiece(t, s, bf, msg.index, msg.begin, msg.block, order, e)
    ensures BringsLast(s, msg) ==> msg.index < bf.total
    ensures EndsAsItShould(t, s, bf, msg, e)
  {
    LastIffOneRemains(t.info, s, msg);
    if BringsLast(s, msg) {
      LastOneEnds(t, s, bf, msg, order, e);
    } else {
      OtherBlockEnds(t, s, bf, msg, order, e);
    }
  }

  lemma OtherBlockEnds(t: Torrent, s: State, bf: Picker.State, msg: PeerMessages.Message, order: seq<nat>, e: Effect)
    requires Supported(t.info) && Picks(t.info, bf) && Inv(t.info, s) && NoneFinished(s) && !Overflowed(s)
    requires BringsAwaited(s, msg) && HandlesPiece(t, s, bf, msg.index, msg.begin, msg.block, order, e)
    requires msg.index in s.pendingPieces && s.pendingPieces[msg.index].remainingBlocks > 1
    ensures e.out == [] && e.bf.owned == bf.owned && e.s.chokedUs == s.chokedUs
    ensures e.outcome == if Overflowed(e.s) then Panicked else Done
  {
    AfterAccepting(t.info, s, msg);
    AskingEnds(t, Accept(s, msg.index, msg.begin, msg.block), bf, [], order, e);
  }

  lemma LastOneEnds(t: Torrent, s: State, bf: Picker.State, msg: PeerMessages.Message, order: seq<nat>, e: Effect)
    requires Supported(t.info) && Picks(t.info, bf) && Inv(t.info, s) && NoneFinished(s) && !Overflowed(s)
    requires BringsAwaited(s, msg) && HandlesPiece(t, s, bf, msg.index, msg.begin, msg.block, order, e)
    requires msg.index in s.pendingPieces && msg.index < bf.total && s.pendingPieces[msg.index].remainingBlocks == 1
    ensures e.bf.owned == bf.owned + {msg.index} && e.s.chokedUs == s.chokedUs
    ensures if RecordingPanics(bf.owned, bf.total, msg.index) then e.outcome.Panicked? && e.out == []
            else if t.sha1(PieceWith(s, msg)) != s.pendingPieces[msg.index].pieceHash then
              e.outcome == Failed(ValidationFailed) && e.out == [] && !Overflowed(e.s)
            else
              && e.out == [Delivery(msg.index, PieceWith(s, msg))]
              && e.outcome == if Overflowed(e.s) then Panicked else Done
  {
    AfterAccepting(t.info, s, msg);
    LastBlockEnds(t, Accept(s, msg.index, msg.begin, msg.block), bf, msg.index, order, e);
  }

  lemma LastBlockEnds(t: Torrent, s: State, bf: Picker.State, index: nat, order: seq<nat>, e: Effect)
    requires Supported(t.info) && Picks(t.info, bf) && Inv(t.info, s) && !Overflowed(s)
    requires index in s.pendingPieces && index < bf.total && s.pendingPieces[index].remainingBlocks == 0
    requires forall p <- s.pendingPieces :: p != index ==> s.pendingPieces[p].remainingBlocks > 0
    requires Completes(t, s, bf, index, order, e)
    ensures e.bf.owned == bf.owned + {index} && e.s.chokedUs == s.chokedUs
    ensures var dl := s.pendingPieces[index];
            if RecordingPanics(bf.owned, bf.total, index) then e.outcome.Panicked? && e.out == []
            else if t.sha1(dl.bytes) != dl.pieceHash then
              e.outcome == Failed(ValidationFailed) && e.out == [] && !Overflowed(e.s)
            else e.out == [Delivery(index, dl.bytes)] && e.outcome == if Overflowed(e.s) then Panicked else Done
  {
    RecordingPanicsIff(bf, index);
    FinishKeeps(t.info, s, index);
    if !SetPanics(bf, index) && ValidatePiece(t, s.pendingPieces[index].bytes, s.pendingPieces[index].pieceHash) {
      AskingEnds(t, Finish(s, index), bf.Set(index), [Delivery(index, s.pendingPieces[index].bytes)], order, e);
    }
  }

  /**
   * Every message, in every state between messages. It fails exactly for a bitfield, for a block that
   * is not awaited, and for the last block of a piece whose hash is wrong; it panics exactly for the
   * messages that are not implemented, for a record that panics, and for the overflow of the counter.
   * The piece is recorded when its last block arrives and handed on when its hash is right. No other
   * message than a choke, the unchoke after one, and an awaited block changes anything.
   */
  lemma MessageEnds(t: Torrent, s: State, bf: Picker.State, msg: PeerMessages.Message, order: seq<nat>, e: Effect)
    requires Supported(t.info) && Picks(t.info, bf) && Inv(t.info, s) && NoneFinished(s) && !Overflowed(s)
    requires Handles(t, s, bf, msg, order, e)
    ensures BringsLast(s, msg) ==> msg.index < bf.total
    ensures EndsAsItShould(t, s, bf, msg, e)
  {
    if BringsAwaited(s, msg) {
      BlockEnds(t, s, bf, msg, order, e);
    } else if msg.Unchoke? && s.chokedUs {
      UnchokeKeeps(t.info, s);
      AskingEnds(t, Unchoke(s), bf, [], order, e);
    }
  }
}
