/** Asking the shared picker for more work, and the effect of one message from the peer. */
module DownloadSteps {
  import opened ByteStrings
  import opened MetaInfo
  import opened DownloadSpec
  import opened DownloadProofs
  import Picker
  import PeerMessages

  /** The torrent, and the hash that its piece hashes were made with. */
  datatype Torrent = Torrent(info: Info, sha1: Bytes -> Hash)

  predicate ValidatePiece(t: Torrent, piece: Bytes, hash: Hash) {
    t.sha1(piece) == hash
  }

  ghost predicate Picks(info: Info, bf: Picker.State) {
    info.Valid() && bf.Valid() && bf.total == info.NumPieces()
  }

  /** Picks a piece and starts it, unless there is none or it is pending already. */
  ghost function PickNext(info: Info, s: State, bf: Picker.State): (State, Picker.State)
    requires Picks(info, bf)
  {
    Picker.PickReturnsNearestMissing(bf);
    var (bf', r) := bf.Pick();
    if r.None? || r.value in s.pendingPieces then (s, bf') else (StartPiece(s, info, r.value), bf')
  }

  /** Requests what can be requested: first for the pending pieces, then for one more piece. */
  ghost function RequestPieces(info: Info, s: State, bf: Picker.State, order: seq<nat>): (State, Picker.State)
    requires Picks(info, bf) && forall p <- order :: p in s.pendingPieces
  {
    if s.chokedUs then (s, bf)
    else
      var s1 := RequestPending(s, order);
      if s1.inflight < MAX_INFLIGHT_PER_PEER then PickNext(info, s1, bf) else (s1, bf)
  }

  datatype Error = BitfieldOutOfOrder | UnrequestedBlock | UnrequestedPiece | ValidationFailed
  datatype Outcome = Done | Failed(error: Error) | Panicked

  /** The state after a message, the pieces handed to the file, and how the call ended. */
  datatype Effect = Effect(s: State, bf: Picker.State, out: seq<Delivery>, outcome: Outcome)

  /** It asks for more; the call panics if the counter of requests overflows. */
  ghost predicate Asks(info: Info, s: State, bf: Picker.State, out: seq<Delivery>, order: seq<nat>, e: Effect)
    requires Picks(info, bf)
  {
    && IsOrderOf(order, s.pendingPieces.Keys)
    && var (s', bf') := RequestPieces(info, s, bf, order);
       e == Effect(s', bf', out, if Overflowed(s') then Panicked else Done)
  }

  /** Recording the last missing piece panics when the number of pieces is a multiple of 8. */
  ghost predicate SetPanics(bf: Picker.State, index: nat) {
    bf.total % 8 == 0 && bf.Missing() == {index}
  }

  /** The last block of piece `index` has just been accepted. */
  ghost predicate Completes(t: Torrent, s: State, bf: Picker.State, index: nat, order: seq<nat>, e: Effect)
    requires Picks(t.info, bf) && index in s.pendingPieces && index < bf.total
  {
    var bf1, dl := bf.Set(index), s.pendingPieces[index];
    if SetPanics(bf, index) then e == Effect(s, bf1, [], Panicked)
    else if !ValidatePiece(t, dl.bytes, dl.pieceHash) then
      e == Effect(Finish(s, index), bf1, [], Failed(ValidationFailed))
    else Asks(t.info, Finish(s, index), bf1, [Delivery(index, dl.bytes)], order, e)
  }

  ghost predicate HandlesPiece(t: Torrent, s: State, bf: Picker.State, index: nat, begin: nat, block: Bytes,
      order: seq<nat>, e: Effect)
    requires Picks(t.info, bf) && Inv(t.info, s)
  {
    if !Awaited(s, index, begin, block) then e == Effect(s, bf, [], Failed(UnrequestedBlock))
    else
      AwaitedIsPending(t.info, s, index, begin, block);
      var s1 := Accept(s, index, begin, block);
      if s1.pendingPieces[index].remainingBlocks > 0 then Asks(t.info, s1, bf, [], order, e)
      else Completes(t, s1, bf, index, order, e)
  }

  /** What one message may do; `order` is the order in which the pending pieces are visited. */
  ghost predicate Handles(t: Torrent, s: State, bf: Picker.State, msg: PeerMessages.Message, order: seq<nat>, e: Effect)
    requires Picks(t.info, bf) && Inv(t.info, s)
  {
    match msg
    case Choke => e == Effect(Choke(s), bf, [], Done)
    case Unchoke => if !s.chokedUs then e == Effect(s, bf, [], Done) else Asks(t.info, Unchoke(s), bf, [], order, e)
    case Bitfield(_) => e == Effect(s, bf, [], Failed(BitfieldOutOfOrder))
    case Request(_, _, _) => e == Effect(s, bf, [], Panicked)
    case Cancel(_, _, _) => e == Effect(s, bf, [], Panicked)
    case Piece(index, begin, block) => HandlesPiece(t, s, bf, index, begin, block, order, e)
    case _ => e == Effect(s, bf, [], Done)
  }

  // ---- What every message keeps ----

  lemma PickNextKeeps(info: Info, s: State, bf: Picker.State)
    requires Supported(info) && Picks(info, bf) && Inv(info, s) && NoneFinished(s) && !Overflowed(s)
    ensures var (s', bf') := PickNext(info, s, bf);
            && Inv(info, s') && NoneFinished(s') && Leak(s') == Leak(s)
            && Picks(info, bf') && bf' == bf.(cur := bf'.cur)
            && s.pendingPieces.Keys <= s'.pendingPieces.Keys && s.pendingBlocks <= s'.pendingBlocks
            && s'.chokedUs == s.chokedUs && s'.log.restarts == s.log.restarts && s'.log.received == s.log.received
            && (s'.pendingPieces.Keys == {} <==> s.pendingPieces.Keys == {} && bf.Complete())
            && (s.pendingPieces.Keys == {} && !bf.Complete() ==> s'.pendingBlocks != {})
  {
    Picker.PickReturnsNearestMissing(bf);
    var r := bf.Pick().1;
    if r.Some? && r.value !in s.pendingPieces {
      StartPieceKeeps(info, s, r.value);
    }
  }

  /** Exactly when a downloader is left waiting for nothing after it has asked for more. */
  ghost predicate LeftIdle(s: State, bf: Picker.State) {
    s.pendingPieces.Keys == {} && (bf.Complete() || s.inflight >= MAX_INFLIGHT_PER_PEER)
  }

  lemma {:induction false} RequestPiecesKeeps(info: Info, s: State, bf: Picker.State, order: seq<nat>)
    requires Supported(info) && Picks(info, bf) && Inv(info, s) && NoneFinished(s) && !Overflowed(s)
    requires IsOrderOf(order, s.pendingPieces.Keys)
    ensures forall p <- order :: p in s.pendingPieces
    ensures var (s', bf') := RequestPieces(info, s, bf, order);
            && Inv(info, s') && NoneFinished(s') && Leak(s') == Leak(s)
            && Picks(info, bf') && bf' == bf.(cur := bf'.cur) && s'.chokedUs == s.chokedUs
  {
    assert forall p <- order :: p in Elements(order);
    if !s.chokedUs {
      RequestPendingKeeps(info, s, order);
      if !Overflowed(RequestPending(s, order)) { PickNextKeeps(info, RequestPending(s, order), bf); }
    }
  }

  lemma PassAwaits(info: Info, s: State, order: seq<nat>)
    requires info.Valid() && Inv(info, s) && NoneFinished(s) && !Overflowed(s)
    requires IsOrderOf(order, s.pendingPieces.Keys) && forall p <- order :: p in s.pendingPieces
    ensures s.pendingPieces.Keys == {} ==> RequestPending(s, order) == s && s.pendingBlocks == {}
    ensures s.pendingPieces.Keys != {} ==> RequestPending(s, order).pendingBlocks != {}
    ensures !Overflowed(RequestPending(s, order)) ==> AllAwaited(RequestPending(s, order))
  {
    RequestPendingKeeps(info, s, order);
    NothingToVisit(order);
    var s' := RequestPending(s, order);
    if !Overflowed(s') {
      forall p <- s'.pendingPieces ensures Mine(s'.pendingBlocks, p) != {} { assert p in Elements(order); }
      AwaitsNothingIffNothingPending(info, s');
    }
  }

  /** Where every pending piece has a block on its way, nothing is awaited exactly if nothing is pending. */
  lemma AwaitsNothingIffNothingPending(info: Info, s: State)
    requires info.Valid() && Inv(info, s) && AllAwaited(s)
    ensures s.pendingBlocks == {} <==> s.pendingPieces.Keys == {}
  {
    if s.pendingPieces.Keys != {} {
      var p :| p in s.pendingPieces;
      var b :| b in Mine(s.pendingBlocks, p);
    }
  }

  /**
   * An unchoked downloader that has just asked for more is waiting for no block if and only if it
   * had no pending piece, and either every piece is owned or requests stranded by earlier chokes
   * fill its window.
   */
  lemma AwaitsNothingIff(info: Info, s: State, bf: Picker.State, order: seq<nat>)
    requires Supported(info) && Picks(info, bf) && Inv(info, s) && NoneFinished(s) && !s.chokedUs && !Overflowed(s)
    requires IsOrderOf(order, s.pendingPieces.Keys) && forall p <- order :: p in s.pendingPieces
    ensures RequestPieces(info, s, bf, order).0.pendingBlocks == {} <==> LeftIdle(s, bf)
  {
    PassAwaits(info, s, order);
    RequestPendingKeeps(info, s, order);
    if !Overflowed(RequestPending(s, order)) { PickNextKeeps(info, RequestPending(s, order), bf); }
  }

  lemma {:induction false} VisitOneMore(s: State, order: seq<nat>, p: nat)
    requires (forall q <- order :: q in s.pendingPieces) && p in s.pendingPieces
    ensures forall q <- order + [p] :: q in s.pendingPieces
    ensures RequestPending(s, order + [p]) == RequestOne(RequestPending(s, order), p)
    decreases |order|
  {
    if order == [] {
      assert [p][1..] == [];
    } else {
      assert order[0] in order;
      VisitOneMore(RequestOne(s, order[0]), order[1..], p);
      assert (order + [p])[1..] == order[1..] + [p];
    }
  }

  ghost function AnyOrder(keys: set<nat>): (order: seq<nat>)
    ensures IsOrderOf(order, keys)
  {
    if keys == {} then []
    else
      var p :| p in keys;
      var others := AnyOrder(keys - {p});
      assert forall q <- others :: q in Elements(others);
      assert Elements([p] + others) == {p} + Elements(others);
      [p] + others
  }

  lemma NothingToVisit(order: seq<nat>)
    ensures order == [] <==> Elements(order) == {}
  {
    if order != [] { assert order[0] in Elements(order); }
  }

  /** Every message keeps the accounts, and never loses track of more or fewer requests than a choke strands. */
  lemma {:induction false} HandlesKeeps(t: Torrent, s: State, bf: Picker.State,
                                         msg: PeerMessages.Message, order: seq<nat>, e: Effect)
    requires Supported(t.info) && Picks(t.info, bf) && Inv(t.info, s) && NoneFinished(s) && !Overflowed(s)
    requires Handles(t, s, bf, msg, order, e)
    ensures Inv(t.info, e.s) && Picks(t.info, e.bf) && bf.owned <= e.bf.owned
    ensures !e.outcome.Panicked? ==> NoneFinished(e.s) && !Overflowed(e.s)
    ensures Leak(e.s) == Leak(s) + if msg.Choke? then |s.pendingBlocks| else 0
  {
    match msg
    case Choke => ChokeKeeps(t.info, s);
    case Unchoke => if s.chokedUs { UnchokeKeeps(t.info, s); RequestPiecesKeeps(t.info, Unchoke(s), bf, order); }
    case Piece(index, begin, block) => HandlesPieceKeeps(t, s, bf, index, begin, block, order, e);
    case _ =>
  }

  lemma UnchokeKeeps(info: Info, s: State)
    requires info.Valid() && Inv(info, s) && NoneFinished(s)
    ensures Inv(info, Unchoke(s)) && NoneFinished(Unchoke(s)) && Leak(Unchoke(s)) == Leak(s)
  {
    forall p <- s.pendingPieces { SamePieceOk(info, s, Unchoke(s), p); }
  }

  lemma CompletesKeeps(t: Torrent, s: State, bf: Picker.State, index: nat, order: seq<nat>, e: Effect)
    requires Supported(t.info) && Picks(t.info, bf) && Inv(t.info, s) && !Overflowed(s)
    requires index in s.pendingPieces && index < bf.total && s.pendingPieces[index].remainingBlocks == 0
    requires forall p <- s.pendingPieces :: p != index ==> s.pendingPieces[p].remainingBlocks > 0
    requires Completes(t, s, bf, index, order, e)
    ensures Inv(t.info, e.s) && Picks(t.info, e.bf) && bf.owned <= e.bf.owned && Leak(e.s) == Leak(s)
    ensures !e.outcome.Panicked? ==> NoneFinished(e.s) && !Overflowed(e.s)
  {
    FinishKeeps(t.info, s, index);
    if !SetPanics(bf, index) && ValidatePiece(t, s.pendingPieces[index].bytes, s.pendingPieces[index].pieceHash) {
      RequestPiecesKeeps(t.info, Finish(s, index), bf.Set(index), order);
    }
  }

  lemma HandlesPieceKeeps(t: Torrent, s: State, bf: Picker.State, index: nat, begin: nat, block: Bytes,
      order: seq<nat>, e: Effect)
    requires Supported(t.info) && Picks(t.info, bf) && Inv(t.info, s) && NoneFinished(s) && !Overflowed(s)
    requires HandlesPiece(t, s, bf, index, begin, block, order, e)
    ensures Inv(t.info, e.s) && Picks(t.info, e.bf) && bf.owned <= e.bf.owned && Leak(e.s) == Leak(s)
    ensures !e.outcome.Panicked? ==> NoneFinished(e.s) && !Overflowed(e.s)
  {
    if Awaited(s, index, begin, block) {
      AwaitedIsPending(t.info, s, index, begin, block);
      AcceptKeeps(t.info, s, index, begin, block);
      var s1 := Accept(s, index, begin, block);
      if s1.pendingPieces[index].remainingBlocks > 0 {
        RequestPiecesKeeps(t.info, s1, bf, order);
      } else {
        CompletesKeeps(t, s1, bf, index, order, e);
      }
    }
  }
}
