/** What every downloader keeps while other downloaders share its bitfield. */
module NodeProofs {
  import opened ByteStrings
  import opened MetaInfo
  import opened DownloadSpec
  import opened DownloadProofs
  import opened DownloadSteps
  import opened WindowProofs
  import opened Swarm
  import Picker
  import PeerMessages

  /** A piece on its way to the file: it fits, and its hash is right. */
  ghost predicate Good(t: Torrent, d: Delivery)
    requires t.info.Valid()
  {
    Fits(t.info, d) && ValidatePiece(t, d.bytes, t.info.pieces[d.index])
  }

  /** What holds at the point where the downloader stands. */
  ghost predicate PhaseOk(t: Torrent, bf: Picker.State, n: Node)
    requires t.info.Valid()
  {
    match n.phase
    case AtTop => NoneFinished(n.s) && IdleOk(bf, n)
    case Waiting => NoneFinished(n.s) && IdleOk(bf, n)
    case Completing(index) =>
      && !n.s.chokedUs && index in n.s.pendingPieces && n.s.pendingPieces[index].remainingBlocks == 0
      && (forall p <- n.s.pendingPieces :: p != index ==>
            n.s.pendingPieces[p].remainingBlocks > 0 && Mine(n.s.pendingBlocks, p) != {})
    case Sending(d) => !n.s.chokedUs && NoneFinished(n.s) && Good(t, d) && d.index in bf.owned
    case HandingOver(_) => !n.s.chokedUs && NoneFinished(n.s)
    case Requesting => !n.s.chokedUs && NoneFinished(n.s)
    case Picking => HasRoom(n.s)
    case Starting(p) => HasRoom(n.s) && p < t.info.NumPieces() && p !in n.s.pendingPieces
    case Stopped => true
  }

  /** A pass over the pending pieces has left nothing to request and room for another piece. */
  ghost predicate HasRoom(s: State) {
    && !s.chokedUs && NoneFinished(s) && s.inflight < MAX_INFLIGHT_PER_PEER
    && AllAwaited(s) && forall p :: !Partial(s, p)
  }

  /**
   * Between messages every pending piece of an unchoked downloader has a block on its way. One
   * that found no wrong hash has a pending piece, unless every piece is owned or requests stranded
   * by chokes fill its window.
   */
  ghost predicate IdleOk(bf: Picker.State, n: Node) {
    !n.s.chokedUs ==>
      && AllAwaited(n.s)
      && (n.rejections == 0 && n.s.pendingPieces.Keys == {} ==>
            bf.Complete() || n.s.inflight >= MAX_INFLIGHT_PER_PEER)
  }

  /** Before the first choke: the request window, and room in it whenever more is asked for. */
  ghost predicate WindowOk(info: Info, owned: set<nat>, n: Node)
    requires info.Valid()
  {
    n.s.log.restarts == 0 ==>
      && Window(info, n.s, owned)
      && (n.phase.Completing? || Holds(n) || n.phase.Requesting? ==> n.s.inflight < MAX_INFLIGHT_PER_PEER)
      && (n.phase.Starting? ==> NeverAsked(n.s, n.phase.piece))
  }

  ghost predicate NodeOk(t: Torrent, bf: Picker.State, n: Node)
    requires t.info.Valid()
  {
    && Inv(t.info, n.s)
    && (n.s.chokedUs ==> n.s.pendingBlocks == {})
    && (!n.phase.Stopped? ==> !Overflowed(n.s))
    && PhaseOk(t, bf, n)
    && WindowOk(t.info, bf.owned, n)
  }

  /** What other downloaders do to the bitfield does not hurt. */
  lemma OthersDoNotHurt(t: Torrent, bf: Picker.State, bf': Picker.State, n: Node)
    requires t.info.Valid() && NodeOk(t, bf, n) && bf.owned <= bf'.owned && bf.total == bf'.total
    ensures NodeOk(t, bf', n)
  {
    assert bf'.Missing() <= bf.Missing();
    if n.s.log.restarts == 0 {
      OwningMoreKeepsWindow(t.info, n.s, bf.owned, bf'.owned);
    }
  }

  lemma AwaitedCanBeAccepted(info: Info, s: State, index: nat, begin: nat, block: Bytes)
    requires info.Valid() && Inv(info, s)
    ensures CanAccept(s, index, begin, block) <==> Awaited(s, index, begin, block)
  {
    if Awaited(s, index, begin, block) {
      AwaitedIsPending(info, s, index, begin, block);
    }
  }

  /** An arriving block is missing only from its own piece. */
  lemma AcceptKeepsAwaited(s: State, index: nat, begin: nat, block: Bytes)
    requires CanAccept(s, index, begin, block)
    ensures forall p :: p != index ==> Mine(Accept(s, index, begin, block).pendingBlocks, p) == Mine(s.pendingBlocks, p)
  {
  }

  lemma BlockKeepsNode(t: Torrent, bf: Picker.State, n: Node, index: nat, begin: nat, block: Bytes)
    requires t.info.Valid() && NodeOk(t, bf, n) && n.phase.Waiting? && CanAccept(n.s, index, begin, block)
    ensures NodeOk(t, bf, OnBlock(n, index, begin, block))
  {
    AcceptKeeps(t.info, n.s, index, begin, block);
    AcceptKeepsAwaited(n.s, index, begin, block);
    if n.s.log.restarts == 0 {
      AcceptKeepsWindow(t.info, n.s, bf.owned, index, begin, block);
    }
  }

  lemma ChokeKeepsNode(t: Torrent, bf: Picker.State, n: Node)
    requires Supported(t.info) && NodeOk(t, bf, n) && n.phase.Waiting?
    ensures NodeOk(t, bf, n.(s := DownloadSpec.Choke(n.s), phase := AtTop))
  {
    ChokeKeeps(t.info, n.s);
  }

  lemma UnchokeKeepsNode(t: Torrent, bf: Picker.State, n: Node)
    requires Supported(t.info) && NodeOk(t, bf, n) && n.phase.Waiting? && n.s.chokedUs
    ensures NodeOk(t, bf, n.(s := Unchoke(n.s), phase := Requesting))
  {
    UnchokeKeeps(t.info, n.s);
    UnchokeKeepsWindow(t.info, bf.owned, n);
  }

  lemma {:induction false} MessageKeepsNode(t: Torrent, bf: Picker.State, n: Node, msg: PeerMessages.Message)
    requires Supported(t.info) && NodeOk(t, bf, n) && n.phase.Waiting?
    ensures NodeOk(t, bf, OnMessage(n, msg))
  {
    match msg
    case Choke => ChokeKeepsNode(t, bf, n);
    case Unchoke => if n.s.chokedUs { UnchokeKeepsNode(t, bf, n); } else { NothingHappens(t, bf, n); }
    case Piece(index, begin, block) =>
      if CanAccept(n.s, index, begin, block) {
        BlockKeepsNode(t, bf, n, index, begin, block);
      } else {
        NothingHappens(t, bf, n);
      }
    case _ => NothingHappens(t, bf, n);
  }

  lemma NothingHappens(t: Torrent, bf: Picker.State, n: Node)
    requires t.info.Valid() && NodeOk(t, bf, n) && n.phase.Waiting?
    ensures NodeOk(t, bf, n.(phase := AtTop)) && NodeOk(t, bf, n.(phase := Stopped))
  {
  }

  lemma UnchokeKeepsWindow(info: Info, owned: set<nat>, n: Node)
    requires info.Valid() && WindowOk(info, owned, n) && n.s.chokedUs
    ensures WindowOk(info, owned, n.(s := Unchoke(n.s), phase := Requesting))
  {
  }

  /** The downloader after the finished piece has left its table. */
  lemma FinishedNode(t: Torrent, bf: Picker.State, n: Node, index: nat)
    requires t.info.Valid() && NodeOk(t, bf, n) && n.phase == Completing(index) && index in bf.owned
    ensures var s := Finish(n.s, index);
            && Inv(t.info, s) && NoneFinished(s) && AllAwaited(s) && !s.chokedUs
            && (s.log.restarts == 0 ==> Window(t.info, s, bf.owned) && s.inflight < MAX_INFLIGHT_PER_PEER)
  {
    FinishKeeps(t.info, n.s, index);
    if n.s.log.restarts == 0 {
      FinishKeepsWindow(t.info, n.s, bf.owned, index);
    }
  }

  lemma FinishedPieceFits(t: Torrent, bf: Picker.State, n: Node, index: nat)
    requires t.info.Valid() && NodeOk(t, bf, n) && n.phase == Completing(index)
    ensures index < t.info.NumPieces() && index in n.s.pendingPieces
    ensures |n.s.pendingPieces[index].bytes| == Size(t.info, index)
    ensures n.s.pendingPieces[index].pieceHash == t.info.pieces[index]
  {
    assert PendingOk(t.info, n.s, index);
  }

  lemma RejectedNodeOk(t: Torrent, bf: Picker.State, n: Node, index: nat)
    requires t.info.Valid() && NodeOk(t, bf, n) && n.phase == Completing(index) && index in bf.owned
    ensures NodeOk(t, bf, n.(s := Finish(n.s, index), phase := AtTop, rejections := n.rejections + 1))
  {
    FinishedNode(t, bf, n, index);
  }

  lemma PassedNodeOk(t: Torrent, bf: Picker.State, n: Node, index: nat)
    requires t.info.Valid() && NodeOk(t, bf, n) && n.phase == Completing(index) && index in bf.owned
    requires index in n.s.pendingPieces && Good(t, Delivery(index, n.s.pendingPieces[index].bytes))
    ensures NodeOk(t, bf, n.(s := Finish(n.s, index),
                             phase := Sending(Delivery(index, n.s.pendingPieces[index].bytes))))
  {
    FinishedNode(t, bf, n, index);
  }

  lemma CompleteKeepsNode(t: Torrent, bf: Picker.State, n: Node, index: nat)
    requires t.info.Valid() && Picks(t.info, bf) && NodeOk(t, bf, n) && n.phase == Completing(index)
    ensures index < bf.total && NodeOk(t, bf.Set(index), OnComplete(t, bf, n, index))
  {
    FinishedPieceFits(t, bf, n, index);
    var dl := n.s.pendingPieces[index];
    OthersDoNotHurt(t, bf, bf.Set(index), n);
    if !SetPanics(bf, index) {
      if ValidatePiece(t, dl.bytes, dl.pieceHash) {
        PassedNodeOk(t, bf.Set(index), n, index);
      } else {
        RejectedNodeOk(t, bf.Set(index), n, index);
      }
    }
  }

  /** A pass that leaves room has requested everything. */
  lemma RoomMeansExhausted(info: Info, s: State, order: seq<nat>)
    requires info.Valid() && Inv(info, s)
    requires IsOrderOf(order, s.pendingPieces.Keys) && forall p <- order :: p in s.pendingPieces
    ensures var s' := RequestPending(s, order); s'.inflight < MAX_INFLIGHT_PER_PEER ==> forall p :: !Partial(s', p)
  {
    var s' := RequestPending(s, order);
    RequestPendingExhausts(info, s, order);
    if s'.inflight < MAX_INFLIGHT_PER_PEER {
      forall p ensures !Partial(s', p) {
        if p in s.pendingPieces { assert p in Elements(order); }
      }
    }
  }

  lemma RequestKeepsNode(t: Torrent, bf: Picker.State, n: Node, order: seq<nat>)
    requires t.info.Valid() && NodeOk(t, bf, n) && n.phase.Requesting?
    requires IsOrderOf(order, n.s.pendingPieces.Keys) && forall p <- order :: p in n.s.pendingPieces
    ensures NodeOk(t, bf, OnRequest(n, order))
  {
    RequestPendingKeeps(t.info, n.s, order);
    PassAwaits(t.info, n.s, order);
    RoomMeansExhausted(t.info, n.s, order);
    RequestKeepsWindowOk(t.info, bf.owned, n, order);
  }

  lemma RequestKeepsWindowOk(info: Info, owned: set<nat>, n: Node, order: seq<nat>)
    requires info.Valid() && Inv(info, n.s) && WindowOk(info, owned, n) && n.phase.Requesting? && !n.s.chokedUs
    requires IsOrderOf(order, n.s.pendingPieces.Keys) && forall p <- order :: p in n.s.pendingPieces
    ensures WindowOk(info, owned, OnRequest(n, order))
  {
    RequestPendingKeeps(info, n.s, order);
    if n.s.log.restarts == 0 {
      RequestPendingKeepsWindow(info, n.s, owned, order);
    }
  }

  lemma PickKeepsNode(t: Torrent, bf: Picker.State, n: Node)
    requires Supported(t.info) && Picks(t.info, bf) && NodeOk(t, bf, n) && n.phase.Picking?
    ensures var (bf', picked) := bf.Pick(); NodeOk(t, bf', OnPick(n, picked))
  {
    var (bf', picked) := bf.Pick();
    Picker.PickReturnsNearestMissing(bf);
    assert bf'.Missing() == bf.Missing();
    if picked.Some? && picked.value !in n.s.pendingPieces && n.s.log.restarts == 0 {
      MissingWasNeverAsked(t.info, n.s, bf.owned, picked.value);
    }
  }

  lemma StartKeepsNode(t: Torrent, bf: Picker.State, n: Node)
    requires Supported(t.info) && Picks(t.info, bf) && NodeOk(t, bf, n) && n.phase.Starting?
    ensures NodeOk(t, bf, n.(s := StartPiece(n.s, t.info, n.phase.piece), phase := AtTop))
  {
    var p, s' := n.phase.piece, StartPiece(n.s, t.info, n.phase.piece);
    StartPieceKeeps(t.info, n.s, p);
    StartPieceIs(t.info, n.s, p);
    if n.s.log.restarts == 0 {
      StartPieceKeepsWindow(t.info, n.s, bf.owned, p);
    }
  }
}
