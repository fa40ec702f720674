/**
 * What one downloader does while nobody else moves: from one quiet world to the next, with each
 * piece that it finishes handed over to the file.
 */
module QuietSteps {
  import opened ByteStrings
  import opened MetaInfo
  import opened DownloadSpec
  import opened DownloadProofs
  import opened DownloadSteps
  import opened WindowProofs
  import opened Swarm
  import opened NodeProofs
  import opened SwarmTheorems
  import opened SwarmSchedules
  import opened SwarmSteps
  import opened Draining
  import Picker

  /** Downloader `i` has finished a piece, sent it on, and the loop has taken it and checked the bitfield. */
  ghost function Delivered(t: Torrent, w: World, i: nat): World
    requires Supported(t.info) && Picks(t.info, w.bf) && |w.file| == t.info.TotalLength() && i < |w.nodes|
    requires w.nodes[i].phase.Completing? && w.nodes[i].phase.index < w.bf.total
    requires w.nodes[i].phase.index in w.nodes[i].s.pendingPieces
    requires Fits(t.info, Delivery(w.nodes[i].phase.index, w.nodes[i].s.pendingPieces[w.nodes[i].phase.index].bytes))
  {
    var n := w.nodes[i];
    var index := n.phase.index;
    var bf := w.bf.Set(index);
    With(w, i, n.(s := Finish(n.s, index), phase := Requesting)).(
      bf := bf,
      file := SpliceDelivery(t.info, w.file, Delivery(index, n.s.pendingPieces[index].bytes)),
      spliced := w.spliced + {index}, taken := w.taken + 1,
      receiver := if bf.Complete() then Returned else Receiving)
  }

  /** The finished piece has the right length, and is the true one. */
  lemma FinishedPiece(t: Torrent, content: Bytes, w: World, i: nat)
    requires Supported(t.info) && Truthful(t, content) && Reachable(t, w) && i < |w.nodes|
    requires w.nodes[i].phase.Completing? && GoodPeer(t, content, w.nodes[i])
    ensures Picks(t.info, w.bf) && |w.file| == t.info.TotalLength()
    ensures var index, s := w.nodes[i].phase.index, w.nodes[i].s;
            && index < w.bf.total && index in s.pendingPieces
            && Fits(t.info, Delivery(index, s.pendingPieces[index].bytes))
            && ValidatePiece(t, s.pendingPieces[index].bytes, s.pendingPieces[index].pieceHash)
  {
    EveryReachableWorldIsOk(t, w);
    ReachableNode(t, w, i);
    var n := w.nodes[i];
    FinishedPieceFits(t, w.bf, n, n.phase.index);
    TruePayloadsGiveTruePiece(t.info, n.s, n.phase.index, PieceOf(t.info, content, n.phase.index));
  }

  /** Taking the only message from the channel, and the check. */
  lemma TakesMessage(t: Torrent, w: World, d: Delivery) returns (w': World)
    requires Supported(t.info) && Reachable(t, w) && w.receiver.Receiving? && Unlocked(w)
    requires w.queue == [PieceMsg(d)] && Fits(t.info, d) && |w.file| == t.info.TotalLength()
    ensures Leads(t, w, w') && Reachable(t, w')
    ensures w' == w.(queue := [], file := SpliceDelivery(t.info, w.file, d), spliced := w.spliced + {d.index},
                     taken := w.taken + 1, receiver := if w.bf.Complete() then Returned else Receiving)
  {
    var w1 := ReceiveStep(t, w, d);
    w' := CheckSteps(t, w1);
    LeadsThen(t, w, w1, w');
  }

  lemma ReceiveStep(t: Torrent, w: World, d: Delivery) returns (w': World)
    requires Supported(t.info) && Reachable(t, w) && w.receiver.Receiving?
    requires w.queue == [PieceMsg(d)] && Fits(t.info, d) && |w.file| == t.info.TotalLength()
    ensures Leads(t, w, w') && Reachable(t, w')
    ensures w' == w.(queue := [], file := SpliceDelivery(t.info, w.file, d), spliced := w.spliced + {d.index},
                     taken := w.taken + 1, receiver := Checking)
  {
    w' := FirstStep(t, w, Receive);
  }

  /** Recording a finished piece under the lock, and sending it. */
  lemma CompletesAndSends(t: Torrent, content: Bytes, w: World, i: nat) returns (w': World)
    requires Supported(t.info) && Truthful(t, content) && Reachable(t, w) && Quiet(w) && i < |w.nodes|
    requires w.nodes[i].phase.Completing? && GoodPeer(t, content, w.nodes[i])
    requires !SetPanics(w.bf, w.nodes[i].phase.index) && w.nodes[i].phase.index in w.nodes[i].s.pendingPieces
    requires w.nodes[i].phase.index < w.bf.total && Picks(t.info, w.bf)
    ensures Leads(t, w, w') && Reachable(t, w') && Unlocked(w')
    ensures var n := w.nodes[i];
            var index := n.phase.index;
            w' == With(w, i, n.(s := Finish(n.s, index), phase := Requesting)).(
                    bf := w.bf.Set(index), queue := [PieceMsg(Delivery(index, n.s.pendingPieces[index].bytes))])
  {
    var w1 := Completes(t, content, w, i);
    w' := SendSteps(t, w1, i);
    LeadsBy(t, w1, [Send(i), Sent(i)], w');
    LeadsThen(t, w, w1, w');
  }

  lemma Completes(t: Torrent, content: Bytes, w: World, i: nat) returns (w': World)
    requires Supported(t.info) && Truthful(t, content) && Reachable(t, w) && Quiet(w) && i < |w.nodes|
    requires w.nodes[i].phase.Completing? && GoodPeer(t, content, w.nodes[i])
    requires !SetPanics(w.bf, w.nodes[i].phase.index) && w.nodes[i].phase.index in w.nodes[i].s.pendingPieces
    requires w.nodes[i].phase.index < w.bf.total && Picks(t.info, w.bf)
    ensures Leads(t, w, w') && Reachable(t, w')
    ensures var n := w.nodes[i];
            var index := n.phase.index;
            w' == With(w, i, n.(s := Finish(n.s, index),
                                phase := Sending(Delivery(index, n.s.pendingPieces[index].bytes)))).(
                    bf := w.bf.Set(index))
  {
    FinishedPiece(t, content, w, i);
    w' := CompleteStep(t, w, i);
  }

  lemma HandsOver(t: Torrent, content: Bytes, w: World, i: nat) returns (w': World)
    requires Supported(t.info) && Truthful(t, content) && Reachable(t, w) && Quiet(w) && i < |w.nodes|
    requires w.nodes[i].phase.Completing? && GoodPeer(t, content, w.nodes[i])
    requires !SetPanics(w.bf, w.nodes[i].phase.index)
    ensures Picks(t.info, w.bf) && |w.file| == t.info.TotalLength()
    ensures var index, s := w.nodes[i].phase.index, w.nodes[i].s;
            && index < w.bf.total && index in s.pendingPieces
            && Fits(t.info, Delivery(index, s.pendingPieces[index].bytes))
    ensures Leads(t, w, w') && Reachable(t, w') && w' == Delivered(t, w, i)
  {
    FinishedPiece(t, content, w, i);
    var n := w.nodes[i];
    var w1 := CompletesAndSends(t, content, w, i);
    w' := TakesMessage(t, w1, Delivery(n.phase.index, n.s.pendingPieces[n.phase.index].bytes));
    LeadsThen(t, w, w1, w');
  }

  // ---- The other moves ----

  /** The true bytes of an awaited block. */
  lemma TrueBlock(t: Torrent, content: Bytes, bf: Picker.State, n: Node, b: BlockDownload) returns (block: Bytes)
    requires Supported(t.info) && Truthful(t, content) && NodeOk(t, bf, n) && GoodPeer(t, content, n)
    requires n.phase.Waiting? && b in n.s.pendingBlocks
    ensures |block| == b.blockLen && CanAccept(n.s, b.pieceIndex, b.blockBegin, block)
    ensures GoodPeer(t, content, OnBlock(n, b.pieceIndex, b.blockBegin, block))
  {
    PendingBlocksAreBlocks(t.info, n.s, b);
    var truth := PieceOf(t.info, content, b.pieceIndex);
    block := truth[b.blockBegin..b.blockBegin + b.blockLen];
    AwaitedCanBeAccepted(t.info, n.s, b.pieceIndex, b.blockBegin, block);
    assert InPlace(truth, |truth|, b.blockBegin, block);
  }

  /** An awaited block arrives, and it is the true one. */
  lemma BlockArrives(t: Torrent, content: Bytes, w: World, i: nat, b: BlockDownload) returns (block: Bytes, w': World)
    requires Supported(t.info) && Truthful(t, content) && Reachable(t, w) && Running(w)
    requires At(w, i, Waiting) && GoodPeer(t, content, w.nodes[i]) && b in w.nodes[i].s.pendingBlocks
    ensures |block| == b.blockLen && CanAccept(w.nodes[i].s, b.pieceIndex, b.blockBegin, block)
    ensures Leads(t, w, w') && Reachable(t, w')
    ensures w' == With(w, i, OnBlock(w.nodes[i], b.pieceIndex, b.blockBegin, block))
    ensures GoodPeer(t, content, w'.nodes[i])
  {
    ReachableNode(t, w, i);
    block := TrueBlock(t, content, w.bf, w.nodes[i], b);
    w' := BlockStep(t, w, i, b.pieceIndex, b.blockBegin, block);
  }

  /** The counter does not overflow. */
  lemma RequestsWell(t: Torrent, content: Bytes, w: World, i: nat, order: seq<nat>)
    requires Supported(t.info) && Truthful(t, content) && Reachable(t, w)
    requires At(w, i, Requesting) && GoodPeer(t, content, w.nodes[i])
    requires IsOrderOf(order, w.nodes[i].s.pendingPieces.Keys)
    ensures forall p <- order :: p in w.nodes[i].s.pendingPieces
    ensures var n, n' := w.nodes[i], OnRequest(w.nodes[i], order);
            && GoodPeer(t, content, n') && n'.s.log.received == n.s.log.received && !n'.s.chokedUs
            && n'.s.pendingPieces.Keys == n.s.pendingPieces.Keys
            && (n'.phase.Picking? || (n'.phase.AtTop? && n'.s.inflight >= MAX_INFLIGHT_PER_PEER))
  {
    ReachableNode(t, w, i);
    RequestCounts(t, w.bf, w.nodes[i], order);
    RequestKeepsNode(t, w.bf, w.nodes[i], order);
  }

  lemma AsksForMore(t: Torrent, content: Bytes, w: World, i: nat) returns (w': World)
    requires Supported(t.info) && Truthful(t, content) && Reachable(t, w) && Running(w)
    requires At(w, i, Requesting) && GoodPeer(t, content, w.nodes[i])
    ensures Leads(t, w, w') && Reachable(t, w') && i < |w'.nodes| && w' == With(w, i, w'.nodes[i])
    ensures var n, n' := w.nodes[i], w'.nodes[i];
            && GoodPeer(t, content, n') && n'.s.log.received == n.s.log.received && !n'.s.chokedUs
            && n'.s.pendingPieces.Keys == n.s.pendingPieces.Keys
            && (n'.phase.Picking? || (n'.phase.AtTop? && n'.s.inflight >= MAX_INFLIGHT_PER_PEER))
  {
    var order := AnyOrder(w.nodes[i].s.pendingPieces.Keys);
    RequestsWell(t, content, w, i, order);
    w' := RequestStep(t, w, i, order);
  }

  /** At these points a downloader is not choked, and the piece it has picked exists. */
  lemma Active(t: Torrent, w: World, i: nat)
    requires Supported(t.info) && Reachable(t, w) && i < |w.nodes|
    ensures Picks(t.info, w.bf)
    ensures var n := w.nodes[i];
            && (n.phase.Picking? || n.phase.Starting? || n.phase.Requesting? || n.phase.Completing? ==> !n.s.chokedUs)
            && (n.phase.Starting? ==> n.phase.piece < t.info.NumPieces())
  {
    ReachableNode(t, w, i);
  }

  lemma PicksWell(t: Torrent, w: World, i: nat) returns (w': World)
    requires Supported(t.info) && Reachable(t, w) && Quiet(w) && At(w, i, Picking)
    ensures Leads(t, w, w') && Reachable(t, w') && w.bf.Valid() && w'.bf == w.bf.Pick().0
    ensures w' == With(w, i, OnPick(w.nodes[i], w.bf.Pick().1)).(bf := w'.bf)
    ensures w'.bf == w.bf.(cur := w'.bf.cur) && !w.nodes[i].s.chokedUs
  {
    Active(t, w, i);
    Picker.PickReturnsNearestMissing(w.bf);
    w' := PickStep(t, w, i);
    LeadsBy(t, w, [Ask(i), Pick(i)], w');
  }

  lemma StartingKeepsPeer(t: Torrent, content: Bytes, w: World, i: nat)
    requires Supported(t.info) && Truthful(t, content) && Reachable(t, w) && i < |w.nodes|
    requires w.nodes[i].phase.Starting? && w.nodes[i].phase.piece < t.info.NumPieces()
    requires GoodPeer(t, content, w.nodes[i])
    ensures var n := w.nodes[i];
            var s' := StartPiece(n.s, t.info, n.phase.piece);
            && GoodPeer(t, content, n.(s := s', phase := AtTop)) && s'.log.received == n.s.log.received
            && s'.pendingPieces.Keys == n.s.pendingPieces.Keys + {n.phase.piece} && !s'.chokedUs
  {
    ReachableNode(t, w, i);
    StartPieceKeeps(t.info, w.nodes[i].s, w.nodes[i].phase.piece);
  }
}
