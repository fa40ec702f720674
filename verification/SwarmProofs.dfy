/** Invariants of the whole download, kept by every step of every interleaving. */
module SwarmProofs {
  import opened ByteStrings
  import opened MetaInfo
  import opened DownloadSpec
  import opened DownloadProofs
  import opened DownloadSteps
  import opened Swarm
  import opened NodeProofs
  import Picker
  import PeerMessages

  // ---- The downloaders and the lock ----

  ghost predicate NodesOk(t: Torrent, w: World) {
    && Picks(t.info, w.bf)
    && (forall i {:trigger w.nodes[i]} :: 0 <= i < |w.nodes| ==> NodeOk(t, w.bf, w.nodes[i]))
    && (forall i, j :: 0 <= i < j < |w.nodes| ==> !(Holds(w.nodes[i]) && Holds(w.nodes[j])))
  }

  // ---- The line for the lock, and those who wait for the channel ----

  ghost predicate MayWait(w: World, who: Waiter) {
    match who
    case Loop => w.receiver.Checking?
    case Downloader(i) => i < |w.nodes| && WantsLock(w.nodes[i])
  }

  /** Nobody waits twice, or for nothing, and the message of a sender that waits is in the queue. */
  ghost predicate LineOk(w: World) {
    && NoDuplicates(w.line)
    && (forall who <- w.line :: MayWait(w, who))
    && (forall n <- w.nodes :: n.phase.HandingOver? ==> n.phase.ticket < w.taken + |w.queue|)
  }

  // ---- The channel and the file ----

  /** Everything in the channel is good, and so is every piece spliced into the file. */
  ghost predicate FileOk(t: Torrent, w: World)
    requires t.info.Valid()
  {
    && |w.file| == t.info.TotalLength()
    && (forall m <- w.queue :: m.PieceMsg? ==> Good(t, m.delivery))
    && (forall p <- w.spliced :: p < t.info.NumPieces())
    && (forall p <- w.spliced :: SlotOk(t, w.file, p))
  }

  ghost predicate SlotOk(t: Torrent, file: Bytes, p: nat)
    requires t.info.Valid() && |file| == t.info.TotalLength() && p < t.info.NumPieces()
  {
    ValidatePiece(t, PieceOf(t.info, file, p), t.info.pieces[p])
  }

  // ---- Conservation of pieces ----

  ghost predicate Queued(w: World, p: nat) {
    exists m <- w.queue :: m.PieceMsg? && m.delivery.index == p
  }

  ghost predicate InHand(w: World, p: nat) {
    exists n <- w.nodes :: n.phase.Sending? && n.phase.delivery.index == p
  }

  /** An owned piece is in the file, in the channel, in the hand of the lock holder, or was dropped. */
  ghost predicate Conserved(w: World) {
    forall p: nat :: p in w.bf.owned <==>
      p in w.spliced || Queued(w, p) || InHand(w, p) || p in w.rejected || p in w.lost
  }

  // ---- Round robin ----

  /** Piece `p` is in the table of the downloader, or about to be. */
  ghost predicate Takes(n: Node, p: nat) {
    p in n.s.pendingPieces || n.phase == Starting(p)
  }

  ghost predicate TakenSomewhere(w: World, p: nat) {
    exists n <- w.nodes :: Takes(n, p)
  }

  /** The cursor meets every missing piece that nobody has taken before any that somebody has. */
  ghost predicate UntakenFirst(w: World) {
    forall p <- w.bf.Missing(), q <- w.bf.Missing() ::
      TakenSomewhere(w, p) && !TakenSomewhere(w, q) ==> w.bf.Before(q, p)
  }

  // ---- The end ----

  /** A completion panicked exactly when all pieces are owned and their number is a multiple of 8. */
  ghost predicate LastPieceOk(w: World) {
    && (w.lost != {} <==> w.bf.Complete() && w.bf.total > 0 && w.bf.total % 8 == 0)
    && (w.receiver.Returned? ==> w.bf.Complete() && LockFree(w))
  }

  ghost predicate WorldOk(t: Torrent, w: World) {
    NodesOk(t, w) && LineOk(w) && FileOk(t, w) && Conserved(w) && UntakenFirst(w) && LastPieceOk(w)
  }

  lemma WorldHasShape(t: Torrent, w: World)
    requires NodesOk(t, w) && FileOk(t, w)
    ensures Shape(t, w)
  {
    forall n <- w.nodes
      ensures n.phase.Completing? ==> n.phase.index < w.bf.total
      ensures n.phase.Starting? ==> n.phase.piece < w.bf.total
    {
      var i :| 0 <= i < |w.nodes| && w.nodes[i] == n;
      assert NodeOk(t, w.bf, w.nodes[i]);
      if n.phase.Completing? { assert PendingOk(t.info, n.s, n.phase.index); }
    }
  }

  // ---- Every step keeps the downloaders ----

  /** A step of downloader `i` that changes its node to `n` and lets the bitfield grow. */
  lemma OneNodeMoves(t: Torrent, w: World, i: nat, n: Node, bf: Picker.State, w': World)
    requires NodesOk(t, w) && i < |w.nodes| && Picks(t.info, bf)
    requires w.bf.owned <= bf.owned && NodeOk(t, bf, n)
    requires w'.nodes == w.nodes[i := n] && w'.bf == bf
    requires Holds(n) ==> LockFree(w) || Holds(w.nodes[i])
    ensures NodesOk(t, w')
  {
    forall j | 0 <= j < |w'.nodes| ensures NodeOk(t, bf, w'.nodes[j]) {
      if j != i { OthersDoNotHurt(t, w.bf, bf, w.nodes[j]); }
    }
  }

  /** A step of downloader `i` leaves a good node behind, and takes the lock only when it is free. */
  ghost predicate Moved(t: Torrent, w: World, i: nat, w': World) {
    && i < |w.nodes| && |w'.nodes| == |w.nodes| && w'.nodes == w.nodes[i := w'.nodes[i]]
    && Picks(t.info, w'.bf) && w.bf.owned <= w'.bf.owned
    && NodeOk(t, w'.bf, w'.nodes[i])
    && (Holds(w'.nodes[i]) ==> LockFree(w) || Holds(w.nodes[i]))
  }

  lemma MessageMoves(t: Torrent, w: World, i: nat, msg: PeerMessages.Message)
    requires Supported(t.info) && NodesOk(t, w) && Shape(t, w) && Enabled(t, w, Message(i, msg))
    ensures Moved(t, w, i, Apply(t, w, Message(i, msg)))
  {
    MessageKeepsNode(t, w.bf, w.nodes[i], msg);
  }

  lemma CompleteMoves(t: Torrent, w: World, i: nat)
    requires Supported(t.info) && NodesOk(t, w) && Shape(t, w) && Enabled(t, w, Complete(i))
    ensures Moved(t, w, i, Apply(t, w, Complete(i)))
  {
    CompleteKeepsNode(t, w.bf, w.nodes[i], w.nodes[i].phase.index);
  }

  lemma RequestMoves(t: Torrent, w: World, i: nat, order: seq<nat>)
    requires Supported(t.info) && NodesOk(t, w) && Shape(t, w) && Enabled(t, w, Request(i, order))
    ensures Moved(t, w, i, Apply(t, w, Request(i, order)))
  {
    assert forall p <- order :: p in Elements(order);
    RequestKeepsNode(t, w.bf, w.nodes[i], order);
  }

  lemma PickMoves(t: Torrent, w: World, i: nat)
    requires Supported(t.info) && NodesOk(t, w) && Shape(t, w) && Enabled(t, w, Pick(i))
    ensures Moved(t, w, i, Apply(t, w, Pick(i)))
  {
    assert NodeOk(t, w.bf, w.nodes[i]) == true;
    PickKeepsNode(t, w.bf, w.nodes[i]);
    Picker.PickReturnsNearestMissing(w.bf);
  }

  lemma StartMoves(t: Torrent, w: World, i: nat)
    requires Supported(t.info) && NodesOk(t, w) && Shape(t, w) && Enabled(t, w, StartPicked(i))
    ensures Moved(t, w, i, Apply(t, w, StartPicked(i)))
  {
    assert NodeOk(t, w.bf, w.nodes[i]) == true;
    StartKeepsNode(t, w.bf, w.nodes[i]);
  }

  lemma OtherMoves(t: Torrent, w: World, step: Step)
    requires Supported(t.info) && NodesOk(t, w) && Shape(t, w) && Enabled(t, w, step)
    requires step.Ask? || step.CheckTop? || step.KeepAlive? || step.StreamEnds?
    ensures Moved(t, w, step.i, Apply(t, w, step))
  {
    assert NodeOk(t, w.bf, w.nodes[step.i]) == true;
  }

  lemma SenderMoves(t: Torrent, w: World, step: Step)
    requires Supported(t.info) && NodesOk(t, w) && Shape(t, w) && Enabled(t, w, step) && (step.Send? || step.Sent?)
    ensures Moved(t, w, step.i, Apply(t, w, step))
  {
    assert NodeOk(t, w.bf, w.nodes[step.i]) == true;
  }

  lemma MovedNodeOk(t: Torrent, w: World, step: Step)
    requires Supported(t.info) && NodesOk(t, w) && Shape(t, w) && Enabled(t, w, step)
    requires Mover(step).Some?
    ensures Moved(t, w, step.i, Apply(t, w, step))
  {
    match step
    case Message(i, msg) => MessageMoves(t, w, i, msg);
    case Complete(i) => CompleteMoves(t, w, i);
    case Request(i, order) => RequestMoves(t, w, i, order);
    case Pick(i) => PickMoves(t, w, i);
    case StartPicked(i) => StartMoves(t, w, i);
    case Send(_) => SenderMoves(t, w, step);
    case Sent(_) => SenderMoves(t, w, step);
    case _ => OtherMoves(t, w, step);
  }

  lemma StepKeepsNodes(t: Torrent, w: World, step: Step)
    requires Supported(t.info) && NodesOk(t, w) && Shape(t, w) && Enabled(t, w, step)
    ensures NodesOk(t, Apply(t, w, step))
  {
    var w' := Apply(t, w, step);
    match Mover(step)
    case Some(i) =>
      MovedNodeOk(t, w, step);
      OneNodeMoves(t, w, i, w'.nodes[i], w'.bf, w');
    case None =>
  }

  // ---- Every step keeps the line ----

  /** Downloader `i`, and nobody else, moved from `w` to `w'`. */
  ghost predicate OnlyMoved(w: World, i: nat, w': World) {
    && i < |w.nodes| && |w'.nodes| == |w.nodes| && w'.nodes == w.nodes[i := w'.nodes[i]]
    && w'.receiver == w.receiver && w'.taken == w.taken && w.queue <= w'.queue
    && (w'.nodes[i].phase.HandingOver? ==> w'.nodes[i].phase.ticket < w'.taken + |w'.queue|)
  }

  /** A downloader that does not want the lock is not in line, and its moves leave the line alone. */
  lemma OutsideLine(w: World, i: nat, w': World)
    requires LineOk(w) && OnlyMoved(w, i, w') && !WantsLock(w.nodes[i]) && w'.line == w.line
    ensures LineOk(w')
  {
    forall who <- w'.line ensures MayWait(w', who) { assert MayWait(w, who); }
  }

  /** The first in line has taken the lock. */
  lemma HeadLeaves(w: World, i: nat, w': World)
    requires LineOk(w) && OnlyMoved(w, i, w')
    requires w.line != [] && w.line[0] == Downloader(i) && w'.line == w.line[1..]
    ensures LineOk(w')
  {
    forall who <- w'.line ensures MayWait(w', who) { assert who in w.line && MayWait(w, who); }
  }

  lemma LoopKeepsLine(t: Torrent, w: World, step: Step)
    requires LineOk(w) && Shape(t, w) && Enabled(t, w, step) && Mover(step).None?
    ensures LineOk(Apply(t, w, step))
  {
    var w' := Apply(t, w, step);
    forall who <- w'.line ensures MayWait(w', who) {
      assert who == Loop || (who in w.line && MayWait(w, who));
      assert step.CheckDone? ==> w.line == [Loop] + w'.line;
    }
  }

  /** Who wants the lock stays in line until he has it, and takes it from the front. */
  lemma StepKeepsLine(t: Torrent, w: World, step: Step)
    requires LineOk(w) && Shape(t, w) && Enabled(t, w, step)
    ensures LineOk(Apply(t, w, step))
  {
    var w' := Apply(t, w, step);
    match step
    case Ask(i) => forall who <- w'.line ensures MayWait(w', who) { assert who in w.line ==> MayWait(w, who); }
    case CheckTop(i) => HeadLeaves(w, i, w');
    case Complete(i) => HeadLeaves(w, i, w');
    case Pick(i) => HeadLeaves(w, i, w');
    case Receive => LoopKeepsLine(t, w, step);
    case AskToCheck => LoopKeepsLine(t, w, step);
    case CheckDone => LoopKeepsLine(t, w, step);
    case ChannelCloses => LoopKeepsLine(t, w, step);
    case _ => OutsideLine(w, step.i, w');
  }

  // ---- Every step keeps the channel and the file good ----

  lemma SendKeepsFile(t: Torrent, w: World, i: nat)
    requires NodesOk(t, w) && FileOk(t, w) && Shape(t, w) && Enabled(t, w, Send(i))
    ensures FileOk(t, Apply(t, w, Send(i)))
  {
    assert NodeOk(t, w.bf, w.nodes[i]);
    assert Good(t, w.nodes[i].phase.delivery);
  }

  lemma ReceiveKeepsFile(t: Torrent, w: World)
    requires NodesOk(t, w) && FileOk(t, w) && Shape(t, w) && Enabled(t, w, Receive)
    ensures FileOk(t, Apply(t, w, Receive))
  {
    var w' := Apply(t, w, Receive);
    assert w.queue[0] in w.queue;
    if w.queue[0].PieceMsg? {
      var d := w.queue[0].delivery;
      forall p <- w'.spliced ensures p < t.info.NumPieces() && SlotOk(t, w'.file, p) {
        SpliceChangesOnePiece(t.info, w.file, d, p);
        assert p != d.index ==> SlotOk(t, w.file, p);
      }
    }
  }

  lemma StepKeepsFile(t: Torrent, w: World, step: Step)
    requires NodesOk(t, w) && FileOk(t, w) && Shape(t, w) && Enabled(t, w, step)
    ensures FileOk(t, Apply(t, w, step))
  {
    match step
    case Send(i) => SendKeepsFile(t, w, i);
    case Receive => ReceiveKeepsFile(t, w);
    case _ => assert forall m <- Apply(t, w, step).queue :: m in w.queue || m == Disconnect;
  }

  // ---- Every step conserves the pieces ----

  lemma OnlyOneHolder(t: Torrent, w: World, i: nat)
    requires NodesOk(t, w) && i < |w.nodes| && Holds(w.nodes[i])
    ensures forall j :: 0 <= j < |w.nodes| && j != i ==> !Holds(w.nodes[j])
  {
    forall j | 0 <= j < |w.nodes| && j != i ensures !Holds(w.nodes[j]) {
      assert if i < j then !Holds(w.nodes[j]) else !Holds(w.nodes[j]);
    }
  }

  lemma OnlyOneInHand(t: Torrent, w: World, i: nat)
    requires NodesOk(t, w) && i < |w.nodes| && w.nodes[i].phase.Sending?
    ensures forall p: nat :: InHand(w, p) <==> p == w.nodes[i].phase.delivery.index
    ensures forall j :: 0 <= j < |w.nodes| && j != i ==> !w.nodes[j].phase.Sending?
  {
    OnlyOneHolder(t, w, i);
    assert w.nodes[i] in w.nodes;
  }

  /** A downloader that held nothing before and holds nothing after leaves the hands alone. */
  lemma SameHands(w: World, i: nat, w': World, p: nat)
    requires i < |w.nodes| && |w'.nodes| == |w.nodes| && w'.nodes == w.nodes[i := w'.nodes[i]]
    requires !w.nodes[i].phase.Sending? && !w'.nodes[i].phase.Sending?
    ensures InHand(w', p) <==> InHand(w, p)
  {
    if InHand(w, p) {
      var j :| 0 <= j < |w.nodes| && w.nodes[j].phase.Sending? && w.nodes[j].phase.delivery.index == p;
      assert w'.nodes[j] in w'.nodes;
    }
    if InHand(w', p) {
      var j :| 0 <= j < |w'.nodes| && w'.nodes[j].phase.Sending? && w'.nodes[j].phase.delivery.index == p;
      assert w.nodes[j] in w.nodes;
    }
  }

  lemma SendConserves(t: Torrent, w: World, i: nat)
    requires NodesOk(t, w) && Conserved(w) && Shape(t, w) && Enabled(t, w, Send(i))
    ensures Conserved(Apply(t, w, Send(i)))
  {
    var w', d := Apply(t, w, Send(i)), w.nodes[i].phase.delivery;
    OnlyOneInHand(t, w, i);
    assert forall n <- w'.nodes :: !n.phase.Sending?;
    assert PieceMsg(d) in w'.queue;
    forall p: nat ensures Queued(w', p) <==> Queued(w, p) || p == d.index {
      if Queued(w, p) {
        var m :| m in w.queue && m.PieceMsg? && m.delivery.index == p;
        assert m in w'.queue;
      }
    }
  }

  lemma ReceiveConserves(t: Torrent, w: World)
    requires NodesOk(t, w) && Conserved(w) && Shape(t, w) && Enabled(t, w, Receive)
    ensures Conserved(Apply(t, w, Receive))
  {
    var w', m0 := Apply(t, w, Receive), w.queue[0];
    assert w.queue == [m0] + w'.queue;
    forall p: nat ensures Queued(w, p) <==> Queued(w', p) || (m0.PieceMsg? && m0.delivery.index == p) {
      if Queued(w', p) {
        var m :| m in w'.queue && m.PieceMsg? && m.delivery.index == p;
        assert m in w.queue;
      }
      assert m0 in w.queue;
    }
    forall p: nat ensures InHand(w', p) <==> InHand(w, p) {
    }
  }

  lemma CompleteConserves(t: Torrent, w: World, i: nat)
    requires NodesOk(t, w) && Conserved(w) && Shape(t, w) && Enabled(t, w, Complete(i))
    ensures Conserved(Apply(t, w, Complete(i)))
  {
    var w', n, index := Apply(t, w, Complete(i)), w.nodes[i], w.nodes[i].phase.index;
    assert n in w.nodes;
    forall j | 0 <= j < |w.nodes| && j != i ensures !w'.nodes[j].phase.Sending? {
      assert w.nodes[j] in w.nodes;
    }
    forall p: nat ensures InHand(w', p) <==> w'.nodes[i].phase.Sending? && p == index {
      assert w'.nodes[i] in w'.nodes;
    }
    assert forall p: nat :: Queued(w', p) <==> Queued(w, p);
  }

  /** A step that completes, sends and receives nothing. */
  lemma OtherStepConserves(t: Torrent, w: World, step: Step)
    requires NodesOk(t, w) && Conserved(w) && Shape(t, w) && Enabled(t, w, step)
    requires step.Ask? || step.CheckTop? || step.KeepAlive? || step.StreamEnds? || step.Message?
          || step.Sent? || step.Request? || step.StartPicked?
    ensures Conserved(Apply(t, w, step))
  {
    var w' := Apply(t, w, step);
    forall p { SameHands(w, step.i, w', p); }
    SameQueue(w, w');
  }

  lemma StepConserves(t: Torrent, w: World, step: Step)
    requires NodesOk(t, w) && Conserved(w) && Shape(t, w) && Enabled(t, w, step)
    ensures Conserved(Apply(t, w, step))
  {
    var w' := Apply(t, w, step);
    match step
    case Send(i) => SendConserves(t, w, i);
    case Receive => ReceiveConserves(t, w);
    case Complete(i) => CompleteConserves(t, w, i);
    case AskToCheck => SameQueueAndHands(w, w');
    case CheckDone => SameQueueAndHands(w, w');
    case ChannelCloses => SameQueueAndHands(w, w');
    case Pick(i) =>
      Picker.PickReturnsNearestMissing(w.bf);
      forall p { SameHands(w, i, w', p); }
      SameQueue(w, w');
    case _ => OtherStepConserves(t, w, step);
  }

  lemma SameQueue(w: World, w': World)
    requires w'.queue == w.queue || w'.queue == w.queue + [Disconnect]
    ensures forall p: nat :: Queued(w', p) <==> Queued(w, p)
  {
    forall p: nat ensures Queued(w', p) <==> Queued(w, p) {
      if Queued(w, p) {
        var m :| m in w.queue && m.PieceMsg? && m.delivery.index == p;
        assert m in w'.queue;
      }
    }
  }

  lemma SameQueueAndHands(w: World, w': World)
    requires w'.queue == w.queue && w'.nodes == w.nodes
    ensures forall p: nat :: (Queued(w', p) <==> Queued(w, p)) && (InHand(w', p) <==> InHand(w, p))
  {
  }
}
