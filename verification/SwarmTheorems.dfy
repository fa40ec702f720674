/** What holds of every run of the whole download. */
module SwarmTheorems {
  import opened ByteStrings
  import opened Wrappers
  import opened MetaInfo
  import opened DownloadSpec
  import opened DownloadProofs
  import opened DownloadSteps
  import opened WindowProofs
  import opened CounterProofs
  import opened Swarm
  import opened NodeProofs
  import opened SwarmProofs
  import opened RoundProofs
  import Picker
  import PeerMessages

  /** The world after a schedule, if each of its steps can be taken. */
  ghost function Exec(t: Torrent, w: World, steps: seq<Step>): Option<World>
    decreases |steps|
  {
    if steps == [] then Some(w)
    else if Shape(t, w) && Enabled(t, w, steps[0]) then Exec(t, Apply(t, w, steps[0]), steps[1..])
    else None
  }

  ghost predicate Reachable(t: Torrent, w: World) {
    t.info.Valid() && exists seeds: nat, steps: seq<Step> :: Exec(t, Start(t, seeds), steps) == Some(w)
  }

  lemma StartOk(t: Torrent, seeds: nat)
    requires Supported(t.info)
    ensures WorldOk(t, Start(t, seeds))
  {
    var w := Start(t, seeds);
    assert forall n <- w.nodes :: n == Node(FRESH, AtTop, 0);
    assert NodeOk(t, w.bf, Node(FRESH, AtTop, 0));
    Picker.CompleteIffConfirmed(w.bf);
  }

  lemma StepKeepsWorld(t: Torrent, w: World, step: Step)
    requires Supported(t.info) && WorldOk(t, w) && Shape(t, w) && Enabled(t, w, step)
    ensures WorldOk(t, Apply(t, w, step))
  {
    StepKeepsNodes(t, w, step);
    StepKeepsLine(t, w, step);
    StepKeepsFile(t, w, step);
    StepConserves(t, w, step);
    StepKeepsRound(t, w, step);
    StepKeepsLastPiece(t, w, step);
  }

  lemma {:induction false} RunKeepsWorld(t: Torrent, w: World, steps: seq<Step>, w': World)
    requires Supported(t.info) && WorldOk(t, w) && Exec(t, w, steps) == Some(w')
    ensures WorldOk(t, w')
    decreases |steps|
  {
    if steps != [] {
      StepKeepsWorld(t, w, steps[0]);
      RunKeepsWorld(t, Apply(t, w, steps[0]), steps[1..], w');
    }
  }

  /** Every reachable world is in order, whatever the interleaving, the messages and the iteration orders. */
  lemma EveryReachableWorldIsOk(t: Torrent, w: World)
    requires Supported(t.info) && Reachable(t, w)
    ensures WorldOk(t, w) && Shape(t, w)
  {
    var seeds: nat, steps: seq<Step> :| Exec(t, Start(t, seeds), steps) == Some(w);
    StartOk(t, seeds);
    RunKeepsWorld(t, Start(t, seeds), steps, w);
    WorldHasShape(t, w);
  }

  // ---- Conservation, and what the returned file holds ----

  /** An owned piece is spliced, queued, in the lock holder's hand, rejected by its hash, or lost in a panic. */
  lemma PiecesAreConserved(t: Torrent, w: World, p: nat)
    requires Supported(t.info) && Reachable(t, w)
    ensures p in w.bf.owned <==>
              p in w.spliced || Queued(w, p) || InHand(w, p) || p in w.rejected || p in w.lost
  {
    EveryReachableWorldIsOk(t, w);
  }

  /** No other bytes of the right length have the hash of a piece of `content`. */
  ghost predicate Authentic(t: Torrent, content: Bytes)
    requires t.info.Valid()
  {
    && |content| == t.info.TotalLength()
    && forall i: nat, piece: Bytes
         | i < t.info.NumPieces() && |piece| == Size(t.info, i) && ValidatePiece(t, piece, t.info.pieces[i])
         :: piece == PieceOf(t.info, content, i)
  }

  ghost predicate AllSpliced(t: Torrent, w: World)
    requires t.info.Valid()
  {
    forall p: nat :: p < t.info.NumPieces() ==> p in w.spliced
  }

  /** A piece that was taken out of circulation without being spliced by the time of the return. */
  ghost predicate LeftOut(w: World, p: nat) {
    (Queued(w, p) || p in w.rejected || p in w.lost) && p !in w.spliced
  }

  /** When the download returns, the file has every piece exactly when none was left in the queue, rejected or lost. */
  lemma ReturnedFileIsWholeIff(t: Torrent, w: World)
    requires Supported(t.info) && Reachable(t, w) && w.receiver.Returned?
    ensures AllSpliced(t, w) <==> forall p: nat :: !LeftOut(w, p)
    ensures AllSpliced(t, w) ==> forall content: Bytes :: Authentic(t, content) ==> w.file == content
  {
    EveryReachableWorldIsOk(t, w);
    Picker.CompleteIffConfirmed(w.bf);
    forall p: nat ensures !InHand(w, p) {
    }
    forall p: nat | p < t.info.NumPieces() && p !in w.spliced ensures LeftOut(w, p) {
      assert p in w.bf.owned;
    }
    if AllSpliced(t, w) {
      forall p: nat ensures !LeftOut(w, p) {
        assert p in w.bf.owned ==> p < t.info.NumPieces();
      }
      forall content: Bytes | Authentic(t, content) ensures w.file == content {
        SplicedFileIsContent(t, w, content);
      }
    }
  }

  lemma SplicedFileIsContent(t: Torrent, w: World, content: Bytes)
    requires t.info.Valid() && FileOk(t, w) && AllSpliced(t, w) && Authentic(t, content)
    ensures w.file == content
  {
    forall i: nat | i < t.info.NumPieces() ensures PieceOf(t.info, w.file, i) == PieceOf(t.info, content, i) {
      assert SlotOk(t, w.file, i);
    }
    PiecesDetermineContent(t.info, w.file, content);
  }

  /**
   * A download that returns with an empty channel, no wrong hash, and a number of pieces that is
   * not a multiple of 8 has the whole content.
   */
  lemma CleanReturnHasContent(t: Torrent, w: World, content: Bytes)
    requires Supported(t.info) && Reachable(t, w) && w.receiver.Returned? && Authentic(t, content)
    requires w.queue == [] && w.rejected == {} && t.info.NumPieces() % 8 != 0
    ensures w.file == content
  {
    EveryReachableWorldIsOk(t, w);
    ReturnedFileIsWholeIff(t, w);
  }

  /**
   * In any reachable world a completion has panicked if and only if all pieces are owned and their
   * number is a positive multiple of 8.
   */
  lemma LastPieceIsLostIff(t: Torrent, w: World)
    requires Supported(t.info) && Reachable(t, w)
    ensures w.lost != {} <==> w.bf.Complete() && t.info.NumPieces() > 0 && t.info.NumPieces() % 8 == 0
  {
    EveryReachableWorldIsOk(t, w);
  }

  // ---- The claims of the downloaders ----

  lemma ReachableNode(t: Torrent, w: World, i: nat)
    requires Supported(t.info) && Reachable(t, w) && i < |w.nodes|
    ensures NodeOk(t, w.bf, w.nodes[i]) && Picks(t.info, w.bf)
  {
    EveryReachableWorldIsOk(t, w);
  }

  /**
   * The assertions of the program hold wherever they stand: while requesting, no pending piece is
   * over-requested or finished, and the next block of a piece is not awaited yet; a picked piece
   * is not in the table when its turn to be started comes; an awaited block belongs to a pending
   * piece and both counters are positive; a finished piece is in the table.
   */
  lemma AssertionsNeverFire(t: Torrent, w: World, i: nat)
    requires Supported(t.info) && Reachable(t, w) && i < |w.nodes|
    ensures var n := w.nodes[i];
            && (n.phase.Requesting? ==> forall p <- n.s.pendingPieces :: ReadyToRequest(n.s, p))
            && (n.phase.Waiting? ==> forall index: nat, begin: nat, block: Bytes ::
                  Awaited(n.s, index, begin, block) ==> CanAccept(n.s, index, begin, block))
            && (n.phase.Starting? ==> n.phase.piece !in n.s.pendingPieces)
            && (n.phase.Completing? ==> n.phase.index in n.s.pendingPieces)
  {
    ReachableNode(t, w, i);
    var n := w.nodes[i];
    if n.phase.Requesting? {
      forall p <- n.s.pendingPieces ensures ReadyToRequest(n.s, p) {
        NextBlockIsNew(t.info, n.s, p);
      }
    }
    forall index: nat, begin: nat, block: Bytes | Awaited(n.s, index, begin, block)
      ensures CanAccept(n.s, index, begin, block)
    {
      AwaitedCanBeAccepted(t.info, n.s, index, begin, block);
    }
  }

  ghost predicate ReadyToRequest(s: State, p: nat)
    requires p in s.pendingPieces
  {
    var dl := s.pendingPieces[p];
    && dl.requested <= dl.pieceLength && dl.remainingBlocks > 0
    && (dl.requested < dl.pieceLength ==> BlockAt(p, dl.pieceLength, dl.requested) !in s.pendingBlocks)
  }

  lemma NextBlockIsNew(info: Info, s: State, p: nat)
    requires info.Valid() && Inv(info, s) && NoneFinished(s) && p in s.pendingPieces
    ensures ReadyToRequest(s, p)
  {
    assert PendingOk(info, s, p);
    var dl := s.pendingPieces[p];
    if dl.requested < dl.pieceLength {
      assert BlockAt(p, dl.pieceLength, dl.requested) !in Mine(s.pendingBlocks, p);
    }
  }

  /** Until its peer first chokes it, a downloader awaits at most five blocks and never repeats a request. */
  lemma WindowBeforeFirstChoke(t: Torrent, w: World, i: nat)
    requires Supported(t.info) && Reachable(t, w) && i < |w.nodes| && w.nodes[i].s.log.restarts == 0
    ensures var s := w.nodes[i].s;
            && s.inflight == |s.pendingBlocks| <= MAX_INFLIGHT_PER_PEER
            && (forall p, q :: Partial(s, p) && Partial(s, q) ==> p == q)
            && NoDuplicates(s.log.sent)
            && |s.log.sent| <= TotalBlocks(t.info, t.info.NumPieces())
            && s.log.received + |s.pendingBlocks| <= TotalBlocks(t.info, t.info.NumPieces())
  {
    ReachableNode(t, w, i);
    RequestsAreBounded(t.info, w.nodes[i].s, w.bf.owned);
  }

  /**
   * No stall: between messages every pending piece of an unchoked downloader has a block on its
   * way, so it awaits nothing exactly if nothing is pending. If it found no wrong hash, that is
   * only so when every piece is owned or requests stranded by chokes fill its window.
   */
  lemma NoStall(t: Torrent, w: World, i: nat)
    requires Supported(t.info) && Reachable(t, w) && i < |w.nodes|
    requires var n := w.nodes[i]; (n.phase.AtTop? || n.phase.Waiting?) && !n.s.chokedUs
    ensures AllAwaited(w.nodes[i].s)
    ensures w.nodes[i].s.pendingBlocks == {} <==> w.nodes[i].s.pendingPieces.Keys == {}
    ensures w.nodes[i].s.pendingBlocks == {} && w.nodes[i].rejections == 0 ==>
              w.bf.Complete() || Leak(w.nodes[i].s) >= MAX_INFLIGHT_PER_PEER
  {
    ReachableNode(t, w, i);
    AwaitsNothingIffNothingPending(t.info, w.nodes[i].s);
  }

  ghost predicate FindsWrongHash(t: Torrent, w: World, i: nat)
    requires t.info.Valid() && Enabled(t, w, Complete(i))
  {
    var dl := w.nodes[i].s.pendingPieces[w.nodes[i].phase.index];
    !SetPanics(w.bf, w.nodes[i].phase.index) && !ValidatePiece(t, dl.bytes, dl.pieceHash)
  }

  /** A wrong hash leaves a downloader awaiting nothing if and only if it had no other piece pending. */
  lemma WrongHashStallsIff(t: Torrent, w: World, i: nat)
    requires Supported(t.info) && Reachable(t, w) && Enabled(t, w, Complete(i)) && FindsWrongHash(t, w, i)
    ensures Shape(t, w)
    ensures var n, n' := w.nodes[i], Apply(t, w, Complete(i)).nodes[i];
            && n'.phase == AtTop && !n'.s.chokedUs
            && (n'.s.pendingBlocks == {} <==> n.s.pendingPieces.Keys == {n.phase.index})
  {
    EveryReachableWorldIsOk(t, w);
    ReachableNode(t, w, i);
    var n := w.nodes[i];
    CompleteKeepsNode(t, w.bf, n, n.phase.index);
    AwaitsNothingIffNothingPending(t.info, Finish(n.s, n.phase.index));
  }

  /** A downloader between messages that is not choked and awaits nothing. */
  ghost predicate Idle(w: World, i: nat) {
    && i < |w.nodes| && !w.nodes[i].s.chokedUs && w.nodes[i].s.pendingBlocks == {}
    && (w.nodes[i].phase.AtTop? || w.nodes[i].phase.Waiting? || w.nodes[i].phase.Stopped?)
  }

  /** Such a downloader does nothing any more, in no run, unless its peer chokes it. */
  lemma {:induction false} IdleUntilChoked(t: Torrent, w: World, i: nat, steps: seq<Step>, w': World)
    requires Idle(w, i) && Exec(t, w, steps) == Some(w') && Message(i, PeerMessages.Choke) !in steps
    ensures Idle(w', i) && w'.nodes[i].s == w.nodes[i].s
    decreases |steps|
  {
    if steps != [] {
      assert steps[0] in steps;
      IdleStep(t, w, i, steps[0]);
      IdleUntilChoked(t, Apply(t, w, steps[0]), i, steps[1..], w');
    }
  }

  lemma IdleStep(t: Torrent, w: World, i: nat, step: Step)
    requires Idle(w, i) && Shape(t, w) && Enabled(t, w, step) && step != Message(i, PeerMessages.Choke)
    ensures Idle(Apply(t, w, step), i) && Apply(t, w, step).nodes[i].s == w.nodes[i].s
  {
  }

  // ---- The counter of requests in flight ----

  /**
   * Asking for more ends in the overflow of the counter if and only if the requests counted, but
   * at least five, and the blocks of the pieces visited beyond the window are more than 255.
   */
  lemma CounterOverflowsIff(t: Torrent, w: World, i: nat, order: seq<nat>)
    requires Supported(t.info) && Reachable(t, w) && Enabled(t, w, Request(i, order))
    ensures Shape(t, w) && forall p <- order :: p in w.nodes[i].s.pendingPieces
    ensures var s := w.nodes[i].s;
            Apply(t, w, Request(i, order)).nodes[i].phase.Stopped? <==>
              (if s.inflight < MAX_INFLIGHT_PER_PEER then MAX_INFLIGHT_PER_PEER else s.inflight)
                + BeyondWindow(s, s.inflight, order) >= COUNTER_LIMIT
  {
    EveryReachableWorldIsOk(t, w);
    ReachableNode(t, w, i);
    assert forall p <- order :: p in Elements(order);
    AccountsAreWithinPieces(t.info, w.nodes[i].s);
    PassOverflowsIff(w.nodes[i].s, order);
  }

  /** Only a choke strands requests, exactly those awaited at that moment, and nothing ever takes one back. */
  lemma OnlyChokesStrandRequests(t: Torrent, w: World, step: Step, i: nat)
    requires Supported(t.info) && Reachable(t, w) && i < |w.nodes|
    requires Enabled(t, w, step)
    ensures Shape(t, w) && |Apply(t, w, step).nodes| == |w.nodes|
    ensures 0 <= Leak(w.nodes[i].s)
    ensures Leak(Apply(t, w, step).nodes[i].s) == Leak(w.nodes[i].s) +
              if step.Message? && step.i == i && step.msg.Choke? then |w.nodes[i].s.pendingBlocks| else 0
  {
    EveryReachableWorldIsOk(t, w);
    ReachableNode(t, w, i);
    if Mover(step) == Some(i) {
      MoverLeak(t, w, step, i);
    } else {
      OthersStay(t, w, step, i);
    }
  }

  /** A step moves at most one downloader. */
  lemma OthersStay(t: Torrent, w: World, step: Step, i: nat)
    requires Shape(t, w) && Enabled(t, w, step) && Mover(step) != Some(i) && i < |w.nodes|
    ensures |Apply(t, w, step).nodes| == |w.nodes| && Apply(t, w, step).nodes[i] == w.nodes[i]
  {
  }

  lemma MoverLeak(t: Torrent, w: World, step: Step, i: nat)
    requires Supported(t.info) && WorldOk(t, w) && Shape(t, w) && Enabled(t, w, step) && Mover(step) == Some(i)
    ensures i < |w.nodes| == |Apply(t, w, step).nodes|
    ensures Leak(Apply(t, w, step).nodes[i].s) == Leak(w.nodes[i].s) +
              if step.Message? && step.msg.Choke? then |w.nodes[i].s.pendingBlocks| else 0
  {
    var n := w.nodes[i];
    assert NodeOk(t, w.bf, n);
    match step
    case Message(_, msg) => MessageLeak(t, w.bf, n, msg);
    case Complete(_) => CompleteLeak(t, w.bf, n);
    case Request(_, order) => RequestCounts(t, w.bf, n, order);
    case StartPicked(_) => StartPieceKeeps(t.info, n.s, n.phase.piece);
    case _ =>
  }

  lemma RequestCounts(t: Torrent, bf: Picker.State, n: Node, order: seq<nat>)
    requires Supported(t.info) && NodeOk(t, bf, n) && IsOrderOf(order, n.s.pendingPieces.Keys)
    ensures forall p <- order :: p in n.s.pendingPieces
    ensures var n' := OnRequest(n, order);
            && Leak(n'.s) == Leak(n.s) && n'.s.log == n.s.log.(sent := n'.s.log.sent)
            && n'.s.pendingPieces.Keys == n.s.pendingPieces.Keys && n'.s.chokedUs == n.s.chokedUs
            && (n'.phase == Stopped <==> !n.s.chokedUs && Overflowed(n'.s))
            && (n'.phase.Stopped? || n'.phase.Picking? || n'.phase.AtTop?)
  {
    assert forall p <- order :: p in Elements(order);
    RequestPendingKeeps(t.info, n.s, order);
  }

  lemma MessageLeak(t: Torrent, bf: Picker.State, n: Node, msg: PeerMessages.Message)
    requires Supported(t.info) && Inv(t.info, n.s)
    ensures Leak(OnMessage(n, msg).s) == Leak(n.s) + if msg.Choke? then |n.s.pendingBlocks| else 0
  {
    match msg
    case Choke => ChokeKeeps(t.info, n.s);
    case Piece(index, begin, block) =>
      if CanAccept(n.s, index, begin, block) { AcceptKeeps(t.info, n.s, index, begin, block); }
    case _ =>
  }

  lemma CompleteLeak(t: Torrent, bf: Picker.State, n: Node)
    requires Supported(t.info) && NodeOk(t, bf, n) && n.phase.Completing?
    ensures n.phase.index in n.s.pendingPieces
    ensures Leak(OnComplete(t, bf, n, n.phase.index).s) == Leak(n.s)
  {
    FinishKeeps(t.info, n.s, n.phase.index);
  }

  /**
   * Block accounting: the counter of a pending piece is the number of its awaited blocks plus the
   * blocks still to be requested, and the awaited blocks are blocks of the grid below the mark.
   */
  lemma BlocksAreAccounted(t: Torrent, w: World, i: nat, p: nat)
    requires Supported(t.info) && Reachable(t, w) && i < |w.nodes| && p in w.nodes[i].s.pendingPieces
    ensures var s, dl := w.nodes[i].s, w.nodes[i].s.pendingPieces[p];
            && p < t.info.NumPieces() && dl.pieceLength == |dl.bytes| == Size(t.info, p)
            && dl.requested <= dl.pieceLength
            && dl.remainingBlocks == |Mine(s.pendingBlocks, p)| + CeilBlocks(dl.pieceLength - dl.requested)
            && (forall b <- s.pendingBlocks :: b.pieceIndex == p ==>
                  OnGrid(b.blockBegin) && b.blockBegin < dl.requested && b == BlockAt(p, dl.pieceLength, b.blockBegin))
    ensures forall b <- w.nodes[i].s.pendingBlocks :: b.pieceIndex in w.nodes[i].s.pendingPieces
    ensures w.nodes[i].phase.AtTop? || w.nodes[i].phase.Waiting? ==> w.nodes[i].s.pendingPieces[p].remainingBlocks > 0
  {
    ReachableNode(t, w, i);
    var s := w.nodes[i].s;
    assert PendingOk(t.info, s, p);
    forall b <- s.pendingBlocks | b.pieceIndex == p ensures b in Mine(s.pendingBlocks, p) {
    }
  }

  /**
   * The count of accepted blocks goes up by one with every awaited block that arrives and never
   * otherwise. With the bound above it measures the progress of a downloader that is not choked.
   */
  lemma ReceivedCountsBlocks(t: Torrent, w: World, step: Step, i: nat)
    requires Supported(t.info) && Reachable(t, w) && i < |w.nodes| && Enabled(t, w, step)
    ensures Shape(t, w) && |Apply(t, w, step).nodes| == |w.nodes|
    ensures Apply(t, w, step).nodes[i].s.log.received == w.nodes[i].s.log.received +
              if step.Message? && step.i == i && step.msg.Piece?
                 && Awaited(w.nodes[i].s, step.msg.index, step.msg.begin, step.msg.block) then 1 else 0
  {
    EveryReachableWorldIsOk(t, w);
    ReachableNode(t, w, i);
    if Mover(step) == Some(i) { MoverReceives(t, w, step, i); }
  }

  lemma MoverReceives(t: Torrent, w: World, step: Step, i: nat)
    requires Supported(t.info) && Shape(t, w) && Enabled(t, w, step) && Mover(step) == Some(i)
    requires i < |w.nodes| && NodeOk(t, w.bf, w.nodes[i])
    ensures i < |w.nodes| == |Apply(t, w, step).nodes|
    ensures Apply(t, w, step).nodes[i].s.log.received == w.nodes[i].s.log.received +
              if step.Message? && step.msg.Piece?
                 && Awaited(w.nodes[i].s, step.msg.index, step.msg.begin, step.msg.block) then 1 else 0
  {
    var n := w.nodes[i];
    match step
    case Message(_, msg) =>
      if msg.Piece? { AwaitedCanBeAccepted(t.info, n.s, msg.index, msg.begin, msg.block); }
    case Request(_, order) =>
      RequestCounts(t, w.bf, n, order);
    case StartPicked(_) => StartPieceKeeps(t.info, n.s, n.phase.piece);
    case _ =>
  }

  // ---- Reassembly ----

  /**
   * When the last block of a piece arrives, every byte of the piece is the byte of the payload
   * accepted for its block since the piece was last started, in any run with any order of arrival.
   */
  lemma CompletedPieceIsReassembled(t: Torrent, w: World, i: nat, k: nat)
    requires Supported(t.info) && Reachable(t, w) && i < |w.nodes| && w.nodes[i].phase.Completing?
    ensures var index, s := w.nodes[i].phase.index, w.nodes[i].s;
            && index < t.info.NumPieces() && index in s.pendingPieces && index in s.log.accepted
            && |s.pendingPieces[index].bytes| == Size(t.info, index)
            && (k < Size(t.info, index) ==>
                  var g := k - k % BLOCK_SIZE;
                  && g in s.log.accepted[index] && k - g < |s.log.accepted[index][g]|
                  && s.pendingPieces[index].bytes[k] == s.log.accepted[index][g][k - g])
  {
    ReachableNode(t, w, i);
    var index, s := w.nodes[i].phase.index, w.nodes[i].s;
    assert PendingOk(t.info, s, index) == true;
    FinishedPieceIsReassembled(t.info, s, index, if k < Size(t.info, index) then k else 0);
  }

  /** If those payloads were true blocks of `content`, the piece is the true piece. */
  lemma TrueBlocksGiveTruePiece(t: Torrent, w: World, i: nat, content: Bytes)
    requires Supported(t.info) && Reachable(t, w) && i < |w.nodes| && w.nodes[i].phase.Completing?
    requires |content| == t.info.TotalLength()
    requires var index, s := w.nodes[i].phase.index, w.nodes[i].s;
             index < t.info.NumPieces() && index in s.log.accepted ==>
               TruePayloads(s.log.accepted[index], PieceOf(t.info, content, index))
    ensures var index, s := w.nodes[i].phase.index, w.nodes[i].s;
            && index < t.info.NumPieces() && index in s.pendingPieces
            && s.pendingPieces[index].bytes == PieceOf(t.info, content, index)
  {
    ReachableNode(t, w, i);
    var index := w.nodes[i].phase.index;
    TruePayloadsGiveTruePiece(t.info, w.nodes[i].s, index, PieceOf(t.info, content, index));
  }

  // ---- Round robin against pending pieces ----

  lemma AllRequested(info: Info, s: State)
    requires info.Valid() && Inv(info, s) && forall p :: !Partial(s, p)
    ensures forall p <- s.pendingPieces :: s.pendingPieces[p].requested == s.pendingPieces[p].pieceLength
  {
    forall p <- s.pendingPieces ensures s.pendingPieces[p].requested == s.pendingPieces[p].pieceLength {
      assert !Partial(s, p);
      assert PendingOk(info, s, p);
    }
  }

  /**
   * When the picker returns a piece that the asking downloader has pending already, every missing
   * piece is pending at some downloader or about to be, and the asking one has requested every
   * block of its own. A downloader that is alone has then requested every block of every missing
   * piece.
   */
  lemma RepeatedPickMeansAllTaken(t: Torrent, w: World, i: nat)
    requires Supported(t.info) && Reachable(t, w) && i < |w.nodes| && w.nodes[i].phase.Picking?
    requires w.bf.Valid() && w.bf.Pick().1.Some? && w.bf.Pick().1.value in w.nodes[i].s.pendingPieces
    ensures forall q <- w.bf.Missing() :: TakenSomewhere(w, q)
    ensures forall p <- w.nodes[i].s.pendingPieces :: FullyRequested(w.nodes[i], p)
    ensures |w.nodes| == 1 ==> forall q <- w.bf.Missing() :: FullyRequested(w.nodes[i], q)
  {
    ReachableRound(t, w);
    ReachableNode(t, w, i);
    var n := w.nodes[i];
    assert n in w.nodes && Takes(n, w.bf.Pick().1.value);
    TakenPickMeansAllTaken(w);
    AllRequested(t.info, n.s);
    if |w.nodes| == 1 {
      forall q <- w.bf.Missing() ensures FullyRequested(n, q) {
        assert TakenSomewhere(w, q) && w.nodes == [n];
      }
    }
  }

  ghost predicate FullyRequested(n: Node, p: nat) {
    p in n.s.pendingPieces && n.s.pendingPieces[p].requested == n.s.pendingPieces[p].pieceLength
  }

  lemma ReachableRound(t: Torrent, w: World)
    requires Supported(t.info) && Reachable(t, w)
    ensures UntakenFirst(w)
  {
    EveryReachableWorldIsOk(t, w);
  }
}
