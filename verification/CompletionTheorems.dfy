/**
 * A download that can still be completed: with one good peer left, some schedule brings it to a
 * return with the whole content.
 */
module CompletionTheorems {
  import opened ByteStrings
  import opened DownloadSpec
  import opened DownloadSteps
  import opened WindowProofs
  import opened Swarm
  import opened SwarmTheorems
  import opened SwarmSchedules
  import opened SwarmSteps
  import opened LockTheorems
  import opened Draining
  import opened QuietSteps

  /** Only the good peer is needed from here on. */
  ghost predicate OnTrack(t: Torrent, content: Bytes, i: nat, w: World) {
    && Supported(t.info) && t.info.NumPieces() % 8 != 0 && Truthful(t, content)
    && Reachable(t, w) && Quiet(w) && !w.bf.Complete()
    && i < |w.nodes| && GoodPeer(t, content, w.nodes[i])
  }

  // ---- What gets less ----

  ghost function BlocksToCome(t: Torrent, n: Node): int
    requires t.info.Valid()
  {
    TotalBlocks(t.info, t.info.NumPieces()) - n.s.log.received
  }

  /** How far the downloader is from waiting for its next block. */
  ghost function Distance(n: Node): nat {
    (if n.s.chokedUs then 10 else 0) +
    match n.phase
    case Waiting => 0
    case AtTop => 1
    case Starting(_) => 2
    case Picking => 3
    case Requesting => 4
    case HandingOver(_) => 5
    case Sending(_) => 6
    case Completing(_) => 7
    case Stopped => 8
  }

  ghost predicate Closer(n: Node, n': Node) {
    || n'.s.log.received > n.s.log.received
    || (n'.s.log.received == n.s.log.received && Distance(n') < Distance(n))
  }

  /** The next quiet world, closer to the end, or the end. */
  ghost predicate Advances(t: Torrent, content: Bytes, i: nat, w: World, w': World) {
    && Leads(t, w, w') && Reachable(t, w') && w'.rejected == w.rejected && w'.queue == []
    && i < |w.nodes| && i < |w'.nodes|
    && (w'.receiver.Returned? || (OnTrack(t, content, i, w') && Closer(w.nodes[i], w'.nodes[i])))
  }

  // ---- The next move of the good peer ----

  lemma BlockAdvances(t: Torrent, content: Bytes, i: nat, w: World) returns (w': World)
    requires OnTrack(t, content, i, w) && At(w, i, Waiting) && !w.nodes[i].s.chokedUs
    ensures Advances(t, content, i, w, w')
  {
    NoStall(t, w, i);
    WindowBeforeFirstChoke(t, w, i);
    var b :| b in w.nodes[i].s.pendingBlocks;
    var block;
    block, w' := BlockArrives(t, content, w, i, b);
  }

  lemma PickAdvances(t: Torrent, content: Bytes, i: nat, w: World) returns (w': World)
    requires OnTrack(t, content, i, w) && At(w, i, Picking)
    ensures Advances(t, content, i, w, w')
  {
    w' := PicksWell(t, w, i);
    assert w'.bf.Missing() == w.bf.Missing();
  }

  lemma StartAdvances(t: Torrent, content: Bytes, i: nat, w: World) returns (w': World)
    requires OnTrack(t, content, i, w) && w.nodes[i].phase.Starting?
    ensures Advances(t, content, i, w, w')
  {
    Active(t, w, i);
    StartingKeepsPeer(t, content, w, i);
    w' := Starts(t, w, i);
  }

  lemma DeliveryAdvances(t: Torrent, content: Bytes, i: nat, w: World) returns (w': World)
    requires OnTrack(t, content, i, w) && w.nodes[i].phase.Completing?
    ensures Advances(t, content, i, w, w')
  {
    Active(t, w, i);
    w' := HandsOver(t, content, w, i);
  }

  lemma PeerAdvances(t: Torrent, content: Bytes, i: nat, w: World) returns (w': World)
    requires OnTrack(t, content, i, w)
    ensures Advances(t, content, i, w, w')
  {
    assert w.nodes[i] in w.nodes;
    match w.nodes[i].phase
    case AtTop => w' := GoesOn(t, w, i);
    case Waiting =>
      if w.nodes[i].s.chokedUs {
        w' := UnchokeStep(t, w, i);
      } else {
        w' := BlockAdvances(t, content, i, w);
      }
    case Requesting => w' := AsksForMore(t, content, w, i);
    case Picking => w' := PickAdvances(t, content, i, w);
    case Starting(_) => w' := StartAdvances(t, content, i, w);
    case Completing(_) => w' := DeliveryAdvances(t, content, i, w);
  }

  // ---- The whole schedule ----

  lemma {:induction false} PeerFinishes(t: Torrent, content: Bytes, i: nat, w: World) returns (w': World)
    requires OnTrack(t, content, i, w)
    ensures Leads(t, w, w') && Reachable(t, w')
    ensures w'.receiver.Returned? && w'.queue == [] && w'.rejected == w.rejected
    decreases BlocksToCome(t, w.nodes[i]), Distance(w.nodes[i])
  {
    WindowBeforeFirstChoke(t, w, i);
    var w1 := PeerAdvances(t, content, i, w);
    w' := w1;
    if !w1.receiver.Returned? {
      WindowBeforeFirstChoke(t, w1, i);
      w' := PeerFinishes(t, content, i, w1);
      LeadsThen(t, w, w1, w');
    }
  }

  lemma DrainsFirst(t: Torrent, content: Bytes, i: nat, w: World) returns (w': World)
    requires Supported(t.info) && t.info.NumPieces() % 8 != 0 && Truthful(t, content)
    requires Reachable(t, w) && Running(w) && !Jammed(t, w) && MissingAfterLine(w)
    requires i < |w.nodes| && GoodPeer(t, content, w.nodes[i])
    ensures Leads(t, w, w') && OnTrack(t, content, i, w')
    ensures CleanLine(t, w) ==> w'.rejected == w.rejected
  {
    var steps, w1 := DrainReachable(t, w);
    DrainKeepsPeer(t, content, w, steps, w1, i);
    if CleanLine(t, w) { DrainKeepsRejected(t, w, steps, w1); }
    w' := w1;
  }

  /**
   * Unless lock and channel block each other or those in line have the last missing pieces, one
   * downloader is enough that goes on and whose peer has neither choked it again nor lied: some
   * schedule leads to a return with nothing left in the channel. If no piece was rejected before,
   * and nobody in line has a wrong one, the returned file is the whole content. The number of pieces
   * must not be a multiple of 8.
   */
  lemma OneGoodPeerIsEnough(t: Torrent, content: Bytes, i: nat, w: World) returns (w': World)
    requires Supported(t.info) && t.info.NumPieces() % 8 != 0 && Truthful(t, content)
    requires Reachable(t, w) && Running(w) && !Jammed(t, w) && MissingAfterLine(w)
    requires i < |w.nodes| && GoodPeer(t, content, w.nodes[i])
    ensures Leads(t, w, w') && Reachable(t, w') && w'.receiver.Returned? && w'.queue == []
    ensures CleanLine(t, w) ==> w'.rejected == w.rejected
    ensures CleanLine(t, w) && w.rejected == {} && Authentic(t, content) ==> w'.file == content
  {
    var w1 := DrainsFirst(t, content, i, w);
    w' := PeerFinishes(t, content, i, w1);
    LeadsThen(t, w, w1, w');
    if CleanLine(t, w) && w.rejected == {} && Authentic(t, content) {
      CleanReturnHasContent(t, w', content);
    }
  }

  /** Under these conditions a return can be reached if and only if lock and channel do not block each other. */
  lemma GoodPeerReturnsIff(t: Torrent, content: Bytes, i: nat, w: World)
    requires Supported(t.info) && t.info.NumPieces() % 8 != 0 && Truthful(t, content)
    requires Reachable(t, w) && Running(w) && MissingAfterLine(w)
    requires i < |w.nodes| && GoodPeer(t, content, w.nodes[i])
    ensures !Jammed(t, w) <==> exists w': World :: Leads(t, w, w') && w'.receiver.Returned?
  {
    if Jammed(t, w) {
      forall w': World | Leads(t, w, w') ensures !w'.receiver.Returned? {
        JammedNeverReturns(t, w, w');
      }
    } else {
      var w' := OneGoodPeerIsEnough(t, content, i, w);
    }
  }
}
