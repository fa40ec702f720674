/** The 8-bit counter of requests in flight over whole runs: chokes can always make it overflow. */
module CounterTheorems {
  import opened Wrappers
  import opened MetaInfo
  import opened DownloadSpec
  import opened DownloadProofs
  import opened DownloadSteps
  import opened CounterProofs
  import opened Swarm
  import opened SwarmTheorems
  import opened SwarmSchedules
  import opened SwarmSteps
  import opened LockTheorems
  import opened Draining
  import Picker
  import PeerMessages

  // ---- The first piece ----

  lemma FirstRequests(info: Info)
    requires Supported(info) && info.NumPieces() > 0 && CeilBlocks(Size(info, 0)) >= MAX_INFLIGHT_PER_PEER
    ensures var s := StartPiece(Unchoke(FRESH), info, 0);
            && s.pendingPieces.Keys == {0} && s.pendingPieces[0].pieceLength == Size(info, 0)
            && s.inflight == MAX_INFLIGHT_PER_PEER && !s.chokedUs && s.log.restarts == 0
  {
    StartPieceIs(info, Unchoke(FRESH), 0);
    var r := Requests(NewPiece(info, 0), {}, 0, []);
    RequestBlocksCounts(0, r);
    RequestBlocksKeepsLength(0, r);
  }

  lemma {:induction false} RequestBlocksKeepsLength(p: nat, r: Requests)
    requires r.dl.requested <= r.dl.pieceLength
    ensures RequestBlocks(p, r).dl.pieceLength == r.dl.pieceLength
    decreases r.dl.pieceLength - r.dl.requested
  {
    if r.dl.requested < r.dl.pieceLength && r.inflight < COUNTER_LIMIT {
      RequestBlocksKeepsLength(p, RequestNext(p, r));
    }
  }

  lemma StartsFirstPiece(t: Torrent, w: World) returns (w': World)
    requires Supported(t.info) && t.info.NumPieces() > 0 && Reachable(t, w) && Running(w) && Unlocked(w)
    requires w.bf == Picker.Zero(t.info.NumPieces()) && w.nodes == [Node(Unchoke(FRESH), Picking, 0)]
    ensures Leads(t, w, w') && Reachable(t, w') && Unlocked(w')
    ensures w' == w.(nodes := [Node(StartPiece(Unchoke(FRESH), t.info, 0), AtTop, 0)], bf := w.bf.(cur := w.bf.Next()))
  {
    assert w.bf.Pick() == (w.bf.(cur := w.bf.Next()), Some(0));
    var w1 := PickStep(t, w, 0);
    w' := Starts(t, w1, 0);
    LeadsThen(t, w, w1, w');
  }

  lemma ChokeAndWait(t: Torrent, w: World, i: nat) returns (w': World)
    requires Supported(t.info) && Reachable(t, w) && Running(w) && Unlocked(w)
    requires At(w, i, Waiting) && !w.bf.Complete()
    ensures Leads(t, w, w') && Reachable(t, w') && Unlocked(w')
    ensures w' == With(w, i, w.nodes[i].(s := DownloadSpec.Choke(w.nodes[i].s), phase := Waiting))
  {
    var w1 := ChokeStep(t, w, i);
    w' := GoesOn(t, w1, i);
    LeadsThen(t, w, w1, w');
  }

  /** A choke and an unchoke, up to the point where the pending pieces are asked for again. */
  lemma ChokeAndUnchoke(t: Torrent, w: World, i: nat) returns (w': World)
    requires Supported(t.info) && Reachable(t, w) && Running(w) && Unlocked(w)
    requires At(w, i, Waiting) && !w.bf.Complete()
    ensures Leads(t, w, w') && Reachable(t, w') && Unlocked(w')
    ensures w' == With(w, i, w.nodes[i].(s := Unchoke(DownloadSpec.Choke(w.nodes[i].s)), phase := Requesting))
  {
    var w1 := ChokeAndWait(t, w, i);
    w' := UnchokeStep(t, w1, i);
    LeadsThen(t, w, w1, w');
  }

  // ---- Chokes overflow the counter of any downloader ----

  /** Downloader `i` is waiting for blocks, and the download is not over. */
  ghost predicate Awaits(t: Torrent, w: World, i: nat) {
    && Reachable(t, w) && Running(w) && Unlocked(w) && !w.bf.Complete()
    && At(w, i, Waiting) && !w.nodes[i].s.chokedUs && w.nodes[i].s.pendingPieces.Keys != {}
  }

  ghost predicate OverflowsBy(t: Torrent, w: World, i: nat, w': World) {
    Leads(t, w, w') && Reachable(t, w') && i < |w'.nodes| && w'.nodes[i].phase == Stopped && Overflowed(w'.nodes[i].s)
  }

  /** One pass over the pending pieces, in any order. */
  lemma Passes(t: Torrent, w: World, i: nat) returns (w': World)
    requires Supported(t.info) && Reachable(t, w) && Running(w) && Unlocked(w) && At(w, i, Requesting)
    ensures Leads(t, w, w') && Reachable(t, w') && Unlocked(w') && i < |w'.nodes| && w' == With(w, i, w'.nodes[i])
    ensures var s, n' := w.nodes[i].s, w'.nodes[i];
            && Leak(n'.s) == Leak(s) && n'.s.pendingPieces.Keys == s.pendingPieces.Keys && !n'.s.chokedUs
            && (n'.phase.Stopped? <==> Overflowed(n'.s))
            && (n'.phase.Stopped? || n'.phase.Picking? || n'.phase.AtTop?)
  {
    var order := AnyOrder(w.nodes[i].s.pendingPieces.Keys);
    PassCountsHere(t, w, i, order);
    w' := RequestStep(t, w, i, order);
  }

  lemma PassCountsHere(t: Torrent, w: World, i: nat, order: seq<nat>)
    requires Supported(t.info) && Reachable(t, w) && At(w, i, Requesting)
    requires IsOrderOf(order, w.nodes[i].s.pendingPieces.Keys)
    ensures forall p <- order :: p in w.nodes[i].s.pendingPieces
    ensures var s, n' := w.nodes[i].s, OnRequest(w.nodes[i], order);
            && Leak(n'.s) == Leak(s) && n'.s.pendingPieces.Keys == s.pendingPieces.Keys && !n'.s.chokedUs
            && n'.s.log.restarts == s.log.restarts
            && (n'.phase.Stopped? <==> Overflowed(n'.s))
            && (n'.phase.Stopped? || n'.phase.Picking? || n'.phase.AtTop?)
  {
    ReachableNode(t, w, i);
    RequestCounts(t, w.bf, w.nodes[i], order);
  }

  /** From asking for the pending pieces to waiting again, if the counter does not overflow. */
  lemma AsksAgain(t: Torrent, w: World, i: nat) returns (w': World)
    requires Supported(t.info) && Reachable(t, w) && Running(w) && Unlocked(w) && !w.bf.Complete()
    requires At(w, i, Requesting) && w.nodes[i].s.pendingPieces.Keys != {}
    ensures if At(w', i, Stopped) then OverflowsBy(t, w, i, w')
            else Awaits(t, w', i) && Leads(t, w, w') && Leak(w'.nodes[i].s) == Leak(w.nodes[i].s)
  {
    w' := Passes(t, w, i);
    if w'.nodes[i].phase.Picking? {
      var w1 := w';
      w' := PicksAnother(t, w1, i);
      LeadsThen(t, w, w1, w');
    }
    if !w'.nodes[i].phase.Stopped? {
      var w2 := w';
      w' := GoesOn(t, w2, i);
      LeadsThen(t, w, w2, w');
    }
  }

  lemma PicksAnother(t: Torrent, w: World, i: nat) returns (w': World)
    requires Supported(t.info) && Reachable(t, w) && Running(w) && Unlocked(w) && !w.bf.Complete()
    requires At(w, i, Picking) && w.nodes[i].s.pendingPieces.Keys != {}
    ensures Leads(t, w, w') && Reachable(t, w') && Running(w') && Unlocked(w') && !w'.bf.Complete()
    ensures At(w', i, AtTop) && !w'.nodes[i].s.chokedUs && w'.nodes[i].s.pendingPieces.Keys != {}
    ensures Leak(w'.nodes[i].s) == Leak(w.nodes[i].s)
  {
    ReachableNode(t, w, i);
    var steps, w1 := PickingIsASchedule(t, w, i);
    PickNextKeeps(t.info, w.nodes[i].s, w.bf);
    w' := w1;
    assert w'.bf.Missing() == w.bf.Missing();
  }

  lemma {:induction false} ChokesOverflowUnlocked(t: Torrent, w: World, i: nat) returns (w': World)
    requires Supported(t.info) && Awaits(t, w, i)
    ensures OverflowsBy(t, w, i, w')
    decreases COUNTER_LIMIT - Leak(w.nodes[i].s)
  {
    NotOverflowed(t, w, i);
    NoStall(t, w, i);
    OnlyChokesStrandRequests(t, w, Message(i, PeerMessages.Choke), i);
    var w1 := ChokeAndUnchoke(t, w, i);
    assert Leak(w1.nodes[i].s) > Leak(w.nodes[i].s);
    var w2 := AsksAgain(t, w1, i);
    LeadsThen(t, w, w1, w2);
    w' := w2;
    if !At(w2, i, Stopped) {
      w' := ChokesOverflowUnlocked(t, w2, i);
      LeadsThen(t, w, w2, w');
    }
  }

  /**
   * Whatever the torrent is and however the download got here: unless lock and channel block each
   * other, or those in line have the last missing pieces, chokes can overflow the counter of a
   * downloader that waits with a piece pending. Nobody is overtaken in line.
   */
  lemma ChokesOverflow(t: Torrent, w: World, i: nat) returns (w': World)
    requires Supported(t.info) && Reachable(t, w) && Running(w) && !Jammed(t, w) && MissingAfterLine(w)
    requires At(w, i, Waiting) && !w.nodes[i].s.chokedUs && w.nodes[i].s.pendingPieces.Keys != {}
    ensures OverflowsBy(t, w, i, w')
  {
    var steps, w1 := DrainReachable(t, w);
    DrainKeepsWaiting(t, w, steps, w1, i);
    w' := ChokesOverflowUnlocked(t, w1, i);
    LeadsThen(t, w, w1, w');
  }
}
