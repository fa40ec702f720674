/** Single steps of one downloader in a reachable world, each with the world it leads to. */
module SwarmSteps {
  import opened ByteStrings
  import opened DownloadSpec
  import opened DownloadSteps
  import opened Swarm
  import opened SwarmTheorems
  import opened SwarmSchedules
  import PeerMessages

  /** The downloader finds a piece missing, and waits for the next message. */
  lemma GoesOn(t: Torrent, w: World, i: nat) returns (w': World)
    requires Supported(t.info) && Reachable(t, w) && Running(w) && Unlocked(w)
    requires At(w, i, AtTop) && !w.bf.Complete()
    ensures Leads(t, w, w') && Reachable(t, w') && w' == With(w, i, w.nodes[i].(phase := Waiting)) && Unlocked(w')
  {
    var w1 := AskStep(t, w, i);
    w' := FirstStep(t, w1, CheckTop(i));
    LeadsThen(t, w, w1, w');
  }

  lemma ChokeStep(t: Torrent, w: World, i: nat) returns (w': World)
    requires Supported(t.info) && Reachable(t, w) && Running(w) && At(w, i, Waiting)
    ensures Leads(t, w, w') && Reachable(t, w')
    ensures w' == With(w, i, w.nodes[i].(s := DownloadSpec.Choke(w.nodes[i].s), phase := AtTop))
  {
    w' := FirstStep(t, w, Message(i, PeerMessages.Choke));
  }

  lemma UnchokeStep(t: Torrent, w: World, i: nat) returns (w': World)
    requires Supported(t.info) && Reachable(t, w) && Running(w) && At(w, i, Waiting) && w.nodes[i].s.chokedUs
    ensures Leads(t, w, w') && Reachable(t, w')
    ensures w' == With(w, i, w.nodes[i].(s := Unchoke(w.nodes[i].s), phase := Requesting))
  {
    w' := FirstStep(t, w, Message(i, PeerMessages.Unchoke));
  }

  lemma BlockStep(t: Torrent, w: World, i: nat, index: nat, begin: nat, block: Bytes) returns (w': World)
    requires Supported(t.info) && Reachable(t, w) && Running(w) && At(w, i, Waiting)
    requires CanAccept(w.nodes[i].s, index, begin, block)
    ensures Leads(t, w, w') && Reachable(t, w') && w' == With(w, i, OnBlock(w.nodes[i], index, begin, block))
  {
    w' := FirstStep(t, w, Message(i, PeerMessages.Piece(index, begin, block)));
  }

  /** A picked piece is started. */
  lemma Starts(t: Torrent, w: World, i: nat) returns (w': World)
    requires Supported(t.info) && Reachable(t, w) && Running(w) && i < |w.nodes|
    requires w.nodes[i].phase.Starting? && w.nodes[i].phase.piece < t.info.NumPieces()
    ensures Leads(t, w, w') && Reachable(t, w')
    ensures var n := w.nodes[i]; w' == With(w, i, n.(s := StartPiece(n.s, t.info, n.phase.piece), phase := AtTop))
  {
    w' := FirstStep(t, w, StartPicked(i));
  }

  /** A new downloader is unchoked, has nothing pending to ask for, and gets to the picker. */
  lemma AsksForFirstPiece(t: Torrent, w: World, i: nat) returns (w': World)
    requires Supported(t.info) && Reachable(t, w) && Running(w) && Unlocked(w) && !w.bf.Complete()
    requires i < |w.nodes| && w.nodes[i] == Node(FRESH, AtTop, 0)
    ensures Leads(t, w, w') && Reachable(t, w') && Unlocked(w')
    ensures w' == With(w, i, Node(Unchoke(FRESH), Picking, 0))
  {
    var w1 := GoesOn(t, w, i);
    var w2 := UnchokeStep(t, w1, i);
    assert IsOrderOf([], w2.nodes[i].s.pendingPieces.Keys) by { NothingToVisit([]); }
    w' := RequestStep(t, w2, i, []);
    LeadsThen(t, w, w1, w2);
    LeadsThen(t, w, w2, w');
  }
}
