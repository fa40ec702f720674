/** The round robin of the shared cursor against what the downloaders have taken, and the last piece. */
module RoundProofs {
  import opened DownloadSpec
  import opened DownloadSteps
  import opened Swarm
  import opened SwarmProofs
  import Picker
  import PeerMessages

  lemma MessageKeepsKeys(n: Node, msg: PeerMessages.Message)
    ensures OnMessage(n, msg).s.pendingPieces.Keys == n.s.pendingPieces.Keys && !OnMessage(n, msg).phase.Starting?
  {
  }

  /** Only downloader `i` moved, and it did not take or drop `p`. */
  lemma SameTakenElsewhere(w: World, i: nat, w': World, p: nat)
    requires i < |w.nodes| && |w'.nodes| == |w.nodes| && w'.nodes == w.nodes[i := w'.nodes[i]]
    requires Takes(w.nodes[i], p) <==> Takes(w'.nodes[i], p)
    ensures TakenSomewhere(w', p) <==> TakenSomewhere(w, p)
  {
    if TakenSomewhere(w, p) {
      var j :| 0 <= j < |w.nodes| && Takes(w.nodes[j], p);
      assert w'.nodes[j] in w'.nodes;
    }
    if TakenSomewhere(w', p) {
      var j :| 0 <= j < |w'.nodes| && Takes(w'.nodes[j], p);
      assert w.nodes[j] in w.nodes;
    }
  }

  /** A step that leaves the cursor alone, and what is taken, except for pieces that are owned by then. */
  lemma SameRound(w: World, i: nat, w': World)
    requires UntakenFirst(w)
    requires i < |w.nodes| && |w'.nodes| == |w.nodes| && w'.nodes == w.nodes[i := w'.nodes[i]]
    requires w'.bf.cur == w.bf.cur && w'.bf.total == w.bf.total && w.bf.owned <= w'.bf.owned
    requires forall p <- w'.bf.Missing() :: Takes(w.nodes[i], p) <==> Takes(w'.nodes[i], p)
    ensures UntakenFirst(w')
  {
    forall p <- w'.bf.Missing(), q <- w'.bf.Missing() | TakenSomewhere(w', p) && !TakenSomewhere(w', q)
      ensures w'.bf.Before(q, p)
    {
      SameTakenElsewhere(w, i, w', p);
      SameTakenElsewhere(w, i, w', q);
      assert p in w.bf.Missing() && q in w.bf.Missing();
      assert w.bf.Before(q, p);
    }
  }

  /**
   * The picker returns a piece that some downloader has taken only when every missing piece is
   * taken by some downloader.
   */
  lemma TakenPickMeansAllTaken(w: World)
    requires w.bf.Valid() && UntakenFirst(w)
    requires w.bf.Pick().1.Some? && TakenSomewhere(w, w.bf.Pick().1.value)
    ensures forall q <- w.bf.Missing() :: TakenSomewhere(w, q)
  {
    Picker.PickReturnsNearestMissing(w.bf);
    var r := w.bf.Pick().1.value;
    forall q <- w.bf.Missing() ensures TakenSomewhere(w, q) {
      assert !w.bf.Before(q, r);
    }
  }

  lemma PickKeepsRound(t: Torrent, w: World, i: nat)
    requires NodesOk(t, w) && Shape(t, w) && Enabled(t, w, Pick(i)) && UntakenFirst(w)
    ensures UntakenFirst(Apply(t, w, Pick(i)))
  {
    var w', r := Apply(t, w, Pick(i)), w.bf.Pick().1;
    Picker.PickReturnsNearestMissing(w.bf);
    if r.Some? {
      assert forall p :: Takes(w'.nodes[i], p) <==> Takes(w.nodes[i], p) || p == r.value;
      assert w'.nodes[i] in w'.nodes;
      assert TakenSomewhere(w', r.value);
      if TakenSomewhere(w, r.value) {
        TakenPickMeansAllTaken(w);
      }
      forall p <- w'.bf.Missing(), q <- w'.bf.Missing() | TakenSomewhere(w', p) && !TakenSomewhere(w', q)
        ensures w'.bf.Before(q, p)
      {
        assert p in w.bf.Missing() && q in w.bf.Missing() && q != r.value;
        SameTakenElsewhere(w, i, w', q);
        if p != r.value {
          SameTakenElsewhere(w, i, w', p);
          assert w.bf.Before(q, p);
          Picker.PickKeepsOrder(w.bf, q, p);
        } else {
          Picker.PickKeepsOrder(w.bf, p, q);
        }
      }
    } else {
      SameRound(w, i, w');
    }
  }

  lemma CompleteKeepsRound(t: Torrent, w: World, i: nat)
    requires NodesOk(t, w) && Shape(t, w) && Enabled(t, w, Complete(i)) && UntakenFirst(w)
    ensures UntakenFirst(Apply(t, w, Complete(i)))
  {
    var w' := Apply(t, w, Complete(i));
    assert w.nodes[i] in w.nodes;
    SameRound(w, i, w');
  }

  lemma RequestKeepsRound(t: Torrent, w: World, i: nat, order: seq<nat>)
    requires NodesOk(t, w) && Shape(t, w) && Enabled(t, w, Request(i, order)) && UntakenFirst(w)
    ensures UntakenFirst(Apply(t, w, Request(i, order)))
  {
    assert forall p <- order :: p in Elements(order);
    assert OnRequest(w.nodes[i], order).s.pendingPieces.Keys == w.nodes[i].s.pendingPieces.Keys;
    SameRound(w, i, Apply(t, w, Request(i, order)));
  }

  /** What was about to be in the table now is. */
  lemma StartKeepsRound(t: Torrent, w: World, i: nat)
    requires NodesOk(t, w) && Shape(t, w) && Enabled(t, w, StartPicked(i)) && UntakenFirst(w)
    ensures UntakenFirst(Apply(t, w, StartPicked(i)))
  {
    SameRound(w, i, Apply(t, w, StartPicked(i)));
  }

  lemma OtherStepKeepsRound(t: Torrent, w: World, step: Step)
    requires NodesOk(t, w) && Shape(t, w) && Enabled(t, w, step) && UntakenFirst(w)
    requires step.Ask? || step.CheckTop? || step.KeepAlive? || step.StreamEnds? || step.Send? || step.Sent?
    ensures UntakenFirst(Apply(t, w, step))
  {
    SameRound(w, step.i, Apply(t, w, step));
  }

  lemma StepKeepsRound(t: Torrent, w: World, step: Step)
    requires NodesOk(t, w) && Shape(t, w) && Enabled(t, w, step) && UntakenFirst(w)
    ensures UntakenFirst(Apply(t, w, step))
  {
    var w' := Apply(t, w, step);
    match step
    case Pick(i) => PickKeepsRound(t, w, i);
    case Complete(i) => CompleteKeepsRound(t, w, i);
    case Message(i, msg) =>
      MessageKeepsKeys(w.nodes[i], msg);
      SameRound(w, i, w');
    case Receive => NoDownloaderMoves(w, w');
    case AskToCheck => NoDownloaderMoves(w, w');
    case CheckDone => NoDownloaderMoves(w, w');
    case ChannelCloses => NoDownloaderMoves(w, w');
    case Request(i, order) => RequestKeepsRound(t, w, i, order);
    case StartPicked(i) => StartKeepsRound(t, w, i);
    case _ => OtherStepKeepsRound(t, w, step);
  }

  lemma NoDownloaderMoves(w: World, w': World)
    requires w'.nodes == w.nodes && w'.bf == w.bf && UntakenFirst(w)
    ensures UntakenFirst(w')
  {
    assert forall p: nat :: TakenSomewhere(w', p) <==> TakenSomewhere(w, p);
  }

  // ---- The last piece ----

  lemma CompleteKeepsLastPiece(t: Torrent, w: World, i: nat)
    requires NodesOk(t, w) && Shape(t, w) && Enabled(t, w, Complete(i)) && LastPieceOk(w)
    ensures LastPieceOk(Apply(t, w, Complete(i)))
  {
    var w', index := Apply(t, w, Complete(i)), w.nodes[i].phase.index;
    assert w.nodes[i] in w.nodes;
    assert w'.bf.Missing() == w.bf.Missing() - {index};
    assert w'.nodes[i].phase.Stopped? <==> SetPanics(w.bf, index);
  }

  lemma StepKeepsLastPiece(t: Torrent, w: World, step: Step)
    requires NodesOk(t, w) && Shape(t, w) && Enabled(t, w, step) && LastPieceOk(w)
    ensures LastPieceOk(Apply(t, w, step))
  {
    match step
    case Complete(i) => CompleteKeepsLastPiece(t, w, i);
    case Pick(i) =>
      Picker.PickReturnsNearestMissing(w.bf);
      assert Apply(t, w, step).bf.Missing() == w.bf.Missing();
    case _ =>
  }
}
