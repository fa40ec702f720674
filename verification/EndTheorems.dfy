/** The last piece: when a download that owns everything can still return, and when the file is whole then. */
module EndTheorems {
  import opened ByteStrings
  import opened Wrappers
  import opened DownloadSpec
  import opened DownloadSteps
  import opened Swarm
  import opened NodeProofs
  import opened SwarmProofs
  import opened RoundProofs
  import opened SwarmTheorems
  import opened SwarmSchedules
  import opened LockLine
  import opened LockTheorems
  import opened Draining
  import opened QuietSteps
  import Picker

  // ---- Everything is owned: can the download still return? ----

  /** The downloader will put something into the channel, or can. */
  ghost predicate CanStillSend(t: Torrent, n: Node) {
    || n.phase.Waiting? || n.phase.Sending?
    || (n.phase.Completing? && n.phase.index in n.s.pendingPieces
        && ValidatePiece(t, n.s.pendingPieces[n.phase.index].bytes, n.s.pendingPieces[n.phase.index].pieceHash))
  }

  /** The loop is at its check, or will come to it. */
  ghost predicate SomethingToCome(t: Torrent, w: World) {
    w.receiver.Checking? || w.queue != [] || exists n <- w.nodes :: CanStillSend(t, n)
  }

  /** The download has failed, or will as soon as all downloaders have left. */
  ghost predicate Over(t: Torrent, w: World) {
    w.receiver.Failed? || (w.receiver.Receiving? && w.bf.Complete() && !SomethingToCome(t, w))
  }

  /** With everything owned nothing panics, and a downloader without the right hash has nothing to send. */
  lemma NobodyNewSends(t: Torrent, w: World, step: Step)
    requires Shape(t, w) && Enabled(t, w, step) && Over(t, w) && Mover(step).Some?
    ensures step.i < |w.nodes| == |Apply(t, w, step).nodes|
    ensures !CanStillSend(t, Apply(t, w, step).nodes[step.i])
  {
    assert w.nodes[step.i] in w.nodes;
    if step.Pick? { Picker.PickReturnsNearestMissing(w.bf); }
  }

  lemma OverStays(t: Torrent, w: World, step: Step)
    requires Shape(t, w) && Enabled(t, w, step) && Over(t, w)
    ensures Over(t, Apply(t, w, step))
  {
    var w' := Apply(t, w, step);
    CompleteStays(t, w, step);
    if Mover(step).Some? {
      NobodyNewSends(t, w, step);
      SameOthers(t, w, step);
      assert w.nodes[step.i] in w.nodes && !CanStillSend(t, w.nodes[step.i]);
      assert w'.queue == w.queue && w'.receiver == w.receiver;
      forall n <- w'.nodes ensures !CanStillSend(t, n) {
        var j :| 0 <= j < |w'.nodes| && w'.nodes[j] == n;
        assert j != step.i ==> w.nodes[j] in w.nodes;
      }
    }
  }

  lemma SameOthers(t: Torrent, w: World, step: Step)
    requires Shape(t, w) && Enabled(t, w, step) && Mover(step).Some?
    ensures step.i < |w.nodes| && |Apply(t, w, step).nodes| == |w.nodes|
    ensures forall j :: 0 <= j < |w.nodes| && j != step.i ==> Apply(t, w, step).nodes[j] == w.nodes[j]
  {
  }

  lemma {:induction false} OverIsForever(t: Torrent, w: World, steps: seq<Step>, w': World)
    requires Over(t, w) && Exec(t, w, steps) == Some(w')
    ensures Over(t, w')
    decreases |steps|
  {
    if steps != [] {
      OverStays(t, w, steps[0]);
      OverIsForever(t, Apply(t, w, steps[0]), steps[1..], w');
    }
  }

  // ---- If something is to come, it comes ----

  lemma ChecksAndReturns(t: Torrent, w: World) returns (w': World)
    requires Supported(t.info) && Reachable(t, w) && w.bf.Complete() && w.receiver.Checking? && !CheckBlocked(t, w)
    ensures Leads(t, w, w') && w'.receiver.Returned?
  {
    EveryReachableWorldIsOk(t, w);
    var steps;
    steps, w' := CheckFinishes(t, w);
  }

  lemma ReceivesAndReturns(t: Torrent, w: World) returns (w': World)
    requires Supported(t.info) && Reachable(t, w) && w.bf.Complete() && w.receiver.Receiving? && w.queue != []
    requires !NoRoom(t, w, CAPACITY + 1)
    ensures Leads(t, w, w') && w'.receiver.Returned?
  {
    EveryReachableWorldIsOk(t, w);
    ReceiveCounts(t, w);
    var w1 := FirstStep(t, w, Receive);
    w' := ChecksAndReturns(t, w1);
    LeadsThen(t, w, w1, w');
  }

  /** Those ahead in line go on until one of them has sent. */
  lemma {:induction false} SendsAndReturns(t: Torrent, w: World) returns (w': World)
    requires Supported(t.info) && Reachable(t, w) && w.bf.Complete() && w.receiver.Receiving?
    requires |w.queue| + SendsAhead(t, w) > 0 && !NoRoom(t, w, CAPACITY + 1)
    ensures Leads(t, w, w') && w'.receiver.Returned?
    decreases Rank(w)
  {
    if w.queue != [] {
      w' := ReceivesAndReturns(t, w);
    } else {
      var w1 := OneMovesOn(t, w);
      w' := SendsAndReturns(t, w1);
      LeadsThen(t, w, w1, w');
    }
  }

  lemma OneMovesOn(t: Torrent, w: World) returns (w': World)
    requires Supported(t.info) && Reachable(t, w) && w.bf.Complete() && w.receiver.Receiving? && w.queue == []
    requires SendsAhead(t, w) > 0 && !NoRoom(t, w, CAPACITY + 1)
    ensures Leads(t, w, w') && Reachable(t, w') && w'.bf.Complete() && w'.receiver.Receiving? && Rank(w') < Rank(w)
    ensures |w'.queue| + SendsAhead(t, w') > 0 && !NoRoom(t, w', CAPACITY + 1)
  {
    EveryReachableWorldIsOk(t, w);
    var step := OthersMoveOn(t, w);
    CompleteStays(t, w, step);
    w' := FirstStep(t, w, step);
  }

  /** A waiter with the right hash sends, when everything is owned. */
  lemma {:induction false} RightHashSends(
      t: Torrent, total: nat, owned: set<nat>, nodes: seq<Node>, line: seq<Waiter>, j: nat)
    requires (forall p: nat :: p < total ==> p in owned) && j < |nodes|
    requires nodes[j].phase.Completing? && CanStillSend(t, nodes[j]) && Downloader(j) in line
    ensures SendsOf(t, total, owned, nodes, line) > 0
    decreases |line|
  {
    if line[0] != Downloader(j) {
      RightHashSends(t, total, owned + Finished(nodes, line[0]), nodes, line[1..], j);
    }
  }

  lemma CompleterReturns(t: Torrent, w: World, j: nat) returns (w': World)
    requires Supported(t.info) && Reachable(t, w) && w.bf.Complete() && w.receiver.Receiving? && w.queue == []
    requires !NoRoom(t, w, CAPACITY + 1)
    requires j < |w.nodes| && w.nodes[j].phase.Completing? && CanStillSend(t, w.nodes[j])
    ensures Leads(t, w, w') && w'.receiver.Returned?
  {
    EveryReachableWorldIsOk(t, w);
    Picker.CompleteIffConfirmed(w.bf);
    AheadWithoutLoop(w.line);
    if Downloader(j) in w.line {
      RightHashSends(t, w.bf.total, w.bf.owned, w.nodes, w.line, j);
      w' := SendsAndReturns(t, w);
    } else if SendsAhead(t, w) > 0 {
      w' := SendsAndReturns(t, w);
    } else {
      var w1 := FirstStep(t, w, Ask(j));
      AskingMakesOneSend(t, w, w1, j);
      w' := SendsAndReturns(t, w1);
      LeadsThen(t, w, w1, w');
    }
  }

  lemma AskingMakesOneSend(t: Torrent, w: World, w1: World, j: nat)
    requires LineOk(w) && w.receiver.Receiving? && w.queue == [] && SendsAhead(t, w) == 0
    requires (forall p: nat :: p < w.bf.total ==> p in w.bf.owned) && j < |w.nodes|
    requires w.nodes[j].phase.Completing? && CanStillSend(t, w.nodes[j])
    requires w1 == w.(line := w.line + [Downloader(j)])
    ensures SendsAhead(t, w1) > 0 && !NoRoom(t, w1, CAPACITY + 1)
  {
    AheadWithoutLoop(w.line);
    OneMoreInLine(w.line, Downloader(j));
    OneMoreSends(t, w.bf.total, w.bf.owned, w.nodes, w.line, Downloader(j));
    RightHashSends(t, w.bf.total, w.bf.owned, w.nodes, w1.line, j);
  }

  lemma LeaverReturns(t: Torrent, w: World, j: nat) returns (w': World)
    requires Supported(t.info) && Reachable(t, w) && w.bf.Complete() && w.receiver.Receiving? && w.queue == []
    requires !NoRoom(t, w, CAPACITY + 1) && At(w, j, Waiting)
    ensures Leads(t, w, w') && w'.receiver.Returned?
  {
    if SendsAhead(t, w) > 0 {
      w' := SendsAndReturns(t, w);
    } else {
      EveryReachableWorldIsOk(t, w);
      OtherStepCounts(t, w, StreamEnds(j), CAPACITY + 1);
      var w1 := FirstStep(t, w, StreamEnds(j));
      w' := ReceivesAndReturns(t, w1);
      LeadsThen(t, w, w1, w');
    }
  }

  /**
   * Once every piece is owned, the download can still return if and only if lock and channel do not
   * block each other and something is still to come: a check, a message, or a downloader that has a
   * piece with the right hash or can report that its peer has left.
   */
  lemma AllOwnedReturnsIff(t: Torrent, w: World)
    requires Supported(t.info) && Reachable(t, w) && Running(w) && w.bf.Complete()
    ensures (exists w': World :: Leads(t, w, w') && w'.receiver.Returned?) <==>
              !Jammed(t, w) && SomethingToCome(t, w)
  {
    if Jammed(t, w) {
      forall w': World | Leads(t, w, w') ensures !w'.receiver.Returned? { JammedNeverReturns(t, w, w'); }
    } else if !SomethingToCome(t, w) {
      forall w': World | Leads(t, w, w') ensures !w'.receiver.Returned? { OverNeverReturns(t, w, w'); }
    } else if w.receiver.Checking? {
      var w' := ChecksAndReturns(t, w);
    } else if w.queue != [] {
      var w' := ReceivesAndReturns(t, w);
    } else {
      var n :| n in w.nodes && CanStillSend(t, n);
      var j :| 0 <= j < |w.nodes| && w.nodes[j] == n;
      if n.phase.Waiting? {
        var w' := LeaverReturns(t, w, j);
      } else if n.phase.Sending? {
        var w' := SendsAndReturns(t, w);
      } else {
        var w' := CompleterReturns(t, w, j);
      }
    }
  }

  lemma OverNeverReturns(t: Torrent, w: World, w': World)
    requires Over(t, w) && Leads(t, w, w')
    ensures !w'.receiver.Returned?
  {
    var steps: seq<Step> :| Exec(t, w, steps) == Some(w');
    OverIsForever(t, w, steps, w');
  }

  // ---- The last piece of a multiple of 8 ----

  /** A downloader that is alone has taken nothing that is owned. */
  ghost predicate OnlyMissingTaken(w: World) {
    |w.nodes| == 1 && !w.nodes[0].phase.Stopped? ==> forall p <- w.bf.owned :: !Takes(w.nodes[0], p)
  }

  lemma AlonePicks(t: Torrent, w: World)
    requires Shape(t, w) && |w.nodes| == 1 && Enabled(t, w, Pick(0)) && OnlyMissingTaken(w)
    ensures OnlyMissingTaken(Apply(t, w, Pick(0)))
  {
    Picker.PickReturnsNearestMissing(w.bf);
    var w' := Apply(t, w, Pick(0));
    assert w'.nodes[0] == OnPick(w.nodes[0], w.bf.Pick().1);
    forall p <- w'.bf.owned ensures !Takes(w'.nodes[0], p) { assert !Takes(w.nodes[0], p); }
  }

  lemma AloneCompletes(t: Torrent, w: World)
    requires Shape(t, w) && |w.nodes| == 1 && Enabled(t, w, Complete(0)) && OnlyMissingTaken(w)
    ensures OnlyMissingTaken(Apply(t, w, Complete(0)))
  {
    assert w.nodes[0] in w.nodes;
  }

  lemma AloneMoves(t: Torrent, w: World, step: Step)
    requires Supported(t.info) && NodesOk(t, w) && Shape(t, w) && |w.nodes| == 1 && OnlyMissingTaken(w)
    requires Enabled(t, w, step) && Mover(step) == Some(0) && !step.Pick? && !step.Complete?
    ensures OnlyMissingTaken(Apply(t, w, step))
  {
    var n := w.nodes[0];
    if step.Message? {
      MessageKeepsKeys(n, step.msg);
    } else if step.Request? {
      assert NodeOk(t, w.bf, n);
      RequestCounts(t, w.bf, n, step.order);
    }
  }

  lemma AloneStep(t: Torrent, w: World, step: Step)
    requires Supported(t.info) && NodesOk(t, w) && Shape(t, w) && Enabled(t, w, step) && OnlyMissingTaken(w)
    ensures OnlyMissingTaken(Apply(t, w, step))
  {
    if |w.nodes| == 1 && Mover(step).Some? {
      if step.Pick? {
        AlonePicks(t, w);
      } else if step.Complete? {
        AloneCompletes(t, w);
      } else {
        AloneMoves(t, w, step);
      }
    }
  }

  /** What was lost by the only downloader never turns up again. */
  ghost predicate LostForGood(w: World) {
    |w.nodes| == 1 ==> forall p <- w.lost :: !Around(w, p)
  }

  ghost predicate Around(w: World, p: nat) {
    p in w.spliced || Queued(w, p) || InHand(w, p)
  }

  /** A step brings a piece into circulation only when it is completed. */
  lemma NothingTurnsUp(t: Torrent, w: World, step: Step, p: nat)
    requires NodesOk(t, w) && Shape(t, w) && Enabled(t, w, step) && !step.Complete? && !Around(w, p)
    ensures !Around(Apply(t, w, step), p) && Apply(t, w, step).lost == w.lost
  {
    NothingQueued(t, w, step, p);
    NothingInHand(t, w, step, p);
    if step.Receive? { assert w.queue[0] in w.queue; }
  }

  lemma NothingQueued(t: Torrent, w: World, step: Step, p: nat)
    requires Shape(t, w) && Enabled(t, w, step) && !Queued(w, p) && !InHand(w, p)
    ensures !Queued(Apply(t, w, step), p)
  {
    forall m <- Apply(t, w, step).queue ensures !(m.PieceMsg? && m.delivery.index == p) {
      if m !in w.queue && m.PieceMsg? {
        assert w.nodes[step.i] in w.nodes;
      }
    }
  }

  lemma NothingInHand(t: Torrent, w: World, step: Step, p: nat)
    requires Shape(t, w) && Enabled(t, w, step) && !step.Complete? && !InHand(w, p)
    ensures !InHand(Apply(t, w, step), p)
  {
    forall n <- Apply(t, w, step).nodes ensures !(n.phase.Sending? && n.phase.delivery.index == p) {
      assert n in w.nodes || !n.phase.Sending?;
    }
  }

  lemma AloneLoses(t: Torrent, w: World)
    requires WorldOk(t, w) && Shape(t, w) && |w.nodes| == 1 && Enabled(t, w, Complete(0))
    requires OnlyMissingTaken(w) && LostForGood(w)
    ensures LostForGood(Apply(t, w, Complete(0)))
  {
    var w', n, index := Apply(t, w, Complete(0)), w.nodes[0], w.nodes[0].phase.index;
    assert n in w.nodes && Takes(n, index);
    assert index !in w.bf.owned;
    forall p <- w'.lost ensures !Around(w', p) {
      assert p in w.lost ==> p in w.bf.owned && !Around(w, p);
      OnlyCompletedTurnsUp(t, w, p);
    }
  }

  /** Completing brings into circulation no other piece, and not even this one if it panics. */
  lemma OnlyCompletedTurnsUp(t: Torrent, w: World, p: nat)
    requires Shape(t, w) && |w.nodes| == 1 && Enabled(t, w, Complete(0)) && !Around(w, p)
    ensures var w' := Apply(t, w, Complete(0));
            p != w.nodes[0].phase.index || w'.nodes[0].phase.Stopped? ==> !Around(w', p)
  {
    var w' := Apply(t, w, Complete(0));
    assert w.nodes[0] in w.nodes && w'.nodes == [w'.nodes[0]];
  }

  lemma NothingTurnsUpOf(t: Torrent, w: World, step: Step, pieces: set<nat>)
    requires NodesOk(t, w) && Shape(t, w) && Enabled(t, w, step) && !step.Complete?
    requires forall p <- pieces :: !Around(w, p)
    ensures Apply(t, w, step).lost == w.lost && forall p <- pieces :: !Around(Apply(t, w, step), p)
  {
    forall p <- pieces { NothingTurnsUp(t, w, step, p); }
    LostOnlyInCompletion(t, w, step);
  }

  lemma LostOnlyInCompletion(t: Torrent, w: World, step: Step)
    requires Shape(t, w) && Enabled(t, w, step) && !step.Complete?
    ensures Apply(t, w, step).lost == w.lost && |Apply(t, w, step).nodes| == |w.nodes|
  {
  }

  lemma LostStays(t: Torrent, w: World, step: Step)
    requires WorldOk(t, w) && Shape(t, w) && Enabled(t, w, step) && OnlyMissingTaken(w) && LostForGood(w)
    ensures LostForGood(Apply(t, w, step))
  {
    if |w.nodes| == 1 {
      if step.Complete? {
        AloneLoses(t, w);
      } else {
        NothingTurnsUpOf(t, w, step, w.lost);
      }
    }
  }

  lemma {:induction false} AloneRun(t: Torrent, w: World, steps: seq<Step>, w': World)
    requires Supported(t.info) && WorldOk(t, w) && OnlyMissingTaken(w) && LostForGood(w)
    requires Exec(t, w, steps) == Some(w')
    ensures LostForGood(w')
    decreases |steps|
  {
    if steps != [] {
      AloneStep(t, w, steps[0]);
      LostStays(t, w, steps[0]);
      StepKeepsWorld(t, w, steps[0]);
      AloneRun(t, Apply(t, w, steps[0]), steps[1..], w');
    }
  }

  /** With one downloader and a positive multiple of 8, no run returns with every piece in the file. */
  lemma AloneIsNeverWhole(t: Torrent, w: World)
    requires Supported(t.info) && Reachable(t, w) && |w.nodes| == 1 && w.receiver.Returned?
    requires t.info.NumPieces() > 0 && t.info.NumPieces() % 8 == 0
    ensures !AllSpliced(t, w)
  {
    EveryReachableWorldIsOk(t, w);
    var seeds: nat, steps: seq<Step> :| Exec(t, Start(t, seeds), steps) == Some(w);
    StartOk(t, seeds);
    AloneRun(t, Start(t, seeds), steps, w);
    var p :| p in w.lost;
    assert !Around(w, p) && p in w.bf.owned;
  }

  /**
   * With two it can: if both have finished the last missing piece, the one that records it first
   * loses it in the panic, and the other delivers it.
   */
  lemma SecondDeliversLostPiece(t: Torrent, content: Bytes, w: World, i: nat, j: nat, p: nat) returns (w': World)
    requires Supported(t.info) && t.info.NumPieces() % 8 == 0 && Truthful(t, content)
    requires Reachable(t, w) && Quiet(w) && w.bf.Missing() == {p} && w.rejected == {}
    requires i < |w.nodes| && j < |w.nodes| && i != j && At(w, i, Completing(p)) && At(w, j, Completing(p))
    requires GoodPeer(t, content, w.nodes[i]) && GoodPeer(t, content, w.nodes[j])
    ensures Leads(t, w, w') && Reachable(t, w') && w'.receiver.Returned? && w'.lost == {p} && AllSpliced(t, w')
  {
    AllButOneSpliced(t, w, p);
    var w1 := LosesLast(t, content, w, i, p);
    w' := HandsOver(t, content, w1, j);
    LeadsThen(t, w, w1, w');
  }

  lemma AllButOneSpliced(t: Torrent, w: World, p: nat)
    requires Supported(t.info) && Reachable(t, w) && Quiet(w) && w.bf.Missing() == {p} && w.rejected == {}
    ensures w.bf.total == t.info.NumPieces() && w.lost == {}
    ensures forall q: nat :: q < w.bf.total && q != p ==> q in w.spliced
  {
    EveryReachableWorldIsOk(t, w);
    forall q: nat | q < w.bf.total && q != p ensures q in w.spliced {
      assert q !in w.bf.Missing();
      assert !InHand(w, q);
    }
  }

  lemma LosesLast(t: Torrent, content: Bytes, w: World, i: nat, p: nat) returns (w': World)
    requires Supported(t.info) && t.info.NumPieces() % 8 == 0 && Truthful(t, content)
    requires Reachable(t, w) && Quiet(w) && w.bf.Missing() == {p} && At(w, i, Completing(p))
    requires GoodPeer(t, content, w.nodes[i]) && w.lost == {}
    ensures Leads(t, w, w') && Reachable(t, w') && Quiet(w') && w'.bf.Missing() == {}
    ensures w' == With(w, i, w.nodes[i].(phase := Stopped)).(bf := w'.bf, lost := {p})
  {
    FinishedPiece(t, content, w, i);
    w' := CompleteStep(t, w, i);
    assert p in w.bf.Missing();
  }
}
