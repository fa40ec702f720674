/** When a downloader leaves its loop, and when the download fails because nobody is left. */
module FailTheorems {
  import opened Wrappers
  import opened DownloadSpec
  import opened DownloadSteps
  import opened Swarm
  import opened SwarmProofs
  import opened SwarmTheorems
  import opened SwarmSchedules
  import opened SwarmSteps
  import opened MessageOutcomes
  import Picker

  // ---- When a downloader leaves ----

  /** What makes a downloader leave in a step, said on the state before and the step. */
  ghost predicate Leaves(w: World, step: Step, i: nat)
    requires i < |w.nodes|
  {
    var n := w.nodes[i];
    match step
    case CheckTop(j) => j == i && forall p: nat :: p < w.bf.total ==> p in w.bf.owned
    case StreamEnds(j) => j == i
    case Message(j, msg) => j == i && (msg.Request? || msg.Cancel?)
    case Complete(j) => j == i && n.phase.Completing? && RecordingPanics(w.bf.owned, w.bf.total, n.phase.index)
    case Request(j, order) =>
      j == i && (forall p <- order :: p in n.s.pendingPieces)
      && !n.s.chokedUs && RequestPending(n.s, order).inflight > 255
    case _ => false
  }

  /**
   * A downloader stops in a step if and only if it finds every piece owned at the top of its loop,
   * its peer's stream ends, a message is not implemented, recording a piece panics, or its counter
   * of requests overflows.
   */
  lemma StopsIff(t: Torrent, w: World, step: Step, i: nat)
    requires Supported(t.info) && Reachable(t, w) && Enabled(t, w, step)
    requires i < |w.nodes| && !w.nodes[i].phase.Stopped?
    ensures Shape(t, w) && i < |Apply(t, w, step).nodes|
    ensures Apply(t, w, step).nodes[i].phase.Stopped? <==> Leaves(w, step, i)
  {
    EveryReachableWorldIsOk(t, w);
    if Mover(step) == Some(i) {
      MoverStopsIff(t, w, step, i);
    } else {
      OthersStay(t, w, step, i);
    }
  }

  lemma MoverStopsIff(t: Torrent, w: World, step: Step, i: nat)
    requires Shape(t, w) && Enabled(t, w, step) && Mover(step) == Some(i) && i < |w.nodes|
    requires !w.nodes[i].phase.Stopped?
    ensures i < |Apply(t, w, step).nodes|
    ensures Apply(t, w, step).nodes[i].phase.Stopped? <==> Leaves(w, step, i)
  {
    var n := w.nodes[i];
    assert n in w.nodes;
    match step
    case CheckTop(_) => Picker.CompleteIffConfirmed(w.bf);
    case Complete(_) => RecordingPanicsIff(w.bf, n.phase.index);
    case Request(_, order) => assert forall p <- order :: p in Elements(order);
    case _ =>
  }

  // ---- First come, first served ----

  /** What a step puts at the end of the queue. */
  ghost function PutInQueue(w: World, step: Step): seq<ChannelMsg> {
    match step
    case StreamEnds(_) => [Disconnect]
    case Send(i) => if i < |w.nodes| && w.nodes[i].phase.Sending? then [PieceMsg(w.nodes[i].phase.delivery)] else []
    case _ => []
  }

  /** What a step puts at the end of the line for the lock. */
  function PutInLine(step: Step): seq<Waiter> {
    match step
    case Ask(i) => [Downloader(i)]
    case AskToCheck => [Loop]
    case _ => []
  }

  /** Who gets the lock in a step. */
  function TakesLock(step: Step): Option<Waiter> {
    match step
    case CheckTop(i) => Some(Downloader(i))
    case Complete(i) => Some(Downloader(i))
    case Pick(i) => Some(Downloader(i))
    case CheckDone => Some(Loop)
    case _ => None
  }

  /**
   * Messages leave the queue in the order in which they came, and the lock goes to the one who has
   * waited longest, when nobody holds it.
   */
  lemma FirstComeFirstServed(t: Torrent, w: World, step: Step)
    requires Shape(t, w) && Enabled(t, w, step)
    ensures var w' := Apply(t, w, step);
            && (if step.Receive? then w.queue != [] && w'.queue == w.queue[1..]
                else w'.queue == w.queue + PutInQueue(w, step))
            && (match TakesLock(step)
                case Some(who) => LockFree(w) && w.line == [who] + w'.line
                case None => w'.line == w.line + PutInLine(step))
  {
  }

  // ---- When the download fails ----

  ghost predicate NobodyLeft(w: World) {
    forall n <- w.nodes :: n.phase.Stopped?
  }

  ghost predicate FailedOk(w: World) {
    w.receiver.Failed? ==> w.queue == [] && NobodyLeft(w)
  }

  lemma {:induction false} RunFailsLate(t: Torrent, w: World, steps: seq<Step>, w': World)
    requires FailedOk(w) && Exec(t, w, steps) == Some(w')
    ensures FailedOk(w')
    decreases |steps|
  {
    if steps != [] {
      StepFailsLate(t, w, steps[0]);
      RunFailsLate(t, Apply(t, w, steps[0]), steps[1..], w');
    }
  }

  lemma StepFailsLate(t: Torrent, w: World, step: Step)
    requires Shape(t, w) && Enabled(t, w, step)
    ensures FailedOk(Apply(t, w, step))
  {
  }

  /** A download has failed only when the channel is empty and every downloader has left. */
  lemma FailedMeansNobodyLeft(t: Torrent, w: World)
    requires Supported(t.info) && Reachable(t, w) && w.receiver.Failed?
    ensures w.queue == [] && NobodyLeft(w)
  {
    var seeds: nat, steps: seq<Step> :| Exec(t, Start(t, seeds), steps) == Some(w);
    RunFailsLate(t, Start(t, seeds), steps, w);
  }

  /** The loop is at its check, or has a message to take before the next one. */
  ghost predicate AnotherCheck(w: World) {
    w.receiver.Checking? || w.queue != []
  }

  /** With nobody left, only the loop moves: the bitfield stays as it is. */
  lemma OnlyLoopMoves(t: Torrent, w: World, step: Step)
    requires NobodyLeft(w) && Shape(t, w) && Enabled(t, w, step)
    ensures Mover(step).None?
    ensures var w' := Apply(t, w, step);
            && w'.nodes == w.nodes && w'.bf == w.bf
            && (w'.receiver.Returned? ==> w.bf.Complete() && AnotherCheck(w))
            && (w'.receiver.Failed? ==> !AnotherCheck(w))
            && (Running(w') && w.bf.Complete() ==> (AnotherCheck(w') <==> AnotherCheck(w)))
  {
  }

  /** How a run can end when nobody is left. */
  ghost predicate EndsRight(w: World, w': World) {
    && (w'.receiver.Returned? ==> w.bf.Complete() && AnotherCheck(w))
    && (w'.receiver.Failed? ==> !(w.bf.Complete() && AnotherCheck(w)))
  }

  lemma {:induction false} RunEndsRight(t: Torrent, w: World, steps: seq<Step>, w': World)
    requires NobodyLeft(w) && Running(w) && Exec(t, w, steps) == Some(w')
    ensures EndsRight(w, w')
    decreases |steps|
  {
    if steps != [] {
      var w1 := Apply(t, w, steps[0]);
      OnlyLoopMoves(t, w, steps[0]);
      if Running(w1) {
        RunEndsRight(t, w1, steps[1..], w');
      } else {
        assert steps[1..] == [];
      }
    }
  }

  lemma TwoDiffer<T>(s: seq<T>)
    requires NoDuplicates(s)
    ensures |s| > 1 ==> exists j, k :: 0 <= j < |s| && 0 <= k < |s| && s[j] != s[k]
  {
    if |s| > 1 { assert s[0] != s[1]; }
  }

  lemma OnlyLoopWaits(w: World)
    requires LineOk(w) && NobodyLeft(w)
    ensures w.line == [] || w.line == [Loop]
  {
    forall k | 0 <= k < |w.line| ensures w.line[k] == Loop { assert MayWait(w, w.line[k]); }
    TwoDiffer(w.line);
  }

  lemma LineIsEmpty(t: Torrent, w: World)
    requires Supported(t.info) && Reachable(t, w) && NobodyLeft(w) && w.line != [Loop]
    ensures w.line == []
  {
    EveryReachableWorldIsOk(t, w);
    OnlyLoopWaits(w);
  }

  lemma ChecksAlone(t: Torrent, w: World) returns (w': World)
    requires Supported(t.info) && Reachable(t, w) && NobodyLeft(w) && w.receiver.Checking?
    ensures Leads(t, w, w') && Reachable(t, w')
    ensures w' == w.(line := [], receiver := if w.bf.Complete() then Returned else Receiving)
  {
    if w.line == [Loop] {
      w' := FirstStep(t, w, CheckDone);
    } else {
      LineIsEmpty(t, w);
      w' := CheckSteps(t, w);
      LeadsBy(t, w, [AskToCheck, CheckDone], w');
    }
  }

  lemma {:induction false} GoesToTheEnd(t: Torrent, w: World) returns (w': World)
    requires Supported(t.info) && Reachable(t, w) && NobodyLeft(w) && Running(w)
    ensures Leads(t, w, w') && w'.bf == w.bf
    ensures if w.bf.Complete() && AnotherCheck(w) then w'.receiver.Returned? else w'.receiver.Failed?
    decreases |w.queue|, if w.receiver.Checking? then 1 else 0
  {
    if w.receiver.Checking? {
      w' := ChecksAlone(t, w);
    } else if w.queue != [] {
      w' := FirstStep(t, w, Receive);
    } else {
      w' := FirstStep(t, w, ChannelCloses);
    }
    if Running(w') {
      var w1 := w';
      w' := GoesToTheEnd(t, w1);
      LeadsThen(t, w, w1, w');
    }
  }

  /**
   * When every downloader has left, the download returns if and only if every piece is owned and the
   * loop comes to a check again; otherwise it fails.
   */
  lemma NobodyLeftReturnsOrFails(t: Torrent, w: World)
    requires Supported(t.info) && Reachable(t, w) && NobodyLeft(w) && Running(w)
    ensures (exists w': World :: Leads(t, w, w') && w'.receiver.Returned?) <==> w.bf.Complete() && AnotherCheck(w)
    ensures (exists w': World :: Leads(t, w, w') && w'.receiver.Failed?) <==> !(w.bf.Complete() && AnotherCheck(w))
  {
    var w' := GoesToTheEnd(t, w);
    forall w'': World | Leads(t, w, w'') ensures EndsRight(w, w'') {
      var steps: seq<Step> :| Exec(t, w, steps) == Some(w'');
      RunEndsRight(t, w, steps, w'');
    }
  }

  // ---- A download that fails ----

  /** The first `k` of the downloaders have lost their peer, and the others have not begun. */
  ghost predicate Leaving(t: Torrent, w: World, k: nat) {
    && Reachable(t, w) && w.receiver.Receiving? && Unlocked(w) && !w.bf.Complete() && k <= |w.nodes|
    && (forall j :: 0 <= j < k ==> w.nodes[j].phase.Stopped?)
    && (forall j :: k <= j < |w.nodes| ==> w.nodes[j].phase == AtTop)
  }

  lemma {:induction false} AllLeave(t: Torrent, w: World, k: nat) returns (w': World)
    requires Supported(t.info) && Leaving(t, w, k)
    ensures Leads(t, w, w') && Reachable(t, w') && Running(w') && NobodyLeft(w') && w'.bf == w.bf
    decreases |w.nodes| - k
  {
    if k == |w.nodes| {
      w' := w;
      assert Exec(t, w, []) == Some(w);
    } else {
      var w1 := GoesOn(t, w, k);
      var w2 := FirstStep(t, w1, StreamEnds(k));
      LeadsThen(t, w, w1, w2);
      assert Leaving(t, w2, k + 1);
      w' := AllLeave(t, w2, k + 1);
      LeadsThen(t, w, w2, w');
    }
  }

  lemma FreshIsLeaving(t: Torrent, seeds: nat)
    requires Supported(t.info) && t.info.NumPieces() > 0
    ensures Leaving(t, Start(t, seeds), 0)
  {
    var w := Start(t, seeds);
    assert Exec(t, w, []) == Some(w);
    assert 0 in w.bf.Missing();
    assert forall n <- w.nodes :: n == Node(FRESH, AtTop, 0);
  }

  /** With a piece to download, and any number of peers, the download fails when all peers leave at once. */
  lemma FailsWhenAllLeave(t: Torrent, seeds: nat) returns (w: World)
    requires Supported(t.info) && t.info.NumPieces() > 0
    ensures Leads(t, Start(t, seeds), w) && w.receiver.Failed? && w.bf.owned == {}
  {
    var w0 := Start(t, seeds);
    assert Exec(t, w0, []) == Some(w0);
    FreshIsLeaving(t, seeds);
    var w1 := AllLeave(t, w0, 0);
    w := GoesToTheEnd(t, w1);
    LeadsThen(t, w0, w1, w);
  }
}
