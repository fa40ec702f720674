/**
 * Emptying hands, line and channel: if lock and channel do not block each other, everybody who waits
 * is served and everything that was sent is taken, as long as some piece is still missing.
 */
module Draining {
  import opened ByteStrings
  import opened Wrappers
  import opened MetaInfo
  import opened DownloadSpec
  import opened DownloadSteps
  import opened WindowProofs
  import opened Swarm
  import opened NodeProofs
  import opened SwarmProofs
  import opened SwarmTheorems
  import opened SwarmSchedules
  import opened LockLine
  import opened LockTheorems
  import Picker

  /** Nothing is queued, held, waited for or checked. */
  ghost predicate Quiet(w: World) {
    w.receiver.Receiving? && w.queue == [] && Unlocked(w)
  }

  /** Some piece is still missing when all in line have been served. */
  ghost predicate MissingAfterLine(w: World) {
    exists p: nat :: p < w.bf.total && p !in OwnedAll(w)
  }

  lemma MissingMeanwhile(w: World)
    requires MissingAfterLine(w)
    ensures MissingThen(w) && !w.bf.Complete()
  {
    var p: nat :| p < w.bf.total && p !in OwnedAll(w);
    AheadIsPart(w.line);
    OwnedInParts(w.nodes, w.bf.owned, Ahead(w.line), Behind(w.line));
    OwnedGrows(w.nodes, OwnedThen(w), Behind(w.line));
    OwnedGrows(w.nodes, w.bf.owned, Ahead(w.line));
    assert p in w.bf.Missing();
  }

  // ---- What gets less ----

  ghost function MessagesLeft(t: Torrent, w: World): nat {
    |w.queue| + SendsAhead(t, w) + SendsBehind(t, w)
  }

  ghost function Turn(w: World): nat {
    if w.receiver.Checking? then 1 else 0
  }

  ghost predicate LessLeft(t: Torrent, w: World, w': World) {
    || MessagesLeft(t, w') < MessagesLeft(t, w)
    || (MessagesLeft(t, w') == MessagesLeft(t, w) && Turn(w') < Turn(w))
    || (MessagesLeft(t, w') == MessagesLeft(t, w) && Turn(w') == Turn(w) && StepsToCheck(w') < StepsToCheck(w))
  }

  /** A step that empties, and leaves everything else to be emptied. */
  ghost predicate Drains(t: Torrent, w: World, step: Step) {
    && Shape(t, w) && Enabled(t, w, step)
    && (MovesOn(t, w, step) || step.Receive? || step.AskToCheck? || step.CheckDone?)
    && var w' := Apply(t, w, step);
       && Running(w') && !Jammed(t, w') && LessLeft(t, w, w')
       && w'.bf.total == w.bf.total && |w'.nodes| == |w.nodes| && OwnedAll(w') == OwnedAll(w)
  }

  lemma ReceiveDrains(t: Torrent, w: World)
    requires WorldOk(t, w) && Shape(t, w) && Enabled(t, w, Receive) && !NoRoom(t, w, CAPACITY + 1)
    ensures Drains(t, w, Receive)
  {
    ReceiveCounts(t, w);
  }

  lemma CheckDrains(t: Torrent, w: World)
    requires WorldOk(t, w) && Shape(t, w) && Enabled(t, w, CheckDone) && !Jammed(t, w) && MissingAfterLine(w)
    ensures Drains(t, w, CheckDone)
  {
    MissingMeanwhile(w);
    CheckCounts(t, w);
  }

  lemma AskToCheckDrains(t: Torrent, w: World)
    requires WorldOk(t, w) && Shape(t, w) && Enabled(t, w, AskToCheck) && !Jammed(t, w)
    ensures Drains(t, w, AskToCheck)
  {
    AskCounts(t, w, Loop, Apply(t, w, AskToCheck));
    OneMoreInLine(w.line, Loop);
    AheadWithoutLoop(w.line);
  }

  lemma MovingOnDrains(t: Torrent, w: World, step: Step)
    requires WorldOk(t, w) && Shape(t, w) && Running(w) && !Jammed(t, w) && MissingAfterLine(w) && MovesOn(t, w, step)
    ensures Drains(t, w, step)
  {
    MovingOnStaysClear(t, w, step);
    SameTotals(t, w, step);
    AheadIsPart(w.line);
    AheadIsPart(Apply(t, w, step).line);
  }

  lemma MovingOnStaysClear(t: Torrent, w: World, step: Step)
    requires !Jammed(t, w) && MissingAfterLine(w) && MovesOn(t, w, step)
    ensures !Jammed(t, Apply(t, w, step))
  {
    MissingMeanwhile(w);
  }

  lemma SameTotals(t: Torrent, w: World, step: Step)
    requires Shape(t, w) && Enabled(t, w, step)
    ensures var w' := Apply(t, w, step); w'.bf.total == w.bf.total && |w'.nodes| == |w.nodes|
  {
    if step.Pick? { Picker.PickReturnsNearestMissing(w.bf); }
  }

  lemma DrainStep(t: Torrent, w: World) returns (step: Step)
    requires WorldOk(t, w) && Shape(t, w) && Running(w) && !Jammed(t, w) && MissingAfterLine(w) && !Quiet(w)
    ensures Drains(t, w, step)
  {
    AheadIsPart(w.line);
    if HolderWaits(w, CAPACITY) {
      step := Receive;
      HolderIsQueued(w);
      ReceiveDrains(t, w);
    } else if !LockFree(w) || Ahead(w.line) != [] {
      step := OthersMoveOn(t, w);
      MovingOnDrains(t, w, step);
    } else if w.receiver.Receiving? {
      step := Receive;
      assert Loop !in w.line;
      ReceiveDrains(t, w);
    } else if Loop in w.line {
      step := CheckDone;
      CheckDrains(t, w);
    } else {
      step := AskToCheck;
      AskToCheckDrains(t, w);
    }
  }

  lemma HolderIsQueued(w: World)
    requires LineOk(w) && HolderWaits(w, CAPACITY)
    ensures w.queue != []
  {
  }

  // ---- What the downloaders keep meanwhile ----

  /** `content` is what the hashes of the torrent were made from. */
  ghost predicate Truthful(t: Torrent, content: Bytes)
    requires t.info.Valid()
  {
    && |content| == t.info.TotalLength()
    && forall p: nat :: p < t.info.NumPieces() ==> ValidatePiece(t, PieceOf(t.info, content, p), t.info.pieces[p])
  }

  /** A downloader whose peer has not choked it again, and has sent nothing but the truth. */
  ghost predicate GoodPeer(t: Torrent, content: Bytes, n: Node)
    requires t.info.Valid() && |content| == t.info.TotalLength()
  {
    && !n.phase.Stopped? && n.s.log.restarts == 0 && n.rejections == 0
    && forall p <- n.s.log.accepted | p < t.info.NumPieces() ::
         TruePayloads(n.s.log.accepted[p], PieceOf(t.info, content, p))
  }

  /** The finished piece is the true one, so it is sent on, unless recording it panics. */
  lemma CompletesWell(t: Torrent, content: Bytes, bf: Picker.State, n: Node)
    requires Supported(t.info) && Truthful(t, content) && Picks(t.info, bf)
    requires NodeOk(t, bf, n) && GoodPeer(t, content, n) && n.phase.Completing? && !SetPanics(bf, n.phase.index)
    ensures n.phase.index in n.s.pendingPieces
    ensures var n' := OnComplete(t, bf, n, n.phase.index);
            && n'.phase.Sending? && GoodPeer(t, content, n')
            && n'.s.log.received == n.s.log.received && !n'.s.chokedUs
  {
    var index := n.phase.index;
    FinishedPieceFits(t, bf, n, index);
    TruePayloadsGiveTruePiece(t.info, n.s, index, PieceOf(t.info, content, index));
  }

  /** While a piece is missing after the whole line, no one in line records the last one. */
  lemma HeadDoesNotPanic(t: Torrent, w: World, i: nat)
    requires MissingAfterLine(w) && w.line != [] && w.line[0] == Downloader(i)
    requires i < |w.nodes| && w.nodes[i].phase.Completing?
    ensures !SetPanics(w.bf, w.nodes[i].phase.index)
  {
    var p: nat :| p < w.bf.total && p !in OwnedAll(w);
    OwnedGrows(w.nodes, w.bf.owned + Finished(w.nodes, w.line[0]), w.line[1..]);
    assert p in w.bf.Missing() && p != w.nodes[i].phase.index;
  }

  lemma DrainingKeepsPeer(t: Torrent, content: Bytes, w: World, step: Step, i: nat)
    requires Supported(t.info) && Truthful(t, content) && WorldOk(t, w) && MissingAfterLine(w) && Drains(t, w, step)
    requires i < |w.nodes| && GoodPeer(t, content, w.nodes[i])
    ensures i < |Apply(t, w, step).nodes| && GoodPeer(t, content, Apply(t, w, step).nodes[i])
  {
    if step == Complete(i) {
      assert NodeOk(t, w.bf, w.nodes[i]);
      HeadDoesNotPanic(t, w, i);
      CompletesWell(t, content, w.bf, w.nodes[i]);
    } else if Mover(step) == Some(i) {
      MissingMeanwhile(w);
      MovingKeepsPeer(t, content, w, step, i);
    }
  }

  lemma MovingKeepsPeer(t: Torrent, content: Bytes, w: World, step: Step, i: nat)
    requires t.info.Valid() && |content| == t.info.TotalLength() && !w.bf.Complete()
    requires Shape(t, w) && Enabled(t, w, step) && (step.CheckTop? || step.Pick? || step.Send? || step.Sent?)
    requires Mover(step) == Some(i) && i < |w.nodes| && GoodPeer(t, content, w.nodes[i])
    ensures i < |Apply(t, w, step).nodes| && GoodPeer(t, content, Apply(t, w, step).nodes[i])
  {
  }

  /** Nobody in line has a piece with a wrong hash. */
  ghost predicate CleanLine(t: Torrent, w: World) {
    forall who <- w.line :: HashIsRight(t, w.nodes, who)
  }

  ghost predicate HashIsRight(t: Torrent, nodes: seq<Node>, who: Waiter) {
    who.Downloader? && who.i < |nodes| && nodes[who.i].phase.Completing?
      && nodes[who.i].phase.index in nodes[who.i].s.pendingPieces ==>
      var dl := nodes[who.i].s.pendingPieces[nodes[who.i].phase.index];
      ValidatePiece(t, dl.bytes, dl.pieceHash)
  }

  lemma ServingKeepsLineClean(t: Torrent, w: World, step: Step)
    requires LineOk(w) && CleanLine(t, w) && Shape(t, w) && Enabled(t, w, step)
    requires step.CheckTop? || step.Complete? || step.Pick?
    ensures CleanLine(t, Apply(t, w, step)) && Apply(t, w, step).rejected == w.rejected
  {
    var w' := Apply(t, w, step);
    assert HashIsRight(t, w.nodes, w.line[0]);
    forall who <- w'.line ensures HashIsRight(t, w'.nodes, who) {
      assert who in w.line && who != w.line[0] && HashIsRight(t, w.nodes, who);
    }
  }

  lemma SendingKeepsLineClean(t: Torrent, w: World, step: Step)
    requires LineOk(w) && CleanLine(t, w) && Shape(t, w) && Enabled(t, w, step) && (step.Send? || step.Sent?)
    ensures CleanLine(t, Apply(t, w, step)) && Apply(t, w, step).rejected == w.rejected
  {
    var w' := Apply(t, w, step);
    assert Downloader(step.i) !in w.line;
    forall who <- w'.line ensures HashIsRight(t, w'.nodes, who) {
      assert HashIsRight(t, w.nodes, who);
    }
  }

  lemma LoopKeepsLineClean(t: Torrent, w: World, step: Step)
    requires CleanLine(t, w) && Shape(t, w) && Enabled(t, w, step)
    requires step.Receive? || step.AskToCheck? || step.CheckDone?
    ensures CleanLine(t, Apply(t, w, step)) && Apply(t, w, step).rejected == w.rejected
  {
    var w' := Apply(t, w, step);
    forall who <- w'.line ensures HashIsRight(t, w'.nodes, who) {
      assert who == Loop || (who in w.line && HashIsRight(t, w.nodes, who));
    }
  }

  lemma DrainingKeepsLineClean(t: Torrent, w: World, step: Step)
    requires WorldOk(t, w) && CleanLine(t, w) && Drains(t, w, step)
    ensures CleanLine(t, Apply(t, w, step)) && Apply(t, w, step).rejected == w.rejected
  {
    if step.CheckTop? || step.Complete? || step.Pick? {
      ServingKeepsLineClean(t, w, step);
    } else if step.Send? || step.Sent? {
      SendingKeepsLineClean(t, w, step);
    } else {
      LoopKeepsLineClean(t, w, step);
    }
  }

  // ---- The whole schedule ----

  /** A schedule each of whose steps empties. */
  ghost predicate IsDrain(t: Torrent, w: World, steps: seq<Step>)
    decreases |steps|
  {
    steps == [] || (Drains(t, w, steps[0]) && IsDrain(t, Apply(t, w, steps[0]), steps[1..]))
  }

  lemma {:induction false} Drain(t: Torrent, w: World) returns (steps: seq<Step>, w': World)
    requires Supported(t.info) && WorldOk(t, w) && Shape(t, w) && Running(w) && !Jammed(t, w) && MissingAfterLine(w)
    ensures Exec(t, w, steps) == Some(w') && IsDrain(t, w, steps) && WorldOk(t, w')
    ensures Quiet(w') && w'.bf.total == w.bf.total && w'.bf.owned == OwnedAll(w) && !w'.bf.Complete()
    decreases MessagesLeft(t, w), Turn(w), StepsToCheck(w)
  {
    if Quiet(w) {
      MissingMeanwhile(w);
      steps, w' := [], w;
    } else {
      var step := DrainStep(t, w);
      var w1 := Apply(t, w, step);
      StepKeepsWorld(t, w, step);
      WorldHasShape(t, w1);
      var more, w2 := Drain(t, w1);
      steps, w' := [step] + more, w2;
      assert steps[1..] == more;
    }
  }

  lemma {:induction false} DrainKeepsPeer(t: Torrent, content: Bytes, w: World, steps: seq<Step>, w': World, i: nat)
    requires Supported(t.info) && Truthful(t, content) && WorldOk(t, w) && MissingAfterLine(w)
    requires IsDrain(t, w, steps) && Exec(t, w, steps) == Some(w')
    requires i < |w.nodes| && GoodPeer(t, content, w.nodes[i])
    ensures i < |w'.nodes| && GoodPeer(t, content, w'.nodes[i])
    decreases |steps|
  {
    if steps != [] {
      DrainingKeepsPeer(t, content, w, steps[0], i);
      StepKeepsWorld(t, w, steps[0]);
      DrainKeepsPeer(t, content, Apply(t, w, steps[0]), steps[1..], w', i);
    }
  }

  lemma {:induction false} DrainKeepsRejected(t: Torrent, w: World, steps: seq<Step>, w': World)
    requires Supported(t.info) && WorldOk(t, w) && CleanLine(t, w)
    requires IsDrain(t, w, steps) && Exec(t, w, steps) == Some(w')
    ensures w'.rejected == w.rejected
    decreases |steps|
  {
    if steps != [] {
      DrainingKeepsLineClean(t, w, steps[0]);
      StepKeepsWorld(t, w, steps[0]);
      DrainKeepsRejected(t, Apply(t, w, steps[0]), steps[1..], w');
    }
  }

  lemma DrainStepKeepsWaiting(t: Torrent, w: World, step: Step, i: nat)
    requires Drains(t, w, step) && At(w, i, Waiting)
    ensures i < |Apply(t, w, step).nodes| && Apply(t, w, step).nodes[i] == w.nodes[i]
  {
  }

  /** A downloader that waits for a message is not touched. */
  lemma {:induction false} DrainKeepsWaiting(t: Torrent, w: World, steps: seq<Step>, w': World, i: nat)
    requires IsDrain(t, w, steps) && Exec(t, w, steps) == Some(w') && At(w, i, Waiting)
    ensures i < |w'.nodes| && w'.nodes[i] == w.nodes[i]
    decreases |steps|
  {
    if steps != [] {
      DrainStepKeepsWaiting(t, w, steps[0], i);
      DrainKeepsWaiting(t, Apply(t, w, steps[0]), steps[1..], w', i);
    }
  }

  /** The same for reachable worlds. */
  lemma DrainReachable(t: Torrent, w: World) returns (steps: seq<Step>, w': World)
    requires Supported(t.info) && Reachable(t, w) && Running(w) && !Jammed(t, w) && MissingAfterLine(w)
    ensures WorldOk(t, w) && Exec(t, w, steps) == Some(w') && IsDrain(t, w, steps)
    ensures Leads(t, w, w') && Reachable(t, w') && Quiet(w') && !w'.bf.Complete()
  {
    EveryReachableWorldIsOk(t, w);
    steps, w' := Drain(t, w);
    LeadsBy(t, w, steps, w');
  }
}
