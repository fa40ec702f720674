/**
 * When lock and channel block each other. Whoever holds the lock may wait for room in the channel,
 * and the loop that makes room waits in line for the lock, behind all who asked before it.
 */
module LockTheorems {
  import opened Wrappers
  import opened DownloadSpec
  import opened DownloadSteps
  import opened Swarm
  import opened NodeProofs
  import opened SwarmProofs
  import opened SwarmTheorems
  import opened SwarmSchedules
  import opened LockLine
  import Picker

  // ---- The condition ----

  /**
   * There is not room in the channel for everything that is sent before the loop gets the lock, if
   * `limit` messages can be in the channel by then.
   */
  ghost predicate NoRoom(t: Torrent, w: World, limit: nat) {
    HolderWaits(w, limit) || (SendsAhead(t, w) > 0 && |w.queue| + SendsAhead(t, w) > limit)
  }

  /** The loop has taken a message, and will never get the lock to check whether it is done. */
  ghost predicate CheckBlocked(t: Torrent, w: World) {
    w.receiver.Checking? && NoRoom(t, w, CAPACITY)
  }

  /** Some piece is still missing when those ahead of the loop have been served. */
  ghost predicate MissingThen(w: World) {
    exists p: nat :: p < w.bf.total && p !in OwnedThen(w)
  }

  /**
   * The loop gets the lock once more at most. Before a message is taken one more fits. If the check
   * does not end the download, those behind the loop in line come before the next check.
   */
  ghost predicate Jammed(t: Torrent, w: World) {
    || (w.receiver.Receiving? && NoRoom(t, w, CAPACITY + 1))
    || CheckBlocked(t, w)
    || TooMuchBehind(t, w)
  }

  /** Too much is behind the loop. */
  ghost predicate TooMuchBehind(t: Torrent, w: World) {
    && w.receiver.Checking? && MissingThen(w) && SendsBehind(t, w) > 0
    && |w.queue| + SendsAhead(t, w) + SendsBehind(t, w) > CAPACITY + 1
  }

  // ---- What each step does to the counts ----

  ghost predicate SameCounts(t: Torrent, w: World, w': World) {
    && SendsAhead(t, w') == SendsAhead(t, w) && SendsBehind(t, w') == SendsBehind(t, w)
    && OwnedThen(w') == OwnedThen(w) && OwnedAll(w') == OwnedAll(w)
  }

  /** Only downloader `i` moved, and it is not in line. */
  lemma OutsideCounts(t: Torrent, w: World, i: nat, w': World)
    requires i < |w.nodes| && |w'.nodes| == |w.nodes| && w'.nodes == w.nodes[i := w'.nodes[i]]
    requires w'.bf == w.bf && w'.line == w.line && Downloader(i) !in w.line
    ensures OwnedThen(w') == OwnedThen(w) && OwnedAll(w') == OwnedAll(w) && SendsBehind(t, w') == SendsBehind(t, w)
    ensures SendsAhead(t, w') - ToSend(w') == SendsAhead(t, w) - ToSend(w)
  {
    AheadIsPart(w.line);
    forall who <- w.line ensures who.Downloader? && who.i < |w.nodes| ==> w'.nodes[who.i] == w.nodes[who.i] {
      assert who != Downloader(i);
    }
    SameLineSameSends(t, w.bf.total, w.bf.owned, w.nodes, w'.nodes, Ahead(w.line));
    SameLineSameSends(t, w.bf.total, OwnedThen(w), w.nodes, w'.nodes, Behind(w.line));
    SameLineSameSends(t, w.bf.total, w.bf.owned, w.nodes, w'.nodes, w.line);
  }

  /** A downloader that does not send leaves the holder alone. */
  lemma SameHolder(w: World, i: nat, w': World, limit: nat)
    requires i < |w.nodes| && |w'.nodes| == |w.nodes| && w'.nodes == w.nodes[i := w'.nodes[i]] && w'.taken == w.taken
    ensures !w.nodes[i].phase.Sending? && !w'.nodes[i].phase.Sending? ==> ToSend(w') == ToSend(w)
    ensures !w.nodes[i].phase.HandingOver? && !w'.nodes[i].phase.HandingOver? ==>
              (HolderWaits(w', limit) <==> HolderWaits(w, limit))
  {
    forall j | 0 <= j < |w.nodes| && j != i ensures w'.nodes[j] == w.nodes[j] && w.nodes[j] in w'.nodes {
      assert w'.nodes[j] in w'.nodes;
    }
    forall n <- w.nodes ensures n in w'.nodes || n == w.nodes[i] {
    }
    forall n <- w'.nodes ensures n in w.nodes || n == w'.nodes[i] {
    }
  }

  /** A step that neither asks for the lock nor takes it nor sends. */
  lemma OtherStepCounts(t: Torrent, w: World, step: Step, limit: nat)
    requires LineOk(w) && Shape(t, w) && Enabled(t, w, step)
    requires step.KeepAlive? || step.Message? || step.StreamEnds? || step.Request? || step.StartPicked?
    ensures var w' := Apply(t, w, step);
            && SameCounts(t, w, w') && (HolderWaits(w', limit) <==> HolderWaits(w, limit))
            && |w'.queue| >= |w.queue|
  {
    var w' := Apply(t, w, step);
    assert Downloader(step.i) !in w.line;
    OutsideCounts(t, w, step.i, w');
    SameHolder(w, step.i, w', limit);
  }

  lemma NobodySends(w: World)
    requires LockFree(w)
    ensures ToSend(w) == 0 && forall limit :: !HolderWaits(w, limit)
  {
  }

  /** The first in line has taken the lock and recorded what he had finished. */
  lemma HeadCounts(t: Torrent, w: World, i: nat, w': World)
    requires LineOk(w) && MayTake(w, Downloader(i)) && i < |w.nodes|
    requires |w'.nodes| == |w.nodes| && w'.nodes == w.nodes[i := w'.nodes[i]] && w'.line == w.line[1..]
    requires w'.bf.total == w.bf.total && w'.bf.owned == w.bf.owned + Finished(w.nodes, Downloader(i))
    requires ToSend(w') == if WillSend(t, w.bf.total, w.bf.owned, w.nodes[i]) then 1 else 0
    ensures SameCounts(t, w, w')
  {
    var owned, line := w'.bf.owned, w'.line;
    AheadIsPart(line);
    forall who <- line ensures who.Downloader? && who.i < |w.nodes| ==> w'.nodes[who.i] == w.nodes[who.i] {
      assert who != w.line[0];
    }
    SameLineSameSends(t, w.bf.total, owned, w.nodes, w'.nodes, Ahead(line));
    SameLineSameSends(t, w.bf.total, OwnedAfter(w.nodes, owned, Ahead(line)), w.nodes, w'.nodes, Behind(line));
    SameLineSameSends(t, w.bf.total, owned, w.nodes, w'.nodes, line);
    assert Ahead(w.line)[1..] == Ahead(line);
    NobodySends(w);
  }

  lemma OnlyHead(w: World, i: nat, w': World)
    requires LockFree(w) && i < |w.nodes| && |w'.nodes| == |w.nodes| && w'.nodes == w.nodes[i := w'.nodes[i]]
    ensures ToSend(w') == if w'.nodes[i].phase.Sending? then 1 else 0
    ensures !w'.nodes[i].phase.HandingOver? ==> forall limit :: !HolderWaits(w', limit)
  {
    assert w'.nodes[i] in w'.nodes;
    forall n <- w'.nodes ensures n in w.nodes || n == w'.nodes[i] {
    }
  }

  lemma ServeCounts(t: Torrent, w: World, step: Step)
    requires LineOk(w) && Shape(t, w) && Enabled(t, w, step)
    requires step.CheckTop? || step.Complete? || step.Pick?
    ensures var w' := Apply(t, w, step);
            SameCounts(t, w, w') && |w'.queue| == |w.queue| && forall limit :: !HolderWaits(w', limit)
  {
    var w', i := Apply(t, w, step), step.i;
    OnlyHead(w, i, w');
    assert w.nodes[i] in w.nodes;
    if step.Complete? {
      CompletingSends(t, w.bf, w.nodes[i]);
    } else if step.Pick? {
      Picker.PickReturnsNearestMissing(w.bf);
    }
    HeadCounts(t, w, i, w');
  }

  lemma AskCounts(t: Torrent, w: World, who: Waiter, w': World)
    requires w' == w.(line := w.line + [who]) && who !in w.line
    ensures SendsAhead(t, w') >= SendsAhead(t, w) && SendsBehind(t, w') >= SendsBehind(t, w)
    ensures who.Loop? ==> SameCounts(t, w, w')
    ensures Loop in w.line ==> OwnedThen(w') == OwnedThen(w)
    ensures Loop !in w.line ==> SendsBehind(t, w) == 0
  {
    OneMoreInLine(w.line, who);
    if Loop in w.line {
      OneMoreSends(t, w.bf.total, OwnedThen(w), w.nodes, Behind(w.line), who);
    } else {
      AheadWithoutLoop(w.line);
      OneMoreSends(t, w.bf.total, w.bf.owned, w.nodes, w.line, who);
      if who.Loop? {
        assert [] + [who] == [who];
        OneMoreSends(t, w.bf.total, OwnedThen(w), w.nodes, [], who);
      }
    }
  }

  lemma SendCounts(t: Torrent, w: World, i: nat)
    requires NodesOk(t, w) && LineOk(w) && Shape(t, w) && Enabled(t, w, Send(i))
    ensures var w' := Apply(t, w, Send(i));
            && SendsAhead(t, w') == SendsAhead(t, w) - 1 && |w'.queue| == |w.queue| + 1
            && OwnedThen(w') == OwnedThen(w) && OwnedAll(w') == OwnedAll(w)
            && SendsBehind(t, w') == SendsBehind(t, w)
            && forall limit :: HolderWaits(w', limit) <==> |w.queue| >= limit
  {
    var w' := Apply(t, w, Send(i));
    assert Downloader(i) !in w.line;
    OutsideCounts(t, w, i, w');
    OnlyOneHolder(t, w, i);
    assert w.nodes[i] in w.nodes && w'.nodes[i] in w'.nodes;
    forall n <- w'.nodes ensures n == w'.nodes[i] || !Holds(n) {
    }
  }

  lemma SentCounts(t: Torrent, w: World, i: nat)
    requires NodesOk(t, w) && LineOk(w) && Shape(t, w) && Enabled(t, w, Sent(i))
    ensures var w' := Apply(t, w, Sent(i));
            && SameCounts(t, w, w') && |w'.queue| == |w.queue|
            && forall limit :: limit >= CAPACITY ==> !HolderWaits(w, limit) && !HolderWaits(w', limit)
  {
    var w' := Apply(t, w, Sent(i));
    assert Downloader(i) !in w.line;
    OutsideCounts(t, w, i, w');
    SameHolder(w, i, w', CAPACITY);
    OnlyOneHolder(t, w, i);
    forall n <- w.nodes ensures n == w.nodes[i] || !Holds(n) {
    }
    forall n <- w'.nodes ensures !Holds(n) {
    }
  }

  // ---- Once blocked, blocked for good ----

  /** Steps that leave the loop where it is keep the want of room. */
  lemma NoRoomStays(t: Torrent, w: World, step: Step, limit: nat)
    requires NodesOk(t, w) && LineOk(w) && Shape(t, w) && Enabled(t, w, step) && limit >= CAPACITY
    requires NoRoom(t, w, limit) && !step.Receive? && !step.CheckDone? && !step.ChannelCloses?
    ensures NoRoom(t, Apply(t, w, step), limit)
  {
    match step
    case Ask(i) => AskCounts(t, w, Downloader(i), Apply(t, w, step));
    case AskToCheck => AskCounts(t, w, Loop, Apply(t, w, step));
    case CheckTop(_) => ServeStays(t, w, step, limit);
    case Complete(_) => ServeStays(t, w, step, limit);
    case Pick(_) => ServeStays(t, w, step, limit);
    case Send(i) => SendStays(t, w, i, limit);
    case Sent(i) => SentCounts(t, w, i);
    case _ => OtherStepCounts(t, w, step, limit);
  }

  lemma SendStays(t: Torrent, w: World, i: nat, limit: nat)
    requires NodesOk(t, w) && LineOk(w) && Shape(t, w) && Enabled(t, w, Send(i)) && NoRoom(t, w, limit)
    ensures NoRoom(t, Apply(t, w, Send(i)), limit)
  {
    SendCounts(t, w, i);
    SenderDoesNotWait(t, w, i, limit);
  }

  lemma SenderDoesNotWait(t: Torrent, w: World, i: nat, limit: nat)
    requires NodesOk(t, w) && i < |w.nodes| && w.nodes[i].phase.Sending?
    ensures !HolderWaits(w, limit)
  {
    OnlyOneHolder(t, w, i);
    forall n <- w.nodes ensures n == w.nodes[i] || !Holds(n) {
    }
  }

  lemma ServeStays(t: Torrent, w: World, step: Step, limit: nat)
    requires NodesOk(t, w) && LineOk(w) && Shape(t, w) && Enabled(t, w, step) && NoRoom(t, w, limit)
    requires step.CheckTop? || step.Complete? || step.Pick?
    ensures NoRoom(t, Apply(t, w, step), limit)
  {
    ServeCounts(t, w, step);
    NobodySends(w);
  }

  lemma CheckStaysBlocked(t: Torrent, w: World, step: Step)
    requires NodesOk(t, w) && LineOk(w) && Shape(t, w) && Enabled(t, w, step) && CheckBlocked(t, w)
    ensures CheckBlocked(t, Apply(t, w, step))
  {
    if step.CheckDone? {
      NobodySends(w);
    }
    NoRoomStays(t, w, step, CAPACITY);
  }

  /** Taking a message makes room for one more, and from then on there is no further. */
  lemma ReceivingStaysJammed(t: Torrent, w: World, step: Step)
    requires NodesOk(t, w) && LineOk(w) && Shape(t, w) && Enabled(t, w, step)
    requires w.receiver.Receiving? && NoRoom(t, w, CAPACITY + 1)
    ensures Jammed(t, Apply(t, w, step))
  {
    if step.Receive? {
      ReceiveCounts(t, w);
    } else if step.ChannelCloses? {
      SomebodyIsActive(t, w);
    } else {
      NoRoomStays(t, w, step, CAPACITY + 1);
    }
  }

  lemma ReceiveCounts(t: Torrent, w: World)
    requires LineOk(w) && Shape(t, w) && Enabled(t, w, Receive)
    ensures var w' := Apply(t, w, Receive);
            && SameCounts(t, w, w') && |w'.queue| == |w.queue| - 1 && SendsBehind(t, w) == 0
            && forall limit: nat :: HolderWaits(w', limit) <==> HolderWaits(w, limit + 1)
  {
    AheadWithoutLoop(w.line);
  }

  lemma SomebodyIsActive(t: Torrent, w: World)
    requires NoRoom(t, w, CAPACITY + 1)
    ensures exists n <- w.nodes :: !n.phase.Stopped?
  {
    if SendsAhead(t, w) > ToSend(w) {
      SomebodySends(t, w.bf.total, w.bf.owned, w.nodes, Ahead(w.line));
    }
  }

  lemma TooMuchStays(t: Torrent, w: World, step: Step)
    requires NodesOk(t, w) && LineOk(w) && Shape(t, w) && Enabled(t, w, step) && TooMuchBehind(t, w)
    ensures Jammed(t, Apply(t, w, step))
  {
    var w' := Apply(t, w, step);
    AheadIsPart(w.line);
    match step
    case Ask(i) => AskCounts(t, w, Downloader(i), w');
    case AskToCheck => AskCounts(t, w, Loop, w');
    case CheckTop(_) => ServeTooMuch(t, w, step);
    case Complete(_) => ServeTooMuch(t, w, step);
    case Pick(_) => ServeTooMuch(t, w, step);
    case Send(i) => SendCounts(t, w, i);
    case Sent(i) => SentCounts(t, w, i);
    case CheckDone => CheckedTooMuch(t, w);
    case _ => OtherStepCounts(t, w, step, CAPACITY);
  }

  lemma ServeTooMuch(t: Torrent, w: World, step: Step)
    requires LineOk(w) && Shape(t, w) && Enabled(t, w, step) && TooMuchBehind(t, w)
    requires step.CheckTop? || step.Complete? || step.Pick?
    ensures TooMuchBehind(t, Apply(t, w, step))
  {
    ServeCounts(t, w, step);
    if step.Pick? { Picker.PickReturnsNearestMissing(w.bf); }
  }

  lemma CheckCounts(t: Torrent, w: World)
    requires LineOk(w) && Shape(t, w) && Enabled(t, w, CheckDone)
    ensures var w' := Apply(t, w, CheckDone);
            && SendsAhead(t, w) == 0 && SendsAhead(t, w') == SendsBehind(t, w) && SendsBehind(t, w') == 0
            && OwnedAll(w') == OwnedAll(w) && (forall limit :: !HolderWaits(w', limit))
  {
    var w' := Apply(t, w, CheckDone);
    NobodySends(w);
    NobodySends(w');
    assert Loop !in w'.line by { assert w.line == [Loop] + w'.line; }
    AheadWithoutLoop(w'.line);
    assert w.bf.owned + Finished(w.nodes, Loop) == w.bf.owned;
  }

  lemma CheckedTooMuch(t: Torrent, w: World)
    requires NodesOk(t, w) && LineOk(w) && Shape(t, w) && Enabled(t, w, CheckDone) && TooMuchBehind(t, w)
    ensures Jammed(t, Apply(t, w, CheckDone))
  {
    CheckCounts(t, w);
    NotCompleteYet(w);
  }

  lemma NotCompleteYet(w: World)
    requires MissingThen(w) && Ahead(w.line) == []
    ensures !w.bf.Complete()
  {
    var p: nat :| p < w.bf.total && p !in OwnedThen(w);
    assert p in w.bf.Missing();
  }

  lemma JammedStays(t: Torrent, w: World, step: Step)
    requires NodesOk(t, w) && LineOk(w) && Shape(t, w) && Enabled(t, w, step) && Jammed(t, w)
    ensures Jammed(t, Apply(t, w, step))
  {
    if w.receiver.Receiving? {
      ReceivingStaysJammed(t, w, step);
    } else if CheckBlocked(t, w) {
      CheckStaysBlocked(t, w, step);
    } else {
      TooMuchStays(t, w, step);
    }
  }

  /** From a blocked check no run gets anywhere: the file stays as it is. */
  lemma {:induction false} BlockedIsForever(t: Torrent, w: World, steps: seq<Step>, w': World)
    requires Supported(t.info) && WorldOk(t, w) && CheckBlocked(t, w) && Exec(t, w, steps) == Some(w')
    ensures CheckBlocked(t, w') && w'.file == w.file && w'.spliced == w.spliced
    decreases |steps|
  {
    if steps != [] {
      CheckStaysBlocked(t, w, steps[0]);
      StepKeepsWorld(t, w, steps[0]);
      NothingReceived(t, w, steps[0]);
      BlockedIsForever(t, Apply(t, w, steps[0]), steps[1..], w');
    }
  }

  lemma NothingReceived(t: Torrent, w: World, step: Step)
    requires Shape(t, w) && Enabled(t, w, step) && w.receiver.Checking?
    ensures Apply(t, w, step).file == w.file && Apply(t, w, step).spliced == w.spliced
  {
  }

  lemma {:induction false} JammedIsForever(t: Torrent, w: World, steps: seq<Step>, w': World)
    requires Supported(t.info) && WorldOk(t, w) && Jammed(t, w) && Exec(t, w, steps) == Some(w')
    ensures Jammed(t, w') && !w'.receiver.Returned?
    decreases |steps|
  {
    if steps != [] {
      JammedStays(t, w, steps[0]);
      StepKeepsWorld(t, w, steps[0]);
      JammedIsForever(t, Apply(t, w, steps[0]), steps[1..], w');
    }
  }

  /** While lock and channel block each other, no run returns. */
  lemma JammedNeverReturns(t: Torrent, w: World, w': World)
    requires Supported(t.info) && Reachable(t, w) && Jammed(t, w) && Leads(t, w, w')
    ensures !w'.receiver.Returned?
  {
    EveryReachableWorldIsOk(t, w);
    var steps: seq<Step> :| Exec(t, w, steps) == Some(w');
    JammedIsForever(t, w, steps, w');
  }

  // ---- Otherwise everybody ahead of the loop gets through ----

  ghost predicate Handing(w: World) {
    exists n <- w.nodes :: n.phase.HandingOver?
  }

  /** How far those ahead of the loop are from being through. */
  ghost function Rank(w: World): nat {
    3 * |Ahead(w.line)| + 2 * ToSend(w) + if Handing(w) then 1 else 0
  }

  /** One of those ahead of the loop moves on, and nothing else changes. */
  ghost predicate MovesOn(t: Torrent, w: World, step: Step) {
    && Shape(t, w) && Enabled(t, w, step)
    && (step.CheckTop? || step.Complete? || step.Pick? || step.Send? || step.Sent?)
    && var w' := Apply(t, w, step);
       && Rank(w') < Rank(w) && w'.receiver == w.receiver && w'.taken == w.taken
       && |w'.queue| + SendsAhead(t, w') == |w.queue| + SendsAhead(t, w)
       && SendsBehind(t, w') == SendsBehind(t, w) && OwnedThen(w') == OwnedThen(w) && OwnedAll(w') == OwnedAll(w)
       && Behind(w'.line) == Behind(w.line)
       && (forall limit: nat :: limit >= CAPACITY && !NoRoom(t, w, limit) ==> !NoRoom(t, w', limit))
  }

  lemma SendMovesOn(t: Torrent, w: World, i: nat)
    requires NodesOk(t, w) && LineOk(w) && Shape(t, w) && Enabled(t, w, Send(i))
    ensures MovesOn(t, w, Send(i))
  {
    SendCounts(t, w, i);
    OnlyOneHolder(t, w, i);
    var w' := Apply(t, w, Send(i));
    assert w.nodes[i] in w.nodes;
    forall n <- w'.nodes ensures n == w'.nodes[i] || !Holds(n) {
    }
    forall n <- w.nodes ensures n == w.nodes[i] || !Holds(n) {
    }
  }

  lemma SentMovesOn(t: Torrent, w: World, i: nat)
    requires NodesOk(t, w) && LineOk(w) && Shape(t, w) && Enabled(t, w, Sent(i))
    ensures MovesOn(t, w, Sent(i))
  {
    SentCounts(t, w, i);
    OnlyOneHolder(t, w, i);
    var w' := Apply(t, w, Sent(i));
    assert w.nodes[i] in w.nodes;
    forall n <- w'.nodes ensures !Holds(n) {
    }
    forall n <- w.nodes ensures n == w.nodes[i] || !Holds(n) {
    }
  }

  lemma ServeMovesOn(t: Torrent, w: World, step: Step)
    requires LineOk(w) && Shape(t, w) && Enabled(t, w, step)
    requires step.CheckTop? || step.Complete? || step.Pick?
    ensures MovesOn(t, w, step)
  {
    ServeCounts(t, w, step);
    NobodySends(w);
    OnlyHead(w, step.i, Apply(t, w, step));
    NobodyHands(w, step.i, Apply(t, w, step));
  }

  lemma NobodyHands(w: World, i: nat, w': World)
    requires LockFree(w) && i < |w.nodes| && |w'.nodes| == |w.nodes| && w'.nodes == w.nodes[i := w'.nodes[i]]
    requires !w'.nodes[i].phase.HandingOver?
    ensures !Handing(w) && !Handing(w')
  {
    forall n <- w'.nodes ensures n in w.nodes || n == w'.nodes[i] {
    }
  }

  /** The first in line, with the lock free. */
  lemma HeadMovesOn(t: Torrent, w: World) returns (step: Step)
    requires WorldOk(t, w) && Shape(t, w) && Running(w) && LockFree(w) && Ahead(w.line) != []
    ensures MovesOn(t, w, step)
  {
    assert w.line[0] in w.line && MayWait(w, w.line[0]);
    var i := w.line[0].i;
    assert NodeOk(t, w.bf, w.nodes[i]);
    step := match w.nodes[i].phase
      case AtTop => CheckTop(i)
      case Completing(_) => Complete(i)
      case _ => Pick(i);
    ServeMovesOn(t, w, step);
  }

  lemma OthersMoveOn(t: Torrent, w: World) returns (step: Step)
    requires WorldOk(t, w) && Shape(t, w) && Running(w)
    requires !LockFree(w) || Ahead(w.line) != []
    requires !HolderWaits(w, CAPACITY)
    ensures MovesOn(t, w, step)
  {
    if LockFree(w) {
      step := HeadMovesOn(t, w);
    } else {
      var n :| n in w.nodes && Holds(n);
      var i :| 0 <= i < |w.nodes| && w.nodes[i] == n;
      if n.phase.Sending? {
        step := Send(i);
        SendMovesOn(t, w, i);
      } else {
        step := Sent(i);
        SentMovesOn(t, w, i);
      }
    }
  }

  // ---- The check finishes, or it never does ----

  ghost function StepsToCheck(w: World): nat {
    Rank(w) + if Loop in w.line then 0 else 1
  }

  /** A step towards the end of the check. */
  lemma CheckMovesOn(t: Torrent, w: World) returns (step: Step)
    requires WorldOk(t, w) && Shape(t, w) && w.receiver.Checking? && !CheckBlocked(t, w)
    ensures Enabled(t, w, step)
    ensures var w' := Apply(t, w, step);
            !w'.receiver.Checking? || (!CheckBlocked(t, w') && StepsToCheck(w') < StepsToCheck(w))
    ensures MovesOn(t, w, step) || step == CheckDone || step == AskToCheck
  {
    AheadIsPart(w.line);
    if !LockFree(w) || Ahead(w.line) != [] {
      step := OthersMoveOn(t, w);
      AheadIsPart(Apply(t, w, step).line);
    } else if Loop in w.line {
      step := CheckDone;
    } else {
      step := AskToCheck;
      AskCounts(t, w, Loop, Apply(t, w, step));
      NobodySends(w);
      OneMoreInLine(w.line, Loop);
    }
  }

  lemma CompleteStays(t: Torrent, w: World, step: Step)
    requires Shape(t, w) && Enabled(t, w, step) && w.bf.Complete()
    ensures Apply(t, w, step).bf.Complete()
  {
    if step.Pick? { Picker.PickReturnsNearestMissing(w.bf); }
    assert Apply(t, w, step).bf.Missing() <= w.bf.Missing();
  }

  ghost predicate CanFinishCheck(t: Torrent, w: World) {
    exists steps: seq<Step>, w': World :: Exec(t, w, steps) == Some(w') && !w'.receiver.Checking?
  }

  lemma {:induction false} CheckFinishes(t: Torrent, w: World) returns (steps: seq<Step>, w': World)
    requires Supported(t.info) && WorldOk(t, w) && Shape(t, w) && w.receiver.Checking? && !CheckBlocked(t, w)
    ensures Exec(t, w, steps) == Some(w') && !w'.receiver.Checking?
    ensures w.bf.Complete() ==> w'.receiver.Returned?
    decreases StepsToCheck(w)
  {
    var step := CheckMovesOn(t, w);
    var w1 := Apply(t, w, step);
    steps, w' := [step], w1;
    assert [step][1..] == [];
    if w.bf.Complete() { CompleteStays(t, w, step); }
    if w1.receiver.Checking? {
      StepKeepsWorld(t, w, step);
      WorldHasShape(t, w1);
      var more, w2 := CheckFinishes(t, w1);
      ExecThen(t, w, steps, w1, more);
      steps, w' := steps + more, w2;
    }
  }

  /**
   * The loop gets past its check of the bitfield if and only if the messages sent by the lock holder
   * and by those ahead of the loop in line fit into the channel.
   */
  lemma CheckFinishesIff(t: Torrent, w: World)
    requires Supported(t.info) && Reachable(t, w) && w.receiver.Checking?
    ensures CanFinishCheck(t, w) <==> !NoRoom(t, w, CAPACITY)
  {
    EveryReachableWorldIsOk(t, w);
    if CheckBlocked(t, w) {
      forall steps: seq<Step>, w': World | Exec(t, w, steps) == Some(w') ensures w'.receiver.Checking? {
        BlockedIsForever(t, w, steps, w');
      }
    } else {
      var steps, w' := CheckFinishes(t, w);
    }
  }
}
