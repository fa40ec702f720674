/** Particular schedules: what the in-place downloader does is one of them. */
module SwarmSchedules {
  import opened ByteStrings
  import opened Wrappers
  import opened MetaInfo
  import opened DownloadSpec
  import opened DownloadProofs
  import opened DownloadSteps
  import opened Swarm
  import opened NodeProofs
  import opened SwarmProofs
  import opened SwarmTheorems
  import Picker
  import PeerMessages

  lemma {:induction false} ExecThen(t: Torrent, w: World, first: seq<Step>, mid: World, second: seq<Step>)
    requires Exec(t, w, first) == Some(mid)
    ensures Exec(t, w, first + second) == Exec(t, mid, second)
    decreases |first|
  {
    if first == [] {
      assert first + second == second;
    } else {
      assert (first + second)[0] == first[0] && (first + second)[1..] == first[1..] + second;
      ExecThen(t, Apply(t, w, first[0]), first[1..], mid, second);
    }
  }

  /** One more step at the end of a schedule. */
  lemma ExecOne(t: Torrent, w: World, first: seq<Step>, mid: World, step: Step)
    requires Exec(t, w, first) == Some(mid) && Shape(t, mid) && Enabled(t, mid, step)
    ensures Exec(t, w, first + [step]) == Some(Apply(t, mid, step))
  {
    ExecThen(t, w, first, mid, [step]);
    assert [step][1..] == [];
  }

  lemma ReachableGoesOn(t: Torrent, w: World, step: Step)
    requires Supported(t.info) && Reachable(t, w) && Enabled(t, w, step)
    ensures Shape(t, w) && Reachable(t, Apply(t, w, step))
  {
    EveryReachableWorldIsOk(t, w);
    var seeds: nat, steps: seq<Step> :| Exec(t, Start(t, seeds), steps) == Some(w);
    ExecOne(t, Start(t, seeds), steps, w, step);
    assert Exec(t, Start(t, seeds), steps + [step]) == Some(Apply(t, w, step));
  }

  /** A schedule of one step, and what it leads to. */
  lemma FirstStep(t: Torrent, w: World, step: Step) returns (w1: World)
    requires Supported(t.info) && Reachable(t, w) && Enabled(t, w, step)
    ensures Shape(t, w) && w1 == Apply(t, w, step) && Reachable(t, w1)
    ensures Exec(t, w, [step]) == Some(w1)
  {
    ReachableGoesOn(t, w, step);
    w1 := Apply(t, w, step);
    assert [step][1..] == [];
  }

  /** One more step at the end of a schedule, and what it leads to. */
  lemma NextStep(t: Torrent, w: World, steps: seq<Step>, w1: World, step: Step) returns (w2: World)
    requires Supported(t.info) && Exec(t, w, steps) == Some(w1) && Reachable(t, w1) && Enabled(t, w1, step)
    ensures Shape(t, w1) && w2 == Apply(t, w1, step) && Reachable(t, w2)
    ensures Exec(t, w, steps + [step]) == Some(w2)
  {
    ReachableGoesOn(t, w1, step);
    ExecOne(t, w, steps, w1, step);
    w2 := Apply(t, w1, step);
  }

  lemma ReachableByRun(t: Torrent, w: World, steps: seq<Step>, w': World)
    requires Reachable(t, w) && Exec(t, w, steps) == Some(w')
    ensures Reachable(t, w')
  {
    var seeds: nat, first: seq<Step> :| Exec(t, Start(t, seeds), first) == Some(w);
    ExecThen(t, Start(t, seeds), first, w, steps);
    assert Exec(t, Start(t, seeds), first + steps) == Some(w');
  }

  /** Some schedule leads from one world to the other. */
  ghost predicate Leads(t: Torrent, w: World, w': World) {
    exists steps: seq<Step> :: Exec(t, w, steps) == Some(w')
  }

  lemma LeadsBy(t: Torrent, w: World, steps: seq<Step>, w': World)
    requires Reachable(t, w) && Exec(t, w, steps) == Some(w')
    ensures Leads(t, w, w') && Reachable(t, w')
  {
    ReachableByRun(t, w, steps, w');
  }

  lemma LeadsThen(t: Torrent, w: World, w1: World, w2: World)
    requires Leads(t, w, w1) && Leads(t, w1, w2)
    ensures Leads(t, w, w2)
  {
    var first: seq<Step> :| Exec(t, w, first) == Some(w1);
    var second: seq<Step> :| Exec(t, w1, second) == Some(w2);
    ExecThen(t, w, first, w1, second);
    assert Exec(t, w, first + second) == Some(w2);
  }

  /** The check of the bitfield, with nobody else at the lock. */
  lemma CheckSteps(t: Torrent, w: World) returns (w': World)
    requires Supported(t.info) && Reachable(t, w) && w.receiver.Checking? && Unlocked(w)
    ensures Exec(t, w, [AskToCheck, CheckDone]) == Some(w') && Reachable(t, w') && Unlocked(w')
    ensures w' == w.(receiver := if w.bf.Complete() then Returned else Receiving)
  {
    var w1 := FirstStep(t, w, AskToCheck);
    w' := NextStep(t, w, [AskToCheck], w1, CheckDone);
    assert [AskToCheck] + [CheckDone] == [AskToCheck, CheckDone];
  }

  // ---- The class's handling of a message is one schedule ----

  function Messages(out: seq<Delivery>): seq<ChannelMsg> {
    if out == [] then [] else [PieceMsg(out[0])] + Messages(out[1..])
  }

  /** Downloader `i` has come from `w` to `w'` with the given effect, and nobody else has moved. */
  ghost predicate Effected(w: World, i: nat, e: Effect, w': World) {
    && i < |w.nodes| && |w'.nodes| == |w.nodes|
    && w'.nodes == w.nodes[i := w'.nodes[i]]
    && w'.nodes[i].s == e.s && w'.bf == e.bf && w'.queue == w.queue + Messages(e.out)
    && w'.file == w.file && w'.receiver == w.receiver && w'.line == w.line
    && w'.nodes[i].phase == if e.outcome.Panicked? then Stopped else AtTop
  }

  ghost predicate Running(w: World) {
    w.receiver.Receiving? || w.receiver.Checking?
  }

  lemma RequestStep(t: Torrent, w: World, i: nat, order: seq<nat>) returns (w': World)
    requires Supported(t.info) && Reachable(t, w) && Enabled(t, w, Request(i, order))
    ensures forall p <- order :: p in w.nodes[i].s.pendingPieces
    ensures Reachable(t, w') && w' == With(w, i, OnRequest(w.nodes[i], order))
    ensures Exec(t, w, [Request(i, order)]) == Some(w')
  {
    assert forall p <- order :: p in Elements(order);
    w' := FirstStep(t, w, Request(i, order));
  }

  /** A downloader asks for the lock, and is the only one in line. */
  lemma AskStep(t: Torrent, w: World, i: nat) returns (w': World)
    requires Supported(t.info) && Reachable(t, w) && Running(w) && Unlocked(w)
    requires i < |w.nodes| && WantsLock(w.nodes[i])
    ensures Reachable(t, w') && Exec(t, w, [Ask(i)]) == Some(w')
    ensures w' == w.(line := [Downloader(i)]) && MayTake(w', Downloader(i))
  {
    w' := FirstStep(t, w, Ask(i));
  }

  lemma PickStep(t: Torrent, w: World, i: nat) returns (w': World)
    requires Supported(t.info) && Reachable(t, w) && Running(w) && Unlocked(w) && At(w, i, Picking) && w.bf.Valid()
    ensures var (bf, picked) := w.bf.Pick(); w' == With(w, i, OnPick(w.nodes[i], picked)).(bf := bf)
    ensures Reachable(t, w') && Exec(t, w, [Ask(i), Pick(i)]) == Some(w')
  {
    var w1 := AskStep(t, w, i);
    w' := NextStep(t, w, [Ask(i)], w1, Pick(i));
    assert [Ask(i)] + [Pick(i)] == [Ask(i), Pick(i)];
  }

  lemma StartStep(t: Torrent, w: World, i: nat, steps: seq<Step>, w1: World) returns (w': World)
    requires Supported(t.info) && Exec(t, w, steps) == Some(w1) && Reachable(t, w1)
    requires Enabled(t, w1, StartPicked(i)) && w1.nodes[i].phase.piece < t.info.NumPieces()
    ensures var n := w1.nodes[i];
            w' == With(w1, i, n.(s := StartPiece(n.s, t.info, n.phase.piece), phase := AtTop))
    ensures Reachable(t, w') && Exec(t, w, steps + [StartPicked(i)]) == Some(w')
  {
    w' := NextStep(t, w, steps, w1, StartPicked(i));
  }

  lemma AskingIsASchedule(t: Torrent, w: World, i: nat, out: seq<Delivery>, order: seq<nat>, e: Effect)
    returns (steps: seq<Step>, w': World)
    requires Supported(t.info) && Reachable(t, w) && Running(w) && At(w, i, Requesting) && Unlocked(w)
    requires Picks(t.info, w.bf) && Asks(t.info, w.nodes[i].s, w.bf, out, order, e)
    ensures Exec(t, w, steps) == Some(w')
    ensures |w'.nodes| == |w.nodes| && w'.nodes == w.nodes[i := w'.nodes[i]]
    ensures w' == w.(nodes := w'.nodes, bf := w'.bf)
    ensures w'.nodes[i].s == e.s && w'.bf == e.bf
    ensures w'.nodes[i].phase == if e.outcome.Panicked? then Stopped else AtTop
  {
    var w1 := RequestStep(t, w, i, order);
    steps, w' := [Request(i, order)], w1;
    if w1.nodes[i].phase.Picking? {
      var more, w2 := PickingIsASchedule(t, w1, i);
      NotOverflowed(t, w2, i);
      ExecThen(t, w, steps, w1, more);
      steps, w' := steps + more, w2;
    } else if !w1.nodes[i].phase.Stopped? {
      NotOverflowed(t, w1, i);
    }
  }

  lemma NotOverflowed(t: Torrent, w: World, i: nat)
    requires Supported(t.info) && Reachable(t, w) && i < |w.nodes| && !w.nodes[i].phase.Stopped?
    ensures !Overflowed(w.nodes[i].s)
  {
    ReachableNode(t, w, i);
  }

  /** Picking and starting a piece, with nobody else moving in between. */
  lemma PickingIsASchedule(t: Torrent, w: World, i: nat) returns (steps: seq<Step>, w': World)
    requires Supported(t.info) && Reachable(t, w) && Running(w) && At(w, i, Picking) && Unlocked(w)
    requires Picks(t.info, w.bf)
    ensures Exec(t, w, steps) == Some(w') && Reachable(t, w')
    ensures var (s, bf) := PickNext(t.info, w.nodes[i].s, w.bf);
            w' == With(w, i, w.nodes[i].(s := s, phase := AtTop)).(bf := bf)
  {
    Picker.PickReturnsNearestMissing(w.bf);
    var w1 := PickStep(t, w, i);
    steps, w' := [Ask(i), Pick(i)], w1;
    var picked := w.bf.Pick().1;
    if picked.Some? && picked.value !in w.nodes[i].s.pendingPieces {
      assert w1.nodes[i] == w.nodes[i].(phase := Starting(picked.value));
      w' := StartStep(t, w, i, steps, w1);
      steps := steps + [StartPicked(i)];
    }
  }

  lemma SendStep(t: Torrent, w: World, i: nat) returns (w': World)
    requires Supported(t.info) && Reachable(t, w) && Running(w) && i < |w.nodes| && w.nodes[i].phase.Sending?
    ensures Reachable(t, w') && Exec(t, w, [Send(i)]) == Some(w')
    ensures w' == With(w, i, w.nodes[i].(phase := HandingOver(w.taken + |w.queue|))).(
                    queue := w.queue + [PieceMsg(w.nodes[i].phase.delivery)])
  {
    ReachableGoesOn(t, w, Send(i));
    SendIs(t, w, i);
    w' := Apply(t, w, Send(i));
    assert [Send(i)][1..] == [];
  }

  lemma SendIs(t: Torrent, w: World, i: nat)
    requires Shape(t, w) && Enabled(t, w, Send(i))
    ensures Apply(t, w, Send(i))
         == With(w, i, w.nodes[i].(phase := HandingOver(w.taken + |w.queue|))).(
              queue := w.queue + [PieceMsg(w.nodes[i].phase.delivery)])
  {
  }

  lemma SentStep(t: Torrent, w: World, i: nat) returns (w': World)
    requires Supported(t.info) && Reachable(t, w) && Enabled(t, w, Sent(i))
    ensures Reachable(t, w') && Exec(t, w, [Sent(i)]) == Some(w')
    ensures w' == With(w, i, w.nodes[i].(phase := Requesting)) && LockFree(w')
  {
    NobodyElseHolds(t, w, i);
    w' := FirstStep(t, w, Sent(i));
  }

  /** The message goes into the queue, and the downloader goes on when it has room there. */
  lemma SendSteps(t: Torrent, w: World, i: nat) returns (w': World)
    requires Supported(t.info) && Reachable(t, w) && Running(w) && |w.queue| < CAPACITY
    requires i < |w.nodes| && w.nodes[i].phase.Sending?
    ensures Reachable(t, w') && Exec(t, w, [Send(i), Sent(i)]) == Some(w') && LockFree(w')
    ensures w' == With(w, i, w.nodes[i].(phase := Requesting)).(
                    queue := w.queue + [PieceMsg(w.nodes[i].phase.delivery)])
  {
    var w1 := SendStep(t, w, i);
    w' := SentStep(t, w1, i);
    ExecThen(t, w, [Send(i)], w1, [Sent(i)]);
    assert [Send(i)] + [Sent(i)] == [Send(i), Sent(i)];
  }

  lemma NobodyElseHolds(t: Torrent, w: World, i: nat)
    requires Supported(t.info) && Reachable(t, w) && i < |w.nodes| && Holds(w.nodes[i])
    ensures forall n: Node :: !Holds(n) ==> LockFree(With(w, i, n))
  {
    EveryReachableWorldIsOk(t, w);
    OnlyOneHolder(t, w, i);
  }

  lemma SendingIsASchedule(t: Torrent, w: World, i: nat, order: seq<nat>, e: Effect)
    returns (steps: seq<Step>, w': World)
    requires Supported(t.info) && Reachable(t, w) && Running(w) && w.line == [] && |w.queue| < CAPACITY
    requires i < |w.nodes| && w.nodes[i].phase.Sending?
    requires Picks(t.info, w.bf) && Asks(t.info, w.nodes[i].s, w.bf, [w.nodes[i].phase.delivery], order, e)
    ensures Exec(t, w, steps) == Some(w') && Effected(w, i, e, w')
  {
    var w1 := SendSteps(t, w, i);
    var more, w2 := AskingIsASchedule(t, w1, i, e.out, order, e);
    ExecThen(t, w, [Send(i), Sent(i)], w1, more);
    assert Messages(e.out) == [PieceMsg(w.nodes[i].phase.delivery)];
    steps, w' := [Send(i), Sent(i)] + more, w2;
  }

  lemma AfterComplete(t: Torrent, n: Node, bf: Picker.State, index: nat, order: seq<nat>, e: Effect)
    requires Picks(t.info, bf) && index in n.s.pendingPieces && index < bf.total
    requires Completes(t, n.s, bf, index, order, e)
    ensures var n' := OnComplete(t, bf, n, index);
            if n'.phase.Sending? then Asks(t.info, n'.s, bf.Set(index), [n'.phase.delivery], order, e)
            else EndsHere(n', bf.Set(index), e)
  {
  }

  lemma CompleteStep(t: Torrent, w: World, i: nat) returns (w': World)
    requires Supported(t.info) && Reachable(t, w) && Running(w) && Unlocked(w)
    requires i < |w.nodes| && w.nodes[i].phase.Completing?
    requires w.nodes[i].phase.index < w.bf.total && w.nodes[i].phase.index in w.nodes[i].s.pendingPieces
    ensures Shape(t, w) && Reachable(t, w') && Exec(t, w, [Ask(i), Complete(i)]) == Some(w')
    ensures var index, n' := w.nodes[i].phase.index, OnComplete(t, w.bf, w.nodes[i], w.nodes[i].phase.index);
            w' == With(w, i, n').(
                    bf := w.bf.Set(index),
                    lost := w.lost + if n'.phase.Stopped? then {index} else {},
                    rejected := w.rejected + if n'.phase.AtTop? then {index} else {})
  {
    EveryReachableWorldIsOk(t, w);
    var w1 := AskStep(t, w, i);
    w' := NextStep(t, w, [Ask(i)], w1, Complete(i));
    assert [Ask(i)] + [Complete(i)] == [Ask(i), Complete(i)];
  }

  lemma CompletingIsASchedule(t: Torrent, w: World, i: nat, order: seq<nat>, e: Effect)
    returns (steps: seq<Step>, w': World)
    requires Supported(t.info) && Reachable(t, w) && Running(w) && Unlocked(w) && |w.queue| < CAPACITY
    requires i < |w.nodes| && w.nodes[i].phase.Completing?
    requires w.nodes[i].phase.index < w.bf.total && w.nodes[i].phase.index in w.nodes[i].s.pendingPieces
    requires Picks(t.info, w.bf) && Completes(t, w.nodes[i].s, w.bf, w.nodes[i].phase.index, order, e)
    ensures Exec(t, w, steps) == Some(w') && Effected(w, i, e, w')
  {
    var w1 := CompleteStep(t, w, i);
    AfterComplete(t, w.nodes[i], w.bf, w.nodes[i].phase.index, order, e);
    steps, w' := [Ask(i), Complete(i)], w1;
    if w1.nodes[i].phase.Sending? {
      var more, w2 := SendingIsASchedule(t, w1, i, order, e);
      ExecThen(t, w, steps, w1, more);
      steps, w' := steps + more, w2;
    }
  }

  ghost predicate EndsHere(n: Node, bf: Picker.State, e: Effect) {
    && n.s == e.s && bf == e.bf && e.out == []
    && n.phase == if e.outcome.Panicked? then Stopped else AtTop
  }

  /** Downloader `i` stands where the message has led it, and the rest of the effect is still to come. */
  ghost predicate UnderWay(t: Torrent, w: World, i: nat, order: seq<nat>, e: Effect)
    requires Picks(t.info, w.bf) && i < |w.nodes|
  {
    var n := w.nodes[i];
    if n.phase.Requesting? then Asks(t.info, n.s, w.bf, [], order, e)
    else if n.phase.Completing? then
      && n.phase.index in n.s.pendingPieces
      && (n.phase.index < w.bf.total ==> Completes(t, n.s, w.bf, n.phase.index, order, e))
    else EndsHere(n, w.bf, e)
  }

  lemma AfterBlock(t: Torrent, n: Node, bf: Picker.State, index: nat, begin: nat, block: Bytes,
      order: seq<nat>, e: Effect)
    requires Picks(t.info, bf) && Inv(t.info, n.s) && Awaited(n.s, index, begin, block)
    requires HandlesPiece(t, n.s, bf, index, begin, block, order, e)
    ensures CanAccept(n.s, index, begin, block)
    ensures var n' := OnBlock(n, index, begin, block);
            && (n'.phase.Requesting? ==> Asks(t.info, n'.s, bf, [], order, e))
            && (n'.phase.Completing? ==> n'.phase.index in n'.s.pendingPieces)
            && (n'.phase.Completing? && n'.phase.index < bf.total ==> Completes(t, n'.s, bf, n'.phase.index, order, e))
  {
    AwaitedCanBeAccepted(t.info, n.s, index, begin, block);
  }

  lemma AfterMessage(t: Torrent, w: World, i: nat, msg: PeerMessages.Message, order: seq<nat>, e: Effect)
    requires t.info.Valid() && Shape(t, w) && Running(w) && At(w, i, Waiting) && Inv(t.info, w.nodes[i].s)
    requires Handles(t, w.nodes[i].s, w.bf, msg, order, e)
    ensures UnderWay(t, Apply(t, w, Message(i, msg)), i, order, e)
  {
    if msg.Piece? {
      AwaitedCanBeAccepted(t.info, w.nodes[i].s, msg.index, msg.begin, msg.block);
      if Awaited(w.nodes[i].s, msg.index, msg.begin, msg.block) {
        AfterBlock(t, w.nodes[i], w.bf, msg.index, msg.begin, msg.block, order, e);
      }
    }
  }

  lemma RestOfHandling(t: Torrent, w: World, i: nat, order: seq<nat>, e: Effect)
    returns (steps: seq<Step>, w': World)
    requires Supported(t.info) && Reachable(t, w) && Running(w) && Unlocked(w) && |w.queue| < CAPACITY
    requires Picks(t.info, w.bf) && i < |w.nodes| && UnderWay(t, w, i, order, e)
    ensures Exec(t, w, steps) == Some(w') && Effected(w, i, e, w')
  {
    if w.nodes[i].phase.Requesting? {
      steps, w' := AskingIsASchedule(t, w, i, e.out, order, e);
    } else if w.nodes[i].phase.Completing? {
      CompletingPieceExists(t, w, i);
      steps, w' := CompletingIsASchedule(t, w, i, order, e);
    } else {
      steps, w' := [], w;
    }
  }

  lemma CompletingPieceExists(t: Torrent, w: World, i: nat)
    requires Supported(t.info) && Reachable(t, w) && i < |w.nodes| && w.nodes[i].phase.Completing?
    ensures w.nodes[i].phase.index < w.bf.total
  {
    EveryReachableWorldIsOk(t, w);
    assert w.nodes[i] in w.nodes;
  }

  /**
   * What the in-place downloader does with one message, start to end, is one of the schedules of
   * the swarm: that downloader's steps in a row, when nobody holds or waits for the lock and the channel has room.
   */
  lemma {:induction false} HandlingIsASchedule(t: Torrent, w: World, i: nat, msg: PeerMessages.Message,
                                                order: seq<nat>, e: Effect)
    returns (steps: seq<Step>, w': World)
    requires Supported(t.info) && Reachable(t, w) && Running(w) && Unlocked(w) && |w.queue| < CAPACITY
    requires At(w, i, Waiting) && Picks(t.info, w.bf) && Inv(t.info, w.nodes[i].s)
    requires Handles(t, w.nodes[i].s, w.bf, msg, order, e)
    ensures Exec(t, w, steps) == Some(w') && Effected(w, i, e, w')
  {
    var w1 := FirstStep(t, w, Message(i, msg));
    AfterMessage(t, w, i, msg, order, e);
    var more, w2 := RestOfHandling(t, w1, i, order, e);
    ExecThen(t, w, [Message(i, msg)], w1, more);
    steps, w' := [Message(i, msg)] + more, w2;
  }
}
