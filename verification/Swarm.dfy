/**
 * The whole download: any number of seed downloaders that share the piece bitfield under a lock,
 * a bounded channel, and the loop that splices the pieces into the file.
 *
 * The program can switch from one of them to another wherever it waits: for the lock, for the
 * channel, for a message, and for each request it writes to its peer. A step ends at each of these
 * points but the last: writing several requests in a row is one step, because in between nothing
 * changes but the downloader's own tables. A picked piece is not in the table until its requests
 * are written, so picking and starting a piece are two steps.
 *
 * Lock and channel are first come, first served. To ask for the lock is a step of its own, and puts
 * the asker at the end of the line. A sender puts its message at the end of the queue at once, and
 * goes on when the message is among the first five: those behind are still with senders that wait.
 */
module Swarm {
  import opened ByteStrings
  import opened Wrappers
  import opened MetaInfo
  import opened DownloadSpec
  import opened DownloadSteps
  import Picker
  import PeerMessages

  const CAPACITY: nat := 5

  /**
   * Where a downloader stands. It holds the lock while it is `Sending`, and while it waits for its
   * message, the one with number `ticket`, to be taken into the channel.
   */
  datatype Phase =
    | AtTop
    | Waiting
    | Completing(index: nat)
    | Sending(delivery: Delivery)
    | HandingOver(ticket: nat)
    | Requesting
    | Picking
    | Starting(piece: nat)
    | Stopped

  /** A downloader, with the number of pieces whose hash it found wrong. */
  datatype Node = Node(s: State, phase: Phase, rejections: nat)

  datatype ChannelMsg = Disconnect | PieceMsg(delivery: Delivery)

  /** Somebody who has asked for the lock and does not have it yet. */
  datatype Waiter = Loop | Downloader(i: nat)

  datatype Receiver = Receiving | Checking | Returned | Failed

  /**
   * The last four fields are history: how many messages were taken from the channel, the pieces
   * spliced into the file, those whose hash was wrong, and those whose completion panicked.
   */
  datatype World = World(
    bf: Picker.State,
    nodes: seq<Node>,
    line: seq<Waiter>,
    queue: seq<ChannelMsg>,
    file: Bytes,
    receiver: Receiver,
    taken: nat,
    spliced: set<nat>,
    rejected: set<nat>,
    lost: set<nat>)

  datatype Step =
    | CheckTop(i: nat)
    | KeepAlive(i: nat)
    | Message(i: nat, msg: PeerMessages.Message)
    | StreamEnds(i: nat)
    | Ask(i: nat)
    | Complete(i: nat)
    | Send(i: nat)
    | Sent(i: nat)
    | Request(i: nat, order: seq<nat>)
    | Pick(i: nat)
    | StartPicked(i: nat)
    | Receive
    | AskToCheck
    | CheckDone
    | ChannelCloses

  /** The downloader that takes the step, if it is not the loop that fills the file. */
  function Mover(step: Step): Option<nat> {
    match step
    case Receive => None
    case AskToCheck => None
    case CheckDone => None
    case ChannelCloses => None
    case _ => Some(step.i)
  }

  predicate Holds(n: Node) {
    n.phase.Sending? || n.phase.HandingOver?
  }

  ghost predicate LockFree(w: World) {
    forall n <- w.nodes :: !Holds(n)
  }

  /** The next thing the downloader does is to take the lock. */
  predicate WantsLock(n: Node) {
    n.phase.AtTop? || n.phase.Completing? || n.phase.Picking?
  }

  /** Nobody holds the lock, and nobody waits for it. */
  ghost predicate Unlocked(w: World) {
    LockFree(w) && w.line == []
  }

  /** The lock is free, and `who` is the first that waits for it. */
  ghost predicate MayTake(w: World, who: Waiter) {
    LockFree(w) && w.line != [] && w.line[0] == who
  }

  function LeaveLine(w: World): World
    requires w.line != []
  {
    w.(line := w.line[1..])
  }

  function With(w: World, i: nat, n: Node): World
    requires i < |w.nodes|
  {
    w.(nodes := w.nodes[i := n])
  }

  ghost predicate At(w: World, i: nat, phase: Phase) {
    i < |w.nodes| && w.nodes[i].phase == phase
  }

  // ---- The steps of one downloader ----

  /** A message is handled up to the first point where the lock is needed. */
  ghost function OnMessage(n: Node, msg: PeerMessages.Message): Node {
    match msg
    case Choke => n.(s := DownloadSpec.Choke(n.s), phase := AtTop)
    case Unchoke => if n.s.chokedUs then n.(s := Unchoke(n.s), phase := Requesting) else n.(phase := AtTop)
    case Request(_, _, _) => n.(phase := Stopped)
    case Cancel(_, _, _) => n.(phase := Stopped)
    case Piece(index, begin, block) =>
      if CanAccept(n.s, index, begin, block) then OnBlock(n, index, begin, block) else n.(phase := AtTop)
    case _ => n.(phase := AtTop)
  }

  /** An awaited block; in reachable states the other conditions follow from that. */
  ghost predicate CanAccept(s: State, index: nat, begin: nat, block: Bytes) {
    && Awaited(s, index, begin, block) && s.inflight > 0
    && index in s.pendingPieces && index in s.log.accepted
    && s.pendingPieces[index].remainingBlocks > 0 && begin + |block| <= |s.pendingPieces[index].bytes|
  }

  ghost function OnBlock(n: Node, index: nat, begin: nat, block: Bytes): Node
    requires CanAccept(n.s, index, begin, block)
  {
    var s := Accept(n.s, index, begin, block);
    n.(s := s, phase := if s.pendingPieces[index].remainingBlocks > 0 then Requesting else Completing(index))
  }

  /** Under the lock: the finished piece leaves the table; it is sent on if its hash is right. */
  ghost function OnComplete(t: Torrent, bf: Picker.State, n: Node, index: nat): Node
    requires index in n.s.pendingPieces
  {
    var dl := n.s.pendingPieces[index];
    if SetPanics(bf, index) then n.(phase := Stopped)
    else if !ValidatePiece(t, dl.bytes, dl.pieceHash) then
      n.(s := Finish(n.s, index), phase := AtTop, rejections := n.rejections + 1)
    else n.(s := Finish(n.s, index), phase := Sending(Delivery(index, dl.bytes)))
  }

  ghost function OnRequest(n: Node, order: seq<nat>): Node
    requires forall p <- order :: p in n.s.pendingPieces
  {
    if n.s.chokedUs then n.(phase := AtTop)
    else
      var s := RequestPending(n.s, order);
      n.(s := s,
         phase := if Overflowed(s) then Stopped else if s.inflight < MAX_INFLIGHT_PER_PEER then Picking else AtTop)
  }

  /** The lock is released with a piece picked, which is started unless it is pending already. */
  ghost function OnPick(n: Node, picked: Option<nat>): Node {
    n.(phase := if picked.None? || picked.value in n.s.pendingPieces then AtTop else Starting(picked.value))
  }

  // ---- The steps of the whole ----

  ghost predicate Enabled(t: Torrent, w: World, step: Step) {
    && (w.receiver.Receiving? || w.receiver.Checking?)
    && match step
       case Ask(i) => i < |w.nodes| && WantsLock(w.nodes[i]) && Downloader(i) !in w.line
       case CheckTop(i) => At(w, i, AtTop) && MayTake(w, Downloader(i))
       case KeepAlive(i) => At(w, i, Waiting)
       case Message(i, _) => At(w, i, Waiting)
       case StreamEnds(i) => At(w, i, Waiting)
       case Complete(i) =>
         && i < |w.nodes| && w.nodes[i].phase.Completing? && MayTake(w, Downloader(i))
         && w.nodes[i].phase.index in w.nodes[i].s.pendingPieces
       case Send(i) => i < |w.nodes| && w.nodes[i].phase.Sending?
       case Sent(i) => i < |w.nodes| && w.nodes[i].phase.HandingOver? && w.nodes[i].phase.ticket < w.taken + CAPACITY
       case Request(i, order) => At(w, i, Requesting) && IsOrderOf(order, w.nodes[i].s.pendingPieces.Keys)
       case Pick(i) => At(w, i, Picking) && MayTake(w, Downloader(i))
       case StartPicked(i) => i < |w.nodes| && w.nodes[i].phase.Starting?
       case Receive => w.receiver.Receiving? && w.queue != []
       case AskToCheck => w.receiver.Checking? && Loop !in w.line
       case CheckDone => w.receiver.Checking? && MayTake(w, Loop)
       case ChannelCloses => w.receiver.Receiving? && w.queue == [] && forall n <- w.nodes :: n.phase.Stopped?
  }

  ghost predicate Shape(t: Torrent, w: World) {
    && Picks(t.info, w.bf)
    && |w.file| == t.info.TotalLength()
    && (forall n <- w.nodes :: n.phase.Completing? ==> n.phase.index < w.bf.total)
    && (forall n <- w.nodes :: n.phase.Starting? ==> n.phase.piece < w.bf.total)
    && (forall m <- w.queue :: m.PieceMsg? ==> Fits(t.info, m.delivery))
  }

  ghost function Apply(t: Torrent, w: World, step: Step): World
    requires Shape(t, w) && Enabled(t, w, step)
  {
    match step
    case Ask(i) => w.(line := w.line + [Downloader(i)])
    case CheckTop(i) =>
      LeaveLine(With(w, i, w.nodes[i].(phase := if w.bf.Complete() then Stopped else Waiting)))
    case KeepAlive(i) => With(w, i, w.nodes[i].(phase := AtTop))
    case Message(i, msg) => With(w, i, OnMessage(w.nodes[i], msg))
    case StreamEnds(i) => With(w, i, w.nodes[i].(phase := Stopped)).(queue := w.queue + [Disconnect])
    case Complete(i) => LeaveLine(ApplyComplete(t, w, i))
    case Send(i) =>
      With(w, i, w.nodes[i].(phase := HandingOver(w.taken + |w.queue|))).(
        queue := w.queue + [PieceMsg(w.nodes[i].phase.delivery)])
    case Sent(i) => With(w, i, w.nodes[i].(phase := Requesting))
    case Request(i, order) =>
      assert forall p <- order :: p in Elements(order);
      With(w, i, OnRequest(w.nodes[i], order))
    case Pick(i) =>
      var (bf, picked) := w.bf.Pick();
      LeaveLine(With(w, i, OnPick(w.nodes[i], picked)).(bf := bf))
    case StartPicked(i) =>
      var n := w.nodes[i];
      assert n in w.nodes;
      With(w, i, n.(s := StartPiece(n.s, t.info, n.phase.piece), phase := AtTop))
    case Receive => ApplyReceive(t, w)
    case AskToCheck => w.(line := w.line + [Loop])
    case CheckDone => LeaveLine(w.(receiver := if w.bf.Complete() then Returned else Receiving))
    case ChannelCloses => w.(receiver := Receiver.Failed)
  }

  ghost function ApplyComplete(t: Torrent, w: World, i: nat): World
    requires Shape(t, w) && Enabled(t, w, Complete(i))
    ensures ApplyComplete(t, w, i).line == w.line
  {
    var n := w.nodes[i];
    var index := n.phase.index;
    var n' := OnComplete(t, w.bf, n, index);
    assert n in w.nodes;
    With(w, i, n').(
      bf := w.bf.Set(index),
      lost := w.lost + if n'.phase.Stopped? then {index} else {},
      rejected := w.rejected + if n'.phase.AtTop? then {index} else {})
  }

  ghost function ApplyReceive(t: Torrent, w: World): World
    requires Shape(t, w) && w.queue != []
  {
    var w' := w.(queue := w.queue[1..], receiver := Checking, taken := w.taken + 1);
    assert w.queue[0] in w.queue;
    match w.queue[0]
    case Disconnect => w'
    case PieceMsg(d) => w'.(file := SpliceDelivery(t.info, w.file, d), spliced := w.spliced + {d.index})
  }

  function Start(t: Torrent, seeds: nat): World
    requires t.info.Valid()
  {
    World(
      Picker.Zero(t.info.NumPieces()), seq(seeds, _ => Node(FRESH, AtTop, 0)), [], [],
      seq(t.info.TotalLength(), _ => 0), Receiving, 0, {}, {}, {})
  }
}
