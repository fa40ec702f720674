/**
 * Concrete runs of one downloader on a torrent whose pieces are single bytes: a download that
 * returns without its last piece, and one that comes to a standstill.
 */
module SwarmExamples {
  import opened ByteStrings
  import opened Wrappers
  import opened MetaInfo
  import opened DownloadSpec
  import opened DownloadSteps
  import opened Swarm
  import opened SwarmTheorems
  import opened SwarmSchedules
  import opened SwarmSteps
  import opened LockTheorems
  import PeerMessages

  /** Every byte of `content` is a piece of its own. */
  function Tiny(content: Bytes, sha1: Bytes -> Hash): Torrent {
    Torrent(Info(1, seq(|content|, i requires 0 <= i < |content| => sha1([content[i]])), SingleFile(|content|)), sha1)
  }

  lemma TinyIsSupported(content: Bytes, sha1: Bytes -> Hash)
    requires |content| < 1000
    ensures var info := Tiny(content, sha1).info;
            && Supported(info) && info.NumPieces() == info.TotalLength() == |content|
            && forall i: nat :: i < |content| ==> Size(info, i) == 1 && info.Begin(i) == i
  {
  }

  ghost function Firsts(k: nat): set<nat> {
    Picker.Zero(k).Missing()
  }

  lemma FirstsGrow(k: nat)
    ensures Firsts(k) + {k} == Firsts(k + 1) && k + 1 !in Firsts(k + 1)
  {
  }

  /** A downloader that has no piece pending and no block awaited. */
  ghost predicate Empty(s: State) {
    && !s.chokedUs && s.pendingPieces == map[] && s.pendingBlocks == {} && s.inflight == 0
    && s.log.accepted == map[]
  }

  /** The first `k` pieces are done, and the one downloader is about to pick the next. */
  ghost predicate Ready(content: Bytes, w: World, k: nat) {
    && |w.nodes| == 1 && w.nodes[0].phase == Picking && w.nodes[0].rejections == 0 && Empty(w.nodes[0].s)
    && k < |content| && w.bf == Picker.State(|content|, Firsts(k), k, k)
    && Running(w) && w.line == []
  }

  /** The first `k + 1` pieces are owned, and the downloader holds the lock and piece `k`. */
  ghost predicate Holding(content: Bytes, w: World, k: nat) {
    && |w.nodes| == 1 && k < |content| && w.nodes[0].phase == Sending(Delivery(k, [content[k]]))
    && Empty(w.nodes[0].s) && w.nodes[0].rejections == 0
    && w.bf == Picker.State(|content|, Firsts(k + 1), if k + 1 == |content| then k else k + 1, k + 1)
    && Running(w) && w.line == []
  }

  /** The state between a request for the only block of piece `k` and its arrival. */
  function Asked(hash: Hash, k: nat, log: Log): State {
    State(false, map[k := PieceDownload(hash, 1, 1, 1, [0])], {BlockDownload(k, 0, 1)}, 1, log)
  }

  lemma StartTinyPiece(content: Bytes, sha1: Bytes -> Hash, s: State, k: nat)
    requires |content| < 1000 && k < |content| && Empty(s)
    ensures Tiny(content, sha1).info.Valid() && k < Tiny(content, sha1).info.NumPieces()
    ensures var s' := StartPiece(s, Tiny(content, sha1).info, k);
            && s' == Asked(sha1([content[k]]), k, s'.log) && s'.log.accepted == map[k := map[]]
  {
    TinyIsSupported(content, sha1);
    var info := Tiny(content, sha1).info;
    var s1 := Added(s, info, k);
    var r := RequestsOf(s1, k);
    assert NewPiece(info, k).bytes == [0];
    assert BlockAt(k, 1, 0) == BlockDownload(k, 0, 1);
    assert RequestBlocks(k, r) == RequestNext(k, r);
  }

  lemma ArriveTinyBlock(hash: Hash, k: nat, log: Log, c: byte)
    requires log.accepted == map[k := map[]]
    ensures var s := Asked(hash, k, log);
            && CanAccept(s, k, 0, [c])
            && var s' := Accept(s, k, 0, [c]);
               && s'.pendingPieces[k].remainingBlocks == 0 && s'.pendingPieces[k].bytes == [c]
               && s'.pendingPieces[k].pieceHash == hash
               && Empty(Finish(s', k))
  {
  }

  lemma NobodyHolds(w: World)
    requires |w.nodes| == 1 && !Holds(w.nodes[0]) && w.line == []
    ensures Unlocked(w)
  {
  }

  /** Nothing but the downloader and the bitfield has changed. */
  ghost predicate SameRest(w: World, w': World) {
    w' == w.(nodes := w'.nodes, bf := w'.bf)
  }

  /** Waiting for the only block of piece `k`, with the cursor moved on. */
  ghost predicate Awaiting(content: Bytes, sha1: Bytes -> Hash, w: World, k: nat, phase: Phase) {
    && |w.nodes| == 1 && k < |content| && w.nodes[0].phase == phase && w.nodes[0].rejections == 0
    && Running(w) && w.line == []
    && w.nodes[0].s == Asked(sha1([content[k]]), k, w.nodes[0].s.log)
    && w.nodes[0].s.log.accepted == map[k := map[]]
    && w.bf == Picker.State(|content|, Firsts(k), if k + 1 == |content| then k else k + 1, k)
  }

  /** Picks piece `k` and asks for its only block. */
  lemma AskTiny(content: Bytes, sha1: Bytes -> Hash, w: World, k: nat) returns (w': World)
    requires |content| < 1000 && Reachable(Tiny(content, sha1), w) && Ready(content, w, k)
    ensures Reachable(Tiny(content, sha1), w') && SameRest(w, w')
    ensures Awaiting(content, sha1, w', k, AtTop)
  {
    var t := Tiny(content, sha1);
    TinyIsSupported(content, sha1);
    NobodyHolds(w);
    assert w.bf.Pick() == (w.bf.(cur := w.bf.Next()), Some(k));
    var w1 := PickStep(t, w, 0);
    StartTinyPiece(content, sha1, w.nodes[0].s, k);
    w' := FirstStep(t, w1, StartPicked(0));
  }

  lemma PickTiny(content: Bytes, sha1: Bytes -> Hash, w: World, k: nat) returns (w': World)
    requires |content| < 1000 && Reachable(Tiny(content, sha1), w) && Ready(content, w, k)
    ensures Reachable(Tiny(content, sha1), w') && SameRest(w, w')
    ensures Awaiting(content, sha1, w', k, Waiting)
  {
    TinyIsSupported(content, sha1);
    var w1 := AskTiny(content, sha1, w, k);
    NobodyHolds(w1);
    assert k in w1.bf.Missing();
    w' := GoesOn(Tiny(content, sha1), w1, 0);
  }

  /** The only block of piece `k` has arrived, and the lock is not taken yet. */
  ghost predicate Arrived(content: Bytes, w: World, k: nat, c: byte, hash: Hash) {
    && |w.nodes| == 1 && k < |content| && w.nodes[0].phase == Completing(k) && w.nodes[0].rejections == 0
    && Running(w) && w.line == []
    && k in w.nodes[0].s.pendingPieces && w.nodes[0].s.pendingPieces[k].bytes == [c]
    && w.nodes[0].s.pendingPieces[k].pieceHash == hash && Empty(Finish(w.nodes[0].s, k))
    && w.bf == Picker.State(|content|, Firsts(k), if k + 1 == |content| then k else k + 1, k)
  }

  lemma BlockArrives(content: Bytes, sha1: Bytes -> Hash, w: World, k: nat, c: byte) returns (w': World)
    requires |content| < 1000 && Reachable(Tiny(content, sha1), w) && Awaiting(content, sha1, w, k, Waiting)
    ensures Reachable(Tiny(content, sha1), w') && SameRest(w, w')
    ensures Arrived(content, w', k, c, sha1([content[k]]))
  {
    TinyIsSupported(content, sha1);
    ArriveTinyBlock(sha1([content[k]]), k, w.nodes[0].s.log, c);
    w' := FirstStep(Tiny(content, sha1), w, Message(0, PeerMessages.Piece(k, 0, [c])));
  }

  lemma ArriveTiny(content: Bytes, sha1: Bytes -> Hash, w: World, k: nat) returns (w': World)
    requires |content| < 1000 && |content| % 8 != 0
    requires Reachable(Tiny(content, sha1), w) && Awaiting(content, sha1, w, k, Waiting)
    ensures Reachable(Tiny(content, sha1), w') && SameRest(w, w') && Holding(content, w', k)
  {
    TinyIsSupported(content, sha1);
    var w1 := BlockArrives(content, sha1, w, k, content[k]);
    NobodyHolds(w1);
    FirstsGrow(k);
    w' := CompleteStep(Tiny(content, sha1), w1, 0);
  }

  lemma HashIsWrong(content: Bytes, sha1: Bytes -> Hash, w: World, c: byte) returns (w': World)
    requires |content| == 2 && sha1([c]) != sha1([content[0]])
    requires Reachable(Tiny(content, sha1), w) && Arrived(content, w, 0, c, sha1([content[0]])) && w.rejected == {}
    ensures Reachable(Tiny(content, sha1), w') && w'.rejected == {0} && Running(w') && w'.line == []
    ensures |w'.nodes| == 1 && w'.nodes[0].phase == AtTop && Empty(w'.nodes[0].s) && 1 in w'.bf.Missing()
  {
    NobodyHolds(w);
    w' := CompleteStep(Tiny(content, sha1), w, 0);
    assert 1 in w'.bf.Missing();
  }

  /**
   * After one wrong hash the downloader does not ask again: on two pieces it is left unchoked,
   * awaiting no block, with a piece still missing.
   */
  lemma WrongHashStalls(content: Bytes, sha1: Bytes -> Hash, c: byte) returns (w: World)
    requires |content| == 2 && sha1([c]) != sha1([content[0]])
    ensures Reachable(Tiny(content, sha1), w) && w.rejected == {0}
    ensures |w.nodes| == 1 && w.nodes[0].phase == Waiting && Empty(w.nodes[0].s) && 1 in w.bf.Missing()
  {
    var w0 := Boot(content, sha1);
    var w1 := PickTiny(content, sha1, w0, 0);
    var w2 := BlockArrives(content, sha1, w1, 0, c);
    var w3 := HashIsWrong(content, sha1, w2, c);
    TinyIsSupported(content, sha1);
    NobodyHolds(w3);
    w := GoesOn(Tiny(content, sha1), w3, 0);
  }

  lemma HandOver(content: Bytes, sha1: Bytes -> Hash, w: World, k: nat) returns (w': World)
    requires |content| < 1000 && Reachable(Tiny(content, sha1), w) && Holding(content, w, k) && |w.queue| < CAPACITY
    ensures Reachable(Tiny(content, sha1), w')
    ensures w' == w.(nodes := w'.nodes, queue := w.queue + [PieceMsg(Delivery(k, [content[k]]))])
    ensures k + 1 < |content| ==> Ready(content, w', k + 1)
    ensures Unlocked(w')
  {
    var t := Tiny(content, sha1);
    TinyIsSupported(content, sha1);
    var w1 := SendSteps(t, w, 0);
    assert IsOrderOf([], w1.nodes[0].s.pendingPieces.Keys) by { NothingToVisit([]); }
    w' := FirstStep(t, w1, Request(0, []));
  }

  lemma Boot(content: Bytes, sha1: Bytes -> Hash) returns (w: World)
    requires 0 < |content| < 1000
    ensures var t := Tiny(content, sha1);
            && t.info.Valid() && Reachable(t, w) && Ready(content, w, 0)
            && w == Start(t, 1).(nodes := w.nodes)
  {
    var t := Tiny(content, sha1);
    TinyIsSupported(content, sha1);
    var w0 := Start(t, 1);
    assert Exec(t, w0, []) == Some(w0);
    assert 0 in w0.bf.Missing();
    NobodyHolds(w0);
    w := AsksForFirstPiece(t, w0, 0);
    assert Firsts(0) == {};
  }

  /** Picks, fetches and sends piece `k`. */
  lemma SendTiny(content: Bytes, sha1: Bytes -> Hash, w: World, k: nat) returns (w': World)
    requires |content| < 1000 && |content| % 8 != 0
    requires Reachable(Tiny(content, sha1), w) && Ready(content, w, k) && |w.queue| < CAPACITY
    ensures Reachable(Tiny(content, sha1), w')
    ensures w' == w.(nodes := w'.nodes, bf := w'.bf, queue := w.queue + [PieceMsg(Delivery(k, [content[k]]))])
    ensures k + 1 < |content| ==> Ready(content, w', k + 1)
    ensures Unlocked(w') && w'.bf.owned == Firsts(k + 1) && w'.bf.total == |content|
  {
    var w1 := PickTiny(content, sha1, w, k);
    var w2 := ArriveTiny(content, sha1, w1, k);
    w' := HandOver(content, sha1, w2, k);
  }

  lemma ReceiveTiny(content: Bytes, sha1: Bytes -> Hash, w: World, c: byte) returns (w': World)
    requires 0 < |content| < 1000 && Reachable(Tiny(content, sha1), w) && w.receiver.Receiving?
    requires |w.file| == |content| && |w.queue| > 0 && w.queue[0] == PieceMsg(Delivery(0, [c]))
    ensures Reachable(Tiny(content, sha1), w')
    ensures w' == w.(queue := w.queue[1..], receiver := Checking, file := Splice(w.file, 0, [c]),
                     spliced := w.spliced + {0}, taken := w.taken + 1)
  {
    TinyIsSupported(content, sha1);
    w' := FirstStep(Tiny(content, sha1), w, Receive);
  }

  /**
   * A download of two pieces can return while the second is still in the channel: the file has 0
   * in its place, whatever the content is.
   */
  lemma ReturnsWithoutLastPiece(content: Bytes, sha1: Bytes -> Hash) returns (w: World)
    requires |content| == 2
    ensures Reachable(Tiny(content, sha1), w) && w.receiver.Returned?
    ensures w.queue == [PieceMsg(Delivery(1, [content[1]]))] && w.file == [content[0], 0]
  {
    var w0 := Boot(content, sha1);
    var w1 := SendTiny(content, sha1, w0, 0);
    var w2 := SendTiny(content, sha1, w1, 1);
    assert w2.queue == [PieceMsg(Delivery(0, [content[0]])), PieceMsg(Delivery(1, [content[1]]))];
    var w3 := ReceiveTiny(content, sha1, w2, content[0]);
    assert w3.bf.Missing() == {};
    w := CheckSteps(Tiny(content, sha1), w3);
  }

  /** Picks piece `k` and receives it. */
  lemma FetchTiny(content: Bytes, sha1: Bytes -> Hash, w: World, k: nat) returns (w': World)
    requires |content| < 1000 && |content| % 8 != 0
    requires Reachable(Tiny(content, sha1), w) && Ready(content, w, k)
    ensures Reachable(Tiny(content, sha1), w') && SameRest(w, w') && Holding(content, w', k)
  {
    var w1 := PickTiny(content, sha1, w, k);
    w' := ArriveTiny(content, sha1, w1, k);
  }

  /** With `k + 1` pieces already sent, `k` of them still in the channel, sends on until the channel is full. */
  lemma {:induction false} FillChannel(content: Bytes, sha1: Bytes -> Hash, w: World, k: nat) returns (w': World)
    requires |content| == 7 && Reachable(Tiny(content, sha1), w) && Ready(content, w, k)
    requires w.receiver.Checking? && |w.queue| == k - 1 && 1 <= k <= 6
    ensures Reachable(Tiny(content, sha1), w') && Holding(content, w', 6) && w'.receiver.Checking? && |w'.queue| == 5
    decreases 7 - k
  {
    w' := FetchTiny(content, sha1, w, k);
    if k < 6 {
      var w2 := HandOver(content, sha1, w', k);
      w' := FillChannel(content, sha1, w2, k + 1);
    }
  }

  /**
   * Seven pieces from one downloader can bring the download to a standstill: the receiving loop has
   * taken one piece and wants the lock, the channel is full again, and the lock holder wants to send.
   */
  lemma ComesToAStandstill(content: Bytes, sha1: Bytes -> Hash) returns (w: World)
    requires |content| == 7
    ensures Reachable(Tiny(content, sha1), w) && CheckBlocked(Tiny(content, sha1), w)
  {
    var w0 := Boot(content, sha1);
    var w1 := SendTiny(content, sha1, w0, 0);
    var w2 := ReceiveTiny(content, sha1, w1, content[0]);
    w := FillChannel(content, sha1, w2, 1);
    assert w.nodes[0] in w.nodes;
  }
}
