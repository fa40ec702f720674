/** What is requested, with the sizes written out, in all runs. */
module RequestTheorems {
  import opened Wrappers
  import opened MetaInfo
  import opened DownloadSpec
  import opened DownloadProofs
  import opened DownloadSteps
  import opened WindowProofs
  import opened Swarm
  import opened NodeProofs
  import opened SwarmProofs
  import opened SwarmTheorems

  // ---- One round of requests, in closed form ----

  /** How many blocks of 16 KiB a length has. */
  function BlocksOf16K(length: nat): nat {
    (length + 16383) / 16384
  }

  /** How many requests one round makes: up to five in flight if there are fewer, else to the end of the counter. */
  function RoundSize(inflight: nat, blocks: nat): nat
    requires inflight <= 256
  {
    var room := if inflight < 5 then 5 - inflight else 256 - inflight;
    if blocks < room then blocks else room
  }

  /** The request for the `i`-th block from `from` on. */
  function RequestAt(p: nat, length: nat, from: nat, i: nat): BlockDownload {
    var begin := from + i * 16384;
    BlockDownload(p, begin, if length <= begin then 0 else if length - begin < 16384 then length - begin else 16384)
  }

  function RequestsFrom(p: nat, length: nat, from: nat, count: nat): seq<BlockDownload> {
    seq(count, i requires 0 <= i < count => RequestAt(p, length, from, i))
  }

  lemma ShiftRequests(p: nat, length: nat, from: nat, count: nat)
    ensures RequestsFrom(p, length, from, count + 1)
         == [RequestAt(p, length, from, 0)] + RequestsFrom(p, length, from + 16384, count)
  {
  }

  /** One round asks for the next blocks in order, each of 16384 bytes but for the end of the piece. */
  lemma {:induction false} RoundInClosedForm(p: nat, r: Requests)
    requires r.dl.requested <= r.dl.pieceLength && r.inflight <= 256
    ensures var r', length, from := RequestBlocks(p, r), r.dl.pieceLength, r.dl.requested;
            var count := RoundSize(r.inflight, BlocksOf16K(length - from));
            && r'.sent == r.sent + RequestsFrom(p, length, from, count)
            && r'.inflight == r.inflight + count
            && r'.dl == r.dl.(requested := if from + count * 16384 < length then from + count * 16384 else length)
    ensures forall b :: b in RequestBlocks(p, r).blocks <==>
              b in r.blocks
              || b in RequestsFrom(p, r.dl.pieceLength, r.dl.requested,
                        RoundSize(r.inflight, BlocksOf16K(r.dl.pieceLength - r.dl.requested)))
    decreases r.dl.pieceLength - r.dl.requested
  {
    var length, from := r.dl.pieceLength, r.dl.requested;
    var count := RoundSize(r.inflight, BlocksOf16K(length - from));
    if count == 0 {
      assert RequestsFrom(p, length, from, 0) == [];
    } else {
      ShiftRequests(p, length, from, count - 1);
      assert RequestAt(p, length, from, 0) == BlockAt(p, length, from);
      if count == 1 {
        assert RequestsFrom(p, length, from + 16384, 0) == [];
        LastOfRound(p, r);
      } else {
        RestOfRound(p, r);
        RoundInClosedForm(p, RequestNext(p, r));
      }
    }
  }

  lemma RestOfRound(p: nat, r: Requests)
    requires r.dl.requested <= r.dl.pieceLength && r.inflight <= 256
    requires RoundSize(r.inflight, BlocksOf16K(r.dl.pieceLength - r.dl.requested)) > 1
    ensures var next := RequestNext(p, r);
            && RequestBlocks(p, r) == RequestBlocks(p, next)
            && next.dl.requested == r.dl.requested + 16384 <= next.dl.pieceLength == r.dl.pieceLength
            && next.inflight == r.inflight + 1 <= 256
            && RoundSize(next.inflight, BlocksOf16K(next.dl.pieceLength - next.dl.requested))
               == RoundSize(r.inflight, BlocksOf16K(r.dl.pieceLength - r.dl.requested)) - 1
  {
  }

  /** The round ends after one request when that fills the window, the counter or the piece. */
  lemma LastOfRound(p: nat, r: Requests)
    requires r.dl.requested <= r.dl.pieceLength && r.inflight <= 256
    requires RoundSize(r.inflight, BlocksOf16K(r.dl.pieceLength - r.dl.requested)) == 1
    ensures RequestBlocks(p, r) == RequestNext(p, r)
  {
  }

  /**
   * The 16-bit counter of blocks is right if and only if the piece has at most 65535 blocks of 16384
   * bytes; for others it has the low 16 bits of the number.
   */
  lemma CounterIsRightIff(pieceLength: nat)
    requires pieceLength < 0x1_0000_0000
    ensures NumBlocks(pieceLength) == BlocksOf16K(pieceLength) <==> pieceLength <= 65535 * 16384
    ensures pieceLength + 16383 < 0x1_0000_0000 ==> NumBlocks(pieceLength) == BlocksOf16K(pieceLength) % 65536
  {
  }

  // ---- Every request of every run ----

  /** A block of the torrent: on the grid of 16384 bytes, and of that length but for the end of its piece. */
  ghost predicate ProperRequest(info: Info, b: BlockDownload)
    requires info.Valid()
  {
    && b.pieceIndex < info.NumPieces()
    && b.blockBegin % 16384 == 0 && b.blockBegin < Size(info, b.pieceIndex)
    && b.blockLen == (if Size(info, b.pieceIndex) - b.blockBegin < 16384
                      then Size(info, b.pieceIndex) - b.blockBegin else 16384)
  }

  ghost predicate AllProper(info: Info, s: State)
    requires info.Valid()
  {
    forall b <- s.log.sent :: ProperRequest(info, b)
  }

  lemma AwaitedAreProper(info: Info, s: State)
    requires info.Valid() && Inv(info, s)
    ensures forall b <- s.pendingBlocks :: ProperRequest(info, b)
  {
    forall b <- s.pendingBlocks ensures ProperRequest(info, b) { PendingBlocksAreBlocks(info, s, b); }
  }

  lemma {:induction false} RoundSendsAwaited(p: nat, r: Requests)
    requires r.dl.requested <= r.dl.pieceLength
    ensures var r' := RequestBlocks(p, r); r.blocks <= r'.blocks && forall b <- r'.sent :: b in r.sent || b in r'.blocks
    decreases r.dl.pieceLength - r.dl.requested
  {
    if r.dl.requested < r.dl.pieceLength && r.inflight < COUNTER_LIMIT {
      var next := RequestNext(p, r);
      if next.inflight != MAX_INFLIGHT_PER_PEER { RoundSendsAwaited(p, next); }
    }
  }

  lemma RequestOneProper(info: Info, s: State, p: nat)
    requires info.Valid() && Inv(info, s) && p in s.pendingPieces && AllProper(info, s)
    ensures AllProper(info, RequestOne(s, p))
  {
    assert PendingOk(info, s, p);
    RoundSendsAwaited(p, RequestsOf(s, p));
    RequestOneKeeps(info, s, p);
    AwaitedAreProper(info, RequestOne(s, p));
  }

  lemma {:induction false} PassProper(info: Info, s: State, order: seq<nat>)
    requires info.Valid() && Inv(info, s) && AllProper(info, s) && forall p <- order :: p in s.pendingPieces
    ensures AllProper(info, RequestPending(s, order))
    decreases |order|
  {
    if order != [] {
      assert order[0] in order;
      RequestOneProper(info, s, order[0]);
      RequestOneKeeps(info, s, order[0]);
      PassProper(info, RequestOne(s, order[0]), order[1..]);
    }
  }

  lemma StartProper(info: Info, s: State, p: nat)
    requires Supported(info) && Inv(info, s) && AllProper(info, s) && p < info.NumPieces() && p !in s.pendingPieces
    ensures AllProper(info, StartPiece(s, info, p))
  {
    AddedKeeps(info, s, p);
    RequestOneProper(info, Added(s, info, p), p);
  }

  lemma MoverProper(t: Torrent, w: World, step: Step, i: nat)
    requires Supported(t.info) && WorldOk(t, w) && Shape(t, w) && Enabled(t, w, step) && Mover(step) == Some(i)
    requires i < |w.nodes| && AllProper(t.info, w.nodes[i].s)
    ensures i < |Apply(t, w, step).nodes| && AllProper(t.info, Apply(t, w, step).nodes[i].s)
  {
    var n := w.nodes[i];
    assert NodeOk(t, w.bf, n);
    match step
    case Request(_, order) =>
      RequestCounts(t, w.bf, n, order);
      PassProper(t.info, n.s, order);
    case StartPicked(_) => StartProper(t.info, n.s, n.phase.piece);
    case _ => SameSent(t, w, step, i);
  }

  lemma SameSent(t: Torrent, w: World, step: Step, i: nat)
    requires Shape(t, w) && Enabled(t, w, step) && Mover(step) == Some(i) && !step.Request? && !step.StartPicked?
    ensures i < |w.nodes| == |Apply(t, w, step).nodes|
    ensures Apply(t, w, step).nodes[i].s.log.sent == w.nodes[i].s.log.sent
  {
  }

  lemma StepProper(t: Torrent, w: World, step: Step)
    requires Supported(t.info) && WorldOk(t, w) && Shape(t, w) && Enabled(t, w, step)
    requires forall j: nat :: j < |w.nodes| ==> AllProper(t.info, w.nodes[j].s)
    ensures forall j: nat :: j < |Apply(t, w, step).nodes| ==> AllProper(t.info, Apply(t, w, step).nodes[j].s)
  {
    var w' := Apply(t, w, step);
    forall j: nat | j < |w'.nodes| ensures AllProper(t.info, w'.nodes[j].s) {
      if Mover(step) == Some(j) {
        MoverProper(t, w, step, j);
      } else {
        SameNumber(t, w, step);
        OthersStay(t, w, step, j);
      }
    }
  }

  lemma SameNumber(t: Torrent, w: World, step: Step)
    requires Shape(t, w) && Enabled(t, w, step)
    ensures |Apply(t, w, step).nodes| == |w.nodes|
  {
  }

  lemma {:induction false} RunProper(t: Torrent, w: World, steps: seq<Step>, w': World)
    requires Supported(t.info) && WorldOk(t, w) && Exec(t, w, steps) == Some(w')
    requires forall j: nat :: j < |w.nodes| ==> AllProper(t.info, w.nodes[j].s)
    ensures forall j: nat :: j < |w'.nodes| ==> AllProper(t.info, w'.nodes[j].s)
    decreases |steps|
  {
    if steps != [] {
      StepProper(t, w, steps[0]);
      StepKeepsWorld(t, w, steps[0]);
      RunProper(t, Apply(t, w, steps[0]), steps[1..], w');
    }
  }

  /** In every run every request is one of those blocks, whatever chokes and interleavings there were. */
  lemma EveryRequestIsProper(t: Torrent, w: World, i: nat, b: BlockDownload)
    requires Supported(t.info) && Reachable(t, w) && i < |w.nodes| && b in w.nodes[i].s.log.sent
    ensures ProperRequest(t.info, b)
  {
    var seeds: nat, steps: seq<Step> :| Exec(t, Start(t, seeds), steps) == Some(w);
    StartOk(t, seeds);
    RunProper(t, Start(t, seeds), steps, w);
    assert AllProper(t.info, w.nodes[i].s);
  }
}
