/**
 * The worst run with a single choke: the first five pieces are all kept pending, each with a block on
 * its way, and five requests in flight, when the choke comes.
 */
module OneChokeRuns {
  import opened ByteStrings
  import opened Wrappers
  import opened MetaInfo
  import opened DownloadSpec
  import opened DownloadProofs
  import opened DownloadSteps
  import opened WindowProofs
  import opened CounterProofs
  import opened Swarm
  import opened NodeProofs
  import opened SwarmTheorems
  import opened SwarmSchedules
  import opened SwarmSteps
  import opened CompletionTheorems
  import opened CounterTheorems
  import opened OneChoke
  import Picker

  // ---- Five pieces of more than 250 blocks ----

  ghost predicate ManyBlocks(info: Info) {
    Supported(info) && TotalBlocks(info, Five(info)) > 250
  }

  lemma {:induction false} FirstIsLargest(info: Info, n: nat)
    requires info.Valid() && 0 < n <= info.NumPieces()
    ensures TotalBlocks(info, n) <= n * CeilBlocks(Size(info, 0))
  {
    var c := CeilBlocks(Size(info, 0));
    LargestBlocks(info, n - 1);
    if n > 1 { FirstIsLargest(info, n - 1); }
    assert n * c == (n - 1) * c + c;
  }

  lemma LargestBlocks(info: Info, p: nat)
    requires info.Valid() && p < info.NumPieces()
    ensures CeilBlocks(Size(info, p)) <= CeilBlocks(Size(info, 0))
  {
    SizesDoNotGrow(info, 0, p);
  }

  lemma FirstFillsWindow(info: Info)
    requires ManyBlocks(info)
    ensures info.NumPieces() > 0 && CeilBlocks(Size(info, 0)) >= MAX_INFLIGHT_PER_PEER
  {
    FirstIsLargest(info, Five(info));
    MulMonotone(Five(info), 5, CeilBlocks(Size(info, 0)));
  }

  // ---- Filling the table ----

  ghost function FirstPieces(m: nat): set<nat> {
    Picker.Zero(m).Missing()
  }

  lemma OnePieceMore(m: nat)
    ensures m !in FirstPieces(m) && FirstPieces(m) + {m} == FirstPieces(m + 1)
  {
  }

  /** The only downloader has the first `m` pieces pending, and nothing is owned. */
  ghost predicate Filling(t: Torrent, w: World, m: nat) {
    && ManyBlocks(t.info) && Reachable(t, w) && Running(w) && Unlocked(w) && |w.nodes| == 1
    && 1 <= m <= Five(t.info)
    && w.bf == Picker.State(t.info.NumPieces(), {}, if m == t.info.NumPieces() then 0 else m, 0)
    && FillingNode(w.nodes[0], m)
    && (!w.nodes[0].phase.AtTop? && !w.nodes[0].phase.Waiting? ==> m < Five(t.info))
  }

  ghost predicate FillingNode(n: Node, m: nat) {
    && n.s.log.restarts == 0 && !n.s.chokedUs && n.s.pendingPieces.Keys == FirstPieces(m)
    && match n.phase
       case AtTop => n.s.inflight == MAX_INFLIGHT_PER_PEER
       case Waiting => n.s.inflight == MAX_INFLIGHT_PER_PEER
       case Requesting => n.s.inflight == MAX_INFLIGHT_PER_PEER - 1
       case Picking => n.s.inflight == MAX_INFLIGHT_PER_PEER - 1
       case _ => false
  }

  /** With more blocks than pieces, two of them are of one piece. */
  lemma {:induction false} TwoOfOnePiece(blocks: set<BlockDownload>, m: nat) returns (b: BlockDownload)
    requires |blocks| > m >= 1 && forall b <- blocks :: b.pieceIndex < m
    ensures b in blocks && |Mine(blocks, b.pieceIndex)| >= 2
  {
    if m == 1 {
      assert Mine(blocks, 0) == blocks;
      b :| b in blocks;
    } else {
      var last := Mine(blocks, m - 1);
      if |last| >= 2 {
        b :| b in last;
      } else {
        var rest := blocks - last;
        assert blocks == rest + last;
        b := TwoOfOnePiece(rest, m - 1);
        Picker.Smaller(Mine(rest, b.pieceIndex), Mine(blocks, b.pieceIndex));
      }
    }
  }

  /** A block whose arrival does not finish its piece. */
  lemma SpareBlock(t: Torrent, w: World, m: nat) returns (b: BlockDownload, block: Bytes)
    requires Filling(t, w, m) && At(w, 0, Waiting) && m < MAX_INFLIGHT_PER_PEER
    ensures CanAccept(w.nodes[0].s, b.pieceIndex, b.blockBegin, block)
    ensures w.nodes[0].s.pendingPieces[b.pieceIndex].remainingBlocks >= 2
  {
    WindowBeforeFirstChoke(t, w, 0);
    ReachableNode(t, w, 0);
    var s := w.nodes[0].s;
    forall b <- s.pendingBlocks ensures b.pieceIndex < m { assert b.pieceIndex in FirstPieces(m); }
    b := TwoOfOnePiece(s.pendingBlocks, m);
    block := seq(b.blockLen, _ => 0);
    AwaitedCanBeAccepted(t.info, s, b.pieceIndex, b.blockBegin, block);
    assert PendingOk(t.info, s, b.pieceIndex);
  }

  ghost predicate Fills(t: Torrent, w: World, w': World) {
    && Leads(t, w, w') && |w.nodes| == 1 && |w'.nodes| == 1
    && (exists m: nat :: Filling(t, w', m)) && Closer(w.nodes[0], w'.nodes[0])
  }

  lemma BlockFills(t: Torrent, w: World, m: nat) returns (w': World)
    requires Filling(t, w, m) && At(w, 0, Waiting) && m < Five(t.info)
    ensures Fills(t, w, w')
  {
    var b, block := SpareBlock(t, w, m);
    w' := BlockStep(t, w, 0, b.pieceIndex, b.blockBegin, block);
    assert Filling(t, w', m);
  }

  lemma TopFills(t: Torrent, w: World, m: nat) returns (w': World)
    requires Filling(t, w, m) && At(w, 0, AtTop)
    ensures Fills(t, w, w') && Filling(t, w', m) && At(w', 0, Waiting)
  {
    assert 0 in w.bf.Missing();
    w' := GoesOn(t, w, 0);
    assert Filling(t, w', m);
  }

  lemma RequestFills(t: Torrent, w: World, m: nat) returns (w': World)
    requires Filling(t, w, m) && At(w, 0, Requesting)
    ensures Fills(t, w, w')
  {
    var order := AnyOrder(w.nodes[0].s.pendingPieces.Keys);
    PassKeepsFillingNode(t, w, m, order);
    w' := RequestStep(t, w, 0, order);
    LeadsBy(t, w, [Request(0, order)], w');
    NodeFills(t, w, m, w', OnRequest(w.nodes[0], order));
  }

  /** Only the downloader has moved, and it is filling its table still. */
  lemma NodeFills(t: Torrent, w: World, m: nat, w': World, n: Node)
    requires Filling(t, w, m) && Leads(t, w, w') && Reachable(t, w') && w' == With(w, 0, n) && !Holds(n)
    requires FillingNode(n, m) && Closer(w.nodes[0], n)
    requires n.phase.AtTop? || n.phase.Waiting? || m < Five(t.info)
    ensures Fills(t, w, w')
  {
    assert w'.nodes == [n];
    assert Filling(t, w', m);
  }

  lemma PassKeepsFillingNode(t: Torrent, w: World, m: nat, order: seq<nat>)
    requires Filling(t, w, m) && At(w, 0, Requesting) && IsOrderOf(order, w.nodes[0].s.pendingPieces.Keys)
    ensures forall p <- order :: p in w.nodes[0].s.pendingPieces
    ensures var n' := OnRequest(w.nodes[0], order); FillingNode(n', m) && !Holds(n') && Closer(w.nodes[0], n')
  {
    PassKeepsFilling(t, w, order);
  }

  lemma PassKeepsFilling(t: Torrent, w: World, order: seq<nat>)
    requires Supported(t.info) && Reachable(t, w) && |w.nodes| == 1 && At(w, 0, Requesting)
    requires w.nodes[0].s.log.restarts == 0 && w.nodes[0].s.inflight == MAX_INFLIGHT_PER_PEER - 1
    requires IsOrderOf(order, w.nodes[0].s.pendingPieces.Keys)
    ensures forall p <- order :: p in w.nodes[0].s.pendingPieces
    ensures var n, n' := w.nodes[0], OnRequest(w.nodes[0], order);
            && n'.s.log == n.s.log.(sent := n'.s.log.sent) && n'.s.pendingPieces.Keys == n.s.pendingPieces.Keys
            && !n'.s.chokedUs && n'.rejections == n.rejections
            && (if n'.phase.Picking? then n'.s.inflight == MAX_INFLIGHT_PER_PEER - 1
                else n'.phase.AtTop? && n'.s.inflight == MAX_INFLIGHT_PER_PEER)
  {
    ReachableNode(t, w, 0);
    var n := w.nodes[0];
    RequestCounts(t, w.bf, n, order);
    PassCountsFilling(t, w.bf, n, order);
  }

  lemma PassCountsFilling(t: Torrent, bf: Picker.State, n: Node, order: seq<nat>)
    requires Supported(t.info) && NodeOk(t, bf, n) && n.phase.Requesting? && n.s.log.restarts == 0
    requires IsOrderOf(order, n.s.pendingPieces.Keys) && forall p <- order :: p in n.s.pendingPieces
    ensures n.s.inflight <= OnRequest(n, order).s.inflight <= MAX_INFLIGHT_PER_PEER
    ensures !OnRequest(n, order).s.chokedUs
  {
    RequestPendingKeeps(t.info, n.s, order);
    MoreBlocksMoreInflight(n.s, RequestPending(n.s, order));
    RequestPendingKeepsWindow(t.info, n.s, bf.owned, order);
  }

  lemma PickFills(t: Torrent, w: World, m: nat) returns (w': World)
    requires Filling(t, w, m) && At(w, 0, Picking)
    ensures Fills(t, w, w')
  {
    assert m in w.bf.Missing();
    assert w.bf.Pick() == (w.bf.(cur := w.bf.Next()), Some(m));
    StartFills(t, w, m);
    var steps, w1 := PickingIsASchedule(t, w, 0);
    LeadsBy(t, w, steps, w1);
    w' := w1;
    assert w'.nodes == [w.nodes[0].(s := StartPiece(w.nodes[0].s, t.info, m), phase := AtTop)];
    OnePieceMore(m);
    assert FillingNode(w'.nodes[0], m + 1) && Filling(t, w', m + 1);
  }

  lemma StartFills(t: Torrent, w: World, m: nat)
    requires Filling(t, w, m) && At(w, 0, Picking)
    ensures m < t.info.NumPieces()
    ensures var s := w.nodes[0].s;
            var s' := StartPiece(s, t.info, m);
            && s'.inflight == MAX_INFLIGHT_PER_PEER && s'.pendingPieces.Keys == s.pendingPieces.Keys + {m}
            && !s'.chokedUs && s'.log.restarts == 0 && s'.log.received == s.log.received
  {
    ReachableNode(t, w, 0);
    var s := w.nodes[0].s;
    OnePieceMore(m);
    StartPieceKeeps(t.info, s, m);
    StartPieceIs(t.info, s, m);
    RequestBlocksCounts(m, Requests(NewPiece(t.info, m), s.pendingBlocks, s.inflight, s.log.sent));
  }

  lemma {:induction false} FillsTable(t: Torrent, w: World, m: nat) returns (w': World)
    requires Filling(t, w, m)
    ensures Leads(t, w, w') && Filling(t, w', Five(t.info)) && At(w', 0, Waiting)
    decreases BlocksToCome(t, w.nodes[0]), Distance(w.nodes[0])
  {
    WindowBeforeFirstChoke(t, w, 0);
    if At(w, 0, Waiting) && m == Five(t.info) {
      w' := w;
      assert Exec(t, w, []) == Some(w);
    } else {
      var w1;
      match w.nodes[0].phase {
        case AtTop => w1 := TopFills(t, w, m);
        case Waiting => w1 := BlockFills(t, w, m);
        case Requesting => w1 := RequestFills(t, w, m);
        case Picking => w1 := PickFills(t, w, m);
      }
      var m1: nat :| Filling(t, w1, m1);
      WindowBeforeFirstChoke(t, w1, 0);
      w' := FillsTable(t, w1, m1);
      LeadsThen(t, w, w1, w');
    }
  }

  // ---- The choke ----

  /** The first `k` pieces, from the first on. */
  function InOrder(k: nat): seq<nat> {
    seq(k, i => i)
  }

  lemma InOrderIsOrder(k: nat)
    ensures IsOrderOf(InOrder(k), FirstPieces(k))
  {
    forall p ensures p in Elements(InOrder(k)) <==> p in FirstPieces(k) {
      if p in FirstPieces(k) { assert InOrder(k)[p] == p; }
    }
  }

  lemma {:induction false} OneMoreUnrequested(s: State, order: seq<nat>, p: nat)
    requires (forall q <- order :: q in s.pendingPieces) && p in s.pendingPieces
    ensures UnrequestedOf(s, order + [p]) == UnrequestedOf(s, order) + Unrequested(s.pendingPieces[p])
  {
    if order == [] {
      assert [p][1..] == [];
    } else {
      assert order[0] in order;
      assert (order + [p])[1..] == order[1..] + [p];
      OneMoreUnrequested(s, order[1..], p);
    }
  }

  /** After the choke, all blocks of the first `k` pieces are to be requested. */
  lemma {:induction false} AllToRequest(info: Info, s: State, k: nat)
    requires Supported(info) && Inv(info, s) && s.pendingPieces.Keys >= FirstPieces(k) && k <= info.NumPieces()
    ensures forall p <- InOrder(k) :: p in Choke(s).pendingPieces
    ensures UnrequestedOf(Choke(s), InOrder(k)) == TotalBlocks(info, k)
  {
    OnePieceMore(k);
    forall p <- InOrder(k) ensures p in Choke(s).pendingPieces { assert p in FirstPieces(k); }
    if k > 0 {
      OnePieceMore(k - 1);
      AllToRequest(info, s, k - 1);
      assert InOrder(k) == InOrder(k - 1) + [k - 1];
      assert PendingOk(info, s, k - 1);
      OneMoreUnrequested(Choke(s), InOrder(k - 1), k - 1);
    }
  }

  lemma FirstStarted(t: Torrent) returns (w: World)
    requires ManyBlocks(t.info)
    ensures Leads(t, Start(t, 1), w) && Filling(t, w, 1)
  {
    FirstFillsWindow(t.info);
    var w0 := Start(t, 1);
    assert Exec(t, w0, []) == Some(w0);
    assert 0 in w0.bf.Missing();
    var w1 := AsksForFirstPiece(t, w0, 0);
    w := StartsFirstPiece(t, w1);
    LeadsThen(t, w0, w1, w);
    FirstRequests(t.info);
    OnePieceMore(0);
    assert FillingNode(w.nodes[0], 1);
  }

  /** With five pieces of more than 250 blocks, some run with one choke overflows the counter. */
  lemma SomeRunOverflows(t: Torrent) returns (w: World)
    requires ManyBlocks(t.info)
    ensures Leads(t, Start(t, 1), w) && |w.nodes| == 1
    ensures w.nodes[0].s.log.restarts == 1 && Overflowed(w.nodes[0].s) && w.nodes[0].phase == Stopped
  {
    var k := Five(t.info);
    var w1 := FirstStarted(t);
    var w2 := FillsTable(t, w1, 1);
    LeadsThen(t, Start(t, 1), w1, w2);
    assert 0 in w2.bf.Missing();
    var w3 := ChokeAndUnchoke(t, w2, 0);
    LeadsThen(t, Start(t, 1), w2, w3);
    w := LastPass(t, w2, w3, k);
    LeadsThen(t, Start(t, 1), w3, w);
  }

  lemma LastPass(t: Torrent, w: World, w1: World, k: nat) returns (w': World)
    requires Filling(t, w, k) && k == Five(t.info) && At(w, 0, Waiting) && Reachable(t, w1)
    requires w1 == With(w, 0, w.nodes[0].(s := Unchoke(DownloadSpec.Choke(w.nodes[0].s)), phase := Requesting))
    ensures Leads(t, w1, w') && |w'.nodes| == 1
    ensures w'.nodes[0].s.log.restarts == 1 && Overflowed(w'.nodes[0].s) && w'.nodes[0].phase == Stopped
  {
    var s := w.nodes[0].s;
    ReachableAccounts(t, w);
    InOrderIsOrder(k);
    AllToRequest(t.info, s, k);
    SameToRequest(DownloadSpec.Choke(s), w1.nodes[0].s, MAX_INFLIGHT_PER_PEER, InOrder(k));
    w' := OverflowingPass(t, w1, InOrder(k));
  }

  lemma OverflowingPass(t: Torrent, w: World, order: seq<nat>) returns (w': World)
    requires Supported(t.info) && Reachable(t, w) && Running(w) && |w.nodes| == 1 && At(w, 0, Requesting)
    requires IsOrderOf(order, w.nodes[0].s.pendingPieces.Keys) && forall p <- order :: p in w.nodes[0].s.pendingPieces
    requires w.nodes[0].s.inflight == MAX_INFLIGHT_PER_PEER && UnrequestedOf(w.nodes[0].s, order) > 250
    ensures Leads(t, w, w') && |w'.nodes| == 1 && w'.nodes[0].s.log.restarts == w.nodes[0].s.log.restarts
    ensures Overflowed(w'.nodes[0].s) && w'.nodes[0].phase == Stopped
  {
    CounterOverflowsIff(t, w, 0, order);
    PassCountsHere(t, w, 0, order);
    w' := RequestStep(t, w, 0, order);
    LeadsBy(t, w, [Request(0, order)], w');
  }

  lemma ReachableAccounts(t: Torrent, w: World)
    requires Supported(t.info) && Reachable(t, w) && |w.nodes| > 0
    ensures Inv(t.info, w.nodes[0].s)
  {
    ReachableNode(t, w, 0);
  }

  // ---- The exact condition ----

  /** Some downloader of the world was choked at most once, and its counter has overflowed. */
  ghost predicate OverflowedByOneChoke(w: World) {
    exists n <- w.nodes :: n.s.log.restarts <= 1 && Overflowed(n.s)
  }

  lemma FewBlocksNeverOverflow(t: Torrent, seeds: nat, w: World)
    requires FewBlocks(t.info) && Leads(t, Start(t, seeds), w)
    ensures !OverflowedByOneChoke(w)
  {
    var steps: seq<Step> :| Exec(t, Start(t, seeds), steps) == Some(w);
    StartOk(t, seeds);
    RunBounded(t, Start(t, seeds), steps, w);
    forall n <- w.nodes ensures NoOverflow(n) {
      var j :| 0 <= j < |w.nodes| && w.nodes[j] == n;
    }
  }

  /**
   * A single choke can make the counter of a downloader overflow if and only if the first five
   * pieces, or all if there are fewer, have more than 250 blocks.
   */
  lemma OneChokeOverflowsIff(t: Torrent)
    requires Supported(t.info)
    ensures (exists seeds: nat, w: World :: Leads(t, Start(t, seeds), w) && OverflowedByOneChoke(w)) <==>
              TotalBlocks(t.info, Five(t.info)) > 250
  {
    if ManyBlocks(t.info) {
      var w := SomeRunOverflows(t);
      assert w.nodes[0] in w.nodes;
      assert Leads(t, Start(t, 1), w) && OverflowedByOneChoke(w);
    } else {
      forall seeds: nat, w: World | Leads(t, Start(t, seeds), w) ensures !OverflowedByOneChoke(w) {
        FewBlocksNeverOverflow(t, seeds, w);
      }
    }
  }
}
