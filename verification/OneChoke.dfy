/**
 * How far the counter of requests in flight can get with a single choke. The worst that can happen is
 * that five pieces are pending when it comes, and all their blocks are requested again on top of the
 * five that are stranded.
 */
module OneChoke {
  import opened ByteStrings
  import opened Wrappers
  import opened MetaInfo
  import opened DownloadSpec
  import opened DownloadProofs
  import opened DownloadSteps
  import opened WindowProofs
  import opened CounterProofs
  import opened Swarm
  import opened NodeProofs
  import opened SwarmProofs
  import opened SwarmTheorems
  import Picker
  import PeerMessages

  // ---- Blocks of pending pieces ----

  /** The blocks that remain of the pending pieces below `n`. */
  ghost function RemainingBelow(s: State, n: nat): nat {
    if n == 0 then 0
    else RemainingBelow(s, n - 1) + if n - 1 in s.pendingPieces then s.pendingPieces[n - 1].remainingBlocks else 0
  }

  ghost function BlocksBelow(blocks: set<BlockDownload>, n: nat): set<BlockDownload> {
    set b <- blocks | b.pieceIndex < n
  }

  lemma {:induction false} AwaitedRemain(info: Info, s: State, n: nat)
    requires info.Valid() && Inv(info, s)
    ensures |BlocksBelow(s.pendingBlocks, n)| <= RemainingBelow(s, n)
  {
    if n == 0 {
      assert BlocksBelow(s.pendingBlocks, n) == {};
    } else {
      AwaitedRemain(info, s, n - 1);
      AwaitedOf(info, s, n - 1);
      assert BlocksBelow(s.pendingBlocks, n) == BlocksBelow(s.pendingBlocks, n - 1) + Mine(s.pendingBlocks, n - 1);
    }
  }

  lemma AwaitedOf(info: Info, s: State, p: nat)
    requires info.Valid() && Inv(info, s)
    ensures |Mine(s.pendingBlocks, p)| <= if p in s.pendingPieces then s.pendingPieces[p].remainingBlocks else 0
  {
    if p in s.pendingPieces {
      assert PendingOk(info, s, p);
    } else {
      assert Mine(s.pendingBlocks, p) == {};
    }
  }

  /** What the counter can come to, if no further piece is started. */
  ghost function Load(info: Info, s: State): int
    requires info.Valid()
  {
    Leak(s) + RemainingBelow(s, info.NumPieces())
  }

  lemma InflightWithinLoad(info: Info, s: State)
    requires info.Valid() && Inv(info, s)
    ensures s.inflight <= Load(info, s)
  {
    AwaitedRemain(info, s, info.NumPieces());
    assert BlocksBelow(s.pendingBlocks, info.NumPieces()) == s.pendingBlocks;
  }

  lemma {:induction false} NoMoreRemain(s: State, s': State, n: nat)
    requires s'.pendingPieces.Keys <= s.pendingPieces.Keys
    requires forall p <- s'.pendingPieces :: s'.pendingPieces[p].remainingBlocks <= s.pendingPieces[p].remainingBlocks
    ensures RemainingBelow(s', n) <= RemainingBelow(s, n)
  {
    if n > 0 { NoMoreRemain(s, s', n - 1); }
  }

  // ---- The first choke ----

  lemma SizesDoNotGrow(info: Info, p: nat, q: nat)
    requires info.Valid() && p <= q < info.NumPieces()
    ensures Size(info, q) <= Size(info, p)
  {
    PiecesAreConsecutive(info, p);
    PiecesAreConsecutive(info, q);
  }

  ghost function KeysBelow(s: State, n: nat): set<nat> {
    set p <- s.pendingPieces | p < n
  }

  lemma RestartedBlocks(info: Info, s: State, p: nat)
    requires Supported(info) && Inv(info, s) && p in s.pendingPieces
    ensures p < info.NumPieces() && Choke(s).pendingPieces[p].remainingBlocks == CeilBlocks(Size(info, p))
  {
    assert PendingOk(info, s, p);
    BlockCounterFitsIff(Size(info, p));
  }

  /** Any pieces have at most as many blocks as equally many from the first on. */
  lemma {:induction false} FirstAreLargest(info: Info, s: State, n: nat)
    requires Supported(info) && Inv(info, s) && n <= info.NumPieces()
    ensures |KeysBelow(s, n)| <= n
    ensures RemainingBelow(Choke(s), n) <= TotalBlocks(info, |KeysBelow(s, n)|)
  {
    if n == 0 {
      assert KeysBelow(s, n) == {};
    } else {
      FirstAreLargest(info, s, n - 1);
      if n - 1 in s.pendingPieces {
        assert KeysBelow(s, n) == KeysBelow(s, n - 1) + {n - 1};
        RestartedBlocks(info, s, n - 1);
        SizesDoNotGrow(info, |KeysBelow(s, n - 1)|, n - 1);
      } else {
        assert KeysBelow(s, n) == KeysBelow(s, n - 1);
      }
    }
  }

  lemma {:induction false} KeysAreAwaited(keys: set<nat>, blocks: set<BlockDownload>)
    requires forall p <- keys :: Mine(blocks, p) != {}
    ensures |keys| <= |blocks|
  {
    if keys != {} {
      var p :| p in keys;
      var others := blocks - Mine(blocks, p);
      forall q <- keys - {p} ensures Mine(others, q) != {} {
        var b :| b in Mine(blocks, q);
        assert b in Mine(others, q);
      }
      KeysAreAwaited(keys - {p}, others);
      assert blocks == others + Mine(blocks, p);
    }
  }

  lemma {:induction false} MoreBlocksInAll(info: Info, m: nat, n: nat)
    requires info.Valid() && m <= n <= info.NumPieces()
    ensures TotalBlocks(info, m) <= TotalBlocks(info, n)
  {
    if m < n { MoreBlocksInAll(info, m, n - 1); }
  }

  /** The pieces that count: five, or all if there are fewer. */
  function Five(info: Info): nat
    requires info.Valid()
  {
    Min(5, info.NumPieces())
  }

  lemma ChokeLoad(info: Info, s: State)
    requires Supported(info) && Inv(info, s) && AllAwaited(s)
    requires s.inflight == |s.pendingBlocks| <= MAX_INFLIGHT_PER_PEER
    ensures Load(info, Choke(s)) <= MAX_INFLIGHT_PER_PEER + TotalBlocks(info, Five(info))
  {
    var n := info.NumPieces();
    FirstAreLargest(info, s, n);
    assert KeysBelow(s, n) == s.pendingPieces.Keys;
    KeysAreAwaited(s.pendingPieces.Keys, s.pendingBlocks);
    MoreBlocksInAll(info, |s.pendingPieces.Keys|, Five(info));
    ChokeKeeps(info, s);
  }

  // ---- Every step ----

  /** At most five requests are counted, one piece is partly requested, and there is room when more is asked for. */
  ghost predicate Small(n: Node) {
    && n.s.inflight <= MAX_INFLIGHT_PER_PEER
    && (forall p, q :: Partial(n.s, p) && Partial(n.s, q) ==> p == q)
    && (n.phase.Completing? || Holds(n) || n.phase.Requesting? ==> n.s.inflight < MAX_INFLIGHT_PER_PEER)
  }

  /** After one choke the window holds again, or no piece was started since. */
  ghost predicate Bounded(info: Info, n: Node)
    requires info.Valid()
  {
    n.s.log.restarts == 1 && !n.phase.Stopped? ==>
      || (Small(n) && !n.s.chokedUs)
      || (!n.phase.Picking? && !n.phase.Starting?
          && Load(info, n.s) <= MAX_INFLIGHT_PER_PEER + TotalBlocks(info, Five(info)))
  }

  /** The torrents that are small enough. */
  ghost predicate FewBlocks(info: Info) {
    Supported(info) && MAX_INFLIGHT_PER_PEER + TotalBlocks(info, Five(info)) < COUNTER_LIMIT
  }

  lemma ChokeBounded(t: Torrent, bf: Picker.State, n: Node)
    requires Supported(t.info) && NodeOk(t, bf, n) && n.phase.Waiting? && n.s.log.restarts == 0
    ensures Bounded(t.info, OnMessage(n, PeerMessages.Choke))
  {
    if n.s.chokedUs {
      assert n.s == FRESH;
      assert AllAwaited(n.s);
    }
    ChokeLoad(t.info, n.s);
  }

  lemma BlockBounded(t: Torrent, bf: Picker.State, n: Node, index: nat, begin: nat, block: Bytes)
    requires Supported(t.info) && NodeOk(t, bf, n) && n.phase.Waiting? && Bounded(t.info, n)
    requires CanAccept(n.s, index, begin, block)
    ensures Bounded(t.info, OnBlock(n, index, begin, block))
  {
    var s' := Accept(n.s, index, begin, block);
    AcceptKeeps(t.info, n.s, index, begin, block);
    NoMoreRemain(n.s, s', t.info.NumPieces());
    assert forall p :: Partial(s', p) ==> Partial(n.s, p);
  }

  lemma UnchokeBounded(t: Torrent, n: Node)
    requires t.info.Valid() && n.phase.Waiting? && n.s.chokedUs && Bounded(t.info, n)
    ensures Bounded(t.info, n.(s := Unchoke(n.s), phase := Requesting))
  {
    NoMoreRemain(n.s, Unchoke(n.s), t.info.NumPieces());
  }

  lemma MessageBounded(t: Torrent, bf: Picker.State, n: Node, msg: PeerMessages.Message)
    requires Supported(t.info) && NodeOk(t, bf, n) && n.phase.Waiting? && Bounded(t.info, n)
    ensures Bounded(t.info, OnMessage(n, msg))
  {
    match msg
    case Choke => if n.s.log.restarts == 0 { ChokeBounded(t, bf, n); }
    case Unchoke => if n.s.chokedUs { UnchokeBounded(t, n); }
    case Piece(index, begin, block) =>
      if CanAccept(n.s, index, begin, block) { BlockBounded(t, bf, n, index, begin, block); }
    case _ =>
  }

  lemma CompleteBounded(t: Torrent, bf: Picker.State, n: Node, index: nat)
    requires Supported(t.info) && NodeOk(t, bf, n) && n.phase == Completing(index) && Bounded(t.info, n)
    ensures index in n.s.pendingPieces && Bounded(t.info, OnComplete(t, bf, n, index))
  {
    var s' := Finish(n.s, index);
    NoMoreRemain(n.s, s', t.info.NumPieces());
    assert forall p :: Partial(s', p) ==> Partial(n.s, p);
  }

  /** With at most one piece partly requested and room for it, nothing is requested beyond the window. */
  lemma {:induction false} NothingBeyond(s: State, inflight: nat, order: seq<nat>)
    requires (forall p <- order :: p in s.pendingPieces) && NoDuplicates(order) && WithinPieces(s)
    requires forall p, q :: Partial(s, p) && Partial(s, q) ==> p == q
    requires (exists p <- order :: Partial(s, p)) ==> inflight < MAX_INFLIGHT_PER_PEER
    ensures BeyondWindow(s, inflight, order) == 0
    decreases |order|
  {
    if inflight >= MAX_INFLIGHT_PER_PEER {
      NothingToRequestIn(s, order);
    } else if order != [] {
      assert order[0] in order;
      var p, rest := order[0], order[1..];
      if q :| q in rest && Partial(s, q) {
        assert q in order && q != p && !Partial(s, p);
      }
      NothingBeyond(s, inflight + Unrequested(s.pendingPieces[p]), rest);
    }
  }

  lemma {:induction false} NothingToRequestIn(s: State, order: seq<nat>)
    requires (forall q <- order :: q in s.pendingPieces) && WithinPieces(s)
    requires forall q <- order :: !Partial(s, q)
    ensures UnrequestedOf(s, order) == 0
  {
    if order != [] {
      assert order[0] in order;
      NothingToRequestIn(s, order[1..]);
    }
  }

  lemma SmallPass(t: Torrent, bf: Picker.State, n: Node, order: seq<nat>)
    requires Supported(t.info) && NodeOk(t, bf, n) && n.phase.Requesting? && Small(n)
    requires IsOrderOf(order, n.s.pendingPieces.Keys) && forall p <- order :: p in n.s.pendingPieces
    ensures Small(OnRequest(n, order)) && !OnRequest(n, order).phase.Stopped?
  {
    var s' := RequestPending(n.s, order);
    RequestPendingKeeps(t.info, n.s, order);
    NoNewPartial(n.s, s');
    AccountsAreWithinPieces(t.info, n.s);
    NothingBeyond(n.s, n.s.inflight, order);
    PassKeepsToWindowIff(n.s, order);
  }

  lemma LoadedPass(t: Torrent, bf: Picker.State, n: Node, order: seq<nat>)
    requires Supported(t.info) && NodeOk(t, bf, n) && n.phase.Requesting?
    requires IsOrderOf(order, n.s.pendingPieces.Keys) && forall p <- order :: p in n.s.pendingPieces
    ensures var n' := OnRequest(n, order);
            && Load(t.info, n'.s) <= Load(t.info, n.s) && n'.s.inflight <= Load(t.info, n'.s)
            && (n'.phase.Stopped? ==> Overflowed(n'.s)) && !n'.phase.Starting? && !n'.s.chokedUs
  {
    var s' := RequestPending(n.s, order);
    RequestPendingKeeps(t.info, n.s, order);
    NoMoreRemain(n.s, s', t.info.NumPieces());
    InflightWithinLoad(t.info, s');
  }

  lemma RequestBounded(t: Torrent, bf: Picker.State, n: Node, order: seq<nat>)
    requires FewBlocks(t.info) && NodeOk(t, bf, n) && n.phase.Requesting? && Bounded(t.info, n)
    requires IsOrderOf(order, n.s.pendingPieces.Keys) && forall p <- order :: p in n.s.pendingPieces
    ensures Bounded(t.info, OnRequest(n, order))
    ensures n.s.log.restarts == 1 ==> !OnRequest(n, order).phase.Stopped?
  {
    SameRestarts(t, bf, n, order);
    if n.s.log.restarts == 1 {
      if Small(n) {
        SmallPass(t, bf, n, order);
        SmallIsBounded(t.info, OnRequest(n, order));
      } else {
        LoadedPass(t, bf, n, order);
        RoomIsSmall(t, bf, n, order);
        LoadedIsBounded(t.info, n, OnRequest(n, order));
      }
    }
  }

  lemma SmallIsBounded(info: Info, n: Node)
    requires info.Valid() && Small(n) && !n.s.chokedUs
    ensures Bounded(info, n)
  {
  }

  lemma LoadedIsBounded(info: Info, n: Node, n': Node)
    requires FewBlocks(info) && Bounded(info, n) && n.s.log.restarts == 1 && !n.phase.Stopped? && !Small(n)
    requires Load(info, n'.s) <= Load(info, n.s) && n'.s.inflight <= Load(info, n'.s) && !n'.s.chokedUs
    requires (n'.phase.Stopped? ==> Overflowed(n'.s)) && !n'.phase.Starting? && (n'.phase.Picking? ==> Small(n'))
    ensures Bounded(info, n') && !n'.phase.Stopped?
  {
  }

  lemma SameRestarts(t: Torrent, bf: Picker.State, n: Node, order: seq<nat>)
    requires Supported(t.info) && NodeOk(t, bf, n) && n.phase.Requesting?
    requires IsOrderOf(order, n.s.pendingPieces.Keys) && forall p <- order :: p in n.s.pendingPieces
    ensures OnRequest(n, order).s.log.restarts == n.s.log.restarts && !OnRequest(n, order).s.chokedUs
  {
    RequestCounts(t, bf, n, order);
  }

  /** A pass that leaves room leaves no piece partly requested. */
  lemma RoomIsSmall(t: Torrent, bf: Picker.State, n: Node, order: seq<nat>)
    requires Supported(t.info) && NodeOk(t, bf, n) && n.phase.Requesting?
    requires IsOrderOf(order, n.s.pendingPieces.Keys) && forall p <- order :: p in n.s.pendingPieces
    ensures var n' := OnRequest(n, order); n'.phase.Picking? ==> Small(n')
  {
    RequestKeepsNode(t, bf, n, order);
  }

  lemma NoNewPartial(s: State, s': State)
    requires OnlyRequests(s, s')
    ensures forall p :: Partial(s', p) ==> Partial(s, p)
  {
    forall p | Partial(s', p) ensures Partial(s, p) {
      assert OnlyMoreRequested(s.pendingPieces[p], s'.pendingPieces[p]);
    }
  }

  lemma StartBounded(t: Torrent, bf: Picker.State, n: Node)
    requires Supported(t.info) && NodeOk(t, bf, n) && n.phase.Starting? && Bounded(t.info, n)
    ensures Bounded(t.info, n.(s := StartPiece(n.s, t.info, n.phase.piece), phase := AtTop))
  {
    var p, s' := n.phase.piece, StartPiece(n.s, t.info, n.phase.piece);
    StartPieceKeeps(t.info, n.s, p);
    StartPieceIs(t.info, n.s, p);
    forall q | Partial(s', q) ensures q == p {
      assert !Partial(n.s, q);
    }
  }

  lemma PickBounded(t: Torrent, n: Node, picked: Option<nat>)
    requires t.info.Valid() && n.phase.Picking? && Bounded(t.info, n)
    ensures Bounded(t.info, OnPick(n, picked))
  {
  }

  lemma MoverBounded(t: Torrent, w: World, step: Step, i: nat)
    requires FewBlocks(t.info) && WorldOk(t, w) && Shape(t, w) && Enabled(t, w, step) && Mover(step) == Some(i)
    requires i < |w.nodes| && Bounded(t.info, w.nodes[i])
    ensures i < |Apply(t, w, step).nodes| && Bounded(t.info, Apply(t, w, step).nodes[i])
  {
    var n := w.nodes[i];
    assert NodeOk(t, w.bf, n);
    match step
    case Message(_, msg) => MessageBounded(t, w.bf, n, msg);
    case Complete(_) => CompleteBounded(t, w.bf, n, n.phase.index);
    case Request(_, order) =>
      assert forall p <- order :: p in Elements(order);
      RequestBounded(t, w.bf, n, order);
    case StartPicked(_) => StartBounded(t, w.bf, n);
    case Pick(_) => PickBounded(t, n, w.bf.Pick().1);
    case _ =>
  }

  lemma PassDoesNotOverflow(t: Torrent, bf: Picker.State, n: Node, order: seq<nat>)
    requires FewBlocks(t.info) && NodeOk(t, bf, n) && n.phase.Requesting? && Bounded(t.info, n)
    requires IsOrderOf(order, n.s.pendingPieces.Keys)
    ensures (forall p <- order :: p in n.s.pendingPieces) && NoOverflow(OnRequest(n, order))
  {
    RequestCounts(t, bf, n, order);
    RequestBounded(t, bf, n, order);
    RequestKeepsNode(t, bf, n, order);
  }

  /** The counter overflows only in a pass, and a stopped downloader does not move. */
  lemma MoverNoOverflow(t: Torrent, w: World, step: Step, i: nat)
    requires FewBlocks(t.info) && WorldOk(t, w) && Shape(t, w) && Enabled(t, w, step) && Mover(step) == Some(i)
    requires i < |w.nodes| && Bounded(t.info, w.nodes[i]) && NoOverflow(w.nodes[i])
    ensures i < |Apply(t, w, step).nodes| && NoOverflow(Apply(t, w, step).nodes[i])
  {
    var n := w.nodes[i];
    assert NodeOk(t, w.bf, n);
    match step
    case Request(_, order) => PassDoesNotOverflow(t, w.bf, n, order);
    case StartPicked(_) => StartPieceIs(t.info, n.s, n.phase.piece);
    case _ =>
  }

  ghost predicate AllBounded(t: Torrent, w: World)
    requires t.info.Valid()
  {
    forall j :: 0 <= j < |w.nodes| ==> Bounded(t.info, w.nodes[j]) && NoOverflow(w.nodes[j])
  }

  ghost predicate NoOverflow(n: Node) {
    n.s.log.restarts <= 1 ==> !Overflowed(n.s)
  }

  // ---- Every run ----

  lemma StepBounded(t: Torrent, w: World, step: Step)
    requires FewBlocks(t.info) && WorldOk(t, w) && Shape(t, w) && Enabled(t, w, step) && AllBounded(t, w)
    ensures AllBounded(t, Apply(t, w, step))
  {
    var w' := Apply(t, w, step);
    if Mover(step).Some? {
      var i := Mover(step).value;
      assert 0 <= i < |w.nodes|;
      MoverBounded(t, w, step, i);
      MoverNoOverflow(t, w, step, i);
      forall j: nat | j < |w'.nodes| ensures Bounded(t.info, w'.nodes[j]) && NoOverflow(w'.nodes[j]) {
        if j != i { OthersStay(t, w, step, j); }
      }
    }
  }

  lemma {:induction false} RunBounded(t: Torrent, w: World, steps: seq<Step>, w': World)
    requires FewBlocks(t.info) && WorldOk(t, w) && AllBounded(t, w) && Exec(t, w, steps) == Some(w')
    ensures AllBounded(t, w')
    decreases |steps|
  {
    if steps != [] {
      StepBounded(t, w, steps[0]);
      StepKeepsWorld(t, w, steps[0]);
      RunBounded(t, Apply(t, w, steps[0]), steps[1..], w');
    }
  }
}
