/**
 * What holds of a downloader that its peer has not choked yet: at most five requests are awaited,
 * and no block is ever asked for twice. Then reassembly, for all runs.
 */
module WindowProofs {
  import opened ByteStrings
  import opened MetaInfo
  import opened DownloadSpec
  import opened DownloadProofs

  /** A block of the torrent, cut on the block grid. */
  ghost predicate IsBlock(info: Info, b: BlockDownload)
    requires info.Valid()
  {
    && b.pieceIndex < info.NumPieces()
    && OnGrid(b.blockBegin) && b.blockBegin < Size(info, b.pieceIndex)
    && b == BlockAt(b.pieceIndex, Size(info, b.pieceIndex), b.blockBegin)
  }

  /** A request was made for the requested part of a pending piece, or for a piece owned by now. */
  ghost predicate Explained(s: State, owned: set<nat>, b: BlockDownload) {
    if b.pieceIndex in s.pendingPieces then b.blockBegin < s.pendingPieces[b.pieceIndex].requested
    else b.pieceIndex in owned
  }

  ghost predicate Window(info: Info, s: State, owned: set<nat>)
    requires info.Valid()
  {
    && s.inflight == |s.pendingBlocks| <= MAX_INFLIGHT_PER_PEER
    && (forall p, q :: Partial(s, p) && Partial(s, q) ==> p == q)
    && NoDuplicates(s.log.sent)
    && (forall b <- s.log.sent :: IsBlock(info, b))
    && (forall b <- s.log.sent :: Explained(s, owned, b))
    && |s.log.sent| == s.log.received + |s.pendingBlocks|
    && (s.chokedUs ==> s == FRESH)
  }

  lemma PendingBlocksAreBlocks(info: Info, s: State, b: BlockDownload)
    requires info.Valid() && Inv(info, s) && b in s.pendingBlocks
    ensures IsBlock(info, b) && b.blockBegin < s.pendingPieces[b.pieceIndex].requested
  {
    assert PendingOk(info, s, b.pieceIndex);
    assert b in Mine(s.pendingBlocks, b.pieceIndex);
  }

  lemma RequestOneSends(info: Info, s: State, owned: set<nat>, p: nat)
    requires info.Valid() && Inv(info, s) && p in s.pendingPieces && !s.chokedUs
    requires NoDuplicates(s.log.sent) && forall b <- s.log.sent :: IsBlock(info, b) && Explained(s, owned, b)
    ensures var s' := RequestOne(s, p);
            && NoDuplicates(s'.log.sent)
            && (forall b <- s'.log.sent :: IsBlock(info, b) && Explained(s', owned, b))
            && |s'.log.sent| - |s.log.sent| == |s'.pendingBlocks| - |s.pendingBlocks|
  {
    var r, s' := RequestsOf(s, p), RequestOne(s, p);
    assert PendingOk(info, s, p);
    RequestBlocksSends(p, Size(info, p), s.log.accepted[p], r);
    RequestOneKeeps(info, s, p);
    forall b <- s'.log.sent ensures IsBlock(info, b) && Explained(s', owned, b) {
      if b in s'.pendingBlocks {
        PendingBlocksAreBlocks(info, s', b);
      }
    }
  }

  /** Only the piece asked for changes, and it ends exhausted unless the window is full. */
  lemma RequestOneFillsWindow(s: State, p: nat)
    requires p in s.pendingPieces && s.pendingPieces[p].requested <= s.pendingPieces[p].pieceLength
    requires s.inflight <= MAX_INFLIGHT_PER_PEER && (Partial(s, p) ==> s.inflight < MAX_INFLIGHT_PER_PEER)
    ensures var s' := RequestOne(s, p);
            && s'.inflight <= MAX_INFLIGHT_PER_PEER
            && (Partial(s', p) ==> s'.inflight == MAX_INFLIGHT_PER_PEER)
            && (forall q :: q != p ==> (Partial(s', q) <==> Partial(s, q)))
            && (!Partial(s, p) ==> s' == s)
  {
    if Partial(s, p) {
      RequestBlocksFillsWindow(p, RequestsOf(s, p));
    }
  }

  lemma RequestOneKeepsWindow(info: Info, s: State, owned: set<nat>, p: nat)
    requires info.Valid() && Inv(info, s) && Window(info, s, owned) && p in s.pendingPieces && !s.chokedUs
    requires Partial(s, p) ==> s.inflight < MAX_INFLIGHT_PER_PEER
    ensures Window(info, RequestOne(s, p), owned)
    ensures s.pendingPieces[p].requested <= s.pendingPieces[p].pieceLength
  {
    assert PendingOk(info, s, p) == true;
    RequestOneOnlyRequests(info, s, p);
    RequestOneSends(info, s, owned, p);
    RequestOneFillsWindow(s, p);
    forall q, r | Partial(RequestOne(s, p), q) && Partial(RequestOne(s, p), r) ensures q == r {
      assert q != p ==> Partial(s, q);
      assert r != p ==> Partial(s, r);
    }
  }

  lemma {:induction false} RequestBlocksExhausts(p: nat, r: Requests)
    requires r.dl.requested <= r.dl.pieceLength
    ensures var r' := RequestBlocks(p, r);
            r'.inflight < MAX_INFLIGHT_PER_PEER ==> r'.dl.requested == r'.dl.pieceLength
    decreases r.dl.pieceLength - r.dl.requested
  {
    if r.dl.requested < r.dl.pieceLength && r.inflight < COUNTER_LIMIT && r.inflight + 1 != MAX_INFLIGHT_PER_PEER {
      RequestBlocksExhausts(p, RequestNext(p, r));
    }
  }

  lemma RequestOneExhausts(info: Info, s: State, p: nat)
    requires info.Valid() && Inv(info, s) && p in s.pendingPieces
    ensures RequestOne(s, p).inflight < MAX_INFLIGHT_PER_PEER ==> !Partial(RequestOne(s, p), p)
  {
    assert PendingOk(info, s, p) == true;
    RequestBlocksExhausts(p, RequestsOf(s, p));
  }

  lemma StaysExhausted(s: State, s': State, p: nat)
    requires OnlyRequests(s, s') && p in s.pendingPieces && !Partial(s, p)
    ensures !Partial(s', p)
  {
    assert OnlyMoreRequested(s.pendingPieces[p], s'.pendingPieces[p]);
  }

  /** In all runs: a pass that leaves room in the window has requested every block of every pending piece. */
  lemma {:induction false} RequestPendingExhausts(info: Info, s: State, order: seq<nat>)
    requires info.Valid() && Inv(info, s) && forall p <- order :: p in s.pendingPieces
    ensures var s' := RequestPending(s, order);
            s'.inflight < MAX_INFLIGHT_PER_PEER ==> forall p <- order :: !Partial(s', p)
    decreases |order|
  {
    if order != [] {
      assert order[0] in order;
      var p, s1, rest, s' := order[0], RequestOne(s, order[0]), order[1..], RequestPending(s, order);
      RequestOneKeeps(info, s, p);
      RequestPendingExhausts(info, s1, rest);
      RequestPendingKeeps(info, s1, rest);
      MoreBlocksMoreInflight(s1, s');
      if s'.inflight < MAX_INFLIGHT_PER_PEER {
        RequestOneExhausts(info, s, p);
        StaysExhausted(s1, s', p);
        assert order == [p] + rest;
      }
    }
  }

  /** A pass over the pending pieces, started with room, fills the window or leaves nothing to request. */
  lemma {:induction false} RequestPendingKeepsWindow(info: Info, s: State, owned: set<nat>, order: seq<nat>)
    requires info.Valid() && Inv(info, s) && Window(info, s, owned) && !s.chokedUs
    requires NoDuplicates(order) && forall p <- order :: p in s.pendingPieces
    requires forall p <- order :: Partial(s, p) ==> s.inflight < MAX_INFLIGHT_PER_PEER
    ensures var s' := RequestPending(s, order);
            && Window(info, s', owned)
            && (s'.inflight < MAX_INFLIGHT_PER_PEER ==> forall p <- order :: !Partial(s', p))
    decreases |order|
  {
    if order != [] {
      assert order[0] in order;
      var p, s1, rest := order[0], RequestOne(s, order[0]), order[1..];
      RequestOneKeeps(info, s, p);
      RequestOneKeepsWindow(info, s, owned, p);
      RequestOneFillsWindow(s, p);
      forall q <- rest ensures Partial(s1, q) ==> s1.inflight < MAX_INFLIGHT_PER_PEER {
        assert q in order && q != p;
        assert Partial(s, p) ==> !Partial(s, q);
      }
      RequestPendingKeepsWindow(info, s1, owned, rest);
      RequestPendingKeeps(info, s1, rest);
      var s' := RequestPending(s, order);
      MoreBlocksMoreInflight(s1, s');
      if s'.inflight < MAX_INFLIGHT_PER_PEER {
        forall q <- order ensures !Partial(s', q) {
          if q == p { assert !Partial(s1, p); } else { assert q in rest; }
        }
      }
    }
  }

  ghost predicate NeverAsked(s: State, p: nat) {
    forall b <- s.log.sent :: b.pieceIndex != p
  }

  /** While a piece is neither pending nor owned, no block of it was requested. */
  lemma MissingWasNeverAsked(info: Info, s: State, owned: set<nat>, p: nat)
    requires info.Valid() && Window(info, s, owned) && p !in s.pendingPieces && p !in owned
    ensures NeverAsked(s, p)
  {
    forall b <- s.log.sent ensures b.pieceIndex != p {
      assert Explained(s, owned, b);
    }
  }

  /** The piece may be owned by now: somebody else can have finished it since it was picked. */
  lemma StartPieceKeepsWindow(info: Info, s: State, owned: set<nat>, p: nat)
    requires Supported(info) && Inv(info, s) && Window(info, s, owned) && !s.chokedUs
    requires p < info.NumPieces() && p !in s.pendingPieces && NeverAsked(s, p)
    requires s.inflight < MAX_INFLIGHT_PER_PEER && forall q :: !Partial(s, q)
    ensures Window(info, StartPiece(s, info, p), owned)
  {
    AddedKeeps(info, s, p);
    var s1 := Added(s, info, p);
    forall b <- s1.log.sent ensures Explained(s1, owned, b) {
      assert Explained(s, owned, b);
    }
    forall q | Partial(s1, q) ensures q == p {
      assert !Partial(s, q);
    }
    RequestOneKeepsWindow(info, s1, owned, p);
  }

  lemma AcceptKeepsWindow(info: Info, s: State, owned: set<nat>, index: nat, begin: nat, block: Bytes)
    requires info.Valid() && Inv(info, s) && Window(info, s, owned) && Awaited(s, index, begin, block)
    requires s.inflight > 0 && index in s.pendingPieces && index in s.log.accepted
    requires var dl := s.pendingPieces[index]; dl.remainingBlocks > 0 && begin + |block| <= |dl.bytes|
    ensures Window(info, Accept(s, index, begin, block), owned)
    ensures Accept(s, index, begin, block).inflight < MAX_INFLIGHT_PER_PEER
  {
    var s' := Accept(s, index, begin, block);
    forall b <- s'.log.sent ensures Explained(s', owned, b) {
      assert Explained(s, owned, b);
    }
    forall p | Partial(s', p) ensures Partial(s, p) {
    }
  }

  lemma FinishKeepsWindow(info: Info, s: State, owned: set<nat>, index: nat)
    requires info.Valid() && Inv(info, s) && Window(info, s, owned) && index in s.pendingPieces && index in owned
    ensures Window(info, Finish(s, index), owned)
  {
    var s' := Finish(s, index);
    forall b <- s'.log.sent ensures Explained(s', owned, b) {
      assert Explained(s, owned, b);
    }
    forall p | Partial(s', p) ensures Partial(s, p) {
    }
  }

  lemma OwningMoreKeepsWindow(info: Info, s: State, owned: set<nat>, owned': set<nat>)
    requires info.Valid() && Window(info, s, owned) && owned <= owned'
    ensures Window(info, s, owned')
  {
    forall b <- s.log.sent ensures Explained(s, owned', b) {
      assert Explained(s, owned, b);
    }
  }

  // ---- How much is ever requested ----

  /** The number of blocks of the first `n` pieces. */
  ghost function TotalBlocks(info: Info, n: nat): nat
    requires info.Valid() && n <= info.NumPieces()
  {
    if n == 0 then 0 else TotalBlocks(info, n - 1) + CeilBlocks(Size(info, n - 1))
  }

  /** The block of piece `p` that starts at `begin`, if the piece reaches that far. */
  ghost function LastBlock(info: Info, p: nat, begin: nat): BlockDownload
    requires info.Valid() && p < info.NumPieces()
  {
    if begin <= Size(info, p) then BlockAt(p, Size(info, p), begin) else BlockDownload(p, begin, 0)
  }

  lemma OtherBlocksStartEarlier(info: Info, p: nat, k: nat, b: BlockDownload)
    requires info.Valid() && p < info.NumPieces() && k > 0
    requires IsBlock(info, b) && b.pieceIndex == p && b.blockBegin < k * BLOCK_SIZE
    requires b != LastBlock(info, p, (k - 1) * BLOCK_SIZE)
    ensures b.blockBegin < (k - 1) * BLOCK_SIZE
  {
    assert OnGrid(b.blockBegin);
  }

  lemma RemoveOne<T>(s: set<T>, x: T)
    ensures |s| <= |s - {x}| + 1
  {
    if x in s { assert s == (s - {x}) + {x}; } else { assert s == s - {x}; }
  }

  lemma {:induction false} FewBlocksPerPiece(info: Info, p: nat, k: nat, blocks: set<BlockDownload>)
    requires info.Valid() && p < info.NumPieces()
    requires forall b <- blocks :: IsBlock(info, b) && b.pieceIndex == p && b.blockBegin < k * BLOCK_SIZE
    ensures |blocks| <= k
  {
    if k == 0 {
      assert blocks == {};
    } else {
      var last := LastBlock(info, p, (k - 1) * BLOCK_SIZE);
      forall b <- blocks - {last} { OtherBlocksStartEarlier(info, p, k, b); }
      FewBlocksPerPiece(info, p, k - 1, blocks - {last});
      RemoveOne(blocks, last);
    }
  }

  lemma {:induction false} FewBlocksInAll(info: Info, n: nat, blocks: set<BlockDownload>)
    requires info.Valid() && n <= info.NumPieces()
    requires forall b <- blocks :: IsBlock(info, b) && b.pieceIndex < n
    ensures |blocks| <= TotalBlocks(info, n)
  {
    if n == 0 {
      assert blocks == {};
    } else {
      var mine := Mine(blocks, n - 1);
      FewBlocksInAll(info, n - 1, blocks - mine);
      FewBlocksPerPiece(info, n - 1, CeilBlocks(Size(info, n - 1)), mine);
      assert blocks == (blocks - mine) + mine;
    }
  }

  lemma {:induction false} DistinctElements<T>(s: seq<T>)
    requires NoDuplicates(s)
    ensures |Elements(s)| == |s|
  {
    if s != [] {
      var n := |s| - 1;
      DistinctElements(s[..n]);
      assert Elements(s) == Elements(s[..n]) + {s[n]};
    }
  }

  /**
   * A downloader that has not been choked never sends more requests than the torrent has blocks.
   * So the blocks still to come, the total less the blocks accepted, bound how long it can run.
   */
  lemma RequestsAreBounded(info: Info, s: State, owned: set<nat>)
    requires info.Valid() && Window(info, s, owned)
    ensures |s.log.sent| <= TotalBlocks(info, info.NumPieces())
    ensures s.log.received + |s.pendingBlocks| <= TotalBlocks(info, info.NumPieces())
  {
    DistinctElements(s.log.sent);
    FewBlocksInAll(info, info.NumPieces(), Elements(s.log.sent));
  }

  // ---- Reassembly, for all runs ----

  /**
   * When no block of a piece remains, each of its bytes is the byte of the one accepted payload
   * that covers it.
   */
  lemma FinishedPieceIsReassembled(info: Info, s: State, p: nat, k: nat)
    requires info.Valid() && Inv(info, s) && p in s.pendingPieces && s.pendingPieces[p].remainingBlocks == 0
    requires k < Size(info, p)
    ensures var g := k - k % BLOCK_SIZE;
            var dl := s.pendingPieces[p];
            && |dl.bytes| == Size(info, p)
            && g in s.log.accepted[p] && k - g < |s.log.accepted[p][g]|
            && dl.bytes[k] == s.log.accepted[p][g][k - g]
  {
    FinishedHasNoBlocks(info, s, p);
    assert PendingOk(info, s, p);
    var g := k - k % BLOCK_SIZE;
    assert OnGrid(g);
    var size, dl := Size(info, p), s.pendingPieces[p];
    assert BlockAt(p, size, g) !in Mine(s.pendingBlocks, p);
    assert InPlace(dl.bytes, size, g, s.log.accepted[p][g]);
    assert dl.bytes[k] == dl.bytes[g..g + BlockLen(size, g)][k - g];
  }

  /** The payloads accepted for piece `p` are the blocks of `truth` at their places. */
  ghost predicate TruePayloads(acc: map<nat, Bytes>, truth: Bytes) {
    forall g: nat <- acc :: g <= |truth| && InPlace(truth, |truth|, g, acc[g])
  }

  /** If every payload accepted since the last restart was true, so is the finished piece. */
  lemma TruePayloadsGiveTruePiece(info: Info, s: State, p: nat, truth: Bytes)
    requires info.Valid() && Inv(info, s) && p in s.pendingPieces && s.pendingPieces[p].remainingBlocks == 0
    requires |truth| == Size(info, p) && TruePayloads(s.log.accepted[p], truth)
    ensures s.pendingPieces[p].bytes == truth
  {
    var dl := s.pendingPieces[p];
    forall k: nat | k < |truth| ensures |dl.bytes| == |truth| && dl.bytes[k] == truth[k] {
      FinishedPieceIsReassembled(info, s, p, k);
      var g := k - k % BLOCK_SIZE;
      assert InPlace(truth, |truth|, g, s.log.accepted[p][g]);
      assert truth[k] == truth[g..g + BlockLen(|truth|, g)][k - g];
    }
    FinishedPieceIsReassembled(info, s, p, 0);
  }
}
