/** What every piece of downloader work keeps: block accounting, reassembly, and the request window. */
module DownloadProofs {
  import opened ByteStrings
  import opened MetaInfo
  import opened DownloadSpec
  import Picker

  predicate OnGrid(g: nat) {
    g % BLOCK_SIZE == 0
  }

  ghost function Mine(blocks: set<BlockDownload>, p: nat): set<BlockDownload> {
    set b <- blocks | b.pieceIndex == p
  }

  /**
   * The accounts of one pending piece. Everything below `requested` is either awaited or accepted,
   * what was accepted is in place, and the counter covers what is awaited plus what is still to
   * be requested.
   */
  ghost predicate PieceOk(p: nat, size: nat, dl: PieceDownload, mine: set<BlockDownload>, acc: map<nat, Bytes>) {
    && 0 < size == dl.pieceLength == |dl.bytes|
    && dl.requested <= size && (OnGrid(dl.requested) || dl.requested == size)
    && (forall b <- mine :: OnGrid(b.blockBegin) && b.blockBegin < dl.requested && b == BlockAt(p, size, b.blockBegin))
    && (forall g: nat <- acc ::
          OnGrid(g) && g < dl.requested && BlockAt(p, size, g) !in mine && InPlace(dl.bytes, size, g, acc[g]))
    && (forall g: nat :: OnGrid(g) && g < dl.requested ==> BlockAt(p, size, g) in mine || g in acc)
    && dl.remainingBlocks == |mine| + CeilBlocks(size - dl.requested)
  }

  ghost predicate InPlace(bytes: Bytes, size: nat, g: nat, payload: Bytes)
    requires g <= size == |bytes|
  {
    |payload| == BlockLen(size, g) && bytes[g..g + BlockLen(size, g)] == payload
  }

  /** Block accounting for the whole downloader. */
  ghost predicate Inv(info: Info, s: State)
    requires info.Valid()
  {
    && s.log.accepted.Keys == s.pendingPieces.Keys
    && (forall b <- s.pendingBlocks :: b.pieceIndex in s.pendingPieces)
    && (forall p <- s.pendingPieces :: p < info.NumPieces())
    && (forall p {:trigger PendingOk(info, s, p)} :: p in s.pendingPieces ==> PendingOk(info, s, p))
    && |s.pendingBlocks| <= s.inflight
  }

  ghost predicate PendingOk(info: Info, s: State, p: nat)
    requires info.Valid() && p < info.NumPieces() && p in s.pendingPieces && p in s.log.accepted
  {
    && s.pendingPieces[p].pieceHash == info.pieces[p]
    && PieceOk(p, Size(info, p), s.pendingPieces[p], Mine(s.pendingBlocks, p), s.log.accepted[p])
  }

  ghost predicate NoneFinished(s: State) {
    forall p <- s.pendingPieces :: s.pendingPieces[p].remainingBlocks > 0
  }

  /** Every pending piece has a block on its way. */
  ghost predicate AllAwaited(s: State) {
    forall p <- s.pendingPieces :: Mine(s.pendingBlocks, p) != {}
  }

  /** Requests that were in flight when the peer choked us, and are still counted. */
  ghost function Leak(s: State): int {
    s.inflight - |s.pendingBlocks|
  }

  ghost predicate Partial(s: State, p: nat) {
    p in s.pendingPieces && s.pendingPieces[p].requested < s.pendingPieces[p].pieceLength
  }

  // ---- request_blocks ----

  lemma NextBlock(p: nat, size: nat, dl: PieceDownload, mine: set<BlockDownload>, acc: map<nat, Bytes>)
    requires PieceOk(p, size, dl, mine, acc) && dl.requested < size
    ensures var b := BlockAt(p, size, dl.requested);
            && b !in mine
            && PieceOk(p, size, dl.(requested := dl.requested + b.blockLen), mine + {b}, acc)
  {
    var b := BlockAt(p, size, dl.requested);
    var dl' := dl.(requested := dl.requested + b.blockLen);
    forall g: nat | OnGrid(g) && g < dl'.requested
      ensures BlockAt(p, size, g) in mine + {b} || g in acc
    {
      if g >= dl.requested { assert g == dl.requested; }
    }
  }

  lemma RequestNextOk(p: nat, size: nat, acc: map<nat, Bytes>, r: Requests)
    requires PieceOk(p, size, r.dl, Mine(r.blocks, p), acc) && r.dl.requested < size
    ensures var next, b := RequestNext(p, r), BlockAt(p, size, r.dl.requested);
            && b !in r.blocks && b in Mine(next.blocks, p)
            && PieceOk(p, size, next.dl, Mine(next.blocks, p), acc)
  {
    var next, b := RequestNext(p, r), BlockAt(p, size, r.dl.requested);
    NextBlock(p, size, r.dl, Mine(r.blocks, p), acc);
    assert Mine(next.blocks, p) == Mine(r.blocks, p) + {b};
    assert b !in r.blocks by { assert b !in Mine(r.blocks, p); }
  }

  /** What one run of `request_blocks` does to its piece, and what it leaves alone. */
  ghost predicate Requested(p: nat, size: nat, acc: map<nat, Bytes>, r: Requests, r': Requests) {
    && PieceOk(p, size, r'.dl, Mine(r'.blocks, p), acc)
    && r'.dl == r.dl.(requested := r'.dl.requested)
    && r.dl.requested <= r'.dl.requested
    && r.blocks <= r'.blocks
    && (forall b <- r'.blocks - r.blocks :: b.pieceIndex == p)
    && r'.inflight - |r'.blocks| == r.inflight - |r.blocks|
    && (r.dl.requested < size && r.inflight < COUNTER_LIMIT ==> Mine(r'.blocks, p) != {})
  }

  lemma {:induction false} RequestBlocksDoes(p: nat, size: nat, acc: map<nat, Bytes>, r: Requests)
    requires PieceOk(p, size, r.dl, Mine(r.blocks, p), acc)
    ensures Requested(p, size, acc, r, RequestBlocks(p, r))
    decreases size - r.dl.requested
  {
    if r.dl.requested < size && r.inflight < COUNTER_LIMIT {
      RequestNextOk(p, size, acc, r);
      var next := RequestNext(p, r);
      if next.inflight != MAX_INFLIGHT_PER_PEER {
        RequestBlocksDoes(p, size, acc, next);
        assert BlockAt(p, size, r.dl.requested) in Mine(RequestBlocks(p, next).blocks, p);
      }
    }
  }

  /** Started with room in the window, it fills the window or exhausts the piece. */
  lemma {:induction false} RequestBlocksFillsWindow(p: nat, r: Requests)
    requires r.dl.requested <= r.dl.pieceLength && r.inflight < MAX_INFLIGHT_PER_PEER
    ensures var r' := RequestBlocks(p, r);
            && r'.inflight <= MAX_INFLIGHT_PER_PEER
            && (r'.inflight == MAX_INFLIGHT_PER_PEER || r'.dl.requested == r'.dl.pieceLength)
    decreases r.dl.pieceLength - r.dl.requested
  {
    if r.dl.requested < r.dl.pieceLength && r.inflight + 1 != MAX_INFLIGHT_PER_PEER {
      RequestBlocksFillsWindow(p, RequestNext(p, r));
    }
  }

  ghost predicate SentOnce(p: nat, r: Requests) {
    NoDuplicates(r.sent) && forall b <- r.sent :: b.pieceIndex == p ==> b.blockBegin < r.dl.requested
  }

  /** No block is requested twice, every request sent becomes an awaited block. */
  lemma {:induction false} RequestBlocksSends(p: nat, size: nat, acc: map<nat, Bytes>, r: Requests)
    requires PieceOk(p, size, r.dl, Mine(r.blocks, p), acc) && SentOnce(p, r)
    ensures var r' := RequestBlocks(p, r);
            && SentOnce(p, r')
            && (forall b <- r'.sent :: b in r.sent || b in r'.blocks)
            && |r'.sent| - |r.sent| == |r'.blocks| - |r.blocks|
    decreases size - r.dl.requested
  {
    if r.dl.requested < size && r.inflight < COUNTER_LIMIT {
      RequestNextOk(p, size, acc, r);
      var next := RequestNext(p, r);
      assert SentOnce(p, next);
      if next.inflight != MAX_INFLIGHT_PER_PEER {
        RequestBlocksSends(p, size, acc, next);
        RequestBlocksDoes(p, size, acc, next);
      }
    }
  }

  // ---- request_pieces ----

  lemma SamePieceOk(info: Info, s: State, s': State, p: nat)
    requires info.Valid() && Inv(info, s) && p in s.pendingPieces
    requires p in s'.pendingPieces && s'.pendingPieces[p] == s.pendingPieces[p]
    requires p in s'.log.accepted && s'.log.accepted[p] == s.log.accepted[p]
    requires Mine(s'.pendingBlocks, p) == Mine(s.pendingBlocks, p)
    ensures PendingOk(info, s', p)
  {
    assert PendingOk(info, s, p) == true;
  }

  /** Requesting only raises `requested` marks and adds awaited blocks, one count for each. */
  ghost predicate OnlyRequests(s: State, s': State) {
    && s'.chokedUs == s.chokedUs
    && s'.pendingPieces.Keys == s.pendingPieces.Keys
    && (forall p <- s.pendingPieces :: OnlyMoreRequested(s.pendingPieces[p], s'.pendingPieces[p]))
    && s.pendingBlocks <= s'.pendingBlocks
    && Leak(s') == Leak(s)
    && s'.log == s.log.(sent := s'.log.sent)
  }

  ghost predicate OnlyMoreRequested(dl: PieceDownload, dl': PieceDownload) {
    dl.requested <= dl'.requested && dl' == dl.(requested := dl'.requested)
  }

  lemma RequestOneDoes(info: Info, s: State, p: nat)
    requires info.Valid() && Inv(info, s) && p in s.pendingPieces
    ensures Requested(p, Size(info, p), s.log.accepted[p], RequestsOf(s, p), RequestBlocks(p, RequestsOf(s, p)))
    ensures PendingOk(info, RequestOne(s, p), p)
  {
    assert PendingOk(info, s, p);
    RequestBlocksDoes(p, Size(info, p), s.log.accepted[p], RequestsOf(s, p));
  }

  lemma RequestOneKeepsPiece(info: Info, s: State, p: nat, q: nat)
    requires info.Valid() && Inv(info, s) && p in s.pendingPieces && q in s.pendingPieces
    ensures PendingOk(info, RequestOne(s, p), q)
  {
    RequestOneDoes(info, s, p);
    if q != p {
      assert Mine(RequestOne(s, p).pendingBlocks, q) == Mine(s.pendingBlocks, q);
      SamePieceOk(info, s, RequestOne(s, p), q);
    }
  }

  lemma RequestOneOnlyRequests(info: Info, s: State, p: nat)
    requires info.Valid() && Inv(info, s) && p in s.pendingPieces
    ensures OnlyRequests(s, RequestOne(s, p))
    ensures forall b <- RequestOne(s, p).pendingBlocks :: b in s.pendingBlocks || b.pieceIndex == p
  {
    RequestOneDoes(info, s, p);
    var s' := RequestOne(s, p);
    forall b <- s'.pendingBlocks ensures b in s.pendingBlocks || b.pieceIndex == p {
      assert b in s.pendingBlocks || b in s'.pendingBlocks - s.pendingBlocks;
    }
  }

  lemma RequestOneKeeps(info: Info, s: State, p: nat)
    requires info.Valid() && Inv(info, s) && p in s.pendingPieces
    ensures Inv(info, RequestOne(s, p)) && OnlyRequests(s, RequestOne(s, p))
  {
    RequestOneOnlyRequests(info, s, p);
    forall q <- s.pendingPieces { RequestOneKeepsPiece(info, s, p, q); }
  }

  /** After asking, an unfinished piece awaits at least one block. */
  lemma RequestOneAwaits(info: Info, s: State, p: nat)
    requires info.Valid() && Inv(info, s) && p in s.pendingPieces && s.pendingPieces[p].remainingBlocks > 0
    requires !Overflowed(s)
    ensures Mine(RequestOne(s, p).pendingBlocks, p) != {}
  {
    RequestOneDoes(info, s, p);
    assert PendingOk(info, s, p);
    assert Mine(s.pendingBlocks, p) <= Mine(RequestOne(s, p).pendingBlocks, p);
  }

  lemma MoreBlocksMoreInflight(s: State, s': State)
    requires OnlyRequests(s, s')
    ensures s.inflight <= s'.inflight
  {
    Picker.Smaller(s.pendingBlocks, s'.pendingBlocks);
  }

  lemma {:induction false} RequestPendingKeeps(info: Info, s: State, order: seq<nat>)
    requires info.Valid() && Inv(info, s) && forall p <- order :: p in s.pendingPieces
    ensures var s' := RequestPending(s, order);
            && Inv(info, s') && OnlyRequests(s, s')
            && (NoneFinished(s) && !Overflowed(s') ==> forall p <- order :: Mine(s'.pendingBlocks, p) != {})
    decreases |order|
  {
    if order != [] {
      assert order[0] in order;
      var s1 := RequestOne(s, order[0]);
      RequestOneKeeps(info, s, order[0]);
      RequestPendingKeeps(info, s1, order[1..]);
      var s' := RequestPending(s, order);
      MoreBlocksMoreInflight(s, s1);
      MoreBlocksMoreInflight(s1, s');
      if NoneFinished(s) && !Overflowed(s') {
        RequestOneAwaits(info, s, order[0]);
        forall p <- order ensures Mine(s'.pendingBlocks, p) != {} {
          if p == order[0] {
            MoreBlocksAwaited(s1, s');
          } else {
            assert p in order[1..];
          }
        }
      }
    }
  }

  // ---- The other pieces of work ----

  lemma NewPieceOk(info: Info, p: nat)
    requires Supported(info) && p < info.NumPieces()
    ensures PieceOk(p, Size(info, p), NewPiece(info, p), {}, map[])
  {
    BlockCounterFitsIff(Size(info, p));
  }

  lemma NewPieceReady(info: Info, s: State, p: nat)
    requires Supported(info) && Inv(info, s) && p < info.NumPieces() && p !in s.pendingPieces
    ensures PieceOk(p, Size(info, p), NewPiece(info, p), Mine(s.pendingBlocks, p), map[])
  {
    NewPieceOk(info, p);
    assert Mine(s.pendingBlocks, p) == {};
  }

  lemma AddedKeeps(info: Info, s: State, p: nat)
    requires Supported(info) && Inv(info, s) && p < info.NumPieces() && p !in s.pendingPieces
    ensures var s' := Added(s, info, p);
            && Inv(info, s')
            && s'.pendingPieces[p].remainingBlocks > 0
            && Mine(s.pendingBlocks, p) == {}
  {
    NewPieceOk(info, p);
    var s' := Added(s, info, p);
    assert Mine(s.pendingBlocks, p) == {};
    forall q <- s.pendingPieces { SamePieceOk(info, s, s', q); }
  }

  lemma {:induction false} StartPieceKeeps(info: Info, s: State, p: nat)
    requires Supported(info) && Inv(info, s) && p < info.NumPieces() && p !in s.pendingPieces && !Overflowed(s)
    ensures var s' := StartPiece(s, info, p);
            && Inv(info, s') && (NoneFinished(s) ==> NoneFinished(s'))
            && s'.pendingPieces.Keys == s.pendingPieces.Keys + {p}
            && s.pendingBlocks <= s'.pendingBlocks && Mine(s'.pendingBlocks, p) != {}
            && (AllAwaited(s) ==> AllAwaited(s'))
            && Leak(s') == Leak(s)
            && s'.chokedUs == s.chokedUs && s'.log.restarts == s.log.restarts && s'.log.received == s.log.received
  {
    AddedKeeps(info, s, p);
    RequestOneKeeps(info, Added(s, info, p), p);
    RequestOneAwaits(info, Added(s, info, p), p);
    MoreBlocksAwaited(s, StartPiece(s, info, p));
  }

  /** What was awaited still is when there are more blocks. */
  lemma MoreBlocksAwaited(s: State, s': State)
    requires s.pendingBlocks <= s'.pendingBlocks
    ensures forall p :: Mine(s.pendingBlocks, p) != {} ==> Mine(s'.pendingBlocks, p) != {}
  {
    forall p | Mine(s.pendingBlocks, p) != {} ensures Mine(s'.pendingBlocks, p) != {} {
      var b :| b in Mine(s.pendingBlocks, p);
      assert b in Mine(s'.pendingBlocks, p);
    }
  }

  /** Starting a piece: its first requests are made before it enters the table. */
  lemma StartPieceIs(info: Info, s: State, p: nat)
    requires info.Valid() && p < info.NumPieces() && s.inflight < MAX_INFLIGHT_PER_PEER
    ensures var r := RequestBlocks(p, Requests(NewPiece(info, p), s.pendingBlocks, s.inflight, s.log.sent));
            && r.inflight <= MAX_INFLIGHT_PER_PEER
            && StartPiece(s, info, p) == WithRequests(Added(s, info, p), p, r)
            && StartPiece(s, info, p).pendingPieces == s.pendingPieces[p := r.dl]
  {
    RequestBlocksFillsWindow(p, RequestsOf(Added(s, info, p), p));
  }

  lemma RestartedOk(p: nat, size: nat, dl: PieceDownload, mine: set<BlockDownload>, acc: map<nat, Bytes>)
    requires PieceOk(p, size, dl, mine, acc) && size <= 65535 * BLOCK_SIZE
    ensures PieceOk(p, size, Restarted(dl), {}, map[])
  {
    BlockCounterFitsIff(size);
  }

  /** A choke keeps the accounts, and strands exactly the blocks that were awaited. */
  lemma {:induction false} ChokeKeeps(info: Info, s: State)
    requires Supported(info) && Inv(info, s)
    ensures Inv(info, Choke(s)) && NoneFinished(Choke(s))
    ensures Leak(Choke(s)) == Leak(s) + |s.pendingBlocks|
  {
    var s' := Choke(s);
    forall p <- s'.pendingPieces
      ensures PendingOk(info, s', p) && s'.pendingPieces[p].remainingBlocks > 0
    {
      assert PendingOk(info, s, p);
      RestartedOk(p, Size(info, p), s.pendingPieces[p], Mine(s.pendingBlocks, p), s.log.accepted[p]);
      assert Mine(s'.pendingBlocks, p) == {};
    }
  }

  /** Splicing one block into its piece does not touch the other blocks. */
  lemma BlocksDoNotOverlap(bytes: Bytes, size: nat, begin: nat, block: Bytes, g: nat)
    requires |bytes| == size && OnGrid(begin) && OnGrid(g) && begin < size && g < size && g != begin
    requires |block| == BlockLen(size, begin)
    ensures Splice(bytes, begin, block)[g..g + BlockLen(size, g)] == bytes[g..g + BlockLen(size, g)]
  {
    assert if g < begin then g + BLOCK_SIZE <= begin else begin + BLOCK_SIZE <= g;
  }

  lemma AcceptOk(p: nat, size: nat, dl: PieceDownload, mine: set<BlockDownload>, acc: map<nat, Bytes>,
      begin: nat, block: Bytes)
    requires PieceOk(p, size, dl, mine, acc) && BlockDownload(p, begin, |block|) in mine
    ensures dl.remainingBlocks > 0 && begin + |block| <= |dl.bytes|
    ensures PieceOk(p, size, dl.(remainingBlocks := dl.remainingBlocks - 1, bytes := Splice(dl.bytes, begin, block)),
              mine - {BlockDownload(p, begin, |block|)}, acc[begin := block])
  {
    var b := BlockDownload(p, begin, |block|);
    assert b == BlockAt(p, size, begin);
    var mine', acc', bytes' := mine - {b}, acc[begin := block], Splice(dl.bytes, begin, block);
    assert |mine'| == |mine| - 1;
    forall g: nat <- acc'
      ensures OnGrid(g) && g < dl.requested && BlockAt(p, size, g) !in mine' && InPlace(bytes', size, g, acc'[g])
    {
      if g == begin {
        assert bytes'[g..g + BlockLen(size, g)] == block;
      } else {
        BlocksDoNotOverlap(dl.bytes, size, begin, block, g);
      }
    }
    forall g: nat | OnGrid(g) && g < dl.requested ensures BlockAt(p, size, g) in mine' || g in acc' {
    }
  }

  lemma AwaitedIsPending(info: Info, s: State, index: nat, begin: nat, block: Bytes)
    requires info.Valid() && Inv(info, s) && Awaited(s, index, begin, block)
    ensures s.inflight > 0 && index in s.pendingPieces && index in s.log.accepted
    ensures var dl := s.pendingPieces[index]; dl.remainingBlocks > 0 && begin + |block| <= |dl.bytes|
  {
    var b := BlockDownload(index, begin, |block|);
    assert b in s.pendingBlocks && |s.pendingBlocks| > 0;
    assert PendingOk(info, s, index);
    assert b in Mine(s.pendingBlocks, index);
    AcceptOk(index, Size(info, index), s.pendingPieces[index], Mine(s.pendingBlocks, index), s.log.accepted[index],
      begin, block);
  }

  lemma AcceptKeepsPiece(info: Info, s: State, index: nat, begin: nat, block: Bytes, p: nat)
    requires info.Valid() && Inv(info, s) && Awaited(s, index, begin, block) && p in s.pendingPieces
    requires s.inflight > 0 && index in s.pendingPieces && index in s.log.accepted
    requires var dl := s.pendingPieces[index]; dl.remainingBlocks > 0 && begin + |block| <= |dl.bytes|
    ensures PendingOk(info, Accept(s, index, begin, block), p)
  {
    var b, s' := BlockDownload(index, begin, |block|), Accept(s, index, begin, block);
    if p == index {
      assert PendingOk(info, s, p) == true;
      assert Mine(s'.pendingBlocks, p) == Mine(s.pendingBlocks, p) - {b};
      AcceptOk(p, Size(info, p), s.pendingPieces[p], Mine(s.pendingBlocks, p), s.log.accepted[p], begin, block);
    } else {
      assert Mine(s'.pendingBlocks, p) == Mine(s.pendingBlocks, p);
      SamePieceOk(info, s, s', p);
    }
  }

  lemma AcceptKeeps(info: Info, s: State, index: nat, begin: nat, block: Bytes)
    requires info.Valid() && Inv(info, s) && Awaited(s, index, begin, block)
    requires s.inflight > 0 && index in s.pendingPieces && index in s.log.accepted
    requires var dl := s.pendingPieces[index]; dl.remainingBlocks > 0 && begin + |block| <= |dl.bytes|
    ensures var s' := Accept(s, index, begin, block);
            && Inv(info, s') && Leak(s') == Leak(s)
  {
    var s' := Accept(s, index, begin, block);
    forall p <- s.pendingPieces { AcceptKeepsPiece(info, s, index, begin, block, p); }
  }

  /**
   * One block fewer is awaited, the bytes of that block are in place, and every other byte and
   * every other piece is untouched.
   */
  lemma AcceptPutsInPlace(info: Info, s: State, index: nat, begin: nat, block: Bytes)
    requires info.Valid() && Inv(info, s) && Awaited(s, index, begin, block)
    requires s.inflight > 0 && index in s.pendingPieces && index in s.log.accepted
    requires var dl := s.pendingPieces[index]; dl.remainingBlocks > 0 && begin + |block| <= |dl.bytes|
    ensures var s' := Accept(s, index, begin, block);
            && |s'.pendingBlocks| == |s.pendingBlocks| - 1 && !Awaited(s', index, begin, block)
            && s'.pendingPieces.Keys == s.pendingPieces.Keys
            && |s'.pendingPieces[index].bytes| == |s.pendingPieces[index].bytes|
    ensures var was, now := s.pendingPieces, Accept(s, index, begin, block).pendingPieces;
            && (forall q <- was :: q != index ==> now[q] == was[q])
            && (forall k :: 0 <= k < |was[index].bytes| ==>
                  now[index].bytes[k] == if begin <= k < begin + |block| then block[k - begin] else was[index].bytes[k])
  {
    assert PendingOk(info, s, index);
    assert Accept(s, index, begin, block).pendingBlocks == s.pendingBlocks - {BlockDownload(index, begin, |block|)};
  }

  lemma FinishedHasNoBlocks(info: Info, s: State, index: nat)
    requires info.Valid() && Inv(info, s) && index in s.pendingPieces
    requires s.pendingPieces[index].remainingBlocks == 0
    ensures forall b <- s.pendingBlocks :: b.pieceIndex != index
    ensures s.pendingPieces[index].requested == Size(info, index)
  {
    assert PendingOk(info, s, index);
    assert Mine(s.pendingBlocks, index) == {};
    forall b <- s.pendingBlocks ensures b.pieceIndex != index {
      assert b !in Mine(s.pendingBlocks, index);
    }
  }

  lemma FinishKeeps(info: Info, s: State, index: nat)
    requires info.Valid() && Inv(info, s) && index in s.pendingPieces
    requires s.pendingPieces[index].remainingBlocks == 0
    ensures var s' := Finish(s, index);
            Inv(info, s') && Leak(s') == Leak(s)
  {
    var s' := Finish(s, index);
    FinishedHasNoBlocks(info, s, index);
    forall p <- s'.pendingPieces { SamePieceOk(info, s, s', p); }
  }
}
