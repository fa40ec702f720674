/**
 * One seed downloader as a value: which blocks it has asked for, which it has received, and the
 * atomic pieces of work that `handle_msg` is made of. The class that performs them in place is in
 * SeedDownloader.dfy; what they keep is proved in DownloadProofs.dfy.
 */
module DownloadSpec {
  import opened ByteStrings
  import opened MetaInfo

  const BLOCK_SIZE: nat := 16384
  const MAX_INFLIGHT_PER_PEER: nat := 5

  /**
   * The counter of requests in flight has 8 bits. Counting one more than fits panics; the value
   * 256, which the counter cannot have, stands for that.
   */
  const COUNTER_LIMIT: nat := 0x100

  datatype PieceDownload = PieceDownload(
    pieceHash: Hash, pieceLength: nat, requested: nat, remainingBlocks: nat, bytes: Bytes)

  datatype BlockDownload = BlockDownload(pieceIndex: nat, blockBegin: nat, blockLen: nat)

  /**
   * History that the program does not store: every request ever sent, the payloads accepted for
   * each pending piece since it was last (re)started, and how many blocks were accepted and how
   * many chokes handled.
   */
  datatype Log = Log(
    sent: seq<BlockDownload>, accepted: map<nat, map<nat, Bytes>>, received: nat, restarts: nat)

  datatype State = State(
    chokedUs: bool,
    pendingPieces: map<nat, PieceDownload>,
    pendingBlocks: set<BlockDownload>,
    inflight: nat,
    log: Log)

  const FRESH := State(true, map[], {}, 0, Log([], map[], 0, 0))

  // ---- Block arithmetic ----

  /** How many blocks a piece needs. */
  function CeilBlocks(length: nat): nat {
    (length + BLOCK_SIZE - 1) / BLOCK_SIZE
  }

  /** The same, computed in 32 bits and stored in 16. */
  function NumBlocks(pieceLength: nat): nat {
    (((pieceLength + BLOCK_SIZE - 1) % U32) / BLOCK_SIZE) % 0x1_0000
  }

  /** The 16-bit block counter is right exactly for pieces of at most 65535 blocks. */
  lemma BlockCounterFitsIff(pieceLength: nat)
    requires pieceLength < U32
    ensures NumBlocks(pieceLength) == CeilBlocks(pieceLength) <==> pieceLength <= 65535 * BLOCK_SIZE
  {
  }

  predicate Supported(info: Info) {
    info.Valid() && info.pieceLength <= 65535 * BLOCK_SIZE
  }

  function BlockLen(pieceLength: nat, begin: nat): nat
    requires begin <= pieceLength
  {
    if pieceLength - begin > BLOCK_SIZE then BLOCK_SIZE else pieceLength - begin
  }

  function BlockAt(p: nat, pieceLength: nat, begin: nat): BlockDownload
    requires begin <= pieceLength
  {
    BlockDownload(p, begin, BlockLen(pieceLength, begin))
  }

  // ---- The atomic pieces of work ----

  function Restarted(dl: PieceDownload): PieceDownload {
    dl.(requested := 0, remainingBlocks := NumBlocks(dl.pieceLength))
  }

  /** A choke: every pending piece starts again, and no block is awaited any more. */
  function Choke(s: State): State {
    s.(chokedUs := true,
       pendingPieces := map p | p in s.pendingPieces :: Restarted(s.pendingPieces[p]),
       pendingBlocks := {},
       log := s.log.(accepted := map p | p in s.pendingPieces :: map[], restarts := s.log.restarts + 1))
  }

  function Unchoke(s: State): State {
    s.(chokedUs := false)
  }

  predicate Awaited(s: State, index: nat, begin: nat, block: Bytes) {
    BlockDownload(index, begin, |block|) in s.pendingBlocks
  }

  /** An awaited block arrives: it is ticked off and spliced into its piece. */
  ghost function Accept(s: State, index: nat, begin: nat, block: Bytes): State
    requires Awaited(s, index, begin, block) && s.inflight > 0
    requires index in s.pendingPieces && index in s.log.accepted
    requires var dl := s.pendingPieces[index]; dl.remainingBlocks > 0 && begin + |block| <= |dl.bytes|
  {
    var dl := s.pendingPieces[index];
    var acc: map<nat, Bytes> := s.log.accepted[index][begin := block];
    s.(pendingBlocks := s.pendingBlocks - {BlockDownload(index, begin, |block|)},
       pendingPieces := s.pendingPieces[index :=
         dl.(remainingBlocks := dl.remainingBlocks - 1, bytes := Splice(dl.bytes, begin, block))],
       inflight := s.inflight - 1,
       log := s.log.(accepted := s.log.accepted[index := acc],
                     received := s.log.received + 1))
  }

  /** The last block of a piece has arrived: the piece leaves the table. */
  function Finish(s: State, index: nat): State {
    s.(pendingPieces := s.pendingPieces - {index}, log := s.log.(accepted := s.log.accepted - {index}))
  }

  /** The variables that `request_blocks` works on. */
  datatype Requests = Requests(
    dl: PieceDownload, blocks: set<BlockDownload>, inflight: nat, sent: seq<BlockDownload>)

  function RequestNext(p: nat, r: Requests): Requests
    requires r.dl.requested <= r.dl.pieceLength
  {
    var block := BlockAt(p, r.dl.pieceLength, r.dl.requested);
    Requests(r.dl.(requested := r.dl.requested + block.blockLen), r.blocks + {block}, r.inflight + 1, r.sent + [block])
  }

  /**
   * Requests blocks of one piece until it is exhausted or the count is 5 just after a request. A
   * count that is 5 or more to begin with never is 5 again, and then only the end of the piece or
   * the overflow of the counter stops it.
   */
  function RequestBlocks(p: nat, r: Requests): Requests
    decreases r.dl.pieceLength - r.dl.requested
  {
    if r.dl.requested >= r.dl.pieceLength || r.inflight >= COUNTER_LIMIT then r
    else
      var next := RequestNext(p, r);
      if next.inflight == MAX_INFLIGHT_PER_PEER then next else RequestBlocks(p, next)
  }

  function RequestsOf(s: State, p: nat): Requests
    requires p in s.pendingPieces
  {
    Requests(s.pendingPieces[p], s.pendingBlocks, s.inflight, s.log.sent)
  }

  function WithRequests(s: State, p: nat, r: Requests): State {
    s.(pendingPieces := s.pendingPieces[p := r.dl], pendingBlocks := r.blocks, inflight := r.inflight,
       log := s.log.(sent := r.sent))
  }

  function RequestOne(s: State, p: nat): State
    requires p in s.pendingPieces
  {
    WithRequests(s, p, RequestBlocks(p, RequestsOf(s, p)))
  }

  predicate Overflowed(s: State) {
    s.inflight >= COUNTER_LIMIT
  }

  /** One pass over the pending pieces, in the order in which the hash map happens to yield them. */
  function RequestPending(s: State, order: seq<nat>): (s': State)
    requires forall p <- order :: p in s.pendingPieces
    ensures s'.pendingPieces.Keys == s.pendingPieces.Keys
    decreases |order|
  {
    if order == [] then s
    else
      assert order[0] in order;
      RequestPending(RequestOne(s, order[0]), order[1..])
  }

  ghost function Elements<T>(s: seq<T>): set<T> {
    set x <- s
  }

  ghost predicate NoDuplicates<T>(s: seq<T>) {
    forall i, j :: 0 <= i < j < |s| ==> s[i] != s[j]
  }

  /** The keys, each once, in some order. */
  ghost predicate IsOrderOf(order: seq<nat>, keys: set<nat>) {
    Elements(order) == keys && NoDuplicates(order)
  }

  function NewPiece(info: Info, p: nat): PieceDownload
    requires info.Valid() && p < info.NumPieces()
  {
    var size := Size(info, p);
    PieceDownload(info.pieces[p], size, 0, NumBlocks(size), seq(size, _ => 0))
  }

  function Added(s: State, info: Info, p: nat): State
    requires info.Valid() && p < info.NumPieces()
  {
    s.(pendingPieces := s.pendingPieces[p := NewPiece(info, p)],
       log := s.log.(accepted := s.log.accepted[p := map[]]))
  }

  /** A newly picked piece enters the table, and its first blocks are requested. */
  function StartPiece(s: State, info: Info, p: nat): State
    requires info.Valid() && p < info.NumPieces()
  {
    RequestOne(Added(s, info, p), p)
  }
}
