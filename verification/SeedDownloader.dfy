/** The seed downloader: handling one peer message in place, with every assertion of the program checked. */
module SeedDownloaders {
  import opened ByteStrings
  import opened Wrappers
  import opened MetaInfo
  import opened DownloadSpec
  import opened DownloadProofs
  import opened DownloadSteps
  import opened CounterProofs
  import Bitfields
  import Picker
  import PeerMessages

  class SeedDownloader {
    const torrent: Torrent
    const ownBitfield: Bitfields.Bitfield
    var chokedUs: bool
    var pendingPieces: map<nat, PieceDownload>
    var pendingBlocks: set<BlockDownload>
    /** The counter that `download` keeps and passes along; it has 8 bits, and 256 stands for its overflow. */
    var inflight: nat
    /** The requests written to the peer's stream. */
    var requests: seq<BlockDownload>
    /** The pieces sent to the channel. */
    var delivered: seq<Delivery>

    ghost var accepted: map<nat, map<nat, Bytes>>
    ghost var received: nat
    ghost var restarts: nat

    ghost function View(): State
      reads this
    {
      State(chokedUs, pendingPieces, pendingBlocks, inflight, Log(requests, accepted, received, restarts))
    }

    ghost predicate Sound()
      reads this, ownBitfield, ownBitfield.pieceOwnership
    {
      && Supported(torrent.info)
      && ownBitfield.Valid() && ownBitfield.totalPieces == torrent.info.NumPieces()
      && Inv(torrent.info, View())
    }

    /** Between messages no pending piece is finished, and the counter has not overflowed. */
    ghost predicate Valid()
      reads this, ownBitfield, ownBitfield.pieceOwnership
    {
      Sound() && NoneFinished(View()) && !Overflowed(View())
    }

    constructor (torrent: Torrent, ownBitfield: Bitfields.Bitfield)
      requires Supported(torrent.info)
      requires ownBitfield.Valid() && ownBitfield.totalPieces == torrent.info.NumPieces()
      ensures Valid() && View() == FRESH && delivered == []
      ensures this.torrent == torrent && this.ownBitfield == ownBitfield
    {
      this.torrent := torrent;
      this.ownBitfield := ownBitfield;
      chokedUs := true;
      pendingPieces, pendingBlocks, inflight := map[], {}, 0;
      requests, delivered := [], [];
      accepted, received, restarts := map[], 0, 0;
    }

    /** Requests blocks of one piece until it is exhausted or five requests are in flight, or the counter overflows. */
    method RequestBlocks(pieceIndex: nat, pieceDl: PieceDownload, ghost size: nat, ghost acc: map<nat, Bytes>)
      returns (dl: PieceDownload, panicked: bool)
      requires PieceOk(pieceIndex, size, pieceDl, Mine(pendingBlocks, pieceIndex), acc) && inflight < COUNTER_LIMIT
      modifies this`pendingBlocks, this`inflight, this`requests
      ensures Requests(dl, pendingBlocks, inflight, requests)
           == DownloadSpec.RequestBlocks(pieceIndex,
                                          Requests(pieceDl, old(pendingBlocks), old(inflight), old(requests)))
      ensures panicked <==> inflight >= COUNTER_LIMIT
    {
      dl, panicked := pieceDl, false;
      ghost var r0 := Requests(pieceDl, pendingBlocks, inflight, requests);
      while dl.requested < dl.pieceLength
        invariant PieceOk(pieceIndex, size, dl, Mine(pendingBlocks, pieceIndex), acc) && inflight < COUNTER_LIMIT
        invariant DownloadSpec.RequestBlocks(pieceIndex, Requests(dl, pendingBlocks, inflight, requests))
               == DownloadSpec.RequestBlocks(pieceIndex, r0)
      {
        ghost var r := Requests(dl, pendingBlocks, inflight, requests);
        RequestNextOk(pieceIndex, size, acc, r);
        var blockLen := dl.pieceLength - dl.requested;
        if blockLen > BLOCK_SIZE {
          blockLen := BLOCK_SIZE;
        }
        var blockDl := BlockDownload(pieceIndex, dl.requested, blockLen);
        requests := requests + [blockDl];

        assert blockDl !in pendingBlocks;
        pendingBlocks := pendingBlocks + {blockDl};
        dl := dl.(requested := dl.requested + blockLen);

        inflight := inflight + 1;
        assert Requests(dl, pendingBlocks, inflight, requests) == RequestNext(pieceIndex, r);
        if inflight >= COUNTER_LIMIT {
          return dl, true;
        }
        if inflight == MAX_INFLIGHT_PER_PEER {
          break;
        }
      }
    }

    /** One turn of the `for` loop of `request_pieces`. */
    method RequestMoreOf(p: nat) returns (panicked: bool)
      requires Supported(torrent.info) && Inv(torrent.info, View()) && NoneFinished(View()) && p in pendingPieces
      requires !Overflowed(View())
      modifies this`pendingPieces, this`pendingBlocks, this`inflight, this`requests
      ensures View() == RequestOne(old(View()), p)
      ensures panicked <==> Overflowed(View())
    {
      assert PendingOk(torrent.info, View(), p);
      var pieceDl := pendingPieces[p];
      assert pieceDl.requested <= pieceDl.pieceLength;
      assert pieceDl.remainingBlocks > 0;
      if pieceDl.requested == pieceDl.pieceLength {
        return false;
      }
      var dl;
      dl, panicked := RequestBlocks(p, pieceDl, Size(torrent.info, p), accepted[p]);
      pendingPieces := pendingPieces[p := dl];
    }

    /** The `for` loop of `request_pieces`, over the pending pieces in an arbitrary order. */
    method RequestPending() returns (panicked: bool, ghost order: seq<nat>)
      requires Supported(torrent.info) && Inv(torrent.info, View()) && NoneFinished(View()) && !Overflowed(View())
      modifies this`pendingPieces, this`pendingBlocks, this`inflight, this`requests
      ensures IsOrderOf(order, old(pendingPieces.Keys))
      ensures forall p <- order :: p in old(View()).pendingPieces
      ensures View() == DownloadSpec.RequestPending(old(View()), order)
      ensures panicked <==> Overflowed(View())
    {
      ghost var s := View();
      var remaining := pendingPieces.Keys;
      panicked, order := false, [];
      while remaining != {} && !panicked
        invariant remaining <= pendingPieces.Keys
        invariant Passed(torrent.info, s, order, remaining, View())
        invariant panicked <==> Overflowed(View())
        decreases remaining
      {
        var p :| p in remaining;
        PassOneMore(torrent.info, s, order, remaining, View(), p);
        panicked := RequestMoreOf(p);
        remaining := remaining - {p};
        order := order + [p];
      }
      order := VisitTheRest(torrent.info, s, order, remaining, View());
    }

    /** Starts a piece that the picker returned. */
    method StartPiece(pieceIndex: nat)
      requires Supported(torrent.info) && Inv(torrent.info, View())
      requires pieceIndex < torrent.info.NumPieces() && pieceIndex !in pendingPieces
      requires inflight < MAX_INFLIGHT_PER_PEER
      modifies this`pendingPieces, this`pendingBlocks, this`inflight, this`requests, this`accepted
      ensures View() == DownloadSpec.StartPiece(old(View()), torrent.info, pieceIndex)
      ensures inflight <= MAX_INFLIGHT_PER_PEER
    {
      var pieceDl := NewPiece(torrent.info, pieceIndex);
      NewPieceReady(torrent.info, View(), pieceIndex);
      StartPieceIs(torrent.info, View(), pieceIndex);
      var panicked;
      pieceDl, panicked := RequestBlocks(pieceIndex, pieceDl, pieceDl.pieceLength, map[]);

      assert !panicked;
      assert pieceIndex !in pendingPieces;
      pendingPieces := pendingPieces[pieceIndex := pieceDl];
      accepted := accepted[pieceIndex := map[]];
    }

    /** Requests more blocks of the pending pieces, and then, with room left, of one newly picked piece. */
    method RequestPieces() returns (outcome: Outcome, ghost order: seq<nat>)
      requires Valid()
      modifies this`pendingPieces, this`pendingBlocks, this`inflight, this`requests, this`accepted
      modifies ownBitfield
      ensures Asks(torrent.info, old(View()), old(ownBitfield.View()), [], order,
                Effect(View(), ownBitfield.View(), [], outcome))
      ensures outcome.Done? || outcome.Panicked?
      ensures !outcome.Panicked? ==> Valid()
    {
      outcome := Done;
      if chokedUs {
        order := AnyOrder(pendingPieces.Keys);
        return;
      }
      var panicked;
      panicked, order := RequestPending();
      RequestPiecesKeeps(torrent.info, old(View()), old(ownBitfield.View()), order);
      RequestPendingKeeps(torrent.info, old(View()), order);
      if panicked {
        outcome := Panicked;
        return;
      }

      if inflight < MAX_INFLIGHT_PER_PEER {
        Picker.PickReturnsNearestMissing(ownBitfield.View());
        var picked := ownBitfield.PickPiece();
        if picked == None {
          return;
        }
        if picked.value in pendingPieces {
          return;
        }
        StartPiece(picked.value);
      }
    }

    /** The loop over the pending pieces when the peer chokes us. */
    method RestartPieces()
      modifies this`pendingPieces
      ensures pendingPieces == Choke(old(View())).pendingPieces
    {
      var remaining := pendingPieces.Keys;
      while remaining != {}
        invariant pendingPieces.Keys == old(pendingPieces.Keys) && remaining <= pendingPieces.Keys
        invariant forall p <- pendingPieces ::
            pendingPieces[p] == if p in remaining then old(pendingPieces)[p] else Restarted(old(pendingPieces)[p])
      {
        var p :| p in remaining;
        var dl := pendingPieces[p];
        pendingPieces := pendingPieces[p := dl.(requested := 0, remainingBlocks := NumBlocks(dl.pieceLength))];
        remaining := remaining - {p};
      }
    }

    /** A choke: restarts every pending piece and forgets the awaited blocks, but not how many they were. */
    method HandleChoke()
      requires Valid()
      modifies this`chokedUs, this`pendingPieces, this`pendingBlocks, this`accepted, this`restarts
      ensures View() == Choke(old(View()))
      ensures Valid()
    {
      ChokeKeeps(torrent.info, View());
      chokedUs := true;
      RestartPieces();
      pendingBlocks := {};
      accepted := map p | p in pendingPieces :: map[];
      restarts := restarts + 1;
      assert accepted == Choke(old(View())).log.accepted;
    }

    /** Ticks an awaited block off and splices it into its piece. */
    method AcceptBlock(index: nat, begin: nat, block: Bytes)
      requires Valid() && Awaited(View(), index, begin, block)
      modifies this`pendingPieces, this`pendingBlocks, this`inflight, this`accepted, this`received
      ensures var s := old(View());
              && s.inflight > 0 && index in s.pendingPieces && index in s.log.accepted
              && s.pendingPieces[index].remainingBlocks > 0
              && begin + |block| <= |s.pendingPieces[index].bytes|
              && View() == Accept(s, index, begin, block)
      ensures Sound() && !Overflowed(View())
    {
      AwaitedIsPending(torrent.info, View(), index, begin, block);
      AcceptKeeps(torrent.info, View(), index, begin, block);
      ghost var next := Accept(View(), index, begin, block);
      pendingBlocks := pendingBlocks - {BlockDownload(index, begin, |block|)};
      var pieceDl := pendingPieces[index];
      pieceDl := pieceDl.(remainingBlocks := pieceDl.remainingBlocks - 1);
      inflight := inflight - 1;
      pieceDl := pieceDl.(bytes := Splice(pieceDl.bytes, begin, block));
      pendingPieces := pendingPieces[index := pieceDl];
      accepted, received := next.log.accepted, next.log.received;
    }

    /** A finished piece leaves the table. */
    method TakeOut(index: nat) returns (pieceDl: PieceDownload)
      requires Sound() && !Overflowed(View()) && index in pendingPieces && pendingPieces[index].remainingBlocks == 0
      requires forall p <- pendingPieces :: p != index ==> pendingPieces[p].remainingBlocks > 0
      modifies this`pendingPieces, this`accepted
      ensures pieceDl == old(View()).pendingPieces[index]
      ensures View() == Finish(old(View()), index)
      ensures Valid()
    {
      FinishKeeps(torrent.info, View(), index);
      pieceDl := pendingPieces[index];
      pendingPieces := pendingPieces - {index};
      accepted := accepted - {index};
    }

    /** The last block of a piece has arrived: the piece is recorded, checked and handed on. */
    method CompletePiece(index: nat) returns (outcome: Outcome, ghost order: seq<nat>)
      requires Sound() && !Overflowed(View()) && index in pendingPieces && pendingPieces[index].remainingBlocks == 0
      requires forall p <- pendingPieces :: p != index ==> pendingPieces[p].remainingBlocks > 0
      modifies this, ownBitfield, ownBitfield.pieceOwnership
      ensures old(delivered) <= delivered
      ensures Completes(torrent, old(View()), old(ownBitfield.View()), index, order,
                Effect(View(), ownBitfield.View(), delivered[|old(delivered)|..], outcome))
      ensures !outcome.Panicked? ==> Valid()
    {
      var panicked := ownBitfield.Set(index);
      if panicked {
        return Panicked, [];
      }
      var pieceDl := TakeOut(index);
      if !ValidatePiece(torrent, pieceDl.bytes, pieceDl.pieceHash) {
        return Failed(ValidationFailed), [];
      }
      delivered := delivered + [Delivery(index, pieceDl.bytes)];
      outcome, order := RequestPieces();
    }

    method HandlePiece(index: nat, begin: nat, block: Bytes) returns (outcome: Outcome, ghost order: seq<nat>)
      requires Valid()
      modifies this, ownBitfield, ownBitfield.pieceOwnership
      ensures old(delivered) <= delivered
      ensures HandlesPiece(torrent, old(View()), old(ownBitfield.View()), index, begin, block, order,
                Effect(View(), ownBitfield.View(), delivered[|old(delivered)|..], outcome))
      ensures !outcome.Panicked? ==> Valid()
    {
      if BlockDownload(index, begin, |block|) !in pendingBlocks {
        return Failed(UnrequestedBlock), [];
      }
      AcceptBlock(index, begin, block);
      if index !in pendingPieces {
        assert false;
        return Failed(UnrequestedPiece), [];
      }
      if pendingPieces[index].remainingBlocks == 0 {
        outcome, order := CompletePiece(index);
      } else {
        outcome, order := RequestPieces();
      }
    }

    /** One message from the peer. */
    method HandleMsg(msg: PeerMessages.Message) returns (outcome: Outcome, ghost order: seq<nat>)
      requires Valid()
      modifies this, ownBitfield, ownBitfield.pieceOwnership
      ensures old(delivered) <= delivered
      ensures Handles(torrent, old(View()), old(ownBitfield.View()), msg, order,
                Effect(View(), ownBitfield.View(), delivered[|old(delivered)|..], outcome))
      ensures !outcome.Panicked? ==> Valid()
    {
      order, outcome := [], Done;
      match msg
      case KeepAlive =>
      case Choke =>
        HandleChoke();
      case Unchoke =>
        if chokedUs {
          UnchokeKeeps(torrent.info, View());
          chokedUs := false;
          outcome, order := RequestPieces();
        }
      case Bitfield(_) =>
        outcome := Failed(BitfieldOutOfOrder);
      case Have(_) =>
      case Request(_, _, _) =>
        outcome := Panicked;
      case Interested =>
      case NotInterested =>
      case Piece(index, begin, block) =>
        outcome, order := HandlePiece(index, begin, block);
      case Cancel(_, _, _) =>
        outcome := Panicked;
    }
  }

  /** The pieces of `order` have been visited, and those of `remaining` have not. */
  ghost predicate Passed(info: Info, s: State, order: seq<nat>, remaining: set<nat>, now: State)
    requires info.Valid()
  {
    && (forall p <- order :: p in s.pendingPieces)
    && NoDuplicates(order) && Elements(order) == s.pendingPieces.Keys - remaining
    && now == RequestPending(s, order) && remaining <= s.pendingPieces.Keys
    && Inv(info, now) && NoneFinished(now)
  }

  lemma PassOneMore(info: Info, s: State, order: seq<nat>, remaining: set<nat>, now: State, p: nat)
    requires info.Valid() && Passed(info, s, order, remaining, now) && p in remaining
    ensures Passed(info, s, order + [p], remaining - {p}, RequestOne(now, p))
  {
    RequestOneKeeps(info, now, p);
    VisitOneMore(s, order, p);
    AddedAtTheEnd(order, p);
  }

  /** After the overflow the order in which the other pieces would be visited does not matter. */
  lemma VisitTheRest(info: Info, s: State, visited: seq<nat>, remaining: set<nat>, now: State) returns (order: seq<nat>)
    requires info.Valid() && Passed(info, s, visited, remaining, now)
    requires remaining == {} || Overflowed(now)
    ensures IsOrderOf(order, s.pendingPieces.Keys) && forall p <- order :: p in s.pendingPieces
    ensures RequestPending(s, order) == now
    decreases remaining
  {
    order := visited;
    if remaining != {} {
      var p :| p in remaining;
      OverflowStops(now, [p]);
      PassOneMore(info, s, visited, remaining, now, p);
      order := VisitTheRest(info, s, visited + [p], remaining - {p}, now);
    }
  }

  lemma AddedAtTheEnd(order: seq<nat>, p: nat)
    requires NoDuplicates(order) && p !in Elements(order)
    ensures NoDuplicates(order + [p]) && Elements(order + [p]) == Elements(order) + {p}
  {
    assert forall q <- order :: q in Elements(order);
  }
}
