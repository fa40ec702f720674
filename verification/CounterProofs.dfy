/**
 * The counter of requests in flight, in all runs: what one round of requests makes of it, exactly
 * when the window of five holds, and exactly when the 8 bits of the counter overflow.
 */
module CounterProofs {
  import opened MetaInfo
  import opened DownloadSpec
  import opened DownloadProofs

  function Min(a: nat, b: nat): nat {
    if a < b then a else b
  }

  /** The blocks of a piece that are not requested yet. */
  function Unrequested(dl: PieceDownload): nat {
    if dl.requested <= dl.pieceLength then CeilBlocks(dl.pieceLength - dl.requested) else 0
  }

  // ---- One piece ----

  /**
   * With fewer than five requests counted, requests are made up to five. With five or more, the
   * whole rest of the piece is requested, as far as the counter goes.
   */
  lemma {:induction false} RequestBlocksCounts(p: nat, r: Requests)
    requires r.dl.requested <= r.dl.pieceLength && r.inflight <= COUNTER_LIMIT
    ensures var r', rest := RequestBlocks(p, r), Unrequested(r.dl);
            && r'.inflight
               == Min(r.inflight + rest,
                      if r.inflight < MAX_INFLIGHT_PER_PEER then MAX_INFLIGHT_PER_PEER else COUNTER_LIMIT)
            && r'.dl.requested <= r'.dl.pieceLength
            && Unrequested(r'.dl) == rest - (r'.inflight - r.inflight)
    decreases r.dl.pieceLength - r.dl.requested
  {
    if r.dl.requested < r.dl.pieceLength && r.inflight < COUNTER_LIMIT {
      var next := RequestNext(p, r);
      assert Unrequested(next.dl) == Unrequested(r.dl) - 1;
      if next.inflight != MAX_INFLIGHT_PER_PEER {
        RequestBlocksCounts(p, next);
      }
    }
  }

  /** Asking for blocks of an unexhausted piece keeps to the window if and only if there was room in it. */
  lemma WindowHoldsIffRoom(p: nat, r: Requests)
    requires r.dl.requested < r.dl.pieceLength && r.inflight <= COUNTER_LIMIT
    ensures RequestBlocks(p, r).inflight <= MAX_INFLIGHT_PER_PEER <==> r.inflight < MAX_INFLIGHT_PER_PEER
  {
    RequestBlocksCounts(p, r);
  }

  /** Without room the whole rest is requested at once, unless the counter overflows before. */
  lemma WithoutRoomAllIsRequested(p: nat, r: Requests)
    requires r.dl.requested < r.dl.pieceLength && MAX_INFLIGHT_PER_PEER <= r.inflight <= COUNTER_LIMIT
    ensures var r', rest := RequestBlocks(p, r), CeilBlocks(r.dl.pieceLength - r.dl.requested);
            if r.inflight + rest < COUNTER_LIMIT
            then r'.dl.requested == r'.dl.pieceLength && r'.inflight == r.inflight + rest
            else r'.inflight == COUNTER_LIMIT
  {
    RequestBlocksCounts(p, r);
  }

  // ---- One pass over the pending pieces ----

  /** The blocks not requested yet of all the pieces to be visited. */
  ghost function UnrequestedOf(s: State, order: seq<nat>): nat
    requires forall p <- order :: p in s.pendingPieces
  {
    if order == [] then 0
    else
      assert order[0] in order;
      Unrequested(s.pendingPieces[order[0]]) + UnrequestedOf(s, order[1..])
  }

  /** The blocks not requested yet of the pieces that are visited once five requests are counted. */
  ghost function BeyondWindow(s: State, inflight: nat, order: seq<nat>): nat
    requires forall p <- order :: p in s.pendingPieces
    decreases |order|
  {
    if inflight >= MAX_INFLIGHT_PER_PEER then UnrequestedOf(s, order)
    else if order == [] then 0
    else
      assert order[0] in order;
      BeyondWindow(s, inflight + Unrequested(s.pendingPieces[order[0]]), order[1..])
  }

  /** What the counter is after a pass, if it goes that far. */
  ghost function CountAfterPass(s: State, inflight: nat, order: seq<nat>): nat
    requires forall p <- order :: p in s.pendingPieces
  {
    if inflight >= MAX_INFLIGHT_PER_PEER then inflight + UnrequestedOf(s, order)
    else Min(inflight + UnrequestedOf(s, order), MAX_INFLIGHT_PER_PEER) + BeyondWindow(s, inflight, order)
  }

  lemma {:induction false} SameToRequest(s: State, s1: State, inflight: nat, order: seq<nat>)
    requires forall p <- order :: p in s.pendingPieces && p in s1.pendingPieces
    requires forall p <- order :: s1.pendingPieces[p] == s.pendingPieces[p]
    ensures UnrequestedOf(s1, order) == UnrequestedOf(s, order)
    ensures BeyondWindow(s1, inflight, order) == BeyondWindow(s, inflight, order)
    decreases |order|
  {
    if order != [] {
      assert order[0] in order;
      SameToRequest(s, s1, inflight, order[1..]);
      SameToRequest(s, s1, inflight + Unrequested(s.pendingPieces[order[0]]), order[1..]);
    }
  }

  ghost predicate WithinPieces(s: State) {
    forall p <- s.pendingPieces :: s.pendingPieces[p].requested <= s.pendingPieces[p].pieceLength
  }

  lemma AccountsAreWithinPieces(info: Info, s: State)
    requires info.Valid() && Inv(info, s)
    ensures WithinPieces(s)
  {
    forall p <- s.pendingPieces ensures s.pendingPieces[p].requested <= s.pendingPieces[p].pieceLength {
      assert PendingOk(info, s, p);
    }
  }

  /** The counter after a pass, up to the overflow. */
  lemma {:induction false} PassCounts(s: State, order: seq<nat>)
    requires (forall p <- order :: p in s.pendingPieces) && NoDuplicates(order)
    requires WithinPieces(s) && s.inflight <= COUNTER_LIMIT
    ensures RequestPending(s, order).inflight == Min(CountAfterPass(s, s.inflight, order), COUNTER_LIMIT)
    decreases |order|
  {
    if order != [] {
      assert order[0] in order;
      var p, s1, rest := order[0], RequestOne(s, order[0]), order[1..];
      RequestBlocksCounts(p, RequestsOf(s, p));
      assert WithinPieces(s1);
      PassCounts(s1, rest);
      forall q <- rest ensures s1.pendingPieces[q] == s.pendingPieces[q] { assert q != p; }
      SameToRequest(s, s1, s1.inflight, rest);
      CountsAgree(s, s.inflight, s1.inflight, order);
    }
  }

  lemma CountsAgree(s: State, inflight: nat, inflight1: nat, order: seq<nat>)
    requires order != [] && (forall p <- order :: p in s.pendingPieces) && inflight <= COUNTER_LIMIT
    requires order[0] in s.pendingPieces
    requires inflight1 == Min(inflight + Unrequested(s.pendingPieces[order[0]]),
                              if inflight < MAX_INFLIGHT_PER_PEER then MAX_INFLIGHT_PER_PEER else COUNTER_LIMIT)
    ensures Min(CountAfterPass(s, inflight1, order[1..]), COUNTER_LIMIT)
         == Min(CountAfterPass(s, inflight, order), COUNTER_LIMIT)
  {
    var u, rest := Unrequested(s.pendingPieces[order[0]]), order[1..];
    assert UnrequestedOf(s, order) == u + UnrequestedOf(s, rest);
    if inflight < MAX_INFLIGHT_PER_PEER {
      assert BeyondWindow(s, inflight, order) == BeyondWindow(s, inflight + u, rest);
    }
  }

  /**
   * A pass overflows the counter if and only if the requests counted at its start, but at least
   * five, and the blocks of the pieces visited beyond the window are more than 255.
   */
  lemma PassOverflowsIff(s: State, order: seq<nat>)
    requires (forall p <- order :: p in s.pendingPieces) && NoDuplicates(order)
    requires WithinPieces(s) && !Overflowed(s)
    ensures Overflowed(RequestPending(s, order)) <==>
              (if s.inflight < MAX_INFLIGHT_PER_PEER then MAX_INFLIGHT_PER_PEER else s.inflight)
                + BeyondWindow(s, s.inflight, order) >= COUNTER_LIMIT
  {
    PassCounts(s, order);
    BeyondNeedsFullWindow(s, s.inflight, order);
  }

  lemma {:induction false} BeyondNeedsFullWindow(s: State, inflight: nat, order: seq<nat>)
    requires forall p <- order :: p in s.pendingPieces
    ensures BeyondWindow(s, inflight, order) > 0 ==> inflight + UnrequestedOf(s, order) >= MAX_INFLIGHT_PER_PEER
    decreases |order|
  {
    if order != [] && inflight < MAX_INFLIGHT_PER_PEER {
      assert order[0] in order;
      BeyondNeedsFullWindow(s, inflight + Unrequested(s.pendingPieces[order[0]]), order[1..]);
    }
  }

  /**
   * A pass leaves at most five requests counted if and only if no more were counted at its start
   * and no piece visited once five are counted has a block left to request.
   */
  lemma PassKeepsToWindowIff(s: State, order: seq<nat>)
    requires (forall p <- order :: p in s.pendingPieces) && NoDuplicates(order)
    requires WithinPieces(s) && !Overflowed(s)
    ensures RequestPending(s, order).inflight <= MAX_INFLIGHT_PER_PEER <==>
              s.inflight <= MAX_INFLIGHT_PER_PEER && BeyondWindow(s, s.inflight, order) == 0
  {
    PassCounts(s, order);
    BeyondNeedsFullWindow(s, s.inflight, order);
  }

  /** After the overflow nothing happens any more. */
  lemma {:induction false} OverflowStops(s: State, order: seq<nat>)
    requires Overflowed(s) && forall p <- order :: p in s.pendingPieces
    ensures RequestPending(s, order) == s
    decreases |order|
  {
    if order != [] {
      assert order[0] in order;
      assert RequestOne(s, order[0]) == s;
      OverflowStops(s, order[1..]);
    }
  }
}
