/**
 * What it means that the picker returns a piece which the asking downloader has pending already. The
 * program takes it to mean that all blocks of all remaining pieces have been requested; that is so in
 * every run if and only if there is at most one downloader.
 */
module RepeatedPicks {
  import opened ByteStrings
  import opened Wrappers
  import opened MetaInfo
  import opened DownloadSpec
  import opened DownloadProofs
  import opened DownloadSteps
  import opened WindowProofs
  import opened CounterProofs
  import opened Swarm
  import opened SwarmTheorems
  import opened SwarmSchedules
  import opened SwarmSteps
  import opened Draining
  import opened QuietSteps
  import opened CompletionTheorems
  import Picker

  /** The next pick is one of a piece that the downloader has pending. */
  ghost predicate PicksAgain(t: Torrent, w: World, i: nat) {
    && Enabled(t, w, Pick(i)) && w.bf.Valid()
    && w.bf.Pick().1.Some? && w.bf.Pick().1.value in w.nodes[i].s.pendingPieces
  }

  /** Then, so the program says, there are requests for all blocks of all remaining pieces. */
  ghost predicate Claim(t: Torrent, w: World) {
    forall i: nat :: PicksAgain(t, w, i) ==>
      forall q <- w.bf.Missing() :: exists n <- w.nodes :: FullyRequested(n, q)
  }

  lemma ClaimHoldsAlone(t: Torrent, w: World)
    requires Supported(t.info) && Reachable(t, w) && |w.nodes| <= 1
    ensures Claim(t, w)
  {
    forall i: nat, q | PicksAgain(t, w, i) && q in w.bf.Missing() ensures exists n <- w.nodes :: FullyRequested(n, q) {
      RepeatedPickMeansAllTaken(t, w, i);
      assert w.nodes[i] in w.nodes && FullyRequested(w.nodes[i], q);
    }
  }

  // ---- Two downloaders: one goes round, the other is held up with the last piece ----

  const ASKING := Node(Unchoke(FRESH), Picking, 0)

  /** The torrents for which the claim is looked at. */
  ghost predicate ManyBlocks(t: Torrent, content: Bytes) {
    && Supported(t.info) && Truthful(t, content)
    && t.info.NumPieces() >= 2 && CeilBlocks(Size(t.info, 0)) >= 2
  }

  /** Nobody but the first downloader has anything pending or has asked for anything. */
  ghost predicate OthersIdle(w: World) {
    && |w.nodes| >= 2 && w.nodes[1] == ASKING
    && forall j :: 1 <= j < |w.nodes| ==> w.nodes[j].s == FRESH || w.nodes[j].s == Unchoke(FRESH)
  }

  /**
   * The first downloader has picked the pieces below `m` in turn. It keeps piece 0, and it awaits
   * two blocks at least whenever it waits for a message.
   */
  ghost predicate Circling(t: Torrent, content: Bytes, w: World, m: nat) {
    && ManyBlocks(t, content) && Reachable(t, w) && Quiet(w) && OthersIdle(w)
    && 1 <= m < w.bf.total == t.info.NumPieces() && w.bf.cur == m
    && (forall p <- w.bf.owned :: 1 <= p < m)
    && KeepsFirst(t, content, w.nodes[0], m)
  }

  ghost predicate KeepsFirst(t: Torrent, content: Bytes, n: Node, m: nat)
    requires t.info.Valid() && |content| == t.info.TotalLength()
  {
    && GoodPeer(t, content, n) && !n.s.chokedUs && 0 in n.s.pendingPieces
    && (forall p <- n.s.pendingPieces :: p < m)
    && (n.phase.AtTop? || n.phase.Waiting? ==> |n.s.pendingBlocks| >= 2)
    && (n.phase.Completing? ==> 1 <= n.phase.index < m)
    && (n.phase.Starting? ==> 1 <= n.phase.piece < m)
  }

  lemma TwoAwaited(s: State, p: nat, q: nat)
    requires AllAwaited(s) && p in s.pendingPieces && q in s.pendingPieces && p != q
    ensures |s.pendingBlocks| >= 2
  {
    var b :| b in Mine(s.pendingBlocks, p);
    var c :| c in Mine(s.pendingBlocks, q);
    Picker.Smaller({b, c}, s.pendingBlocks);
  }

  lemma AwaitsTwo(t: Torrent, w: World, i: nat, p: nat)
    requires Supported(t.info) && Reachable(t, w) && At(w, i, AtTop) && !w.nodes[i].s.chokedUs
    requires p > 0 && 0 in w.nodes[i].s.pendingPieces && p in w.nodes[i].s.pendingPieces
    ensures |w.nodes[i].s.pendingBlocks| >= 2
  {
    NoStall(t, w, i);
    TwoAwaited(w.nodes[i].s, 0, p);
  }

  /** The first downloader got one move further. */
  ghost predicate Circles(t: Torrent, content: Bytes, w: World, w': World) {
    && Leads(t, w, w') && |w.nodes| > 0 && |w'.nodes| == |w.nodes|
    && (exists m: nat :: Circling(t, content, w', m))
    && Closer(w.nodes[0], w'.nodes[0])
  }

  lemma FirstMoves(t: Torrent, content: Bytes, w: World, m: nat, w': World, m': nat)
    requires Circling(t, content, w, m) && Leads(t, w, w') && Reachable(t, w') && Quiet(w')
    requires |w'.nodes| == |w.nodes| && w'.nodes == w.nodes[0 := w'.nodes[0]]
    requires m <= m' < w'.bf.total == w.bf.total && w'.bf.cur == m' && forall p <- w'.bf.owned :: 1 <= p < m'
    requires KeepsFirst(t, content, w'.nodes[0], m') && Closer(w.nodes[0], w'.nodes[0])
    ensures Circles(t, content, w, w')
  {
    assert Circling(t, content, w', m');
  }

  /** A block to come: not the last of piece 0. */
  lemma NextBlock(t: Torrent, content: Bytes, w: World, m: nat) returns (b: BlockDownload)
    requires Circling(t, content, w, m) && At(w, 0, Waiting)
    ensures b in w.nodes[0].s.pendingBlocks && b.pieceIndex in w.nodes[0].s.pendingPieces
    ensures b.pieceIndex == 0 ==> w.nodes[0].s.pendingPieces[0].remainingBlocks >= 2
  {
    ReachableNode(t, w, 0);
    var s := w.nodes[0].s;
    if b' :| b' in s.pendingBlocks && b'.pieceIndex != 0 {
      b := b';
    } else {
      b :| b in s.pendingBlocks;
      assert PendingOk(t.info, s, 0);
      assert Mine(s.pendingBlocks, 0) == s.pendingBlocks;
    }
  }

  lemma BlockCircles(t: Torrent, content: Bytes, w: World, m: nat) returns (w': World)
    requires Circling(t, content, w, m) && At(w, 0, Waiting)
    ensures Circles(t, content, w, w')
  {
    var b := NextBlock(t, content, w, m);
    var block, w1 := BlockArrives(t, content, w, 0, b);
    w' := w1;
    FirstMoves(t, content, w, m, w', m);
  }

  lemma TopCircles(t: Torrent, content: Bytes, w: World, m: nat) returns (w': World)
    requires Circling(t, content, w, m) && At(w, 0, AtTop)
    ensures Circles(t, content, w, w')
  {
    assert 0 in w.bf.Missing();
    w' := GoesOn(t, w, 0);
    FirstMoves(t, content, w, m, w', m);
  }

  lemma RequestCircles(t: Torrent, content: Bytes, w: World, m: nat) returns (w': World)
    requires Circling(t, content, w, m) && At(w, 0, Requesting)
    ensures Circles(t, content, w, w')
  {
    w' := AsksForMore(t, content, w, 0);
    if w'.nodes[0].phase.AtTop? { WindowBeforeFirstChoke(t, w', 0); }
    FirstMoves(t, content, w, m, w', m);
  }

  lemma PickCircles(t: Torrent, content: Bytes, w: World, m: nat) returns (w': World)
    requires Circling(t, content, w, m) && At(w, 0, Picking) && m + 1 < w.bf.total
    ensures Circles(t, content, w, w')
  {
    assert m in w.bf.Missing();
    PickerIsValid(t, w);
    assert w.bf.Pick() == (w.bf.(cur := m + 1), Some(m));
    w' := PicksWell(t, w, 0);
    FirstMoves(t, content, w, m, w', m + 1);
  }

  lemma PickerIsValid(t: Torrent, w: World)
    requires Supported(t.info) && Reachable(t, w)
    ensures w.bf.Valid() && (0 !in w.bf.owned ==> w.bf.confirmed == 0)
  {
    EveryReachableWorldIsOk(t, w);
  }

  lemma StartCircles(t: Torrent, content: Bytes, w: World, m: nat) returns (w': World)
    requires Circling(t, content, w, m) && w.nodes[0].phase.Starting?
    ensures Circles(t, content, w, w')
  {
    Active(t, w, 0);
    StartingKeepsPeer(t, content, w, 0);
    w' := Starts(t, w, 0);
    AwaitsTwo(t, w', 0, w.nodes[0].phase.piece);
    FirstMoves(t, content, w, m, w', m);
  }

  lemma CompletionCircles(t: Torrent, content: Bytes, w: World, m: nat) returns (w': World)
    requires Circling(t, content, w, m) && w.nodes[0].phase.Completing?
    ensures Circles(t, content, w, w')
  {
    assert 0 in w.bf.Missing();
    w' := HandsOver(t, content, w, 0);
    assert 0 in w'.bf.Missing();
    FirstMoves(t, content, w, m, w', m);
  }

  /** The first downloader has come round: it is about to pick, and the last piece is the next. */
  ghost predicate Round(t: Torrent, content: Bytes, w: World) {
    w.bf.total > 0 && Circling(t, content, w, w.bf.total - 1) && At(w, 0, Picking)
  }

  lemma OneMoreMove(t: Torrent, content: Bytes, w: World, m: nat) returns (w': World)
    requires Circling(t, content, w, m) && !Round(t, content, w)
    ensures Circles(t, content, w, w')
  {
    assert w.nodes[0] in w.nodes;
    match w.nodes[0].phase
    case AtTop => w' := TopCircles(t, content, w, m);
    case Waiting => w' := BlockCircles(t, content, w, m);
    case Requesting => w' := RequestCircles(t, content, w, m);
    case Picking => w' := PickCircles(t, content, w, m);
    case Starting(_) => w' := StartCircles(t, content, w, m);
    case Completing(_) => w' := CompletionCircles(t, content, w, m);
  }

  lemma {:induction false} ComesRound(t: Torrent, content: Bytes, w: World, m: nat) returns (w': World)
    requires Circling(t, content, w, m)
    ensures Leads(t, w, w') && Round(t, content, w')
    decreases BlocksToCome(t, w.nodes[0]), Distance(w.nodes[0])
  {
    WindowBeforeFirstChoke(t, w, 0);
    if Round(t, content, w) {
      w' := w;
      assert Exec(t, w, []) == Some(w);
    } else {
      var w1 := OneMoreMove(t, content, w, m);
      var m1: nat :| Circling(t, content, w1, m1);
      WindowBeforeFirstChoke(t, w1, 0);
      w' := ComesRound(t, content, w1, m1);
      LeadsThen(t, w, w1, w');
    }
  }

  // ---- How it begins, and how it ends ----

  /** The first two downloaders are about to pick for the first time. */
  lemma BothAsk(t: Torrent, seeds: nat) returns (w: World)
    requires Supported(t.info) && t.info.NumPieces() >= 2 && seeds >= 2
    ensures Leads(t, Start(t, seeds), w) && Reachable(t, w)
    ensures w == Start(t, seeds).(nodes := Start(t, seeds).nodes[0 := ASKING][1 := ASKING])
  {
    var w0 := Start(t, seeds);
    assert Exec(t, w0, []) == Some(w0);
    assert 0 in w0.bf.Missing();
    assert forall n <- w0.nodes :: n == Node(FRESH, AtTop, 0);
    var w1 := AsksForFirstPiece(t, w0, 0);
    w := AsksForFirstPiece(t, w1, 1);
    LeadsThen(t, w0, w1, w);
  }

  lemma FirstPieceRequests(t: Torrent, content: Bytes)
    requires ManyBlocks(t, content)
    ensures var s := StartPiece(Unchoke(FRESH), t.info, 0);
            && s.inflight >= 2 && s.pendingPieces.Keys == {0}
  {
    StartPieceIs(t.info, Unchoke(FRESH), 0);
    RequestBlocksCounts(0, Requests(NewPiece(t.info, 0), {}, 0, []));
  }

  lemma FirstStarted(t: Torrent, seeds: nat) returns (w: World)
    requires Supported(t.info) && t.info.NumPieces() >= 2 && seeds >= 2
    ensures Leads(t, Start(t, seeds), w) && Reachable(t, w)
    ensures var w0, n := Start(t, seeds), Node(StartPiece(Unchoke(FRESH), t.info, 0), AtTop, 0);
            w == w0.(nodes := w0.nodes[0 := n][1 := ASKING], bf := w0.bf.(cur := 1))
  {
    var w1 := FirstPicked(t, seeds);
    w := Starts(t, w1, 0);
    LeadsThen(t, Start(t, seeds), w1, w);
  }

  lemma FirstPicked(t: Torrent, seeds: nat) returns (w: World)
    requires Supported(t.info) && t.info.NumPieces() >= 2 && seeds >= 2
    ensures Leads(t, Start(t, seeds), w) && Reachable(t, w)
    ensures var w0 := Start(t, seeds);
            w == w0.(nodes := w0.nodes[0 := ASKING.(phase := Starting(0))][1 := ASKING], bf := w0.bf.(cur := 1))
  {
    var w1 := BothAsk(t, seeds);
    assert w1.bf.Pick() == (w1.bf.(cur := 1), Some(0)) by { assert 0 in w1.bf.Missing(); }
    assert forall n <- w1.nodes :: n == ASKING || n == Node(FRESH, AtTop, 0);
    w := PicksWell(t, w1, 0);
    LeadsThen(t, Start(t, seeds), w1, w);
  }

  lemma BeginsToCircle(t: Torrent, content: Bytes, seeds: nat) returns (w: World)
    requires ManyBlocks(t, content) && seeds >= 2
    ensures Leads(t, Start(t, seeds), w) && Circling(t, content, w, 1)
  {
    w := FirstStarted(t, seeds);
    FirstPieceRequests(t, content);
    WindowBeforeFirstChoke(t, w, 0);
    StartsWithNothing(t, content);
    assert forall n <- w.nodes :: n == w.nodes[0] || n == ASKING || n == Node(FRESH, AtTop, 0);
  }

  lemma StartsWithNothing(t: Torrent, content: Bytes)
    requires ManyBlocks(t, content)
    ensures var s := StartPiece(Unchoke(FRESH), t.info, 0);
            && s.log.restarts == 0 && !s.chokedUs && s.log.accepted == map[0 := map[]]
  {
  }

  /** The other one picks the last piece, and the first asks for the lock again. */
  lemma HeldUp(t: Torrent, content: Bytes, w: World) returns (w': World)
    requires Round(t, content, w)
    ensures Leads(t, w, w') && Reachable(t, w')
    ensures var last := w.bf.total - 1;
            w' == w.(nodes := w.nodes[1 := ASKING.(phase := Starting(last))], bf := w.bf.(cur := 0),
                      line := [Downloader(0)])
  {
    PickerIsValid(t, w);
    assert w.bf.total - 1 in w.bf.Missing();
    assert w.bf.Pick() == (w.bf.(cur := 0), Some(w.bf.total - 1));
    var w1 := PicksWell(t, w, 1);
    assert forall n <- w1.nodes :: n in w.nodes || n == w1.nodes[1];
    w' := AskStep(t, w1, 0);
    LeadsThen(t, w, w1, w');
  }

  lemma FirstNeverAskedForLast(t: Torrent, content: Bytes, w: World)
    requires Round(t, content, w)
    ensures NeverAsked(w.nodes[0].s, w.bf.total - 1)
  {
    ReachableNode(t, w, 0);
    var s := w.nodes[0].s;
    forall b <- s.log.sent ensures b.pieceIndex != w.bf.total - 1 {
      assert Explained(s, w.bf.owned, b);
    }
  }

  /** No block of piece `p` was ever requested, and nobody has it pending. */
  ghost predicate NobodyAsked(w: World, p: nat) {
    forall n <- w.nodes :: n.s.log.restarts == 0 && p !in n.s.pendingPieces && NeverAsked(n.s, p)
  }

  /**
   * With two downloaders or more: a run without any choke in which the next pick returns a piece
   * that the downloader has pending, although another piece is missing, in nobody's table, and not
   * one block of it was ever requested.
   */
  lemma PickedAgainWithoutRequests(t: Torrent, content: Bytes, seeds: nat) returns (w: World)
    requires ManyBlocks(t, content) && seeds >= 2
    ensures Leads(t, Start(t, seeds), w) && Reachable(t, w) && PicksAgain(t, w, 0)
    ensures w.bf.total == t.info.NumPieces() && w.bf.total - 1 in w.bf.Missing() && NobodyAsked(w, w.bf.total - 1)
    ensures !Claim(t, w)
  {
    var w0 := BeginsToCircle(t, content, seeds);
    var w1 := ComesRound(t, content, w0, 1);
    w := HeldUp(t, content, w1);
    LeadsThen(t, Start(t, seeds), w0, w1);
    LeadsThen(t, Start(t, seeds), w1, w);
    FirstNeverAskedForLast(t, content, w1);
    LastIsUnrequested(t, content, w1, w);
  }

  lemma LastIsUnrequested(t: Torrent, content: Bytes, w: World, w': World)
    requires Round(t, content, w) && Reachable(t, w') && NeverAsked(w.nodes[0].s, w.bf.total - 1)
    requires w' == w.(nodes := w.nodes[1 := ASKING.(phase := Starting(w.bf.total - 1))], bf := w.bf.(cur := 0),
                      line := [Downloader(0)])
    ensures PicksAgain(t, w', 0) && w'.bf.total - 1 in w'.bf.Missing() && NobodyAsked(w', w'.bf.total - 1)
    ensures !Claim(t, w')
  {
    FirstAgain(t, content, w, w');
    AskedByNobody(t, content, w, w');
    NotClaimed(t, w', 0, w.bf.total - 1);
  }

  lemma FirstAgain(t: Torrent, content: Bytes, w: World, w': World)
    requires Round(t, content, w) && Reachable(t, w')
    requires w' == w.(nodes := w.nodes[1 := ASKING.(phase := Starting(w.bf.total - 1))], bf := w.bf.(cur := 0),
                      line := [Downloader(0)])
    ensures PicksAgain(t, w', 0) && w'.bf.total - 1 in w'.bf.Missing()
  {
    PickerIsValid(t, w');
    assert 0 in w'.bf.Missing() && w.bf.total - 1 in w'.bf.Missing();
    assert w'.bf.Pick().1 == Some(0);
  }

  lemma NotClaimed(t: Torrent, w: World, i: nat, q: nat)
    requires PicksAgain(t, w, i) && q in w.bf.Missing() && NobodyAsked(w, q)
    ensures !Claim(t, w)
  {
    assert forall n <- w.nodes :: !FullyRequested(n, q);
  }

  lemma AskedByNobody(t: Torrent, content: Bytes, w: World, w': World)
    requires Round(t, content, w) && NeverAsked(w.nodes[0].s, w.bf.total - 1)
    requires w'.nodes == w.nodes[1 := ASKING.(phase := Starting(w.bf.total - 1))]
    ensures NobodyAsked(w', w.bf.total - 1)
  {
    var last := w.bf.total - 1;
    forall n <- w'.nodes ensures n.s.log.restarts == 0 && last !in n.s.pendingPieces && NeverAsked(n.s, last) {
      var j :| 0 <= j < |w'.nodes| && w'.nodes[j] == n;
    }
  }

  /**
   * For a torrent of at least two pieces, the first of at least two blocks: the claim holds in every
   * run if and only if there is at most one downloader.
   */
  lemma ClaimHoldsIff(t: Torrent, content: Bytes, seeds: nat)
    requires ManyBlocks(t, content)
    ensures (forall w: World :: Leads(t, Start(t, seeds), w) ==> Claim(t, w)) <==> seeds <= 1
  {
    if seeds <= 1 {
      forall w: World | Leads(t, Start(t, seeds), w) ensures Claim(t, w) {
        AsManyDownloaders(t, Start(t, seeds), w);
        ClaimHoldsAlone(t, w);
      }
    } else {
      var w := PickedAgainWithoutRequests(t, content, seeds);
    }
  }

  lemma AsManyDownloaders(t: Torrent, w: World, w': World)
    requires Leads(t, w, w') && exists seeds: nat :: t.info.Valid() && w == Start(t, seeds)
    ensures |w'.nodes| == |w.nodes| && Reachable(t, w')
  {
    var steps: seq<Step> :| Exec(t, w, steps) == Some(w');
    var seeds: nat :| t.info.Valid() && w == Start(t, seeds);
    assert Exec(t, Start(t, seeds), steps) == Some(w');
    SameNumber(t, w, steps, w');
  }

  lemma {:induction false} SameNumber(t: Torrent, w: World, steps: seq<Step>, w': World)
    requires Exec(t, w, steps) == Some(w')
    ensures |w'.nodes| == |w.nodes|
    decreases |steps|
  {
    if steps != [] { SameNumber(t, Apply(t, w, steps[0]), steps[1..], w'); }
  }
}
