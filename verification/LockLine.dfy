/**
 * What those who wait for the lock are going to do when their turn comes: which pieces they record,
 * and how many messages they send while they hold the lock.
 */
module LockLine {
  import opened DownloadSteps
  import opened Swarm
  import Picker

  // ---- The line ----

  /** Those who are served before the loop that fills the file, if that one asks now or has asked. */
  function Ahead(line: seq<Waiter>): seq<Waiter> {
    if line == [] || line[0].Loop? then [] else [line[0]] + Ahead(line[1..])
  }

  /** The rest of the line. */
  function Behind(line: seq<Waiter>): seq<Waiter> {
    if line == [] || line[0].Loop? then line else Behind(line[1..])
  }

  lemma {:induction false} AheadWithoutLoop(line: seq<Waiter>)
    requires Loop !in line
    ensures Ahead(line) == line && Behind(line) == []
  {
    if line != [] {
      assert line[0] in line;
      AheadWithoutLoop(line[1..]);
    }
  }

  lemma {:induction false} AheadIsPart(line: seq<Waiter>)
    ensures line == Ahead(line) + Behind(line)
    ensures Loop !in Ahead(line)
    ensures Behind(line) == [] || Behind(line)[0] == Loop
    ensures Loop in line <==> Behind(line) != []
  {
    if line != [] && !line[0].Loop? {
      AheadIsPart(line[1..]);
    }
  }

  lemma {:induction false} OneMoreInLine(line: seq<Waiter>, who: Waiter)
    ensures Loop in line ==> Ahead(line + [who]) == Ahead(line) && Behind(line + [who]) == Behind(line) + [who]
    ensures Loop !in line && who.Loop? ==> Ahead(line + [who]) == line && Behind(line + [who]) == [who]
    ensures Loop !in line && !who.Loop? ==> Ahead(line + [who]) == line + [who] && Behind(line + [who]) == []
  {
    if line != [] {
      assert (line + [who])[1..] == line[1..] + [who];
      OneMoreInLine(line[1..], who);
    } else {
      assert (line + [who])[1..] == [];
    }
  }

  // ---- What they will record and send ----

  /** The piece that the waiter has finished, if it has one. */
  ghost function Finished(nodes: seq<Node>, who: Waiter): set<nat> {
    if who.Downloader? && who.i < |nodes| && nodes[who.i].phase.Completing? then {nodes[who.i].phase.index} else {}
  }

  /** What is owned when all in line have been served. */
  ghost function OwnedAfter(nodes: seq<Node>, owned: set<nat>, line: seq<Waiter>): set<nat>
    decreases |line|
  {
    if line == [] then owned else OwnedAfter(nodes, owned + Finished(nodes, line[0]), line[1..])
  }

  ghost predicate LastMissing(total: nat, owned: set<nat>, index: nat) {
    index < total && index !in owned && forall p: nat :: p < total ==> p in owned || p == index
  }

  /** With these pieces owned, the downloader will send its finished piece: the hash is right, and nothing panics. */
  ghost predicate WillSend(t: Torrent, total: nat, owned: set<nat>, n: Node) {
    && n.phase.Completing? && n.phase.index in n.s.pendingPieces
    && !(total % 8 == 0 && LastMissing(total, owned, n.phase.index))
    && ValidatePiece(t, n.s.pendingPieces[n.phase.index].bytes, n.s.pendingPieces[n.phase.index].pieceHash)
  }

  ghost predicate WaiterSends(t: Torrent, total: nat, owned: set<nat>, nodes: seq<Node>, who: Waiter) {
    who.Downloader? && who.i < |nodes| && WillSend(t, total, owned, nodes[who.i])
  }

  /** How many of those in line are going to send, when they are served in order. */
  ghost function SendsOf(t: Torrent, total: nat, owned: set<nat>, nodes: seq<Node>, line: seq<Waiter>): nat
    decreases |line|
  {
    if line == [] then 0
    else
      (if WaiterSends(t, total, owned, nodes, line[0]) then 1 else 0)
      + SendsOf(t, total, owned + Finished(nodes, line[0]), nodes, line[1..])
  }

  lemma {:induction false} OwnedGrows(nodes: seq<Node>, owned: set<nat>, line: seq<Waiter>)
    ensures owned <= OwnedAfter(nodes, owned, line)
    decreases |line|
  {
    if line != [] { OwnedGrows(nodes, owned + Finished(nodes, line[0]), line[1..]); }
  }

  /** Serving the line in two parts. */
  lemma {:induction false} OwnedInParts(nodes: seq<Node>, owned: set<nat>, first: seq<Waiter>, second: seq<Waiter>)
    ensures OwnedAfter(nodes, owned, first + second) == OwnedAfter(nodes, OwnedAfter(nodes, owned, first), second)
    decreases |first|
  {
    if first == [] {
      assert first + second == second;
    } else {
      assert (first + second)[1..] == first[1..] + second;
      OwnedInParts(nodes, owned + Finished(nodes, first[0]), first[1..], second);
    }
  }

  /** Only the downloaders in line matter. */
  lemma {:induction false} SameLineSameSends(
      t: Torrent, total: nat, owned: set<nat>, nodes: seq<Node>, nodes': seq<Node>, line: seq<Waiter>)
    requires |nodes'| == |nodes|
    requires forall who <- line :: who.Downloader? && who.i < |nodes| ==> nodes'[who.i] == nodes[who.i]
    ensures SendsOf(t, total, owned, nodes', line) == SendsOf(t, total, owned, nodes, line)
    ensures OwnedAfter(nodes', owned, line) == OwnedAfter(nodes, owned, line)
    decreases |line|
  {
    if line != [] {
      assert line[0] in line;
      SameLineSameSends(t, total, owned + Finished(nodes, line[0]), nodes, nodes', line[1..]);
    }
  }

  lemma {:induction false} OneMoreSends(
      t: Torrent, total: nat, owned: set<nat>, nodes: seq<Node>, line: seq<Waiter>, who: Waiter)
    ensures SendsOf(t, total, owned, nodes, line) <= SendsOf(t, total, owned, nodes, line + [who])
         <= SendsOf(t, total, owned, nodes, line) + 1
    ensures who.Loop? ==> SendsOf(t, total, owned, nodes, line + [who]) == SendsOf(t, total, owned, nodes, line)
    ensures who.Loop? ==> OwnedAfter(nodes, owned, line + [who]) == OwnedAfter(nodes, owned, line)
    decreases |line|
  {
    if line != [] {
      assert (line + [who])[1..] == line[1..] + [who];
      OneMoreSends(t, total, owned + Finished(nodes, line[0]), nodes, line[1..], who);
    } else {
      assert (line + [who])[1..] == [];
    }
  }

  /** If somebody in line will send, some downloader has finished a piece. */
  lemma {:induction false} SomebodySends(t: Torrent, total: nat, owned: set<nat>, nodes: seq<Node>, line: seq<Waiter>)
    requires SendsOf(t, total, owned, nodes, line) > 0
    ensures exists n <- nodes :: n.phase.Completing?
    decreases |line|
  {
    if WaiterSends(t, total, owned, nodes, line[0]) {
      assert nodes[line[0].i] in nodes;
    } else {
      SomebodySends(t, total, owned + Finished(nodes, line[0]), nodes, line[1..]);
    }
  }

  lemma CompletingSends(t: Torrent, bf: Picker.State, n: Node)
    requires bf.Valid() && n.phase.Completing? && n.phase.index < bf.total && n.phase.index in n.s.pendingPieces
    ensures OnComplete(t, bf, n, n.phase.index).phase.Sending? <==> WillSend(t, bf.total, bf.owned, n)
  {
    var index := n.phase.index;
    assert bf.Missing() == {index} <==> LastMissing(bf.total, bf.owned, index) by {
      if LastMissing(bf.total, bf.owned, index) {
        assert bf.Missing() == {index};
      } else if bf.Missing() == {index} {
        assert index in bf.Missing();
        forall p: nat | p < bf.total ensures p in bf.owned || p == index { assert p in bf.Missing() || p in bf.owned; }
      }
    }
  }

  // ---- In a world ----

  /** The lock holder has a message that is not in the queue yet. */
  ghost function ToSend(w: World): nat {
    if exists n <- w.nodes :: n.phase.Sending? then 1 else 0
  }

  ghost function SendsAhead(t: Torrent, w: World): nat {
    ToSend(w) + SendsOf(t, w.bf.total, w.bf.owned, w.nodes, Ahead(w.line))
  }

  ghost function OwnedThen(w: World): set<nat> {
    OwnedAfter(w.nodes, w.bf.owned, Ahead(w.line))
  }

  /** The same when the whole line has been served. */
  ghost function OwnedAll(w: World): set<nat> {
    OwnedAfter(w.nodes, w.bf.owned, w.line)
  }

  ghost function SendsBehind(t: Torrent, w: World): nat {
    SendsOf(t, w.bf.total, OwnedThen(w), w.nodes, Behind(w.line))
  }

  /** The lock holder waits for its message to be among the first `limit` of the queue. */
  ghost predicate HolderWaits(w: World, limit: nat) {
    exists n <- w.nodes :: n.phase.HandingOver? && n.phase.ticket >= w.taken + limit
  }
}
