/** The receiving loop that fills the file: one turn of its loop, in place. */
module FileDownload {
  import opened ByteStrings
  import opened Wrappers
  import opened MetaInfo
  import opened DownloadSpec
  import opened DownloadSteps
  import opened Swarm
  import opened SwarmTheorems
  import opened SwarmSchedules
  import Bitfields

  class File {
    const info: Info
    var bytes: Bytes

    ghost predicate Valid()
      reads this
    {
      info.Valid() && |bytes| == info.TotalLength()
    }

    constructor (info: Info)
      requires info.Valid()
      ensures Valid() && this.info == info && bytes == seq(info.TotalLength(), _ => 0)
    {
      this.info := info;
      bytes := seq(info.TotalLength(), _ => 0);
    }

    /** Takes one message from the channel, and tells whether every piece is owned. */
    method Receive(msg: ChannelMsg, ownBitfield: Bitfields.Bitfield) returns (done: bool)
      requires Valid() && ownBitfield.Valid()
      requires msg.PieceMsg? ==> Fits(info, msg.delivery)
      modifies this
      ensures Valid()
      ensures bytes == if msg.PieceMsg? then SpliceDelivery(info, old(bytes), msg.delivery) else old(bytes)
      ensures done <==> ownBitfield.View().Complete()
    {
      match msg {
        case PieceMsg(d) =>
          var beginIdx := d.index * info.pieceLength;
          assert beginIdx == info.Begin(d.index);
          bytes := Splice(bytes, beginIdx, d.bytes);
        case Disconnect =>
      }
      var remaining := ownBitfield.Remaining();
      NoneRemaining(ownBitfield.View().Missing());
      done := remaining == 0;
    }
  }

  lemma NoneRemaining(missing: set<nat>)
    ensures |missing| == 0 <==> missing == {}
  {
  }

  /** One turn of the loop is a schedule of the swarm, when nobody holds or waits for the lock. */
  lemma {:induction false} ReceivingIsASchedule(t: Torrent, w: World) returns (w': World)
    requires Supported(t.info) && Reachable(t, w) && w.receiver.Receiving? && w.queue != [] && Unlocked(w)
    ensures Exec(t, w, [Step.Receive, AskToCheck, CheckDone]) == Some(w') && Shape(t, w)
    ensures w'.queue == w.queue[1..] && w'.line == [] && w'.nodes == w.nodes && w'.bf == w.bf
    ensures w.queue[0] in w.queue && |w.file| == t.info.TotalLength()
    ensures w'.file == if w.queue[0].PieceMsg? then SpliceDelivery(t.info, w.file, w.queue[0].delivery) else w.file
    ensures w'.receiver == if w.bf.Complete() then Returned else Receiving
  {
    var w1 := FirstStep(t, w, Step.Receive);
    w' := CheckSteps(t, w1);
    ExecThen(t, w, [Step.Receive], w1, [AskToCheck, CheckDone]);
    assert [Step.Receive] + [AskToCheck, CheckDone] == [Step.Receive, AskToCheck, CheckDone];
  }
}
