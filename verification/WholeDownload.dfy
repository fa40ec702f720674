/** A whole download: what is on disk once the download has returned and its bytes were written. */
module WholeDownload {
  import opened ByteStrings
  import opened MetaInfo
  import opened DownloadSpec
  import opened DownloadSteps
  import opened FileWriter
  import opened Swarm
  import opened SwarmTheorems

  /** There are as many bytes as the torrent says, for one file or for several. */
  lemma ReturnedLength(t: Torrent, w: World)
    requires Supported(t.info) && Reachable(t, w)
    ensures |w.file| == t.info.TotalLength()
  {
    EveryReachableWorldIsOk(t, w);
  }

  lemma SlicesHaveTheirLengths(out: seq<Written>, output: string, files: seq<FileEntry>, bytes: Bytes)
    requires |out| == |files| && forall j: nat :: j < |out| ==> FileWriter.Holds(out[j], output, files, j, bytes)
    ensures forall j: nat :: j < |out| ==> |out[j].bytes| == files[j].length
  {
    forall j: nat | j < |out| ensures |out[j].bytes| == files[j].length {
      NextOffset(files, j);
      assert FileWriter.Holds(out[j], output, files, j, bytes);
    }
  }

  /** Two files have the same path exactly if the torrent gives them the same. */
  lemma PathsAreDistinct(output: string, p: seq<string>, q: seq<string>)
    ensures [output] + p == [output] + q <==> p == q
  {
    assert ([output] + p)[1..] == p && ([output] + q)[1..] == q;
  }

  /**
   * Writes what a download returned. It never panics. A single file gets all bytes, as many as the
   * torrent says, under the output name. Several get each its path below the output and its length,
   * and one after the other they are the bytes of the download.
   */
  method WriteDownloaded(t: Torrent, ghost w: World, output: string, bytes: Bytes) returns (out: seq<Written>)
    requires Supported(t.info) && Reachable(t, w) && w.receiver.Returned? && bytes == w.file
    ensures t.info.downloadType.SingleFile? ==>
              && |out| == 1 && out[0].path == [output] && out[0].bytes == bytes
              && |out[0].bytes| == t.info.downloadType.length
    ensures t.info.downloadType.MultiFile? ==>
              var files := t.info.downloadType.files;
              && |out| == |files| && Concat(out) == bytes
              && (forall j: nat :: j < |out| ==>
                    out[j].path == [output] + files[j].path && |out[j].bytes| == files[j].length)
              && (forall i: nat, j: nat :: i < |out| && j < |out| && files[i].path != files[j].path ==>
                    out[i].path != out[j].path)
  {
    ReturnedLength(t, w);
    var panicked;
    out, panicked := Write(output, t.info.downloadType, bytes);
    if t.info.downloadType.MultiFile? {
      ghost var files := t.info.downloadType.files;
      assert !panicked;
      SlicesHaveTheirLengths(out, output, files, bytes);
      FilesConcatenateToContent(out, output, files, bytes);
      forall j: nat | j < |out| ensures out[j].path == [output] + files[j].path {
        assert FileWriter.Holds(out[j], output, files, j, bytes);
      }
      forall i: nat, j: nat | i < |out| && j < |out| && files[i].path != files[j].path
        ensures out[i].path != out[j].path
      {
        PathsAreDistinct(output, files[i].path, files[j].path);
      }
    }
  }
}
