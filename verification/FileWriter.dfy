/** Writing the downloaded bytes out: one file, or one slice per file. */
module FileWriter {
  import opened ByteStrings
  import opened MetaInfo

  /** One call of the file system: the path, below the output, and the bytes stored there. */
  datatype Written = Written(path: seq<string>, bytes: Bytes)

  /** Where file `j` starts: the total length of the files before it. */
  function Offset(files: seq<FileEntry>, j: nat): nat
    requires j <= |files|
  {
    SumLengths(files[..j])
  }

  lemma NextOffset(files: seq<FileEntry>, j: nat)
    requires j < |files|
    ensures Offset(files, j + 1) == Offset(files, j) + files[j].length
  {
    assert files[..j + 1][..j] == files[..j];
  }

  lemma {:induction false} OffsetsGrow(files: seq<FileEntry>, i: nat, j: nat)
    requires i <= j <= |files|
    ensures Offset(files, i) <= Offset(files, j) <= SumLengths(files)
    decreases |files| - i
  {
    if j < |files| {
      NextOffset(files, j);
      OffsetsGrow(files, j + 1, |files|);
    } else {
      assert files[..j] == files;
    }
    if i < j {
      NextOffset(files, i);
      OffsetsGrow(files, i + 1, j);
    }
  }

  /**
   * File `j` receives the bytes between its offset and the next one, in order. The call stops by
   * panicking at the first file that ends behind the last byte.
   */
  method Write(output: string, dlType: DownloadType, bytes: Bytes) returns (out: seq<Written>, panicked: bool)
    ensures dlType.SingleFile? ==> !panicked && out == [Written([output], bytes)]
    ensures dlType.MultiFile? ==>
              && |out| <= |dlType.files|
              && (panicked <==> dlType.Len() > |bytes|)
              && (!panicked ==> |out| == |dlType.files|)
              && (panicked ==> |out| < |dlType.files| && Offset(dlType.files, |out| + 1) > |bytes|)
              && (forall j: nat :: j < |out| ==> Holds(out[j], output, dlType.files, j, bytes))
  {
    match dlType
    case SingleFile(_) =>
      return [Written([output], bytes)], false;
    case MultiFile(files) =>
      out := [];
      var idx := 0;
      for k := 0 to |files|
        invariant |out| == k && idx == Offset(files, k) <= |bytes|
        invariant forall j: nat :: j < k ==> Holds(out[j], output, files, j, bytes)
      {
        NextOffset(files, k);
        OffsetsGrow(files, k + 1, |files|);
        var newIdx := idx + files[k].length;
        if newIdx > |bytes| {
          return out, true;
        }
        out := out + [Written([output] + files[k].path, bytes[idx..newIdx])];
        idx := newIdx;
      }
      assert files[..|files|] == files;
      panicked := false;
  }

  ghost predicate Holds(w: Written, output: string, files: seq<FileEntry>, j: nat, bytes: Bytes)
    requires j < |files|
  {
    && Offset(files, j) <= Offset(files, j + 1) <= |bytes|
    && w == Written([output] + files[j].path, bytes[Offset(files, j)..Offset(files, j + 1)])
  }

  ghost function Concat(out: seq<Written>): Bytes {
    if out == [] then [] else Concat(out[..|out| - 1]) + out[|out| - 1].bytes
  }

  /** Reading the written files one after the other gives back the downloaded bytes. */
  lemma {:induction false} FilesConcatenateToContent(
      out: seq<Written>, output: string, files: seq<FileEntry>, bytes: Bytes)
    requires |out| <= |files| && SumLengths(files) <= |bytes|
    requires forall j: nat :: j < |out| ==> Holds(out[j], output, files, j, bytes)
    ensures Offset(files, |out|) <= |bytes|
    ensures Concat(out) == bytes[..Offset(files, |out|)]
    ensures |out| == |files| && |bytes| == SumLengths(files) ==> Concat(out) == bytes
  {
    OffsetsGrow(files, |out|, |files|);
    if out != [] {
      var n := |out| - 1;
      FilesConcatenateToContent(out[..n], output, files, bytes);
      assert Holds(out[n], output, files, n, bytes);
      NextSlice(bytes, Offset(files, n), Offset(files, |out|));
    }
    if |out| == |files| { assert files[..|out|] == files && bytes[..|bytes|] == bytes; }
  }

  lemma NextSlice(bytes: Bytes, i: nat, j: nat)
    requires i <= j <= |bytes|
    ensures bytes[..i] + bytes[i..j] == bytes[..j]
  {
  }
}
