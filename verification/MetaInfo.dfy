/** Piece geometry of a torrent: how the pieces tile the content, and how files split it. */
module MetaInfo {
  import opened ByteStrings

  type Hash = Bytes

  datatype FileEntry = FileEntry(length: nat, path: seq<string>)

  datatype DownloadType = SingleFile(length: nat) | MultiFile(files: seq<FileEntry>) {
    function Len(): nat {
      match this
      case SingleFile(length) => length
      case MultiFile(files) => SumLengths(files)
    }
  }

  /** The left fold of the file lengths. */
  function SumLengths(files: seq<FileEntry>): nat {
    if files == [] then 0 else SumLengths(files[..|files| - 1]) + files[|files| - 1].length
  }

  datatype Info = Info(pieceLength: nat, pieces: seq<Hash>, downloadType: DownloadType) {

    /** What the arithmetic on piece lengths, counts and hashes takes for granted. */
    predicate Valid() {
      && 0 < pieceLength < U32
      && TotalLength() + pieceLength <= U64
      && (TotalLength() + pieceLength - 1) / pieceLength < U32
      && NumPieces() <= |pieces|
    }

    function TotalLength(): nat {
      downloadType.Len()
    }

    /** The number of pieces, truncated to 32 bits. */
    function NumPieces(): nat
      requires pieceLength > 0
    {
      ((TotalLength() + pieceLength - 1) / pieceLength) % U32
    }

    function Begin(i: nat): nat {
      i * pieceLength
    }

    function GetPieceLength(i: nat): nat
      requires Begin(i) <= TotalLength()
    {
      if Begin(i) + pieceLength > TotalLength() then TotalLength() - Begin(i) else pieceLength
    }
  }

  // ---- Exact tiling ----

  lemma MulMonotone(a: nat, b: nat, c: nat)
    requires a <= b
    ensures a * c <= b * c
  {
  }

  lemma PieceStartsInside(info: Info, i: nat)
    requires info.Valid() && i < info.NumPieces()
    ensures info.Begin(i) < info.TotalLength()
    ensures i + 1 < info.NumPieces() ==> info.Begin(i) + info.pieceLength == info.Begin(i + 1) < info.TotalLength()
    ensures i + 1 == info.NumPieces() ==> info.TotalLength() <= info.Begin(i) + info.pieceLength
  {
    var n, pl, total := info.NumPieces(), info.pieceLength, info.TotalLength();
    assert n == (total + pl - 1) / pl;
    assert n * pl <= total + pl - 1 < n * pl + pl;
    assert (i + 1) * pl == i * pl + pl;
    MulMonotone(i + 1, n, pl);
    if i + 1 < n {
      MulMonotone(i + 2, n, pl);
      assert (i + 2) * pl == i * pl + 2 * pl;
    }
  }

  /** The length of an existing piece. */
  function Size(info: Info, i: nat): (r: nat)
    requires info.Valid() && i < info.NumPieces()
    ensures 0 < r <= info.pieceLength
    ensures info.Begin(i) + r <= info.TotalLength()
  {
    PieceStartsInside(info, i);
    info.GetPieceLength(i)
  }

  /** The pieces follow each other without gap or overlap, from 0 up to the total length. */
  lemma {:induction false} PiecesAreConsecutive(info: Info, i: nat)
    requires info.Valid() && i < info.NumPieces()
    ensures info.Begin(0) == 0
    ensures info.Begin(i) + Size(info, i)
         == if i + 1 == info.NumPieces() then info.TotalLength() else info.Begin(i + 1)
  {
    PieceStartsInside(info, i);
  }

  ghost predicate InPiece(info: Info, i: nat, k: nat)
    requires info.Valid() && i < info.NumPieces()
  {
    info.Begin(i) <= k < info.Begin(i) + Size(info, i)
  }

  function PieceAt(info: Info, k: nat): nat
    requires info.pieceLength > 0
  {
    k / info.pieceLength
  }

  lemma QuotientIsUnique(k: nat, pl: nat, i: nat)
    requires pl > 0
    ensures i * pl <= k < i * pl + pl <==> i == k / pl
  {
    var q := k / pl;
    assert q * pl <= k < q * pl + pl;
    if i < q { MulMonotone(i + 1, q, pl); assert (i + 1) * pl == i * pl + pl; }
    if q < i { MulMonotone(q + 1, i, pl); assert (q + 1) * pl == q * pl + pl; }
  }

  lemma LastPieceCovers(info: Info, k: nat)
    requires info.Valid() && k < info.TotalLength()
    ensures PieceAt(info, k) < info.NumPieces()
  {
    var n, pl := info.NumPieces(), info.pieceLength;
    var q := PieceAt(info, k);
    assert n == (info.TotalLength() + pl - 1) / pl;
    assert info.TotalLength() <= n * pl;
    assert q * pl <= k;
    if q >= n { MulMonotone(n, q, pl); }
  }

  /** Every byte of the content lies in exactly one piece. */
  lemma {:induction false} EveryByteInOnePiece(info: Info, k: nat)
    requires info.Valid() && k < info.TotalLength()
    ensures PieceAt(info, k) < info.NumPieces()
    ensures forall i: nat :: i < info.NumPieces() ==> (InPiece(info, i, k) <==> i == PieceAt(info, k))
  {
    LastPieceCovers(info, k);
    forall i: nat | i < info.NumPieces() ensures InPiece(info, i, k) <==> i == PieceAt(info, k) {
      QuotientIsUnique(k, info.pieceLength, i);
    }
  }

  /** The bytes of piece `i` in a vector of the full length. */
  ghost function PieceOf(info: Info, v: Bytes, i: nat): (r: Bytes)
    requires info.Valid() && i < info.NumPieces() && |v| == info.TotalLength()
    ensures |r| == Size(info, i)
  {
    var (begin, size) := (info.Begin(i), Size(info, i));
    v[begin..begin + size]
  }

  lemma PiecesDetermineContent(info: Info, a: Bytes, b: Bytes)
    requires info.Valid() && |a| == |b| == info.TotalLength()
    requires forall i: nat :: i < info.NumPieces() ==> PieceOf(info, a, i) == PieceOf(info, b, i)
    ensures a == b
  {
    forall k: nat | k < |a| ensures a[k] == b[k] {
      EveryByteInOnePiece(info, k);
      var i := PieceAt(info, k);
      assert InPiece(info, i, k);
      assert PieceOf(info, a, i)[k - info.Begin(i)] == PieceOf(info, b, i)[k - info.Begin(i)];
    }
  }

  // ---- Splicing delivered pieces into the file ----

  datatype Delivery = Delivery(index: nat, bytes: Bytes)

  ghost predicate Fits(info: Info, d: Delivery)
    requires info.Valid()
  {
    d.index < info.NumPieces() && |d.bytes| == Size(info, d.index)
  }

  ghost function SpliceDelivery(info: Info, file: Bytes, d: Delivery): (r: Bytes)
    requires info.Valid() && Fits(info, d) && |file| == info.TotalLength()
    ensures |r| == |file|
  {
    Splice(file, info.Begin(d.index), d.bytes)
  }

  lemma PiecesAreDisjoint(info: Info, i: nat, j: nat, k: nat)
    requires info.Valid() && i < info.NumPieces() && j < info.NumPieces() && i != j && InPiece(info, i, k)
    ensures !InPiece(info, j, k)
  {
    EveryByteInOnePiece(info, k);
  }

  /** A delivery replaces its own piece and leaves every other piece alone. */
  lemma {:induction false} SpliceChangesOnePiece(info: Info, file: Bytes, d: Delivery, i: nat)
    requires info.Valid() && Fits(info, d) && |file| == info.TotalLength() && i < info.NumPieces()
    ensures PieceOf(info, SpliceDelivery(info, file, d), i)
         == if i == d.index then d.bytes else PieceOf(info, file, i)
  {
    var after := PieceOf(info, SpliceDelivery(info, file, d), i);
    if i == d.index {
      assert after == d.bytes;
    } else {
      forall k: nat | k < Size(info, i) ensures after[k] == PieceOf(info, file, i)[k] {
        PiecesAreDisjoint(info, i, d.index, info.Begin(i) + k);
      }
      assert after == PieceOf(info, file, i);
    }
  }

  ghost function SpliceAll(info: Info, file: Bytes, ds: seq<Delivery>): (r: Bytes)
    requires info.Valid() && |file| == info.TotalLength() && forall d <- ds :: Fits(info, d)
    ensures |r| == |file|
    decreases |ds|
  {
    if ds == [] then file else
      assert ds[0] in ds;
      SpliceAll(info, SpliceDelivery(info, file, ds[0]), ds[1..])
  }

  ghost predicate Delivers(ds: seq<Delivery>, i: nat) {
    exists d <- ds :: d.index == i
  }

  /**
   * Splicing true pieces in any order, with any repetition, puts the true content at exactly the
   * pieces delivered and keeps the old bytes everywhere else.
   */
  lemma {:induction false} SpliceAllInAnyOrder(info: Info, content: Bytes, file: Bytes, ds: seq<Delivery>, i: nat)
    requires info.Valid() && |file| == |content| == info.TotalLength() && i < info.NumPieces()
    requires forall d <- ds :: Fits(info, d) && d.bytes == PieceOf(info, content, d.index)
    ensures PieceOf(info, SpliceAll(info, file, ds), i)
         == if Delivers(ds, i) then PieceOf(info, content, i) else PieceOf(info, file, i)
    decreases |ds|
  {
    if ds != [] {
      assert ds[0] in ds;
      SpliceAllInAnyOrder(info, content, SpliceDelivery(info, file, ds[0]), ds[1..], i);
      SpliceChangesOnePiece(info, file, ds[0], i);
      assert ds == [ds[0]] + ds[1..];
    }
  }

  /** Once every piece has been delivered at least once, the file is the content. */
  lemma AllDeliveredRebuildsContent(info: Info, content: Bytes, file: Bytes, ds: seq<Delivery>)
    requires info.Valid() && |file| == |content| == info.TotalLength()
    requires forall d <- ds :: Fits(info, d) && d.bytes == PieceOf(info, content, d.index)
    requires forall i: nat :: i < info.NumPieces() ==> Delivers(ds, i)
    ensures SpliceAll(info, file, ds) == content
  {
    forall i: nat | i < info.NumPieces()
      ensures PieceOf(info, SpliceAll(info, file, ds), i) == PieceOf(info, content, i)
    {
      SpliceAllInAnyOrder(info, content, file, ds, i);
    }
    PiecesDetermineContent(info, SpliceAll(info, file, ds), content);
  }
}
