/** Piece, chunk and file arithmetic of a torrent. */
module TorrentLengths {
  import opened Prelude

  const CHUNK_SIZE: nat := 16384

  function DivCeil(a: nat, b: nat): (r: nat)
    requires b > 0
  {
    if a % b == 0 then a / b else a / b + 1
  }

  lemma MulMonotone(x: nat, y: nat, b: nat)
    requires x <= y
    ensures x * b <= y * b
  {
    assert y * b == x * b + (y - x) * b;
  }

  /** `x / b <= p` seen without division. */
  lemma FloorAtMost(x: nat, b: nat, p: nat)
    requires b > 0
    ensures x / b <= p <==> x < p * b + b
  {
    var q, r := x / b, x % b;
    assert x == q * b + r;
    if q <= p {
      MulMonotone(q, p, b);
    } else {
      MulMonotone(p + 1, q, b);
      assert (p + 1) * b == p * b + b;
    }
  }

  /** `p < DivCeil(x, b)` seen without division. */
  lemma CeilAbove(x: nat, b: nat, p: nat)
    requires b > 0
    ensures p < DivCeil(x, b) <==> p * b < x
  {
    var q, r := x / b, x % b;
    assert x == q * b + r;
    if p < q {
      MulMonotone(p + 1, q, b);
      assert (p + 1) * b == p * b + b;
    } else if p == q {
      assert p * b == q * b;
    } else {
      MulMonotone(q + 1, p, b);
      assert (q + 1) * b == q * b + b;
    }
  }

  lemma DivCeilBounds(x: nat, b: nat)
    requires b > 0
    ensures DivCeil(x, b) * b >= x
    ensures DivCeil(x, b) > 0 ==> (DivCeil(x, b) - 1) * b < x
    ensures DivCeil(x, b) > 0 <==> x > 0
  {
    CeilAbove(x, b, 0);
    CeilAbove(x, b, DivCeil(x, b));
    if DivCeil(x, b) > 0 { CeilAbove(x, b, DivCeil(x, b) - 1); }
  }

  function LastElementSize(total: nat, size: nat): nat
    requires size > 0
  {
    if total % size == 0 then size else total % size
  }

  datatype ChunkInfo = ChunkInfo(pieceIndex: nat, chunkIndex: nat, absoluteIndex: nat, size: nat, offset: nat)

  /** Sizes of one torrent; every torrent has at least one byte and non-empty pieces. */
  datatype Lengths = Lengths(totalLength: nat, pieceLength: nat)
  {
    predicate Valid() {
      totalLength > 0 && pieceLength > 0
    }

    function TotalPieces(): (r: nat)
      requires Valid()
      ensures r > 0
    {
      DivCeilBounds(totalLength, pieceLength);
      DivCeil(totalLength, pieceLength)
    }

    function LastPieceId(): nat
      requires Valid()
    {
      TotalPieces() - 1
    }

    function PieceLen(p: nat): nat
      requires Valid()
    {
      if p == LastPieceId() then LastElementSize(totalLength, pieceLength) else pieceLength
    }

    function PieceOffset(p: nat): nat {
      p * pieceLength
    }

    function ValidatePieceIndex(p: nat): Option<nat>
      requires Valid()
    {
      if p > LastPieceId() then None else Some(p)
    }

    /** Bits in a bitfield with one bit per piece, padded to whole bytes. */
    function PieceBits(): nat
      requires Valid()
    {
      8 * DivCeil(TotalPieces(), 8)
    }

    function DefaultChunksPerPiece(): nat {
      DivCeil(pieceLength, CHUNK_SIZE)
    }

    function ChunksPerPiece(p: nat): nat
      requires Valid()
    {
      if p == LastPieceId() then DivCeil(LastElementSize(totalLength, pieceLength), CHUNK_SIZE)
        else DefaultChunksPerPiece()
    }

    function ChunkRange(p: nat): (nat, nat)
      requires Valid()
    {
      var start := p * DefaultChunksPerPiece();
      (start, start + ChunksPerPiece(p))
    }

    function TotalChunks(): nat
      requires Valid()
    {
      ChunkRange(LastPieceId()).1
    }

    function ChunkBits(): nat
      requires Valid()
    {
      8 * DivCeil(TotalChunks(), 8)
    }

    function ChunkSize(p: nat, chunk: nat): Option<nat>
      requires Valid()
    {
      var len := PieceLen(p);
      var last := DivCeil(len, CHUNK_SIZE) - 1;
      if chunk < last then Some(CHUNK_SIZE)
      else if chunk == last then Some(LastElementSize(len, CHUNK_SIZE))
      else None
    }

    function ChunkInfoFromReceivedData(p: nat, begin: nat, size: nat): Option<ChunkInfo>
      requires Valid()
    {
      var index := begin / CHUNK_SIZE;
      var expected := ChunkSize(p, index);
      if expected.None? || index >= ChunksPerPiece(p) then None
      else if index * CHUNK_SIZE != begin || expected.value != size then None
      else Some(ChunkInfo(p, index, DefaultChunksPerPiece() * p + index, size, begin))
    }

    /** The pieces that hold bytes of `[offset, offset + len)`, clipped to the torrent. */
    function PiecesWithinOffset(offset: nat, len: nat): (nat, nat)
      requires Valid()
    {
      var start := Min(offset, totalLength);
      var end := Min(start + len, totalLength);
      (start / pieceLength, if end == start then start / pieceLength else DivCeil(end, pieceLength))
    }

    /** How many bytes of piece `p` lie in the file `[fileOffset, fileOffset + fileLen)`. */
    function SizeOfPieceInFile(p: nat, fileOffset: nat, fileLen: nat): nat {
      var pieceOffset := p * pieceLength;
      var offset := Max(fileOffset, pieceOffset);
      var end := Min(fileOffset + fileLen, pieceOffset + pieceLength);
      SaturatingSub(end, offset)
    }
  }

  /** Piece `p` is the interval `[p * L, min((p + 1) * L, total))`, which is never empty. */
  lemma PieceInterval(l: Lengths, p: nat)
    requires l.Valid() && p < l.TotalPieces()
    ensures l.PieceLen(p) > 0
    ensures l.PieceOffset(p) + l.PieceLen(p) == Min(p * l.pieceLength + l.pieceLength, l.totalLength)
  {
    var b := l.pieceLength;
    CeilAbove(l.totalLength, b, p);
    if p == l.LastPieceId() {
      var q := l.totalLength / b;
      assert l.totalLength == q * b + l.totalLength % b;
      if l.totalLength % b == 0 { assert q * b == p * b + b; }
    } else {
      CeilAbove(l.totalLength, b, p + 1);
      assert (p + 1) * b == p * b + b;
    }
  }

  lemma PieceBitsEnough(l: Lengths)
    requires l.Valid()
    ensures l.TotalPieces() <= l.PieceBits()
  {
    DivCeilBounds(l.TotalPieces(), 8);
  }

  /** The chunk bits of every piece lie inside the chunk bitfield, after those of the piece before. */
  lemma ChunkRangeInside(l: Lengths, p: nat)
    requires l.Valid() && p < l.TotalPieces()
    ensures l.ChunkRange(p).1 <= l.TotalChunks() <= l.ChunkBits()
    ensures l.ChunkRange(p).0 < l.ChunkRange(p).1
    ensures p > 0 ==> l.ChunkRange(p - 1).1 == l.ChunkRange(p).0
  {
    var c := l.DefaultChunksPerPiece();
    PieceInterval(l, p);
    PieceInterval(l, l.LastPieceId());
    DivCeilBounds(l.PieceLen(p), CHUNK_SIZE);
    DivCeilBounds(l.TotalChunks(), 8);
    if p < l.LastPieceId() {
      MulMonotone(p + 1, l.LastPieceId(), c);
      assert (p + 1) * c == p * c + c;
    }
    if p > 0 { assert p * c == (p - 1) * c + c; }
  }

  // ------------------------------------------------------------- files

  /** One file of the torrent: where its bytes and its pieces are. */
  datatype FileInfo = FileInfo(name: seq<string>, offset: nat, len: nat, pieceStart: nat, pieceEnd: nat, padding: bool)
  {
    predicate HasPiece(p: nat) {
      pieceStart <= p < pieceEnd
    }
  }

  /** The file's piece range is the one the torrent's metadata gives it. */
  ghost predicate FileOk(l: Lengths, f: FileInfo) {
    && l.Valid()
    && f.offset + f.len <= l.totalLength
    && (f.pieceStart, f.pieceEnd) == l.PiecesWithinOffset(f.offset, f.len)
  }

  /** Files lie one after the other. */
  ghost predicate LayoutOk(l: Lengths, files: seq<FileInfo>) {
    && l.Valid()
    && (forall i :: 0 <= i < |files| ==> FileOk(l, files[i]))
    && (forall i, j :: 0 <= i < j < |files| ==> files[i].offset + files[i].len <= files[j].offset)
  }

  /** A piece is in a file's range exactly when the file holds some of its bytes. */
  lemma InRangeIsOverlap(l: Lengths, f: FileInfo, p: nat)
    requires FileOk(l, f)
    ensures f.HasPiece(p) <==> l.SizeOfPieceInFile(p, f.offset, f.len) > 0
    ensures f.pieceStart <= f.pieceEnd <= l.TotalPieces()
  {
    var b, end := l.pieceLength, f.offset + f.len;
    if f.len > 0 {
      FloorAtMost(f.offset, b, p);
      CeilAbove(end, b, p);
      FloorAtMost(f.offset, b, f.pieceEnd);
      DivCeilBounds(end, b);
      if f.pieceEnd > l.TotalPieces() {
        CeilAbove(end, b, l.TotalPieces());
        DivCeilBounds(l.totalLength, b);
      }
    } else {
      FloorAtMost(f.offset, b, l.TotalPieces());
      DivCeilBounds(l.totalLength, b);
    }
  }

  /** Bytes of the file before piece `k`. */
  function BytesBefore(l: Lengths, f: FileInfo, k: nat): nat {
    SaturatingSub(Min(f.offset + f.len, k * l.pieceLength), f.offset)
  }

  lemma BytesBeforeStep(l: Lengths, f: FileInfo, k: nat)
    ensures BytesBefore(l, f, k + 1) == BytesBefore(l, f, k) + l.SizeOfPieceInFile(k, f.offset, f.len)
  {
    assert (k + 1) * l.pieceLength == k * l.pieceLength + l.pieceLength;
  }

  lemma BytesBeforeEnds(l: Lengths, f: FileInfo)
    requires FileOk(l, f)
    ensures BytesBefore(l, f, f.pieceStart) == 0
    ensures BytesBefore(l, f, f.pieceEnd) == f.len
  {
    FloorAtMost(f.offset, l.pieceLength, f.pieceStart);
    assert f.offset == f.pieceStart * l.pieceLength + f.offset % l.pieceLength;
    if f.len > 0 { DivCeilBounds(f.offset + f.len, l.pieceLength); }
  }
}
