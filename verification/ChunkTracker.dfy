/** Which pieces and chunks of a torrent we have, want and still have to request. */
module ChunkTrackers {
  import opened Prelude
  import opened TorrentLengths
  import opened PieceCounters

  datatype ChunkMarkingResult = PreviouslyCompleted | NotCompleted | Completed

  /** `s[lo..hi].fill(v)` when the range exists, nothing otherwise. */
  function Fill(s: seq<bool>, lo: nat, hi: nat, v: bool): (r: seq<bool>)
    ensures |r| == |s|
    ensures forall i :: 0 <= i < |s| ==> r[i] == if lo <= i < hi <= |s| then v else s[i]
  {
    if lo <= hi <= |s| then s[..lo] + seq(hi - lo, _ => v) + s[hi..] else s
  }

  predicate AllSet(s: seq<bool>, lo: nat, hi: nat)
    requires hi <= |s|
  {
    forall i :: lo <= i < hi ==> s[i]
  }

  /** `p` is a piece of some selected, non-padding file. */
  ghost predicate IsSelected(files: seq<FileInfo>, only: set<nat>, p: nat) {
    exists i :: 0 <= i < |files| && !files[i].padding && i in only && files[i].HasPiece(p)
  }

  method ComputeSelectedPieces(l: Lengths, only: set<nat>, files: seq<FileInfo>) returns (bf: seq<bool>)
    requires l.Valid()
    requires forall i :: 0 <= i < |files| ==> files[i].pieceEnd <= l.PieceBits()
    ensures |bf| == l.PieceBits()
    ensures forall p :: 0 <= p < |bf| ==> (bf[p] <==> IsSelected(files, only, p))
  {
    bf := seq(l.PieceBits(), _ => false);
    for i := 0 to |files|
      invariant |bf| == l.PieceBits()
      invariant forall p :: 0 <= p < |bf| ==> (bf[p] <==> IsSelected(files[..i], only, p))
    {
      assert files[..i + 1] == files[..i] + [files[i]];
      ghost var before := bf;
      if !files[i].padding && i in only {
        bf := Fill(bf, files[i].pieceStart, files[i].pieceEnd, true);
      }
      forall p | 0 <= p < |bf| ensures bf[p] <==> IsSelected(files[..i + 1], only, p) {
        SelectedStep(files, only, i, p);
      }
    }
    assert files[..|files|] == files;
  }

  lemma SelectedStep(files: seq<FileInfo>, only: set<nat>, i: nat, p: nat)
    requires i < |files|
    ensures IsSelected(files[..i + 1], only, p)
       <==> IsSelected(files[..i], only, p) || (!files[i].padding && i in only && files[i].HasPiece(p))
  {
    var a, b := files[..i], files[..i + 1];
    if IsSelected(a, only, p) {
      var j :| 0 <= j < |a| && !a[j].padding && j in only && a[j].HasPiece(p);
      assert b[j] == a[j];
    }
    if !files[i].padding && i in only && files[i].HasPiece(p) {
      assert b[i] == files[i];
    }
    if IsSelected(b, only, p) {
      var j :| 0 <= j < |b| && !b[j].padding && j in only && b[j].HasPiece(p);
      assert j < i ==> a[j] == b[j];
    }
  }

  /** The chunk bits of the pieces we already have. */
  method ComputeChunkHaveStatus(l: Lengths, have: seq<bool>) returns (bf: seq<bool>)
    requires l.Valid() && |have| >= l.TotalPieces()
    ensures |bf| == l.ChunkBits()
    ensures forall p :: 0 <= p < l.TotalPieces() ==> ChunksMatch(l, bf, p, have[p])
  {
    bf := seq(l.ChunkBits(), _ => false);
    for p := 0 to l.TotalPieces()
      invariant |bf| == l.ChunkBits()
      invariant forall q :: 0 <= q < p ==> ChunksMatch(l, bf, q, have[q])
      invariant forall i :: p * l.DefaultChunksPerPiece() <= i < |bf| ==> !bf[i]
    {
      ChunkRangeInside(l, p);
      var (lo, hi) := l.ChunkRange(p);
      ghost var before := bf;
      if have[p] {
        bf := Fill(bf, lo, hi, true);
      }
      forall q | 0 <= q < p ensures ChunksMatch(l, bf, q, have[q]) {
        ChunkRangesApart(l, q, p);
        assert ChunksMatch(l, before, q, have[q]);
      }
      if p + 1 < l.TotalPieces() { ChunkRangeInside(l, p + 1); }
      else { assert (p + 1) * l.DefaultChunksPerPiece() == lo + l.DefaultChunksPerPiece(); LastChunksFit(l); }
    }
  }

  /** The chunk bits of piece `p` are all `v`. */
  ghost predicate ChunksMatch(l: Lengths, bf: seq<bool>, p: nat, v: bool)
    requires l.Valid()
  {
    forall i :: l.ChunkRange(p).0 <= i < l.ChunkRange(p).1 && i < |bf| ==> bf[i] == v
  }

  lemma LastChunksFit(l: Lengths)
    requires l.Valid()
    ensures l.ChunksPerPiece(l.LastPieceId()) <= l.DefaultChunksPerPiece()
  {
    var len := LastElementSize(l.totalLength, l.pieceLength);
    DivCeilBounds(len, CHUNK_SIZE);
    DivCeilBounds(l.pieceLength, CHUNK_SIZE);
    if l.DefaultChunksPerPiece() < DivCeil(len, CHUNK_SIZE) {
      CeilAbove(len, CHUNK_SIZE, l.DefaultChunksPerPiece());
    }
  }

  /** Different pieces have different chunk bits. */
  lemma ChunkRangesApart(l: Lengths, q: nat, p: nat)
    requires l.Valid() && q < p < l.TotalPieces()
    ensures l.ChunkRange(q).1 <= l.ChunkRange(p).0
  {
    MulMonotone(q + 1, p, l.DefaultChunksPerPiece());
    assert (q + 1) * l.DefaultChunksPerPiece() == q * l.DefaultChunksPerPiece() + l.DefaultChunksPerPiece();
  }

  /** A piece is never both had and queued. */
  ghost predicate Disjoint(have: seq<bool>, queue: seq<bool>) {
    |have| == |queue| && forall p :: 0 <= p < |have| ==> !(have[p] && queue[p])
  }

  /** Each file's counter is the sum over the pieces we have. */
  ghost predicate Synced(l: Lengths, have: seq<bool>, files: seq<FileInfo>, perFile: seq<nat>) {
    && |perFile| == |files|
    && (forall i :: 0 <= i < |files| ==> files[i].pieceEnd <= |have|)
    && (forall i :: 0 <= i < |files| ==> perFile[i] == FileHaveBytes(l, have, files[i], files[i].pieceEnd))
  }

  /** Setting one bit completes a range exactly when it was the only one missing. */
  lemma LastMissing(s: seq<bool>, lo: nat, hi: nat, bit: nat)
    requires lo <= bit < hi <= |s| && !AllSet(s, lo, hi)
    ensures AllSet(s[bit := true], lo, hi) <==> !s[bit] && forall i :: lo <= i < hi && i != bit ==> s[i]
  {
    var t := s[bit := true];
    if AllSet(t, lo, hi) {
      forall i | lo <= i < hi && i != bit ensures s[i] { assert t[i]; }
    }
  }

  /** The chunk a received block is, if it is one. */
  function ChunkOf(l: Lengths, index: nat, begin: nat, size: nat): Option<ChunkInfo>
    requires l.Valid()
  {
    if l.ValidatePieceIndex(index).None? then None else l.ChunkInfoFromReceivedData(index, begin, size)
  }

  lemma ChunkOfInside(l: Lengths, index: nat, begin: nat, size: nat)
    requires l.Valid() && ChunkOf(l, index, begin, size).Some?
    ensures var c := ChunkOf(l, index, begin, size).value;
            var (lo, hi) := l.ChunkRange(index);
            c.pieceIndex == index < l.TotalPieces() && lo <= lo + c.chunkIndex < hi <= l.ChunkBits()
  {
    ChunkRangeInside(l, index);
  }

  /** The effect and the answer of noting one chunk. */
  ghost predicate MarkSpec(before: seq<bool>, after: seq<bool>, c: ChunkInfo, l: Lengths, r: ChunkMarkingResult)
    requires l.Valid()
  {
    var (lo, hi) := l.ChunkRange(c.pieceIndex);
    var bit := lo + c.chunkIndex;
    && lo <= bit < hi <= |before|
    && (r.PreviouslyCompleted? <==> AllSet(before, lo, hi))
    && after == (if r.PreviouslyCompleted? then before else before[bit := true])
    && (r.Completed? <==> !before[bit] && forall i :: lo <= i < hi && i != bit ==> before[i])
  }

  ghost function Cleared(have: seq<bool>, pieces: seq<nat>): (r: seq<bool>)
    ensures |r| == |have|
  {
    if pieces == [] then have
    else
      var p := pieces[|pieces| - 1];
      var rest := Cleared(have, pieces[..|pieces| - 1]);
      if p < |have| then rest[p := false] else rest
  }

  ghost function RequeuedList(queue: seq<bool>, selected: seq<bool>, pieces: seq<nat>): (r: seq<bool>)
    ensures |r| == |queue|
  {
    if pieces == [] then queue
    else
      var p := pieces[|pieces| - 1];
      var rest := RequeuedList(queue, selected, pieces[..|pieces| - 1]);
      if p < |queue| && p < |selected| && selected[p] then rest[p := true] else rest
  }

  /** The chunk bits with those of the listed pieces cleared. */
  ghost function ClearedChunks(l: Lengths, status: seq<bool>, pieces: seq<nat>): (r: seq<bool>)
    requires l.Valid()
    ensures |r| == |status|
  {
    if pieces == [] then status
    else
      var p := pieces[|pieces| - 1];
      Fill(ClearedChunks(l, status, pieces[..|pieces| - 1]), l.ChunkRange(p).0, l.ChunkRange(p).1, false)
  }

  /** The chunk bits of piece `p` are cleared, or as they were. */
  ghost predicate ChunksAfter(l: Lengths, before: seq<bool>, after: seq<bool>, p: nat, clear: bool)
    requires l.Valid() && |before| == |after|
  {
    forall i :: l.ChunkRange(p).0 <= i < l.ChunkRange(p).1 && i < |before| ==> after[i] == (!clear && before[i])
  }

  lemma ChunksCleared(l: Lengths, before: seq<bool>, now: seq<bool>, p: nat, q: nat, clear: bool)
    requires l.Valid() && |before| == |now| && p < l.TotalPieces() && q < l.TotalPieces()
             && ChunksAfter(l, before, now, q, clear)
    requires l.ChunkRange(p).1 <= |now|
    ensures ChunksAfter(l, before, Fill(now, l.ChunkRange(p).0, l.ChunkRange(p).1, false), q, clear || q == p)
  {
    if q < p { ChunkRangesApart(l, q, p); } else if p < q { ChunkRangesApart(l, p, q); }
  }

  /** The chunk bits of the marked pieces are cleared, the others as they were. */
  ghost predicate ChunksMarked(l: Lengths, before: seq<bool>, now: seq<bool>, clear: seq<bool>)
    requires l.Valid() && |before| == |now|
  {
    forall q :: 0 <= q < |clear| ==> ChunksAfter(l, before, now, q, clear[q])
  }

  lemma NoneCleared(l: Lengths, status: seq<bool>, clear: seq<bool>)
    requires l.Valid() && forall q :: 0 <= q < |clear| ==> !clear[q]
    ensures ChunksMarked(l, status, status, clear)
  {
  }

  lemma OneMoreCleared(l: Lengths, before: seq<bool>, now: seq<bool>, p: nat, clear: seq<bool>)
    requires l.Valid() && |before| == |now| && |clear| == l.TotalPieces() && p < l.TotalPieces()
    requires l.ChunkRange(p).1 <= |now| && ChunksMarked(l, before, now, clear)
    ensures ChunksMarked(l, before, Fill(now, l.ChunkRange(p).0, l.ChunkRange(p).1, false), clear[p := true])
  {
    var next, marks := Fill(now, l.ChunkRange(p).0, l.ChunkRange(p).1, false), clear[p := true];
    forall q | 0 <= q < |marks| ensures ChunksAfter(l, before, next, q, marks[q]) {
      ChunksCleared(l, before, now, p, q, clear[q]);
    }
  }

  lemma ClearedChunksStep(l: Lengths, status: seq<bool>, pieces: seq<nat>, i: nat)
    requires l.Valid() && i < |pieces|
    ensures ClearedChunks(l, status, pieces[..i + 1]) ==
            Fill(ClearedChunks(l, status, pieces[..i]), l.ChunkRange(pieces[i]).0, l.ChunkRange(pieces[i]).1, false)
  {
    assert pieces[..i + 1][..i] == pieces[..i];
  }

  lemma {:induction false} ClearedAt(have: seq<bool>, pieces: seq<nat>, p: nat)
    ensures p < |have| ==> (Cleared(have, pieces)[p] <==> have[p] && p !in pieces)
  {
    if pieces != [] {
      assert pieces == pieces[..|pieces| - 1] + [pieces[|pieces| - 1]];
      ClearedAt(have, pieces[..|pieces| - 1], p);
    }
  }

  lemma {:induction false} RequeuedListAt(queue: seq<bool>, selected: seq<bool>, pieces: seq<nat>, p: nat)
    requires |queue| == |selected|
    ensures p < |queue| ==> (RequeuedList(queue, selected, pieces)[p] <==> queue[p] || (p in pieces && selected[p]))
  {
    if pieces != [] {
      assert pieces == pieces[..|pieces| - 1] + [pieces[|pieces| - 1]];
      RequeuedListAt(queue, selected, pieces[..|pieces| - 1], p);
    }
  }

  /** The listed pieces we had. */
  ghost function HadAmong(have: seq<bool>, pieces: seq<nat>): set<nat> {
    set p | p in pieces && p < |have| && have[p]
  }

  lemma HadAmongStep(have: seq<bool>, pieces: seq<nat>, i: nat)
    requires i < |pieces|
    ensures |HadAmong(have, pieces[..i + 1])| == |HadAmong(have, pieces[..i])|
            + (if pieces[i] < |have| && have[pieces[i]] && pieces[i] !in pieces[..i] then 1 else 0)
  {
    assert pieces[..i + 1] == pieces[..i] + [pieces[i]];
    var a, b := HadAmong(have, pieces[..i]), HadAmong(have, pieces[..i + 1]);
    if pieces[i] < |have| && have[pieces[i]] {
      assert b == a + {pieces[i]};
    } else {
      assert b == a;
    }
  }

  class ChunkTracker {
    const lengths: Lengths
    var queuePieces: seq<bool>
    var chunkStatus: seq<bool>
    var have: seq<bool>
    var selected: seq<bool>
    var perFileBytes: seq<nat>
    var hns: HaveNeededSelected

    /** Everything but the cached totals. */
    ghost predicate Shape()
      reads this
    {
      && lengths.Valid()
      && |queuePieces| == |have| == |selected| == lengths.PieceBits()
      && |chunkStatus| == lengths.ChunkBits()
      && lengths.TotalPieces() <= lengths.PieceBits()
      && Disjoint(have, queuePieces)
    }

    /** The cached totals are in sync with the bitfields. */
    ghost predicate Valid()
      reads this
    {
      Shape() && hns == CalcHns(lengths, have, selected, lengths.TotalPieces())
    }

    constructor (lengths: Lengths, have: seq<bool>, selected: seq<bool>, chunkStatus: seq<bool>, queue: seq<bool>,
                 perFile: seq<nat>)
      ensures this.lengths == lengths && this.have == have && this.selected == selected
      ensures this.chunkStatus == chunkStatus && this.queuePieces == queue && this.perFileBytes == perFile
    {
      this.lengths := lengths;
      this.have := have;
      this.selected := selected;
      this.chunkStatus := chunkStatus;
      this.queuePieces := queue;
      this.perFileBytes := perFile;
      this.hns := HaveNeededSelected(0, 0, 0);
    }

    /** `ChunkTracker::new`. The selection always has one bit per piece, padded to bytes. */
    static method Create(lengths: Lengths, have: seq<bool>, selected: seq<bool>, files: seq<FileInfo>)
      returns (r: Result<ChunkTracker, string>)
      requires lengths.Valid() && |selected| == lengths.PieceBits()
      requires forall i :: 0 <= i < |files| ==> files[i].pieceEnd <= lengths.PieceBits()
      ensures r.Ok? <==> |have| == |selected|
      ensures r.Ok? ==> fresh(r.value) && r.value.Valid()
      ensures r.Ok? ==> r.value.lengths == lengths && r.value.have == have && r.value.selected == selected
      ensures r.Ok? ==> forall p :: 0 <= p < |have| ==> (r.value.queuePieces[p] <==> selected[p] && !have[p])
      ensures r.Ok? ==> Synced(lengths, have, files, r.value.perFileBytes)
    {
      PieceBitsEnough(lengths);
      if |have| != |selected| {
        return Err("have_pieces.len() != selected_pieces.len()");
      }
      var queue := seq(|have|, p requires 0 <= p < |have| => selected[p] && !have[p]);
      var status := ComputeChunkHaveStatus(lengths, have);
      var ct := new ChunkTracker(lengths, have, selected, status, queue, seq(|files|, _ => 0));
      ct.RecalculatePerFileBytes(files);
      ct.RefreshHns();
      return Ok(ct);
    }

    /** Recomputes every file's bytes from the pieces we have. */
    method RecalculatePerFileBytes(files: seq<FileInfo>)
      requires forall i :: 0 <= i < |files| ==> files[i].pieceEnd <= |have|
      modifies this`perFileBytes
      ensures |perFileBytes| == old(|perFileBytes|)
      ensures forall i :: 0 <= i < |files| && i < |perFileBytes| ==>
                perFileBytes[i] == FileHaveBytes(lengths, have, files[i], files[i].pieceEnd)
    {
      for i := 0 to Min(|perFileBytes|, |files|)
        invariant |perFileBytes| == old(|perFileBytes|)
        invariant forall j :: 0 <= j < i ==>
                    perFileBytes[j] == FileHaveBytes(lengths, have, files[j], files[j].pieceEnd)
      {
        var f := files[i];
        var sum := 0;
        var p := f.pieceStart;
        while p < f.pieceEnd
          invariant f.pieceStart <= p && (p <= f.pieceEnd || p == f.pieceStart)
          invariant p <= f.pieceEnd ==> sum == FileHaveBytes(lengths, have, f, p)
          invariant p > f.pieceEnd ==> sum == 0
        {
          sum := sum + Count(have[p], lengths.SizeOfPieceInFile(p, f.offset, f.len));
          p := p + 1;
        }
        perFileBytes := perFileBytes[i := sum];
      }
    }

    /** `self.hns = self.calc_hns()`. */
    method RefreshHns()
      requires Shape()
      modifies this`hns
      ensures Valid()
    {
      var h := HaveNeededSelected(0, 0, 0);
      for p := 0 to lengths.TotalPieces()
        invariant h == CalcHns(lengths, have, selected, p)
      {
        var len := lengths.PieceLen(p);
        h := HaveNeededSelected(
          h.haveBytes + Count(have[p], len),
          h.neededBytes + Count(selected[p] && !have[p], len),
          h.selectedBytes + Count(selected[p], len));
      }
      hns := h;
    }

    method ReserveNeededPiece(p: nat)
      requires Valid() && p < lengths.TotalPieces()
      modifies this`queuePieces
      ensures Valid() && queuePieces == old(queuePieces)[p := false]
    {
      queuePieces := queuePieces[p := false];
    }

    /** Forgets the piece's chunks and queues it, unless we have it. */
    method MarkPieceBrokenIfNotHave(p: nat)
      requires Shape() && p < lengths.TotalPieces()
      modifies this`queuePieces, this`chunkStatus
      ensures Shape()
      ensures queuePieces == if have[p] then old(queuePieces) else old(queuePieces)[p := true]
      ensures chunkStatus == if have[p] then old(chunkStatus)
                             else Fill(old(chunkStatus), lengths.ChunkRange(p).0, lengths.ChunkRange(p).1, false)
    {
      if have[p] { return; }
      queuePieces := queuePieces[p := true];
      chunkStatus := Fill(chunkStatus, lengths.ChunkRange(p).0, lengths.ChunkRange(p).1, false);
    }

    /** Forgets the piece's chunks but holds it back from the queue. */
    method MarkPieceDeferred(p: nat)
      requires Valid() && p < lengths.TotalPieces()
      modifies this`queuePieces, this`chunkStatus
      ensures Valid()
      ensures queuePieces == if have[p] then old(queuePieces) else old(queuePieces)[p := false]
      ensures chunkStatus == if have[p] then old(chunkStatus)
                             else Fill(old(chunkStatus), lengths.ChunkRange(p).0, lengths.ChunkRange(p).1, false)
    {
      if have[p] { return; }
      queuePieces := queuePieces[p := false];
      chunkStatus := Fill(chunkStatus, lengths.ChunkRange(p).0, lengths.ChunkRange(p).1, false);
    }

    /** A verified piece: had, and no longer queued whatever queued it meanwhile. */
    method MarkPieceDownloaded(p: nat)
      requires Valid() && p < lengths.TotalPieces()
      modifies this`queuePieces, this`have, this`hns
      ensures Valid()
      ensures have == old(have)[p := true] && queuePieces == old(queuePieces)[p := false]
    {
      queuePieces := queuePieces[p := false];
      if !have[p] {
        HnsGain(lengths, have, selected, p, lengths.TotalPieces());
        have := have[p := true];
        var len := lengths.PieceLen(p);
        hns := hns.(haveBytes := hns.haveBytes + len);
        if selected[p] {
          hns := hns.(neededBytes := hns.neededBytes - len);
        }
      }
    }

    /** One round of `mark_pieces_missing`. */
    method ForgetPiece(p: nat) returns (had: bool)
      requires Shape() && p < lengths.TotalPieces()
      modifies this`have, this`chunkStatus, this`queuePieces
      ensures Shape() && had == old(have)[p]
      ensures have == old(have)[p := false]
      ensures queuePieces == if selected[p] then old(queuePieces)[p := true] else old(queuePieces)
      ensures chunkStatus == Fill(old(chunkStatus), lengths.ChunkRange(p).0, lengths.ChunkRange(p).1, false)
    {
      had := have[p];
      if had {
        have := have[p := false];
      }
      chunkStatus := Fill(chunkStatus, lengths.ChunkRange(p).0, lengths.ChunkRange(p).1, false);
      if selected[p] {
        queuePieces := queuePieces[p := true];
      }
    }

    method ForgetPieces(pieces: seq<nat>) returns (invalidated: nat)
      requires Shape()
      requires forall i :: 0 <= i < |pieces| ==> pieces[i] < lengths.TotalPieces()
      modifies this`have, this`chunkStatus, this`queuePieces
      ensures Shape()
      ensures have == Cleared(old(have), pieces)
      ensures queuePieces == RequeuedList(old(queuePieces), selected, pieces)
      ensures chunkStatus == ClearedChunks(lengths, old(chunkStatus), pieces)
      ensures invalidated == |HadAmong(old(have), pieces)|
    {
      invalidated := 0;
      for i := 0 to |pieces|
        invariant Shape()
        invariant have == Cleared(old(have), pieces[..i])
        invariant queuePieces == RequeuedList(old(queuePieces), selected, pieces[..i])
        invariant chunkStatus == ClearedChunks(lengths, old(chunkStatus), pieces[..i])
        invariant invalidated == |HadAmong(old(have), pieces[..i])|
      {
        assert pieces[..i + 1][..i] == pieces[..i];
        ClearedChunksStep(lengths, old(chunkStatus), pieces, i);
        HadAmongStep(old(have), pieces, i);
        ClearedAt(old(have), pieces[..i], pieces[i]);
        var had := ForgetPiece(pieces[i]);
        invalidated := invalidated + (if had then 1 else 0);
      }
      assert pieces[..|pieces|] == pieces;
    }

    /** Forgets pieces whose data went away; the selected ones are queued again. */
    method MarkPiecesMissing(pieces: seq<nat>, files: seq<FileInfo>) returns (invalidated: nat)
      requires Valid() && |perFileBytes| == |files|
      requires forall i :: 0 <= i < |pieces| ==> pieces[i] < lengths.TotalPieces()
      requires forall i :: 0 <= i < |files| ==> files[i].pieceEnd <= |have|
      modifies this
      ensures Valid() && selected == old(selected) && Synced(lengths, have, files, perFileBytes)
      ensures have == Cleared(old(have), pieces)
      ensures queuePieces == RequeuedList(old(queuePieces), selected, pieces)
      ensures chunkStatus == ClearedChunks(lengths, old(chunkStatus), pieces)
      ensures invalidated == |HadAmong(old(have), pieces)|
    {
      invalidated := ForgetPieces(pieces);
      RecalculatePerFileBytes(files);
      RefreshHns();
    }

    /** Notes a received chunk. The piece is reported complete exactly when this was its last
        missing chunk; None when the data cannot be a chunk of this torrent. */
    method MarkChunkDownloaded(index: nat, begin: nat, size: nat) returns (r: Option<ChunkMarkingResult>)
      requires Valid()
      modifies this`chunkStatus
      ensures Valid()
      ensures r.None? <==> ChunkOf(lengths, index, begin, size).None?
      ensures r.None? ==> chunkStatus == old(chunkStatus)
      ensures r.Some? ==>
              MarkSpec(old(chunkStatus), chunkStatus, ChunkOf(lengths, index, begin, size).value, lengths, r.value)
    {
      var info := ChunkOf(lengths, index, begin, size);
      if info.None? { return None; }
      ChunkOfInside(lengths, index, begin, size);
      var (lo, hi) := lengths.ChunkRange(index);
      if AllSet(chunkStatus, lo, hi) {
        return Some(PreviouslyCompleted);
      }
      LastMissing(chunkStatus, lo, hi, lo + info.value.chunkIndex);
      chunkStatus := chunkStatus[lo + info.value.chunkIndex := true];
      return if AllSet(chunkStatus, lo, hi) then Some(Completed) else Some(NotCompleted);
    }

    /** Changes which files are wanted. Newly wanted pieces we lack are queued, pieces no
        longer wanted leave the queue, everything else stays queued or not as it was. */
    method UpdateOnlyFiles(files: seq<FileInfo>, only: set<nat>)
      requires Valid()
      requires forall i :: 0 <= i < |files| ==> files[i].pieceEnd <= lengths.TotalPieces()
      modifies this`selected, this`queuePieces, this`chunkStatus, this`hns
      ensures Valid() && have == old(have)
      ensures forall p :: 0 <= p < |selected| ==> (selected[p] <==> IsSelected(files, only, p))
      ensures forall p :: 0 <= p < |queuePieces| ==>
                (queuePieces[p] <==> selected[p] && (old(queuePieces)[p] || (!old(selected)[p] && !have[p])))
      ensures |chunkStatus| == |old(chunkStatus)| && forall p :: 0 <= p < lengths.TotalPieces() ==>
                ChunksAfter(lengths, old(chunkStatus), chunkStatus, p, selected[p] && !old(selected)[p] && !have[p])
    {
      PieceBitsEnough(lengths);
      var newSelected := ComputeSelectedPieces(lengths, only, files);
      var prev := selected;
      selected := newSelected;
      ghost var newly := QueueNewlyWanted(prev);
      assert forall q :: lengths.TotalPieces() <= q < |selected| ==> !selected[q];
      var queue := queuePieces;
      queuePieces := seq(|queue|, p requires 0 <= p < |queue| == |have| == |selected| reads this =>
        queue[p] && (selected[p] || have[p]));
      RefreshHns();
    }

    /** Pieces that are wanted now, were not before, and that we lack, are queued without their chunks. */
    method QueueNewlyWanted(prev: seq<bool>) returns (ghost newly: seq<bool>)
      requires Shape() && |prev| == |selected|
      modifies this`queuePieces, this`chunkStatus
      ensures Shape() && |newly| == lengths.TotalPieces()
      ensures forall q :: 0 <= q < |newly| ==> newly[q] == (selected[q] && !prev[q] && !have[q])
      ensures forall q :: 0 <= q < |queuePieces| ==>
              (queuePieces[q] <==> old(queuePieces)[q] || (q < |newly| && newly[q]))
      ensures |chunkStatus| == |old(chunkStatus)| && ChunksMarked(lengths, old(chunkStatus), chunkStatus, newly)
    {
      newly := seq(lengths.TotalPieces(), _ => false);
      NoneCleared(lengths, chunkStatus, newly);
      for p := 0 to lengths.TotalPieces()
        invariant Shape() && |newly| == lengths.TotalPieces()
        invariant forall q :: 0 <= q < |newly| ==> newly[q] == (q < p && selected[q] && !prev[q] && !have[q])
        invariant forall q :: 0 <= q < |queuePieces| ==>
                  (queuePieces[q] <==> old(queuePieces)[q] || (q < |newly| && newly[q]))
        invariant |chunkStatus| == |old(chunkStatus)| && ChunksMarked(lengths, old(chunkStatus), chunkStatus, newly)
      {
        if selected[p] && !prev[p] && !have[p] {
          ChunkRangeInside(lengths, p);
          OneMoreCleared(lengths, old(chunkStatus), chunkStatus, p, newly);
          MarkPieceBrokenIfNotHave(p);
          newly := newly[p := true];
        }
      }
    }

    predicate IsFileFinished(f: FileInfo)
      reads this
    {
      if f.pieceStart <= f.pieceEnd <= |have| then AllHave(have, f.pieceStart, f.pieceEnd) else true
    }

    /** Adds the piece's share of the file; returns the bytes still missing. */
    method UpdateFileHaveOnPieceCompleted(p: nat, fileId: nat, f: FileInfo) returns (remaining: nat)
      requires fileId < |perFileBytes|
      modifies this`perFileBytes
      ensures perFileBytes == old(perFileBytes)[fileId :=
                old(perFileBytes)[fileId] + lengths.SizeOfPieceInFile(p, f.offset, f.len)]
      ensures remaining == SaturatingSub(f.len, perFileBytes[fileId])
    {
      var diff := lengths.SizeOfPieceInFile(p, f.offset, f.len);
      perFileBytes := perFileBytes[fileId := perFileBytes[fileId] + diff];
      remaining := SaturatingSub(f.len, perFileBytes[fileId]);
    }
  }

  /** What the cached totals are good for, in every reachable state. */
  lemma CountersMeaning(t: ChunkTracker)
    requires t.Valid()
    ensures t.hns.neededBytes <= t.hns.selectedBytes
    ensures t.hns.Finished() <==> forall p :: 0 <= p < t.lengths.TotalPieces() && t.selected[p] ==> t.have[p]
  {
    HnsMeaning(t.lengths, t.have, t.selected, t.lengths.TotalPieces());
  }

  /** With counters in sync, a file's counter equals its length exactly when it is finished. */
  lemma FileFinishedMeaning(t: ChunkTracker, files: seq<FileInfo>, i: nat)
    requires t.Shape() && LayoutOk(t.lengths, files) && Synced(t.lengths, t.have, files, t.perFileBytes)
    requires i < |files|
    ensures t.perFileBytes[i] <= files[i].len
    ensures t.perFileBytes[i] == files[i].len <==> t.IsFileFinished(files[i])
  {
    assert FileOk(t.lengths, files[i]);
    InRangeIsOverlap(t.lengths, files[i], 0);
    FileCompleteIffAllPieces(t.lengths, t.have, files[i]);
  }
}
