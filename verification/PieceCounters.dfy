/** The byte counters a torrent's bitfields stand for. */
module PieceCounters {
  import opened Prelude
  import opened TorrentLengths

  datatype HaveNeededSelected = HaveNeededSelected(haveBytes: nat, neededBytes: nat, selectedBytes: nat)
  {
    /** Unsigned subtraction: the code panics (or wraps) unless needed <= selected. */
    function Progress(): nat
      requires neededBytes <= selectedBytes
    {
      selectedBytes - neededBytes
    }

    predicate Finished() {
      neededBytes == 0
    }
  }

  function Count(b: bool, n: nat): nat {
    if b then n else 0
  }

  /** What `calc_hns` sums over the first `k` pieces. */
  function CalcHns(l: Lengths, have: seq<bool>, selected: seq<bool>, k: nat): HaveNeededSelected
    requires l.Valid() && k <= |have| && k <= |selected|
  {
    if k == 0 then HaveNeededSelected(0, 0, 0)
    else
      var r := CalcHns(l, have, selected, k - 1);
      var p, len := k - 1, l.PieceLen(k - 1);
      HaveNeededSelected(
        r.haveBytes + Count(have[p], len),
        r.neededBytes + Count(selected[p] && !have[p], len),
        r.selectedBytes + Count(selected[p], len))
  }

  /** Needed bytes are selected bytes, and none are needed exactly when every selected piece is had. */
  lemma {:induction false} HnsMeaning(l: Lengths, have: seq<bool>, selected: seq<bool>, k: nat)
    requires l.Valid() && k <= |have| && k <= |selected| && k <= l.TotalPieces()
    ensures var h := CalcHns(l, have, selected, k);
            && h.neededBytes <= h.selectedBytes
            && (h.Finished() <==> forall p :: 0 <= p < k && selected[p] ==> have[p])
  {
    if k > 0 {
      HnsMeaning(l, have, selected, k - 1);
      PieceInterval(l, k - 1);
    }
  }

  /** Gaining piece `p` moves its length from needed to had. */
  lemma {:induction false} HnsGain(l: Lengths, have: seq<bool>, selected: seq<bool>, p: nat, k: nat)
    requires l.Valid() && k <= |have| && k <= |selected| && p < |have| && !have[p]
    ensures var h, g := CalcHns(l, have, selected, k), CalcHns(l, have[p := true], selected, k);
            && g.haveBytes == h.haveBytes + Count(p < k, l.PieceLen(p))
            && h.neededBytes == g.neededBytes + (if p < k then Count(selected[p], l.PieceLen(p)) else 0)
            && g.selectedBytes == h.selectedBytes
  {
    if k > 0 { HnsGain(l, have, selected, p, k - 1); }
  }

  // ------------------------------------------------------------- per-file bytes

  /** Bytes of file `f` in the pieces `[f.pieceStart, k)` we have. */
  function FileHaveBytes(l: Lengths, have: seq<bool>, f: FileInfo, k: nat): nat
    requires k <= |have|
  {
    if k <= f.pieceStart then 0
    else FileHaveBytes(l, have, f, k - 1) + Count(have[k - 1], l.SizeOfPieceInFile(k - 1, f.offset, f.len))
  }

  lemma {:induction false} FileBytesGain(l: Lengths, have: seq<bool>, f: FileInfo, p: nat, k: nat)
    requires k <= |have| && p < |have| && !have[p]
    ensures FileHaveBytes(l, have[p := true], f, k) == FileHaveBytes(l, have, f, k)
            + Count(f.pieceStart <= p < k, l.SizeOfPieceInFile(p, f.offset, f.len))
  {
    if k > f.pieceStart { FileBytesGain(l, have, f, p, k - 1); }
  }

  predicate AllHave(have: seq<bool>, lo: nat, hi: nat)
    requires hi <= |have|
  {
    forall p :: lo <= p < hi ==> have[p]
  }

  lemma {:induction false} FileBytesMeaning(l: Lengths, have: seq<bool>, f: FileInfo, k: nat)
    requires FileOk(l, f) && f.pieceStart <= k <= f.pieceEnd && k <= |have|
    ensures FileHaveBytes(l, have, f, k) <= BytesBefore(l, f, k)
    ensures FileHaveBytes(l, have, f, k) == BytesBefore(l, f, k) <==> AllHave(have, f.pieceStart, k)
  {
    if k == f.pieceStart {
      BytesBeforeEnds(l, f);
    } else {
      FileBytesMeaning(l, have, f, k - 1);
      BytesBeforeStep(l, f, k - 1);
      InRangeIsOverlap(l, f, k - 1);
      assert AllHave(have, f.pieceStart, k) <==> AllHave(have, f.pieceStart, k - 1) && have[k - 1];
    }
  }

  /** A file's counter reaches its length exactly when all its pieces are there. */
  lemma FileCompleteIffAllPieces(l: Lengths, have: seq<bool>, f: FileInfo)
    requires FileOk(l, f) && f.pieceEnd <= |have|
    ensures FileHaveBytes(l, have, f, f.pieceEnd) <= f.len
    ensures FileHaveBytes(l, have, f, f.pieceEnd) == f.len <==> AllHave(have, f.pieceStart, f.pieceEnd)
  {
    InRangeIsOverlap(l, f, f.pieceStart);
    FileBytesMeaning(l, have, f, f.pieceEnd);
    BytesBeforeEnds(l, f);
  }
}
