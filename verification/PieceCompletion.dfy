/** Per-file byte counters when a piece completes, and when that bookkeeping is right. */
module PieceCompletion {
  import opened Prelude
  import opened TorrentLengths
  import opened PieceCounters
  import opened ChunkTrackers
  import opened PieceTrackers

  /** File `i` is in the first unbroken run of files that contain piece `p`. */
  ghost predicate Touched(files: seq<FileInfo>, p: nat, i: int) {
    && 0 <= i < |files|
    && exists a :: 0 <= a <= i && FirstRun(files, p, a, i)
  }

  ghost predicate FirstRun(files: seq<FileInfo>, p: nat, a: int, i: int)
    requires 0 <= a <= i < |files|
  {
    && (forall j :: 0 <= j < a ==> !files[j].HasPiece(p))
    && (forall j :: a <= j <= i ==> files[j].HasPiece(p))
  }

  /** What completing piece `p` does to the counters: every touched file gains its share. */
  ghost predicate CountersAdvanced(l: Lengths, files: seq<FileInfo>, p: nat, before: seq<nat>, after: seq<nat>) {
    && |before| == |after| == |files|
    && forall i :: 0 <= i < |files| ==>
         after[i] == before[i] + Count(Touched(files, p, i), l.SizeOfPieceInFile(p, files[i].offset, files[i].len))
  }

  /** The `skip_while` and `take_while` walk over the files. */
  method OnPieceCompleted(t: ChunkTracker, p: nat, files: seq<FileInfo>) returns (finished: seq<nat>)
    requires |t.perFileBytes| == |files|
    modifies t`perFileBytes
    ensures CountersAdvanced(t.lengths, files, p, old(t.perFileBytes), t.perFileBytes)
    ensures forall i :: i in finished <==>
              Touched(files, p, i) && !files[i].padding && t.perFileBytes[i] >= files[i].len
  {
    finished := [];
    var a := 0;
    while a < |files| && !files[a].HasPiece(p)
      invariant 0 <= a <= |files|
      invariant forall j :: 0 <= j < a ==> !files[j].HasPiece(p)
    {
      a := a + 1;
    }
    var i := a;
    while i < |files| && files[i].HasPiece(p)
      invariant a <= i <= |files| == |t.perFileBytes|
      invariant forall j :: a <= j < i ==> files[j].HasPiece(p)
      invariant forall j :: 0 <= j < |files| ==>
                  t.perFileBytes[j] == old(t.perFileBytes)[j] + Count(a <= j < i,
                    t.lengths.SizeOfPieceInFile(p, files[j].offset, files[j].len))
      invariant forall j :: j in finished <==> a <= j < i && !files[j].padding && t.perFileBytes[j] >= files[j].len
    {
      var remaining := t.UpdateFileHaveOnPieceCompleted(p, i, files[i]);
      if remaining == 0 && !files[i].padding {
        finished := finished + [i];
      }
      i := i + 1;
    }
    forall j | 0 <= j < |files| ensures Touched(files, p, j) <==> a <= j < i {
      RunIsUnique(files, p, a, i, j);
    }
  }

  lemma RunIsUnique(files: seq<FileInfo>, p: nat, a: nat, b: nat, j: nat)
    requires a <= b <= |files| && j < |files|
    requires forall k :: 0 <= k < a ==> !files[k].HasPiece(p)
    requires forall k :: a <= k < b ==> files[k].HasPiece(p)
    requires a < |files| ==> files[a].HasPiece(p)
    requires b < |files| ==> !files[b].HasPiece(p)
    ensures Touched(files, p, j) <==> a <= j < b
  {
    if a <= j < b { assert FirstRun(files, p, a, j); }
    if Touched(files, p, j) {
      var c :| 0 <= c <= j && FirstRun(files, p, c, j);
      assert files[c].HasPiece(p);
      assert c == a;
    }
  }

  /** An empty file sits between two files that share piece `p`. */
  ghost predicate EmptyFileBetween(files: seq<FileInfo>, p: nat) {
    exists i, j, k :: 0 <= i < j < k < |files| && files[i].HasPiece(p) && files[j].len == 0 && files[k].HasPiece(p)
  }

  /** Between two files of a piece, a file without the piece is empty. */
  lemma GapIsEmptyFile(l: Lengths, files: seq<FileInfo>, p: nat, i: nat, j: nat, k: nat)
    requires LayoutOk(l, files) && i < j < k < |files|
    requires files[i].HasPiece(p) && files[k].HasPiece(p)
    ensures !files[j].HasPiece(p) <==> files[j].len == 0
  {
    assert FileOk(l, files[i]) && FileOk(l, files[j]) && FileOk(l, files[k]);
    InRangeIsOverlap(l, files[i], p);
    InRangeIsOverlap(l, files[j], p);
    InRangeIsOverlap(l, files[k], p);
  }

  lemma NotTouchedPastGap(files: seq<FileInfo>, p: nat, i: nat, j: nat, k: nat)
    requires i < j < k < |files| && files[i].HasPiece(p) && !files[j].HasPiece(p)
    ensures !Touched(files, p, k)
  {
  }

  lemma FirstFileOf(files: seq<FileInfo>, p: nat, k: nat) returns (a: nat)
    requires k < |files| && files[k].HasPiece(p)
    ensures a <= k && files[a].HasPiece(p) && forall j :: 0 <= j < a ==> !files[j].HasPiece(p)
  {
    a := 0;
    while !files[a].HasPiece(p)
      invariant a <= k && forall j :: 0 <= j < a ==> !files[j].HasPiece(p)
      decreases k - a
    {
      a := a + 1;
    }
  }

  /** Every file of the piece is reached exactly when no empty file breaks the run. */
  lemma AllTouchedIffNoGap(l: Lengths, files: seq<FileInfo>, p: nat)
    requires LayoutOk(l, files)
    ensures (forall i :: 0 <= i < |files| && files[i].HasPiece(p) ==> Touched(files, p, i)) <==>
            !EmptyFileBetween(files, p)
  {
    if EmptyFileBetween(files, p) {
      var i, j, k :| 0 <= i < j < k < |files| && files[i].HasPiece(p) && files[j].len == 0 && files[k].HasPiece(p);
      GapIsEmptyFile(l, files, p, i, j, k);
      NotTouchedPastGap(files, p, i, j, k);
    } else {
      forall k | 0 <= k < |files| && files[k].HasPiece(p) ensures Touched(files, p, k) {
        var a := FirstFileOf(files, p, k);
        forall j | a <= j <= k ensures files[j].HasPiece(p) {
          if a < j < k { GapIsEmptyFile(l, files, p, a, j, k); }
        }
        assert FirstRun(files, p, a, k);
      }
    }
  }

  /** Counting piece `p` is right: it is new and no empty file sits between two files that share it,
      or it was had before and is in no file at all. */
  ghost predicate CountsRight(files: seq<FileInfo>, p: nat, had: bool) {
    if had then forall i :: 0 <= i < |files| ==> !files[i].HasPiece(p) else !EmptyFileBetween(files, p)
  }

  lemma TouchedHasPiece(files: seq<FileInfo>, p: nat, i: nat)
    requires Touched(files, p, i)
    ensures files[i].HasPiece(p)
  {
    var a :| 0 <= a <= i && FirstRun(files, p, a, i);
  }

  lemma NotTouched(files: seq<FileInfo>, p: nat, i: nat)
    requires i < |files| && !files[i].HasPiece(p)
    ensures !Touched(files, p, i)
  {
  }

  /** The counters stay in sync when a piece completes if and only if counting it is right. */
  lemma SyncedAfterCompletion(l: Lengths, have: seq<bool>, files: seq<FileInfo>, p: nat, before: seq<nat>,
                              after: seq<nat>)
    requires LayoutOk(l, files) && Synced(l, have, files, before) && p < |have|
             && CountersAdvanced(l, files, p, before, after)
    ensures Synced(l, have[p := true], files, after) <==> CountsRight(files, p, have[p])
  {
    if have[p] {
      CountedTwice(l, have, files, p, before, after);
    } else {
      AllTouchedIffNoGap(l, files, p);
      forall i | 0 <= i < |files|
        ensures after[i] == FileHaveBytes(l, have[p := true], files[i], files[i].pieceEnd)
                <==> (files[i].HasPiece(p) ==> Touched(files, p, i))
      {
        FileBytesGain(l, have, files[i], p, files[i].pieceEnd);
        assert FileOk(l, files[i]);
        InRangeIsOverlap(l, files[i], p);
        if Touched(files, p, i) { TouchedHasPiece(files, p, i); }
      }
    }
  }

  lemma CountedTwice(l: Lengths, have: seq<bool>, files: seq<FileInfo>, p: nat, before: seq<nat>, after: seq<nat>)
    requires LayoutOk(l, files) && Synced(l, have, files, before) && p < |have| && have[p]
    requires CountersAdvanced(l, files, p, before, after)
    ensures Synced(l, have[p := true], files, after) <==> forall i :: 0 <= i < |files| ==> !files[i].HasPiece(p)
  {
    assert have[p := true] == have;
    if k :| 0 <= k < |files| && files[k].HasPiece(p) {
      var a := FirstFileOf(files, p, k);
      assert FirstRun(files, p, a, a);
      assert FileOk(l, files[a]);
      InRangeIsOverlap(l, files[a], p);
      assert after[a] > FileHaveBytes(l, have, files[a], files[a].pieceEnd);
    } else {
      forall i | 0 <= i < |files| ensures after[i] == before[i] {
        NotTouched(files, p, i);
      }
    }
  }

  /** No counter gets ahead when a new piece completes, empty files or not. */
  lemma NotAheadAfterCompletion(l: Lengths, have: seq<bool>, files: seq<FileInfo>, p: nat, before: seq<nat>,
                                after: seq<nat>)
    requires LayoutOk(l, files) && NotAhead(l, have, files, before) && p < |have| && !have[p]
    requires CountersAdvanced(l, files, p, before, after)
    ensures NotAhead(l, have[p := true], files, after)
  {
    forall i | 0 <= i < |files|
      ensures files[i].pieceEnd <= |have| && after[i] <= FileHaveBytes(l, have[p := true], files[i], files[i].pieceEnd)
    {
      FileBytesGain(l, have, files[i], p, files[i].pieceEnd);
      if Touched(files, p, i) { TouchedHasPiece(files, p, i); }
    }
  }

  /** Two ten-byte files around an empty one, all in one piece. */
  ghost predicate IsExample(l: Lengths, files: seq<FileInfo>) {
    && l == Lengths(20, 20)
    && |files| == 3
    && files[0] == FileInfo(["a"], 0, 10, 0, 1, false)
    && files[1] == FileInfo(["b"], 10, 0, 0, 0, false)
    && files[2] == FileInfo(["c"], 10, 10, 0, 1, false)
  }

  lemma ExampleIsLaidOut(l: Lengths, files: seq<FileInfo>)
    requires IsExample(l, files)
    ensures LayoutOk(l, files) && EmptyFileBetween(files, 0)
  {
    assert FileOk(l, files[0]) && FileOk(l, files[1]) && FileOk(l, files[2]);
    assert files[0].HasPiece(0) && files[1].len == 0 && files[2].HasPiece(0);
  }

  /** A torrent where it goes wrong: whatever the counters were, once the only piece is there
      they cannot be in sync, because the walk stops at the empty file. */
  lemma EmptyFileStopsTheWalk(l: Lengths, files: seq<FileInfo>, before: seq<nat>, after: seq<nat>)
    requires IsExample(l, files)
    requires Synced(l, [false], files, before) && CountersAdvanced(l, files, 0, before, after)
    ensures !Synced(l, [true], files, after)
  {
    ExampleIsLaidOut(l, files);
    SyncedAfterCompletion(l, [false], files, 0, before, after);
    assert [false][0 := true] == [true];
  }

  /** A verified piece: marked as had, then counted for its files. */
  method CompletePiece(t: PieceTracker, p: nat, files: seq<FileInfo>) returns (finished: seq<nat>)
    requires t.Valid() && p < t.chunks.lengths.TotalPieces()
    requires LayoutOk(t.chunks.lengths, files) && |t.chunks.perFileBytes| == |files|
    modifies t`checking, t`deferred, t`lost, t.chunks`queuePieces, t.chunks`have, t.chunks`hns, t.chunks`perFileBytes
    ensures t.Valid() && t.chunks.have == old(t.chunks.have)[p := true]
    ensures CountersAdvanced(t.chunks.lengths, files, p, old(t.chunks.perFileBytes), t.chunks.perFileBytes)
    ensures old(Synced(t.chunks.lengths, t.chunks.have, files, t.chunks.perFileBytes)) ==>
              (Synced(t.chunks.lengths, t.chunks.have, files, t.chunks.perFileBytes) <==>
                CountsRight(files, p, old(t.chunks.have)[p]))
    ensures old(NotAhead(t.chunks.lengths, t.chunks.have, files, t.chunks.perFileBytes)) && !old(t.chunks.have)[p] ==>
              NotAhead(t.chunks.lengths, t.chunks.have, files, t.chunks.perFileBytes)
  {
    ghost var have, before := t.chunks.have, t.chunks.perFileBytes;
    t.MarkPieceHashOk(p);
    finished := OnPieceCompleted(t.chunks, p, files);
    if Synced(t.chunks.lengths, have, files, before) {
      SyncedAfterCompletion(t.chunks.lengths, have, files, p, before, t.chunks.perFileBytes);
    }
    if NotAhead(t.chunks.lengths, have, files, before) && !have[p] {
      NotAheadAfterCompletion(t.chunks.lengths, have, files, p, before, t.chunks.perFileBytes);
    }
  }
}
