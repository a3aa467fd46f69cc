/** Hash checks: one piece at a time, and all pieces in a single pass over the files. */
module PieceChecks {
  import opened Prelude
  import opened TorrentLengths
  import opened FlatFiles
  import opened FileOperations

  const READ_BUFFER: nat := 65536

  /** No read within the first `end` bytes of file `i` fails, and they are all there. */
  ghost predicate FileSound(files: seq<FileInfo>, disk: seq<seq<Byte>>, fails: (nat, nat, nat) -> bool, i: nat,
                            end: nat)
    requires i < |files| == |disk|
  {
    files[i].padding || forall pos: nat, n: nat :: n > 0 && pos + n <= end ==> !fails(i, pos, n) && pos + n <= |disk[i]|
  }

  /** No read fails, up to `end`, in the files that hold some of `[off, end)`. */
  ghost predicate RangeSound(files: seq<FileInfo>, disk: seq<seq<Byte>>, fails: (nat, nat, nat) -> bool, off: nat,
                             end: nat) {
    && |files| == |disk|
    && forall i :: 0 <= i < |files| && Start(files, i) < end && off < Start(files, i) + files[i].len ==>
         FileSound(files, disk, fails, i, Min(files[i].len, end - Start(files, i)))
  }

  lemma UnsoundFile(files: seq<FileInfo>, disk: seq<seq<Byte>>, fails: (nat, nat, nat) -> bool, i: nat, upTo: nat,
                    off: nat, end: nat)
    requires i < |files| == |disk| && !FileSound(files, disk, fails, i, upTo) && upTo <= files[i].len
    requires Start(files, i) + upTo <= end && off < Start(files, i) + files[i].len && Start(files, i) < end
    ensures !RangeSound(files, disk, fails, off, end)
  {
    StillUnsound(files, disk, fails, i, upTo, Min(files[i].len, end - Start(files, i)));
  }

  /** Feeds `n` bytes of file `i` at `pos` to the hash, one buffer at a time. The hash state is
      the sequence of bytes fed so far. */
  method UpdateHashFromFile(s: TorrentStorage, files: seq<FileInfo>, i: nat, pos: nat, fed0: seq<Byte>, bufLen: nat,
                            n: nat)
    returns (ok: bool, fed: seq<Byte>)
    requires i < |files| == |s.disk| && pos + n <= files[i].len && bufLen > 0
    ensures fed0 <= fed && |fed| <= |fed0| + n
    ensures ok ==> |fed| == |fed0| + n && GotIn(View(files[i], s.disk[i]), pos, fed[|fed0|..])
    ensures NoReadFails(files, s.disk, s.readFails) ==> ok
    ensures !ok ==> !FileSound(files, s.disk, s.readFails, i, pos + n)
  {
    fed := fed0;
    var at, left := pos, n;
    ghost var got: seq<Byte> := [];
    ghost var v := View(files[i], s.disk[i]);
    while left > 0
      invariant 0 <= left <= n && at == pos + n - left
      invariant fed == fed0 + got && |got| == n - left
      invariant GotIn(v, pos, got)
    {
      var chunk := Min(bufLen, left);
      var seg := ReadSegment(s, files, i, at, chunk);
      if seg.Err? {
        assert at + chunk <= pos + n && !(!s.readFails(i, at, chunk) && at + chunk <= |s.disk[i]|);
        return false, fed;
      }
      GotMoreIn(v, pos, got, seg.value);
      fed := fed + seg.value;
      got := got + seg.value;
      left := left - chunk;
      at := at + chunk;
    }
    ok := true;
    assert fed[|fed0|..] == got;
  }

  /** The files hold at least as many bytes as the torrent. */
  ghost predicate Consistent(l: Lengths, files: seq<FileInfo>) {
    l.Valid() && l.totalLength <= Total(files)
  }

  /** The readable positions of piece `p` in the flat array. */
  ghost function PieceSlice(l: Lengths, files: seq<FileInfo>, disk: seq<seq<Byte>>, p: nat): (v: seq<Option<Byte>>)
    requires Consistent(l, files) && p < l.TotalPieces() && |files| == |disk|
    ensures |v| == l.PieceLen(p)
  {
    PieceInterval(l, p);
    FlatAll(files, disk)[l.PieceOffset(p)..l.PieceOffset(p) + l.PieceLen(p)]
  }

  /** Piece `p` is all there and hashes to what the torrent says. */
  ghost predicate PieceMatches(l: Lengths, files: seq<FileInfo>, disk: seq<seq<Byte>>, p: nat,
                               hash: seq<Byte> -> Digest, expected: seq<Digest>)
    requires Consistent(l, files) && p < l.TotalPieces() && |files| == |disk|
  {
    && AllReadable(PieceSlice(l, files, disk, p))
    && p < |expected|
    && hash(BytesOf(PieceSlice(l, files, disk, p))) == expected[p]
  }

  lemma FedIsSlice(l: Lengths, files: seq<FileInfo>, disk: seq<seq<Byte>>, p: nat, fed: seq<Byte>)
    requires Consistent(l, files) && p < l.TotalPieces() && |files| == |disk|
    requires GotFlat(files, disk, l.PieceOffset(p), fed) && |fed| == l.PieceLen(p)
    ensures AllReadable(PieceSlice(l, files, disk, p)) && BytesOf(PieceSlice(l, files, disk, p)) == fed
  {
    PieceInterval(l, p);
    GotWhole(FlatAll(files, disk), l.PieceOffset(p), fed);
  }

  /** Hashes exactly the bytes of the piece. An error means that some read failed. */
  method CheckPiece(s: TorrentStorage, files: seq<FileInfo>, l: Lengths, p: nat, hash: seq<Byte> -> Digest,
                    expected: seq<Digest>)
    returns (r: Result<bool, Error>)
    requires |s.disk| == |files| && Consistent(l, files) && p < l.TotalPieces()
    ensures r.Ok? ==> p < |expected| && AllReadable(PieceSlice(l, files, s.disk, p))
    ensures r.Ok? ==> (r.value <==> PieceMatches(l, files, s.disk, p, hash, expected))
    ensures NoReadFails(files, s.disk, s.readFails) && p < |expected| ==> r.Ok?
  {
    PieceInterval(l, p);
    var len := l.PieceLen(p);
    ghost var off := l.PieceOffset(p);
    var absOff: nat, i: nat := l.PieceOffset(p), 0;
    var h: seq<Byte> := [];
    while i < |files|
      invariant |h| <= len && AtFile(files, i, off, |h|, absOff)
      invariant GotFlat(files, s.disk, off, h)
    {
      if absOff > files[i].len {
        absOff := absOff - files[i].len;
        i := i + 1;
        continue;
      }
      var n := Min(files[i].len - absOff, len - |h|);
      var ok, fed := UpdateHashFromFile(s, files, i, absOff, h, Min(READ_BUFFER, len), n);
      if !ok { return Err(ReadFailed(i)); }
      GotMore(files, s.disk, off, h, i, absOff, fed[|h|..]);
      assert fed == h + fed[|h|..];
      h := fed;
      i := i + 1;
      if |h| == len { break; }
      absOff := 0;
    }
    WalkEnds(files, off, |h|, absOff, len, i);
    FedIsSlice(l, files, s.disk, p, h);
    if p >= |expected| {
      return Err(NoSuchPiece);
    }
    return Ok(hash(h) == expected[p]);
  }

  // ------------------------------------------------------------- the single pass

  /** The file the pass is in, how much of it is behind, and whether a read of it failed. */
  datatype Cursor = Cursor(index: nat, processed: nat, broken: bool)

  ghost predicate CursorAt(files: seq<FileInfo>, c: Cursor, g: nat) {
    c.index < |files| && c.processed <= files[c.index].len && Start(files, c.index) + c.processed == g
  }

  /** Moves on to the next file with bytes left; `n` is how much of it belongs to the piece. */
  method NextSegment(files: seq<FileInfo>, c0: Cursor, remaining: nat, ghost g: nat)
      returns (found: bool, c: Cursor, n: nat)
    requires CursorAt(files, c0, g) && remaining > 0
    ensures found ==> CursorAt(files, c, g) && n == Min(files[c.index].len - c.processed, remaining) > 0
    ensures found && c.broken ==> c == c0
    ensures found <==> g < Total(files)
  {
    c := c0;
    StartMonotone(files, c.index, |files|);
    n := Min(files[c.index].len - c.processed, remaining);
    while n == 0
      invariant CursorAt(files, c, g) && n == Min(files[c.index].len - c.processed, remaining)
      invariant c.broken ==> c == c0
      decreases |files| - c.index
    {
      if c.index + 1 == |files| { return false, c, 0; }
      c := Cursor(c.index + 1, 0, false);
      n := Min(files[c.index].len, remaining);
    }
    StartMonotone(files, c.index, |files|);
    found := true;
  }

  /** What is known while a piece is being hashed, `done` bytes into it: everything so far was
      fed, or a read failed just now, or bytes of an already broken file were left out. */
  ghost predicate Feeding(files: seq<FileInfo>, disk: seq<seq<Byte>>, off: nat, done: nat, fed: seq<Byte>,
                          someBroken: bool, skipped: bool) {
    && (!skipped ==> GotFlat(files, disk, off, fed) && |fed| == done && !someBroken)
    && (skipped && !someBroken ==> |fed| < done)
  }

  /** Reads the next `n` bytes of the current file into the hash; a failure breaks the file. */
  method FeedSegment(s: TorrentStorage, files: seq<FileInfo>, c0: Cursor, n: nat, ghost off: nat, ghost done: nat,
                     fed0: seq<Byte>, someBroken0: bool, ghost skipped0: bool)
    returns (c: Cursor, fed: seq<Byte>, someBroken: bool, ghost skipped: bool)
    requires |s.disk| == |files| && CursorAt(files, c0, off + done) && n <= files[c0.index].len - c0.processed
    requires Feeding(files, s.disk, off, done, fed0, someBroken0, skipped0)
    ensures c == c0.(broken := c.broken) && Feeding(files, s.disk, off, done + n, fed, someBroken, skipped)
    ensures c.broken || skipped != skipped0 ==>
            c0.broken || !FileSound(files, s.disk, s.readFails, c0.index, c0.processed + n)
  {
    var ok;
    ok, fed := UpdateHashFromFile(s, files, c0.index, c0.processed, fed0, READ_BUFFER, n);
    c, someBroken, skipped := c0, someBroken0, skipped0;
    if !ok {
      c := c.(broken := true);
      someBroken, skipped := true, true;
    } else if !skipped {
      GotMore(files, s.disk, off, fed0, c.index, c.processed, fed[|fed0|..]);
      assert fed == fed0 + fed[|fed0|..];
    }
  }

  /** A broken file had a read that failed before the cursor. */
  ghost predicate RightlyBroken(files: seq<FileInfo>, disk: seq<seq<Byte>>, fails: (nat, nat, nat) -> bool, c: Cursor)
    requires c.index < |files| == |disk|
  {
    c.broken ==> !FileSound(files, disk, fails, c.index, c.processed)
  }

  lemma StillUnsound(files: seq<FileInfo>, disk: seq<seq<Byte>>, fails: (nat, nat, nat) -> bool, i: nat, a: nat, b: nat)
    requires i < |files| == |disk| && !FileSound(files, disk, fails, i, a) && a <= b
    ensures !FileSound(files, disk, fails, i, b)
  {
    var pos: nat, n: nat :| n > 0 && pos + n <= a && !(!fails(i, pos, n) && pos + n <= |disk[i]|);
    assert pos + n <= b;
  }

  /** Feeds the next segment, or leaves it out when its file is broken. */
  method TakeSegment(s: TorrentStorage, files: seq<FileInfo>, c0: Cursor, n: nat, ghost off: nat, ghost done: nat,
                     ghost len: nat, fed0: seq<Byte>, someBroken0: bool, ghost skipped0: bool)
    returns (c: Cursor, fed: seq<Byte>, someBroken: bool, ghost skipped: bool)
    requires |s.disk| == |files| && CursorAt(files, c0, off + done) && 0 < n <= files[c0.index].len - c0.processed
             && done + n <= len
    requires Feeding(files, s.disk, off, done, fed0, someBroken0, skipped0)
             && RightlyBroken(files, s.disk, s.readFails, c0)
    requires skipped0 ==> !RangeSound(files, s.disk, s.readFails, off, off + len)
    ensures CursorAt(files, c, off + done + n) && Feeding(files, s.disk, off, done + n, fed, someBroken, skipped)
    ensures RightlyBroken(files, s.disk, s.readFails, c)
    ensures skipped ==> !RangeSound(files, s.disk, s.readFails, off, off + len)
  {
    c, fed, someBroken, skipped := c0, fed0, someBroken0, skipped0;
    ghost var bad := !FileSound(files, s.disk, s.readFails, c.index, c.processed + n);
    if c.broken {
      skipped := true;
      StillUnsound(files, s.disk, s.readFails, c.index, c.processed, c.processed + n);
    } else {
      c, fed, someBroken, skipped := FeedSegment(s, files, c, n, off, done, fed, someBroken, skipped);
    }
    if bad { SegmentUnsound(files, s.disk, s.readFails, c, n, off, done, len); }
    c := c.(processed := c.processed + n);
  }

  lemma SegmentUnsound(files: seq<FileInfo>, disk: seq<seq<Byte>>, fails: (nat, nat, nat) -> bool, c: Cursor, n: nat,
                       off: nat, done: nat, len: nat)
    requires |disk| == |files| && CursorAt(files, c, off + done) && 0 < n <= files[c.index].len - c.processed
             && done + n <= len
    requires !FileSound(files, disk, fails, c.index, c.processed + n)
    ensures !RangeSound(files, disk, fails, off, off + len)
  {
    UnsoundFile(files, disk, fails, c.index, c.processed + n, off, off + len);
  }

  /** Feeds the next `len` bytes of the pass to a fresh hash. */
  method HashPiece(s: TorrentStorage, files: seq<FileInfo>, c0: Cursor, len: nat, ghost off: nat)
    returns (found: bool, c: Cursor, fed: seq<Byte>, someBroken: bool, ghost skipped: bool)
    requires |s.disk| == |files| && CursorAt(files, c0, off) && RightlyBroken(files, s.disk, s.readFails, c0)
    ensures found <==> off + len <= Total(files)
    ensures found ==> CursorAt(files, c, off + len) && Feeding(files, s.disk, off, len, fed, someBroken, skipped)
    ensures found ==> RightlyBroken(files, s.disk, s.readFails, c)
    ensures found && skipped ==> !RangeSound(files, s.disk, s.readFails, off, off + len)
  {
    c, fed, someBroken, skipped := c0, [], false, false;
    var remaining := len;
    StartMonotone(files, c.index, |files|);
    while remaining > 0
      invariant 0 <= remaining <= len && off + len - remaining <= Total(files)
      invariant CursorAt(files, c, off + len - remaining)
      invariant Feeding(files, s.disk, off, len - remaining, fed, someBroken, skipped)
      invariant RightlyBroken(files, s.disk, s.readFails, c)
      invariant skipped ==> !RangeSound(files, s.disk, s.readFails, off, off + len)
    {
      var n;
      found, c, n := NextSegment(files, c, remaining, off + len - remaining);
      if !found { return; }
      StartMonotone(files, c.index, |files|);
      c, fed, someBroken, skipped := TakeSegment(s, files, c, n, off, len - remaining, len, fed, someBroken, skipped);
      remaining := remaining - n;
    }
    found := true;
  }

  ghost predicate Injective(hash: seq<Byte> -> Digest) {
    forall a, b :: hash(a) == hash(b) ==> a == b
  }

  /** Every expected digest is the digest of a whole piece. */
  ghost predicate Truthful(l: Lengths, hash: seq<Byte> -> Digest, expected: seq<Digest>)
    requires l.Valid()
  {
    forall p :: 0 <= p < l.TotalPieces() && p < |expected| ==>
      exists t :: |t| == l.PieceLen(p) && hash(t) == expected[p]
  }

  /** The verdict of the pass on one piece. */
  lemma VerdictIsRight(l: Lengths, files: seq<FileInfo>, disk: seq<seq<Byte>>, p: nat, hash: seq<Byte> -> Digest,
                       expected: seq<Digest>, fed: seq<Byte>, someBroken: bool, skipped: bool)
    requires Consistent(l, files) && p < l.TotalPieces() && |files| == |disk|
    requires Feeding(files, disk, l.PieceOffset(p), l.PieceLen(p), fed, someBroken, skipped)
    ensures var verdict := !someBroken && p < |expected| && hash(fed) == expected[p];
            && (!skipped ==> (verdict <==> PieceMatches(l, files, disk, p, hash, expected)))
            && (Injective(hash) && Truthful(l, hash, expected) && verdict ==>
              PieceMatches(l, files, disk, p, hash, expected))
  {
    if !skipped {
      FedIsSlice(l, files, disk, p, fed);
    } else if !someBroken && p < |expected| && Injective(hash) && Truthful(l, hash, expected) {
      var t :| |t| == l.PieceLen(p) && hash(t) == expected[p];
      assert hash(fed) == hash(t) ==> fed == t;
    }
  }

  /** What a bit set by the pass means. */
  ghost predicate BitRight(l: Lengths, files: seq<FileInfo>, disk: seq<seq<Byte>>, hash: seq<Byte> -> Digest,
                           expected: seq<Digest>, p: nat, bit: bool, healthy: bool)
    requires l.Valid() && p < l.TotalPieces() && |files| == |disk|
  {
    Consistent(l, files) ==>
      && (Injective(hash) && Truthful(l, hash, expected) && bit ==> PieceMatches(l, files, disk, p, hash, expected))
      && (healthy ==> (bit <==> PieceMatches(l, files, disk, p, hash, expected)))
  }

  lemma VerdictBit(l: Lengths, files: seq<FileInfo>, disk: seq<seq<Byte>>, p: nat, hash: seq<Byte> -> Digest,
                   expected: seq<Digest>, fed: seq<Byte>, someBroken: bool, skipped: bool, sound: bool)
    requires l.Valid() && p < l.TotalPieces() && |files| == |disk| && (skipped ==> !sound)
    requires Feeding(files, disk, l.PieceOffset(p), l.PieceLen(p), fed, someBroken, skipped)
    ensures BitRight(l, files, disk, hash, expected, p, !someBroken && p < |expected|
              && hash(fed) == expected[p], sound)
  {
    if Consistent(l, files) { VerdictIsRight(l, files, disk, p, hash, expected, fed, someBroken, skipped); }
  }

  /** The bits of the first `p` pieces are right. */
  ghost predicate BitsRight(s: TorrentStorage, files: seq<FileInfo>, l: Lengths, hash: seq<Byte> -> Digest,
                            expected: seq<Digest>, have: seq<bool>, p: nat)
    requires l.Valid() && p <= l.TotalPieces() && p <= |have| && |files| == |s.disk|
    reads s
  {
    forall q :: 0 <= q < p ==> BitRight(l, files, s.disk, hash, expected, q, have[q], PieceSound(s, files, l, q))
  }

  lemma OneMoreBit(s: TorrentStorage, files: seq<FileInfo>, l: Lengths, hash: seq<Byte> -> Digest,
                   expected: seq<Digest>, have: seq<bool>, p: nat, bit: bool, next: seq<bool>)
    requires l.Valid() && p < l.TotalPieces() && p < |have| && |files| == |s.disk| && next == have[p := bit]
    requires BitsRight(s, files, l, hash, expected, have, p)
    requires BitRight(l, files, s.disk, hash, expected, p, bit, PieceSound(s, files, l, p))
    ensures BitsRight(s, files, l, hash, expected, next, p + 1)
  {
    forall q | 0 <= q < p + 1 ensures BitRight(l, files, s.disk, hash, expected, q, next[q],
      PieceSound(s, files, l, q)) {
      if q < p { assert next[q] == have[q]; }
    }
  }

  /** No read fails in the files of piece `p`, up to its end. */
  ghost predicate PieceSound(s: TorrentStorage, files: seq<FileInfo>, l: Lengths, p: nat)
    requires l.Valid()
    reads s
  {
    RangeSound(files, s.disk, s.readFails, l.PieceOffset(p), l.PieceOffset(p) + l.PieceLen(p))
  }

  /** One round of the pass. */
  method CheckNext(s: TorrentStorage, files: seq<FileInfo>, l: Lengths, p: nat, hash: seq<Byte> -> Digest,
                   expected: seq<Digest>, c0: Cursor) returns (r: Result<bool, Error>, c: Cursor)
    requires |s.disk| == |files| && l.Valid() && p < l.TotalPieces() && CursorAt(files, c0, l.PieceOffset(p))
    requires RightlyBroken(files, s.disk, s.readFails, c0)
    ensures r.Err? ==> !Consistent(l, files) || p >= |expected|
    ensures r.Ok? ==>
            l.PieceOffset(p) + l.PieceLen(p) <= Total(files) && CursorAt(files, c, l.PieceOffset(p) + l.PieceLen(p))
    ensures r.Ok? ==> RightlyBroken(files, s.disk, s.readFails, c)
    ensures r.Ok? ==> BitRight(l, files, s.disk, hash, expected, p, r.value, PieceSound(s, files, l, p))
  {
    PieceInterval(l, p);
    var found, fed, someBroken;
    ghost var skipped;
    found, c, fed, someBroken, skipped := HashPiece(s, files, c0, l.PieceLen(p), l.PieceOffset(p));
    if !found { return Err(BrokenMetadata), c; }
    VerdictBit(l, files, s.disk, p, hash, expected, fed, someBroken, skipped, PieceSound(s, files, l, p));
    if someBroken { return Ok(false), c; }
    if p >= |expected| { return Err(NoSuchPiece), c; }
    r := Ok(hash(fed) == expected[p]);
  }

  /** Checks all pieces in one pass. Whatever reads fail, a set bit means that the whole piece
      was read and matches (with a collision-free hash). As long as no read failed in the files of a
      piece, its bit says exactly whether it passes the single-piece check. */
  method InitialCheck(s: TorrentStorage, files: seq<FileInfo>, l: Lengths, hash: seq<Byte> -> Digest,
                      expected: seq<Digest>, paused: nat -> bool) returns (r: Result<seq<bool>, Error>)
    requires |s.disk| == |files| && l.Valid()
    ensures r.Err? ==>
            !Consistent(l, files) || |expected| < l.TotalPieces() || exists p :: 0 <= p < l.TotalPieces() && paused(p)
    ensures r.Ok? ==> Consistent(l, files) && forall p :: 0 <= p < l.TotalPieces() ==> !paused(p)
    ensures r.Ok? ==> |r.value| == l.PieceBits() >= l.TotalPieces()
    ensures r.Ok? ==> BitsRight(s, files, l, hash, expected, r.value, l.TotalPieces())
  {
    PieceBitsEnough(l);
    if |files| == 0 { return Err(EmptyFileList); }
    var have := seq(l.PieceBits(), _ => false);
    var c := Cursor(0, 0, false);
    PassBegins(s, files, l);
    for p := 0 to l.TotalPieces()
      invariant Passing(s, files, l, hash, expected, paused, have, c, p)
    {
      if paused(p) { return Err(Paused); }
      var bit;
      bit, c := PassOne(s, files, l, p, hash, expected, paused, have, c);
      if bit.Err? { return Err(bit.error); }
      have := have[p := bit.value];
    }
    return Ok(have);
  }

  /** The state of the pass before piece `p`. */
  ghost predicate Passing(s: TorrentStorage, files: seq<FileInfo>, l: Lengths, hash: seq<Byte> -> Digest,
                          expected: seq<Digest>, paused: nat -> bool, have: seq<bool>, c: Cursor, p: nat)
    requires l.Valid() && p <= l.TotalPieces()
    reads s
  {
    && |have| == l.PieceBits() >= l.TotalPieces() && PassAt(s, files, l, c, p)
    && (forall q :: 0 <= q < p ==> !paused(q))
    && BitsRight(s, files, l, hash, expected, have, p)
  }

  method PassOne(s: TorrentStorage, files: seq<FileInfo>, l: Lengths, p: nat, hash: seq<Byte> -> Digest,
                 expected: seq<Digest>, ghost paused: nat -> bool, ghost have: seq<bool>, c0: Cursor)
                   returns (bit: Result<bool, Error>, c: Cursor)
    requires l.Valid() && p < l.TotalPieces() && !paused(p) && Passing(s, files, l, hash, expected, paused, have, c0, p)
    ensures bit.Err? ==> !Consistent(l, files) || p >= |expected|
    ensures bit.Ok? ==> Passing(s, files, l, hash, expected, paused, have[p := bit.value], c, p + 1)
  {
    PassStarts(s, files, l, c0, p);
    bit, c := CheckNext(s, files, l, p, hash, expected, c0);
    if bit.Ok? { PassDone(s, files, l, p, hash, expected, paused, have, c0, c, bit.value, have[p := bit.value]); }
  }

  lemma PassDone(s: TorrentStorage, files: seq<FileInfo>, l: Lengths, p: nat, hash: seq<Byte> -> Digest,
                 expected: seq<Digest>, paused: nat -> bool, have: seq<bool>, c0: Cursor, c: Cursor, bit: bool,
                   next: seq<bool>)
    requires l.Valid() && p < l.TotalPieces() && !paused(p) && Passing(s, files, l, hash, expected, paused, have, c0, p)
    requires CursorAt(files, c, l.PieceOffset(p) + l.PieceLen(p)) && RightlyBroken(files, s.disk, s.readFails, c)
    requires l.PieceOffset(p) + l.PieceLen(p) <= Total(files) && next == have[p := bit]
    requires BitRight(l, files, s.disk, hash, expected, p, bit, PieceSound(s, files, l, p))
    ensures Passing(s, files, l, hash, expected, paused, next, c, p + 1)
  {
    PassGoesOn(s, files, l, c, p);
    OneMoreBit(s, files, l, hash, expected, have, p, bit, next);
  }

  /** The pass is where piece `p` starts, or at the end of the torrent. */
  ghost predicate PassAt(s: TorrentStorage, files: seq<FileInfo>, l: Lengths, c: Cursor, p: nat)
    requires l.Valid()
    reads s
  {
    && |s.disk| == |files| && CursorAt(files, c, Min(l.PieceOffset(p), l.totalLength))
    && RightlyBroken(files, s.disk, s.readFails, c) && (p == l.TotalPieces() ==> Consistent(l, files))
  }

  lemma PassBegins(s: TorrentStorage, files: seq<FileInfo>, l: Lengths)
    requires l.Valid() && |s.disk| == |files| && |files| > 0
    ensures PassAt(s, files, l, Cursor(0, 0, false), 0)
  {
  }

  lemma PassStarts(s: TorrentStorage, files: seq<FileInfo>, l: Lengths, c: Cursor, p: nat)
    requires l.Valid() && p < l.TotalPieces() && PassAt(s, files, l, c, p)
    ensures CursorAt(files, c, l.PieceOffset(p))
  {
    PieceBoundary(l, p);
  }

  lemma PassGoesOn(s: TorrentStorage, files: seq<FileInfo>, l: Lengths, c: Cursor, p: nat)
    requires l.Valid() && p < l.TotalPieces() && |s.disk| == |files|
    requires CursorAt(files, c, l.PieceOffset(p) + l.PieceLen(p)) && RightlyBroken(files, s.disk, s.readFails, c)
    requires l.PieceOffset(p) + l.PieceLen(p) <= Total(files)
    ensures PassAt(s, files, l, c, p + 1)
  {
    PieceBoundary(l, p);
  }

  /** One piece ends where the next one starts, the last one at the end of the torrent. */
  lemma PieceBoundary(l: Lengths, p: nat)
    requires l.Valid() && p < l.TotalPieces()
    ensures l.PieceOffset(p) <= l.totalLength
    ensures l.PieceOffset(p) + l.PieceLen(p) == Min(l.PieceOffset(p + 1), l.totalLength)
    ensures p + 1 == l.TotalPieces() ==> l.PieceOffset(p) + l.PieceLen(p) == l.totalLength
  {
    PieceInterval(l, p);
    assert (p + 1) * l.pieceLength == p * l.pieceLength + l.pieceLength;
    if p + 1 == l.TotalPieces() { DivCeilBounds(l.totalLength, l.pieceLength); }
  }
}
