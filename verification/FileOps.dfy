/** Reading, writing and checking pieces across the files of a torrent. */
module FileOperations {
  import opened Prelude
  import opened DoubleBufs
  import opened TorrentLengths
  import opened FlatFiles

  type Digest = seq<Byte>

  datatype Error = NotEnoughCapacity | ReadFailed(file: nat) | WriteFailed(file: nat) | NoSuchPiece
                 | EmptyFileList | BrokenMetadata | Paused

  /** The files on disk. Any read or write may fail; a failed write may have stored a prefix. */
  class TorrentStorage {
    var disk: seq<seq<Byte>>
    const readFails: (nat, nat, nat) -> bool
    const writeStops: (nat, nat, nat) -> Option<nat>

    constructor (disk: seq<seq<Byte>>, readFails: (nat, nat, nat) -> bool, writeStops: (nat, nat, nat) -> Option<nat>)
      ensures this.disk == disk && this.readFails == readFails && this.writeStops == writeStops
    {
      this.disk := disk;
      this.readFails := readFails;
      this.writeStops := writeStops;
    }

    /** All `len` bytes at `pos`, or an error. */
    method PreadExact(file: nat, pos: nat, len: nat) returns (r: Result<seq<Byte>, Error>)
      requires file < |disk|
      ensures r.Ok? <==> !readFails(file, pos, len) && pos + len <= |disk[file]|
      ensures r.Ok? ==> r.value == disk[file][pos..pos + len]
    {
      if readFails(file, pos, len) || pos + len > |disk[file]| {
        return Err(ReadFailed(file));
      }
      return Ok(disk[file][pos..pos + len]);
    }

    method PwriteAll(file: nat, off: nat, data: seq<Byte>) returns (r: Result<(), Error>)
      requires file < |disk|
      modifies this`disk
      ensures r.Ok? <==> writeStops(file, off, |data|).None?
      ensures |disk| == old(|disk|)
      ensures exists n :: 0 <= n <= |data| && disk == old(disk)[file := Overwrite(old(disk)[file], off, data[..n])]
                          && (r.Ok? ==> n == |data|)
    {
      var stop := writeStops(file, off, |data|);
      var n := if stop.None? then |data| else Min(stop.value, |data|);
      disk := disk[file := Overwrite(disk[file], off, data[..n])];
      return if stop.None? then Ok(()) else Err(WriteFailed(file));
    }
  }

  // ------------------------------------------------------------- writing

  /** Byte `k` of the file at `st` after writing `data` at flat position `off`: the new byte
      inside the range, the old one elsewhere and in padding; a byte that could not be read
      before may read as zero when its file grew past it. */
  ghost predicate WrittenAt(st: nat, f: FileInfo, before: seq<Byte>, after: seq<Byte>, off: nat, data: seq<Byte>,
                            k: nat)
    requires k < f.len
  {
    var was, now := View(f, before)[k], View(f, after)[k];
    if off <= st + k < off + |data| && !f.padding then now == Some(data[st + k - off])
    else now == was || (was.None? && now == Some(0))
  }

  /** Exactly the bytes of `[off, off + |data|)` outside padding changed. */
  ghost predicate Written(files: seq<FileInfo>, before: seq<seq<Byte>>, after: seq<seq<Byte>>, off: nat,
                          data: seq<Byte>)
  {
    && |files| == |before| == |after|
    && forall i, k :: 0 <= i < |files| && 0 <= k < files[i].len ==>
         WrittenAt(Start(files, i), files[i], before[i], after[i], off, data, k)
  }

  ghost predicate UntouchedAt(st: nat, f: FileInfo, before: seq<Byte>, after: seq<Byte>, off: nat, n: nat, k: nat)
    requires k < f.len
  {
    var was, now := View(f, before)[k], View(f, after)[k];
    !(off <= st + k < off + n) ==> now == was || (was.None? && now == Some(0))
  }

  /** Bytes outside the range are never touched, whatever failed. */
  ghost predicate UntouchedOutside(files: seq<FileInfo>, before: seq<seq<Byte>>, after: seq<seq<Byte>>, off: nat,
                                   n: nat) {
    && |files| == |before| == |after|
    && forall i, k :: 0 <= i < |files| && 0 <= k < files[i].len ==>
         UntouchedAt(Start(files, i), files[i], before[i], after[i], off, n, k)
  }

  /** Flat position `g` as an offset into the file that covers `[start, start + len)`, clipped. */
  function Local(start: nat, len: nat, g: nat): nat {
    Min(SaturatingSub(g, start), len)
  }

  /** The file at `start` after `data` was written at flat position `off`. */
  function FileAfter(start: nat, f: FileInfo, content: seq<Byte>, off: nat, data: seq<Byte>): seq<Byte> {
    var a, b := Local(start, f.len, off), Local(start, f.len, off + |data|);
    if f.padding || a >= b then content
    else Overwrite(content, a, data[start + a - off..start + b - off])
  }

  lemma FileAfterWritten(st: nat, f: FileInfo, content: seq<Byte>, off: nat, data: seq<Byte>, k: nat)
    requires k < f.len
    ensures WrittenAt(st, f, content, FileAfter(st, f, content, off, data), off, data, k)
  {
    var a, b := Local(st, f.len, off), Local(st, f.len, off + |data|);
    if !f.padding && a < b {
      OverwriteAt(content, a, data[st + a - off..st + b - off], k);
    }
  }

  /** The next `n` bytes of the buffer and what is left. */
  method TakeFront(d: DoubleBuf<Byte>, n: nat) returns (seg: seq<Byte>, rest: DoubleBuf<Byte>)
    requires n <= d.Len()
    ensures seg == d.All()[..n] && rest.All() == d.All()[n..]
  {
    DoubleBufIsOne(d, n);
    var (s0, s1) := d.AsIoSlices(n);
    seg, rest := s0 + s1, d.Advance(n);
  }

  /** Position of the walk: file `i`, `w` bytes of the range done, the next one at local `absOff`. */
  ghost predicate AtFile(files: seq<FileInfo>, i: nat, off: nat, w: nat, absOff: nat) {
    && i <= |files|
    && absOff + Start(files, i) == off + w
    && (w > 0 ==> absOff == 0)
  }

  /** A file receives exactly the bytes the walk gives it. */
  lemma WrittenSegment(st: nat, f: FileInfo, content: seq<Byte>, off: nat, data: seq<Byte>, w: nat, absOff: nat)
    requires absOff + st == off + w && (w > 0 ==> absOff == 0) && absOff <= f.len && w <= |data|
    ensures var t := Min(|data| - w, f.len - absOff);
            FileAfter(st, f, content, off, data) == if f.padding then content
              else Overwrite(content, absOff, data[w..w + t])
  {
    var t := Min(|data| - w, f.len - absOff);
    var a, b := Local(st, f.len, off), Local(st, f.len, off + |data|);
    assert a == absOff;
    if t == 0 {
      assert a >= b && data[w..w + t] == [];
    } else {
      assert b == absOff + t;
      assert st + a - off == w && st + b - off == w + t;
    }
  }

  /** `after` differs from `before` only by a write inside `[off, off + n)`. */
  ghost predicate ChangedInside(st: nat, before: seq<Byte>, after: seq<Byte>, off: nat, n: nat) {
    exists a: nat, seg: seq<Byte> :: WroteInside(st, before, after, off, n, a, seg)
  }

  ghost predicate WroteInside(st: nat, before: seq<Byte>, after: seq<Byte>, off: nat, n: nat, a: nat, seg: seq<Byte>) {
    after == Overwrite(before, a, seg) && (seg != [] ==> off <= st + a && st + a + |seg| <= off + n)
  }

  lemma FileAfterInside(st: nat, f: FileInfo, content: seq<Byte>, off: nat, data: seq<Byte>)
    ensures ChangedInside(st, content, FileAfter(st, f, content, off, data), off, |data|)
  {
    var a, b := Local(st, f.len, off), Local(st, f.len, off + |data|);
    var after := FileAfter(st, f, content, off, data);
    if f.padding || a >= b {
      assert WroteInside(st, content, after, off, |data|, 0, []);
    } else {
      assert WroteInside(st, content, after, off, |data|, a, data[st + a - off..st + b - off]);
    }
  }

  lemma ChangedInsideIsUntouched(st: nat, f: FileInfo, before: seq<Byte>, after: seq<Byte>, off: nat, n: nat, k: nat)
    requires ChangedInside(st, before, after, off, n) && k < f.len
    ensures UntouchedAt(st, f, before, after, off, n, k)
  {
    var a: nat, seg: seq<Byte> :| WroteInside(st, before, after, off, n, a, seg);
    OverwriteAt(before, a, seg, k);
  }

  /** The first `i` elements from `after`, the others from `before`. */
  ghost function Mixed(before: seq<seq<Byte>>, after: seq<seq<Byte>>, i: nat): (r: seq<seq<Byte>>)
    requires i <= |before| == |after|
    ensures |r| == |before|
  {
    if i == 0 then before else Mixed(before, after, i - 1)[i - 1 := after[i - 1]]
  }

  lemma {:induction false} MixedAt(before: seq<seq<Byte>>, after: seq<seq<Byte>>, i: nat, j: nat)
    requires i <= |before| == |after| && j < |before|
    ensures Mixed(before, after, i)[j] == if j < i then after[j] else before[j]
  {
    if i > 0 { MixedAt(before, after, i - 1, j); }
  }

  /** All files after the write. */
  ghost function Targets(files: seq<FileInfo>, before: seq<seq<Byte>>, off: nat, data: seq<Byte>,
                         n: nat): (r: seq<seq<Byte>>)
    requires n <= |files| == |before|
    ensures |r| == n
  {
    if n == 0 then []
    else Targets(files, before, off, data, n - 1) + [FileAfter(Start(files, n - 1), files[n - 1], before[n - 1], off,
      data)]
  }

  lemma {:induction false} TargetsAt(files: seq<FileInfo>, before: seq<seq<Byte>>, off: nat, data: seq<Byte>, n: nat,
                                     j: nat)
    requires j < n <= |files| == |before|
    ensures Targets(files, before, off, data, n)[j] == FileAfter(Start(files, j), files[j], before[j], off, data)
  {
    if j < n - 1 { TargetsAt(files, before, off, data, n - 1, j); }
  }

  /** The disk once the first `i` files were written. */
  ghost function Progress(files: seq<FileInfo>, before: seq<seq<Byte>>, off: nat, data: seq<Byte>,
                          i: nat): (r: seq<seq<Byte>>)
    requires i <= |files| == |before|
    ensures |r| == |before|
  {
    Mixed(before, Targets(files, before, off, data, |files|), i)
  }

  lemma ProgressAt(files: seq<FileInfo>, before: seq<seq<Byte>>, off: nat, data: seq<Byte>, i: nat, j: nat)
    requires i <= |files| == |before| && j < |files|
    ensures Progress(files, before, off, data, i)[j] ==
            if j < i then FileAfter(Start(files, j), files[j], before[j], off, data) else before[j]
  {
    MixedAt(before, Targets(files, before, off, data, |files|), i, j);
    TargetsAt(files, before, off, data, |files|, j);
  }

  lemma ProgressNext(files: seq<FileInfo>, before: seq<seq<Byte>>, off: nat, data: seq<Byte>, i: nat)
    requires i < |files| == |before|
    ensures Progress(files, before, off, data, i + 1)
         == Progress(files, before, off, data, i)[i := FileAfter(Start(files, i), files[i], before[i], off, data)]
  {
    TargetsAt(files, before, off, data, |files|, i);
  }

  lemma WriteFinished(files: seq<FileInfo>, before: seq<seq<Byte>>, off: nat, data: seq<Byte>, i: nat)
    requires i <= |files| == |before|
    requires i < |files| ==> off + |data| <= Start(files, i)
    ensures Written(files, before, Progress(files, before, off, data, i), off, data)
  {
    var now := Progress(files, before, off, data, i);
    forall j, k | 0 <= j < |files| && 0 <= k < files[j].len
      ensures WrittenAt(Start(files, j), files[j], before[j], now[j], off, data, k)
    {
      ProgressAt(files, before, off, data, i, j);
      if j >= i { StartMonotone(files, i, j); }
      FileAfterWritten(Start(files, j), files[j], before[j], off, data, k);
    }
  }

  lemma WriteStopped(files: seq<FileInfo>, before: seq<seq<Byte>>, off: nat, data: seq<Byte>, i: nat, part: seq<Byte>)
    requires i < |files| == |before|
    requires ChangedInside(Start(files, i), before[i], part, off, |data|)
    ensures |Progress(files, before, off, data, i)| == |files|
    ensures UntouchedOutside(files, before, Progress(files, before, off, data, i)[i := part], off, |data|)
  {
    var now := Progress(files, before, off, data, i)[i := part];
    forall j, k | 0 <= j < |files| && 0 <= k < files[j].len
      ensures UntouchedAt(Start(files, j), files[j], before[j], now[j], off, |data|, k)
    {
      ProgressAt(files, before, off, data, i, j);
      if j < i { FileAfterInside(Start(files, j), files[j], before[j], off, data); }
      else if j > i { assert WroteInside(Start(files, j), before[j], before[j], off, |data|, 0, []); }
      ChangedInsideIsUntouched(Start(files, j), files[j], before[j], now[j], off, |data|, k);
    }
  }

  lemma WrittenIsUntouched(files: seq<FileInfo>, before: seq<seq<Byte>>, after: seq<seq<Byte>>, off: nat,
                           data: seq<Byte>)
    requires Written(files, before, after, off, data)
    ensures UntouchedOutside(files, before, after, off, |data|)
  {
    forall i, k | 0 <= i < |files| && 0 <= k < files[i].len
      ensures UntouchedAt(Start(files, i), files[i], before[i], after[i], off, |data|, k)
    {
      assert WrittenAt(Start(files, i), files[i], before[i], after[i], off, data, k);
    }
  }

  /** The next step of the walk, as a step of `Progress`. */
  lemma WriteDone(files: seq<FileInfo>, before: seq<seq<Byte>>, after: seq<seq<Byte>>, off: nat, data: seq<Byte>,
                  i: nat)
    requires i <= |files| == |before| && after == Progress(files, before, off, data, i)
    requires i < |files| ==> off + |data| <= Start(files, i)
    ensures Written(files, before, after, off, data) && UntouchedOutside(files, before, after, off, |data|)
  {
    WriteFinished(files, before, off, data, i);
    WrittenIsUntouched(files, before, after, off, data);
  }

  lemma ProgressStep(files: seq<FileInfo>, before: seq<seq<Byte>>, off: nat, data: seq<Byte>, i: nat, w: nat,
                     absOff: nat)
    requires i < |files| == |before| && AtFile(files, i, off, w, absOff) && w <= |data|
    ensures |Progress(files, before, off, data, i)| == |files|
    ensures var was, now := Progress(files, before, off, data, i), Progress(files, before, off, data, i + 1);
            && was[i] == before[i]
            && (absOff > files[i].len || files[i].padding ==> now == was)
            && (absOff <= files[i].len && !files[i].padding ==>
                  now == was[i := Overwrite(before[i], absOff, data[w..w + Min(|data| - w, files[i].len - absOff)])])
  {
    ProgressAt(files, before, off, data, i, i);
    ProgressNext(files, before, off, data, i);
    if absOff <= files[i].len {
      WrittenSegment(Start(files, i), files[i], before[i], off, data, w, absOff);
    }
  }

  /** Writes the walk's next bytes into file `i`, unless it is padding. */
  method WriteSegment(s: TorrentStorage, files: seq<FileInfo>, ghost before: seq<seq<Byte>>, ghost off: nat,
                      ghost all: seq<Byte>, ghost w: nat, i: nat, absOff: nat, seg: seq<Byte>)
                        returns (r: Result<(), Error>)
    requires i < |files| == |before| && s.disk == Progress(files, before, off, all, i)
    requires AtFile(files, i, off, w, absOff) && absOff <= files[i].len && w <= |all|
    requires seg == all[w..w + Min(|all| - w, files[i].len - absOff)]
    modifies s`disk
    ensures r.Ok? ==> s.disk == Progress(files, before, off, all, i + 1)
    ensures r.Err? ==> UntouchedOutside(files, before, s.disk, off, |all|)
    ensures s.writeStops(i, absOff, |seg|).None? ==> r.Ok?
  {
    ProgressStep(files, before, off, all, i, w, absOff);
    if files[i].padding { return Ok(()); }
    ghost var was := s.disk;
    r := s.PwriteAll(i, absOff, seg);
    ghost var n :| 0 <= n <= |seg| && s.disk == was[i := Overwrite(was[i], absOff, seg[..n])] && (r.Ok? ==> n == |seg|);
    if r.Ok? {
      assert seg[..n] == seg;
    } else {
      assert WroteInside(Start(files, i), before[i], s.disk[i], off, |all|, absOff, seg[..n]);
      WriteStopped(files, before, off, all, i, s.disk[i]);
    }
  }

  ghost predicate NoWriteFails(stops: (nat, nat, nat) -> Option<nat>) {
    forall f, o, n :: stops(f, o, n).None?
  }

  /** Writes one chunk across the files it spans. */
  method WriteChunk(s: TorrentStorage, files: seq<FileInfo>, off: nat, buf: DoubleBuf<Byte>)
      returns (r: Result<(), Error>)
    requires |s.disk| == |files|
    modifies s`disk
    ensures UntouchedOutside(files, old(s.disk), s.disk, off, buf.Len())
    ensures r.Ok? ==> Written(files, old(s.disk), s.disk, off, buf.All())
    ensures NoWriteFails(s.writeStops) ==> r.Ok?
  {
    var absOff: nat, data := off, buf;
    ghost var all, w: nat, before := buf.All(), 0, s.disk;
    var i: nat := 0;
    assert Progress(files, before, off, all, 0) == before;
    while i < |files|
      invariant AtFile(files, i, off, w, absOff) && w <= |all|
      invariant data.All() == all[w..]
      invariant s.disk == Progress(files, before, off, all, i)
    {
      if absOff > files[i].len {
        ProgressStep(files, before, off, all, i, w, absOff);
        absOff := absOff - files[i].len;
        i := i + 1;
        continue;
      }
      var n := Min(data.Len(), files[i].len - absOff);
      var seg;
      seg, data := TakeFront(data, n);
      r := WriteSegment(s, files, before, off, all, w, i, absOff, seg);
      if r.Err? { return; }
      w := w + n;
      i := i + 1;
      if data.Len() == 0 { break; }
      absOff := 0;
    }
    assert i < |files| ==> off + |all| <= Start(files, i);
    WriteDone(files, before, s.disk, off, all, i);
    return Ok(());
  }

  /** Byte `g` of the flat array lies in a padding file. */
  ghost predicate InPadding(files: seq<FileInfo>, g: nat) {
    exists i :: 0 <= i < |files| && files[i].padding && Start(files, i) <= g < Start(files, i) + files[i].len
  }

  /** On files that have their full length, a write updates the flat array in exactly the
      bytes `[off, off + |data|)` that are not padding. */
  lemma WrittenFlat(files: seq<FileInfo>, before: seq<seq<Byte>>, after: seq<seq<Byte>>, off: nat, data: seq<Byte>,
                    g: nat)
    requires Written(files, before, after, off, data) && g < Total(files)
    requires forall i :: 0 <= i < |files| ==> |before[i]| >= files[i].len
    ensures FlatAll(files, after)[g] ==
            if off <= g < off + |data| && !InPadding(files, g) then Some(data[g - off]) else FlatAll(files, before)[g]
  {
    var i, k := Locate(files, |files|, g);
    FlatAt(files, before, |files|, i, k);
    FlatAt(files, after, |files|, i, k);
    assert WrittenAt(Start(files, i), files[i], before[i], after[i], off, data, k);
    if files[i].padding {
      assert InPadding(files, g);
    } else if InPadding(files, g) {
      var j :| 0 <= j < |files| && files[j].padding && Start(files, j) <= g < Start(files, j) + files[j].len;
      if i < j { StartMonotone(files, i, j); } else { StartMonotone(files, j, i); }
    }
  }

  // ------------------------------------------------------------- reading

  /** Every file is complete on disk and no read fails. */
  ghost predicate NoReadFails(files: seq<FileInfo>, disk: seq<seq<Byte>>, fails: (nat, nat, nat) -> bool) {
    && |files| == |disk|
    && (forall i :: 0 <= i < |files| ==> |disk[i]| >= files[i].len)
    && (forall f, o, n :: !fails(f, o, n))
  }

  /** `n` bytes of file `i` at local offset `pos`. */
  method ReadSegment(s: TorrentStorage, files: seq<FileInfo>, i: nat, pos: nat, n: nat)
      returns (r: Result<seq<Byte>, Error>)
    requires i < |files| == |s.disk| && pos + n <= files[i].len
    ensures r.Ok? ==> |r.value| == n && GotIn(View(files[i], s.disk[i]), pos, r.value)
    ensures r.Ok? <==> files[i].padding || (!s.readFails(i, pos, n) && pos + n <= |s.disk[i]|)
    ensures NoReadFails(files, s.disk, s.readFails) ==> r.Ok?
  {
    if files[i].padding {
      return Ok(Zeros(n));
    }
    r := s.PreadExact(i, pos, n);
  }

  /** `got` are the bytes of the flat array at `[off, off + |got|)`. */
  ghost predicate GotFlat(files: seq<FileInfo>, disk: seq<seq<Byte>>, off: nat, got: seq<Byte>) {
    |files| == |disk| && GotIn(FlatAll(files, disk), off, got)
  }

  lemma GotMore(files: seq<FileInfo>, disk: seq<seq<Byte>>, off: nat, got: seq<Byte>, i: nat, absOff: nat,
                more: seq<Byte>)
    requires GotFlat(files, disk, off, got) && i < |files| && Start(files, i) + absOff == off + |got|
    requires GotIn(View(files[i], disk[i]), absOff, more)
    ensures GotFlat(files, disk, off, got + more)
  {
    SegmentIsFlat(files, disk, i, absOff, more, off + |got|);
    GotMoreIn(FlatAll(files, disk), off, got, more);
  }

  /** A walk that ran to the end, or filled its buffer, got all there was to get. */
  lemma WalkEnds(files: seq<FileInfo>, off: nat, w: nat, absOff: nat, m: nat, i: nat)
    requires w <= m && (w > 0 ==> off + w <= Total(files))
    requires w == m || (i == |files| && AtFile(files, i, off, w, absOff))
    ensures w == Min(m, SaturatingSub(Total(files), off))
  {
  }

  /** Fills the caller's buffer from the flat array at `off`, as far as the torrent reaches. */
  method ReadChunk(s: TorrentStorage, files: seq<FileInfo>, off: nat, size: nat, buf: array<Byte>)
      returns (r: Result<(), Error>)
    requires |s.disk| == |files|
    modifies buf
    ensures buf.Length < size ==> r == Err(NotEnoughCapacity) && buf[..] == old(buf[..])
    ensures r.Ok? ==> var n := Min(buf.Length, SaturatingSub(Total(files), off));
                      GotFlat(files, s.disk, off, buf[..n]) && (forall k :: n <= k < buf.Length ==>
                        buf[k] == old(buf[k]))
    ensures buf.Length >= size && NoReadFails(files, s.disk, s.readFails) ==> r.Ok?
  {
    if buf.Length < size {
      return Err(NotEnoughCapacity);
    }
    var absOff: nat, w: nat, i: nat := off, 0, 0;
    ghost var got: seq<Byte> := [];
    while i < |files|
      invariant w <= buf.Length && AtFile(files, i, off, w, absOff)
      invariant buf[..w] == got && GotFlat(files, s.disk, off, got)
      invariant forall k :: w <= k < buf.Length ==> buf[k] == old(buf[k])
    {
      if absOff > files[i].len {
        absOff := absOff - files[i].len;
        i := i + 1;
        continue;
      }
      var n := Min(files[i].len - absOff, buf.Length - w);
      var seg := ReadSegment(s, files, i, absOff, n);
      if seg.Err? { return Err(seg.error); }
      assert |seg.value| == n;
      GotMore(files, s.disk, off, got, i, absOff, seg.value);
      CopyInto(buf, w, seg.value);
      got := got + seg.value;
      w := w + n;
      i := i + 1;
      if w == buf.Length { break; }
      absOff := 0;
    }
    WalkEnds(files, off, w, absOff, buf.Length, i);
    return Ok(());
  }

  /** `buf[at..at + |data|].copy_from_slice(data)`. */
  method CopyInto(buf: array<Byte>, at: nat, data: seq<Byte>)
    requires at + |data| <= buf.Length
    modifies buf
    ensures buf[..at + |data|] == old(buf[..at]) + data
    ensures forall k :: at + |data| <= k < buf.Length ==> buf[k] == old(buf[k])
  {
    for k := 0 to |data|
      invariant buf[..at + k] == old(buf[..at]) + data[..k]
      invariant forall j :: at + k <= j < buf.Length ==> buf[j] == old(buf[j])
    {
      buf[at + k] := data[k];
    }
  }

  /** A read of what was just written gives the written bytes back, with zeros in padding, however
      the range is spread over the files. */
  lemma ReadBackWhatWasWritten(files: seq<FileInfo>, before: seq<seq<Byte>>, after: seq<seq<Byte>>, off: nat,
                               data: seq<Byte>, got: seq<Byte>, k: nat)
    requires Written(files, before, after, off, data) && GotFlat(files, after, off, got) && k < |got| <= |data|
    ensures got[k] == if InPadding(files, off + k) then 0 else data[k]
  {
    var g := off + k;
    var i, j := Locate(files, |files|, g);
    FlatAt(files, after, |files|, i, j);
    assert WrittenAt(Start(files, i), files[i], before[i], after[i], off, data, j);
    if files[i].padding {
      assert InPadding(files, g);
    } else if InPadding(files, g) {
      var m :| 0 <= m < |files| && files[m].padding && Start(files, m) <= g < Start(files, m) + files[m].len;
      if i < m { StartMonotone(files, i, m); } else { StartMonotone(files, m, i); }
    }
  }
}
