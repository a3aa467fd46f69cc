/** A list of files seen as one flat array of bytes. */
module FlatFiles {
  import opened Prelude
  import opened TorrentLengths

  /** Where file `i` starts in the flat array. */
  function Start(files: seq<FileInfo>, i: nat): nat
    requires i <= |files|
  {
    if i == 0 then 0 else Start(files, i - 1) + files[i - 1].len
  }

  function Total(files: seq<FileInfo>): nat {
    Start(files, |files|)
  }

  /** What can be read of one file: padding reads as zeros, bytes past the end of the data
      on disk cannot be read. */
  function View(f: FileInfo, data: seq<Byte>): (v: seq<Option<Byte>>)
    ensures |v| == f.len
  {
    seq(f.len, k requires 0 <= k < f.len => if f.padding then Some(0) else if k < |data| then Some(data[k]) else None)
  }

  /** The first `i` files one after the other. */
  function Flat(files: seq<FileInfo>, disk: seq<seq<Byte>>, i: nat): (v: seq<Option<Byte>>)
    requires i <= |files| == |disk|
    ensures |v| == Start(files, i)
  {
    if i == 0 then [] else Flat(files, disk, i - 1) + View(files[i - 1], disk[i - 1])
  }

  function FlatAll(files: seq<FileInfo>, disk: seq<seq<Byte>>): (v: seq<Option<Byte>>)
    requires |files| == |disk|
    ensures |v| == Total(files)
  {
    Flat(files, disk, |files|)
  }

  lemma {:induction false} StartMonotone(files: seq<FileInfo>, i: nat, j: nat)
    requires i <= j <= |files|
    ensures Start(files, i) <= Start(files, j)
    ensures i < j ==> Start(files, i) + files[i].len <= Start(files, j)
    decreases j
  {
    if i < j { StartMonotone(files, i, j - 1); }
  }

  /** Byte `k` of file `i` in the flat array. */
  lemma {:induction false} FlatAt(files: seq<FileInfo>, disk: seq<seq<Byte>>, n: nat, i: nat, k: nat)
    requires i < n <= |files| == |disk| && k < files[i].len
    ensures Start(files, i) + k < Start(files, n)
    ensures Flat(files, disk, n)[Start(files, i) + k] == View(files[i], disk[i])[k]
  {
    if i < n - 1 { FlatAt(files, disk, n - 1, i, k); }
  }

  /** Every flat position belongs to some file. */
  lemma {:induction false} Locate(files: seq<FileInfo>, n: nat, g: nat) returns (i: nat, k: nat)
    requires n <= |files| && g < Start(files, n)
    ensures i < n && k < files[i].len && g == Start(files, i) + k
  {
    if g >= Start(files, n - 1) {
      i, k := n - 1, g - Start(files, n - 1);
    } else {
      i, k := Locate(files, n - 1, g);
    }
  }

  /** `got` are the positions `[off, off + |got|)` of `v`, all of them readable. */
  ghost predicate GotIn(v: seq<Option<Byte>>, off: nat, got: seq<Byte>) {
    && (got != [] ==> off + |got| <= |v|)
    && forall k :: 0 <= k < |got| ==> v[off + k] == Some(got[k])
  }

  lemma GotMoreIn(v: seq<Option<Byte>>, off: nat, got: seq<Byte>, more: seq<Byte>)
    requires GotIn(v, off, got) && GotIn(v, off + |got|, more)
    ensures GotIn(v, off, got + more)
  {
    var all := got + more;
    forall k | 0 <= k < |all| ensures off + k < |v| && v[off + k] == Some(all[k]) {
      if k >= |got| { assert v[off + |got| + (k - |got|)] == Some(more[k - |got|]); }
    }
  }

  /** A piece of one file is a piece of the flat array. */
  lemma SegmentIsFlat(files: seq<FileInfo>, disk: seq<seq<Byte>>, i: nat, a: nat, got: seq<Byte>, g: nat)
    requires i < |files| == |disk| && GotIn(View(files[i], disk[i]), a, got) && g == Start(files, i) + a
    ensures GotIn(FlatAll(files, disk), g, got)
  {
    var v := FlatAll(files, disk);
    forall k | 0 <= k < |got| ensures g + k < |v| && v[g + k] == Some(got[k]) {
      FlatAt(files, disk, |files|, i, a + k);
    }
    if got != [] { FlatAt(files, disk, |files|, i, a + (|got| - 1)); }
  }

  /** Zeros. */
  function Zeros(n: nat): (r: seq<Byte>)
    ensures |r| == n
  {
    seq(n, _ => 0)
  }

  /** Writing `data` at `off`: the file grows when needed, a gap reads as zeros. */
  function Overwrite(content: seq<Byte>, off: nat, data: seq<Byte>): (r: seq<Byte>)
  {
    if data == [] then content
    else
      var end := off + |data|;
      var base := if |content| < end then content + Zeros(end - |content|) else content;
      base[..off] + data + base[end..]
  }

  lemma OverwriteAt(content: seq<Byte>, off: nat, data: seq<Byte>, k: nat)
    ensures |content| <= |Overwrite(content, off, data)|
    ensures off <= k < off + |data| ==>
            k < |Overwrite(content, off, data)| && Overwrite(content, off, data)[k] == data[k - off]
    ensures k < |content| && !(off <= k < off + |data|) ==> Overwrite(content, off, data)[k] == content[k]
    ensures |content| <= k < |Overwrite(content, off, data)| && !(off <= k < off + |data|) ==>
            Overwrite(content, off, data)[k] == 0
  {
  }

  predicate AllReadable(v: seq<Option<Byte>>) {
    forall i :: 0 <= i < |v| ==> v[i].Some?
  }

  function BytesOf(v: seq<Option<Byte>>): (r: seq<Byte>)
    ensures |r| == |v|
  {
    seq(|v|, i requires 0 <= i < |v| => if v[i].Some? then v[i].value else 0)
  }

  /** What was got of a whole slice is the slice. */
  lemma GotWhole(v: seq<Option<Byte>>, off: nat, got: seq<Byte>)
    requires GotIn(v, off, got) && off + |got| <= |v|
    ensures AllReadable(v[off..off + |got|]) && BytesOf(v[off..off + |got|]) == got
  {
    var x := v[off..off + |got|];
    forall k | 0 <= k < |got| ensures x[k] == Some(got[k]) { assert v[off + k] == Some(got[k]); }
  }
}
