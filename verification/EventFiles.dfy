/** The files behind the event log: rotating them, and what a failed rotation leaves. */
module EventFiles {
  import opened Prelude
  import opened BencodeNumbers
  import opened EventLogs

  /** The segment files: 0 is the current one, `i` is `events.i.jsonl`. */
  type Disk = map<nat, Segment>

  function FileAt(disk: Disk, i: nat): Segment {
    if i in disk then disk[i] else []
  }

  /** Segments 1 to `n`, newest first. */
  ghost function Files(disk: Disk, n: nat): (segs: seq<Segment>)
    ensures |segs| == n && forall i :: 0 <= i < n ==> segs[i] == FileAt(disk, i + 1)
  {
    seq(n, i requires 0 <= i < n => FileAt(disk, i + 1))
  }

  function SumSizes(sizes: seq<nat>): nat {
    if sizes == [] then 0 else SumSizes(sizes[..|sizes| - 1]) + sizes[|sizes| - 1]
  }

  predicate HasSize(disk: Disk, i: nat, size: nat) {
    i in disk && |disk[i]| == size
  }

  ghost predicate SizesOf(disk: Disk, sizes: seq<nat>) {
    forall i :: 0 <= i < |sizes| ==> HasSize(disk, i + 1, sizes[i])
  }

  lemma {:induction false} SizesMatch(disk: Disk, sizes: seq<nat>)
    requires SizesOf(disk, sizes)
    ensures SumSizes(sizes) == Sum(Files(disk, |sizes|))
  {
    if sizes != [] {
      var n := |sizes| - 1;
      SizesMatch(disk, sizes[..n]);
      assert Files(disk, n + 1)[..n] == Files(disk, n);
      assert HasSize(disk, n + 1, sizes[n]);
    }
  }

  /** The first `m` of the files 1 to `n` of `b` are still there. */
  ghost predicate Shrunk(b: Disk, n: nat, c: Disk, m: nat) {
    m <= n && forall j: nat :: j <= m ==> SameAt(b, c, j)
  }

  lemma ShrunkAgain(a: Disk, n: nat, b: Disk, m: nat, c: Disk, k: nat)
    requires Shrunk(a, n, b, m) && Shrunk(b, m, c, k)
    ensures Shrunk(a, n, c, k)
  {
    forall j: nat | j <= k ensures SameAt(a, c, j) {
      assert SameAt(a, b, j) && SameAt(b, c, j);
    }
  }

  lemma ShrunkKeeps(b: Disk, n: nat, c: Disk, m: nat)
    requires Shrunk(b, n, c, m)
    ensures Files(c, m) == Files(b, m) == Files(b, n)[..m] && (Listed(b, n) ==> Listed(c, m))
  {
    forall i | 0 <= i < m ensures Files(c, m)[i] == Files(b, m)[i] {
      assert SameAt(b, c, i + 1);
    }
    forall j | 1 <= j <= m && Listed(b, n) ensures j in c {
      assert SameAt(b, c, j);
    }
  }

  lemma ShrunkSizes(b: Disk, sizes: seq<nat>, c: Disk, m: nat)
    requires SizesOf(b, sizes) && Shrunk(b, |sizes|, c, m)
    ensures SizesOf(c, sizes[..m])
  {
    forall i | 0 <= i < m ensures HasSize(c, i + 1, sizes[..m][i]) {
      assert SameAt(b, c, i + 1) && HasSize(b, i + 1, sizes[i]);
    }
  }

  lemma DropOneMore(b: Disk, n: nat, c: Disk, m: nat)
    requires DropsOnly(b, n, c, m) && m > 0
    ensures DropsOnly(b, n, c - {m}, m - 1)
  {
    var d, k := c - {m}, m - 1;
    forall p: nat ensures DropAt(b, n, d, k, p) {
      assert DropAt(b, n, c, m, p);
    }
  }

  /** What is left of the recorded sizes when the last are dropped until the rest and `extra` fit. */
  function Fitting(sizes: seq<nat>, extra: nat, budget: nat): (r: seq<nat>)
    ensures r <= sizes && (r == [] || SumSizes(r) + extra <= budget)
  {
    if sizes == [] || SumSizes(sizes) + extra <= budget then sizes else Fitting(sizes[..|sizes| - 1], extra, budget)
  }

  /** With the right sizes that is what the log drops. */
  lemma {:induction false} FittingDrops(b: Disk, sizes: seq<nat>, extra: nat, budget: nat)
    requires SizesOf(b, sizes)
    ensures DropOldest(Files(b, |sizes|), extra, budget) == Files(b, |Fitting(sizes, extra, budget)|)
  {
    SizesMatch(b, sizes);
    if sizes != [] && SumSizes(sizes) + extra > budget {
      var n := |sizes| - 1;
      FittingDrops(b, sizes[..n], extra, budget);
      assert Files(b, |sizes|)[..n] == Files(b, n);
    }
  }

  // ------------------------------------------------------------- shifting

  /** A shift that stopped before the file `at`: those above it, up to `n`, have moved up by one. */
  ghost predicate ShiftedFrom(a: Disk, b: Disk, n: nat, at: nat) {
    at <= n && (forall j :: at < j <= n ==> j in a) && forall p: nat :: ShiftedAt(a, b, n, at, p)
  }

  ghost predicate ShiftedAt(a: Disk, b: Disk, n: nat, at: nat, p: nat) {
    if at < p <= n + 1 && at < n then
      if p == at + 1 then p !in b else p in b && p - 1 in a && b[p] == a[p - 1]
    else SameAt(a, b, p)
  }

  ghost predicate SameAt(a: Disk, b: Disk, p: nat) {
    (p in a <==> p in b) && (p in a && p in b ==> a[p] == b[p])
  }

  lemma ShiftOne(a: Disk, b: Disk, n: nat, at: nat)
    requires ShiftedFrom(a, b, n, at) && 0 < at && at in b
    ensures ShiftedFrom(a, b[at + 1 := b[at]] - {at}, n, at - 1)
  {
    assert ShiftedAt(a, b, n, at, at);
    var c, next := b[at + 1 := b[at]] - {at}, at - 1;
    forall p: nat ensures ShiftedAt(a, c, n, next, p) {
      assert ShiftedAt(a, b, n, at, p);
    }
  }

  ghost predicate AllOnDisk(disk: Disk, contents: seq<Segment>) {
    forall i :: 0 <= i < |contents| ==> Stored(disk, contents[i])
  }

  ghost predicate Stored(disk: Disk, content: Segment) {
    exists k :: k in disk && disk[k] == content
  }

  /** A shift loses nothing, wherever it stops, if nothing is past the files it moves. */
  lemma ShiftStores(a: Disk, b: Disk, n: nat, at: nat, j: nat)
    requires ShiftedFrom(a, b, n, at) && j <= n && j in a
    ensures Stored(b, a[j])
  {
    assert ShiftedAt(a, b, n, at, j) && ShiftedAt(a, b, n, at, j + 1);
    if j <= at { assert b[j] == a[j]; } else { assert b[j + 1] == a[j]; }
  }

  lemma ShiftKeepsAll(a: Disk, b: Disk, n: nat, at: nat)
    requires 0 in a && (forall j :: 1 <= j <= n ==> j in a) && ShiftedFrom(a, b, n, at)
    ensures AllOnDisk(b, [FileAt(a, 0)] + Files(a, n))
  {
    var all := [FileAt(a, 0)] + Files(a, n);
    forall i | 0 <= i < |all| ensures Stored(b, all[i]) {
      ShiftStores(a, b, n, at, i);
    }
  }

  ghost predicate DistinctFiles(a: Disk) {
    forall i, j :: i in a && j in a && a[i] == a[j] ==> i == j
  }

  /** Files 1 to `n` are all there. */
  ghost predicate Listed(disk: Disk, n: nat) {
    forall j :: 1 <= j <= n ==> j in disk
  }

  /** Of the files 1 to `n` of `a`, after a shift that stopped before `at`: there is a gap of `m` after
      `at`, and what follows it, up to place `e`, has moved up by `m`. */
  ghost predicate Gapped(a: Disk, d: Disk, n: nat, at: nat, m: nat, e: nat) {
    1 <= m && at + m <= n <= e <= n + 1 && Listed(a, n) && forall p: nat :: GapAt(a, d, n, at, m, e, p)
  }

  ghost predicate GapAt(a: Disk, d: Disk, n: nat, at: nat, m: nat, e: nat, p: nat) {
    if at < p <= n + 1 then
      if at + m < p <= e then p in d && p - m in a && d[p] == a[p - m] else p !in d
    else 1 <= p <= at ==> SameAt(a, d, p)
  }

  lemma FirstGap(a: Disk, b: Disk, n: nat, at: nat)
    requires at < n && Listed(a, n) && ShiftedFrom(a, b, n, at)
    ensures Gapped(a, b, n, at, 1, n + 1)
  {
    var e := n + 1;
    forall p: nat ensures GapAt(a, b, n, at, 1, e, p) {
      assert ShiftedAt(a, b, n, at, p);
    }
  }

  /** Files `k + 1` to `n` are gone, and nothing else but the current one has changed. */
  ghost predicate DropsOnly(b: Disk, n: nat, c: Disk, k: nat) {
    k <= n && forall p: nat :: DropAt(b, n, c, k, p)
  }

  ghost predicate DropAt(b: Disk, n: nat, c: Disk, k: nat, p: nat) {
    if k < p <= n then p !in c else p >= 1 ==> SameAt(b, c, p)
  }

  lemma DropsSince(a: Disk, b: Disk, n: nat, c: Disk, k: nat)
    requires SameOthers(a, b) && DropsOnly(b, n, c, k)
    ensures DropsOnly(a, n, c, k)
  {
    forall p: nat ensures DropAt(a, n, c, k, p) {
      assert DropAt(b, n, c, k, p);
      if p != 0 { assert SameAt(a, b, p); }
    }
  }

  /** After dropping all but `k` files: what is listed is all there exactly when it ends before the gap. */
  lemma ListedIff(a: Disk, b: Disk, c: Disk, n: nat, at: nat, m: nat, e: nat, k: nat)
    requires Gapped(a, b, n, at, m, e) && DropsOnly(b, n, c, k)
    ensures Listed(c, k) <==> k <= at
    ensures k <= at ==> Files(c, k) == Files(a, k)
  {
    if k > at {
      assert GapAt(a, b, n, at, m, e, at + 1) && DropAt(b, n, c, k, at + 1);
    } else {
      forall j | 1 <= j <= k ensures j in c && SameAt(a, c, j) {
        assert GapAt(a, b, n, at, m, e, j) && DropAt(b, n, c, k, j);
      }
      forall i | 0 <= i < k ensures Files(c, k)[i] == Files(a, k)[i] {
        assert SameAt(a, c, i + 1);
      }
    }
  }

  /** The width of the gap after the next shift, with `k` files listed then, and where the files that
      follow it end. */
  function NextWidth(at: nat, m: nat, k: nat): nat
    requires at < k
  {
    if at + m < k then m + 1 else k - at
  }

  function NextEnd(at: nat, m: nat, e: nat, n: nat, k: nat): nat {
    if at + m < k then k + 1 else if k < n then k else e
  }

  lemma DroppedGap(a: Disk, b: Disk, c: Disk, n: nat, at: nat, m: nat, e: nat, k: nat)
    requires Gapped(a, b, n, at, m, e) && DropsOnly(b, n, c, k) && at < k
    ensures Gapped(a, c, k, at, if at + m <= k then m else k - at, if k < n then k else e)
  {
    var m', e' := if at + m <= k then m else k - at, if k < n then k else e;
    forall p: nat ensures GapAt(a, c, k, at, m', e', p) {
      assert GapAt(a, b, n, at, m, e, p) && DropAt(b, n, c, k, p);
    }
  }

  /** The gap is where the next shift stops, and that shift makes it wider by one, unless nothing
      listed follows it. */
  lemma NextGap(a: Disk, b: Disk, c: Disk, n: nat, at: nat, m: nat, e: nat, stop: nat)
    requires Gapped(a, b, n, at, m, e) && ShiftedFrom(b, c, n, stop) && 0 < stop <= n && stop !in b
    ensures stop == at + m && Gapped(a, c, n, at, NextWidth(at, m, n), NextEnd(at, m, e, n, n))
  {
    assert GapAt(a, b, n, at, m, e, stop) && GapAt(a, b, n, at, m, e, at + m);
    forall p: nat ensures GapAt(a, c, n, at, NextWidth(at, m, n), NextEnd(at, m, e, n, n), p) {
      assert ShiftedAt(b, c, n, stop, p) && GapAt(a, b, n, at, m, e, p);
      if p > 0 { assert GapAt(a, b, n, at, m, e, p - 1); }
    }
  }

  lemma GapAfterDrop(a: Disk, b: Disk, c: Disk, d: Disk, n: nat, at: nat, m: nat, e: nat, k: nat, stop: nat)
    requires Gapped(a, b, n, at, m, e) && DropsOnly(b, n, c, k) && at < k
    requires ShiftedFrom(c, d, k, stop) && 0 < stop && stop !in c
    ensures Gapped(a, d, k, at, NextWidth(at, m, k), NextEnd(at, m, e, n, k))
  {
    DroppedGap(a, b, c, n, at, m, e, k);
    NextGap(a, c, d, k, at, if at + m <= k then m else k - at, if k < n then k else e, stop);
  }

  /** In a place that a rotation reaches. */
  ghost predicate Within(d: Disk, n: nat, content: Segment) {
    exists k :: 1 <= k <= n + 1 && k in d && d[k] == content
  }

  /** Of the files that have moved, the gap has cost all but the first `e - at - m`. */
  lemma GapStores(a: Disk, d: Disk, n: nat, at: nat, m: nat, e: nat, j: nat)
    requires Gapped(a, d, n, at, m, e) && DistinctFiles(a) && 1 <= j && j in a
    ensures Within(d, n, a[j]) <==> j <= at || j + m <= e
  {
    if j <= at {
      assert GapAt(a, d, n, at, m, e, j) && d[j] == a[j];
    } else if j + m <= e {
      assert GapAt(a, d, n, at, m, e, j + m) && d[j + m] == a[j];
    } else {
      forall k | 1 <= k <= n + 1 && k in d ensures d[k] != a[j] {
        assert GapAt(a, d, n, at, m, e, k);
      }
    }
  }

  /** Nothing else of it is on disk when nothing is past these places but what was. */
  lemma WithinIsStored(a: Disk, d: Disk, n: nat, j: nat)
    requires DistinctFiles(a) && 1 <= j <= n && j in a && (forall p: nat :: p == 0 || p > n + 1 ==> SameAt(a, d, p))
    ensures Stored(d, a[j]) <==> Within(d, n, a[j])
  {
    if Stored(d, a[j]) {
      var k :| k in d && d[k] == a[j];
      assert k == 0 || k > n + 1 ==> SameAt(a, d, k);
    }
  }

  /** The current segment as a rotation keeps it when `size` is recorded for it. */
  function Cut(cur: Segment, size: nat, budget: nat): Segment {
    if size > budget then TrimToTail(cur, budget) else cur
  }

  /** What a rotation first makes of the files `b`, for which these sizes are recorded: it cuts the
      current one, and drops those that do not fit with it. */
  ghost predicate RoomMade(cap: nat, b: Disk, sizes: seq<nat>, size: nat, c: Disk) {
    && FileAt(c, 0) == Cut(FileAt(b, 0), size, Budget(cap)) && 0 in c
    && DropsOnly(b, |sizes|, c, |KeptSizes(cap, b, sizes, size)|)
  }

  /** The sizes that are recorded then. */
  function KeptSize(cap: nat, b: Disk, size: nat): nat {
    if size > Budget(cap) then |Cut(FileAt(b, 0), size, Budget(cap))| else size
  }

  function KeptSizes(cap: nat, b: Disk, sizes: seq<nat>, size: nat): seq<nat> {
    Fitting(sizes, KeptSize(cap, b, size), Budget(cap))
  }

  // ------------------------------------------------------------- what stays the same

  lemma AllListed(disk: Disk, sizes: seq<nat>)
    requires SizesOf(disk, sizes)
    ensures Listed(disk, |sizes|)
  {
    forall j | 1 <= j <= |sizes| ensures j in disk {
      assert HasSize(disk, (j - 1) + 1, sizes[j - 1]);
    }
  }

  ghost predicate SameOthers(a: Disk, b: Disk) {
    forall j: nat :: j != 0 ==> SameAt(a, b, j)
  }

  lemma OthersStay(b: Disk, c: Disk, n: nat)
    requires SameOthers(b, c)
    ensures Files(c, n) == Files(b, n)
  {
    forall i | 0 <= i < n ensures Files(c, n)[i] == Files(b, n)[i] {
      assert SameAt(b, c, i + 1);
    }
  }

  /** The rotated files are not affected. */
  lemma RotatedStay(b: Disk, c: Disk, sizes: seq<nat>)
    requires SizesOf(b, sizes) && SameOthers(b, c)
    ensures SizesOf(c, sizes) && Files(c, |sizes|) == Files(b, |sizes|)
  {
    forall i | 0 <= i < |sizes| ensures HasSize(c, i + 1, sizes[i]) && FileAt(c, i + 1) == FileAt(b, i + 1) {
      assert HasSize(b, i + 1, sizes[i]) && SameAt(b, c, i + 1);
    }
    var n := |sizes|;
    forall i | 0 <= i < n ensures Files(c, n)[i] == Files(b, n)[i] {
      assert HasSize(c, i + 1, sizes[i]);
    }
  }

  /** After the shift the former current file is the first, and the others follow in order. */
  lemma NewFirst(b: Disk, c: Disk, d: Disk, n: nat)
    requires Listed(b, n) && ShiftedFrom(b, c, n, 0) && 0 in c && d == c[1 := c[0]] - {0}
    ensures Listed(d, n + 1) && Files(d, n + 1) == [c[0]] + Files(b, n) && FileAt(d, 0) == []
  {
    var files := [c[0]] + Files(b, n);
    forall i | 0 <= i < n + 1 ensures i + 1 in d && d[i + 1] == files[i] {
      assert ShiftedAt(b, c, n, 0, i + 1);
    }
    forall j | 1 <= j <= n + 1 ensures j in d {
      assert ShiftedAt(b, c, n, 0, j);
    }
    assert Files(d, n + 1) == files;
  }

  lemma FirstSize(d: Disk, first: Segment, b: Disk, sizes: seq<nat>)
    requires SizesOf(b, sizes) && Listed(d, |sizes| + 1) && Files(d, |sizes| + 1) == [first] + Files(b, |sizes|)
    ensures SizesOf(d, [|first|] + sizes)
  {
    var all, files := [|first|] + sizes, [first] + Files(b, |sizes|);
    forall i | 0 <= i < |all| ensures HasSize(d, i + 1, all[i]) {
      assert Files(d, |sizes| + 1)[i] == files[i];
      if i > 0 { assert HasSize(b, (i - 1) + 1, sizes[i - 1]); }
    }
  }

  /** The segments a rotation keeps of `log` when `size` is recorded for the current one and `sizes`
      for the others: that one, cut if it is taken to be too long, and those taken to fit with it. */
  ghost predicate Kept(log: Log, size: nat, sizes: seq<nat>, segs: seq<Segment>) {
    var budget := Budget(log.cap);
    var cur := Cut(log.cur, size, budget);
    var m := |Fitting(sizes, if size > budget then |cur| else size, budget)|;
    m <= |log.rotated| && segs == [cur] + log.rotated[..m]
  }

  /** `next` is `log` with the first `k` bytes of a line added, after a rotation if it needs one. */
  ghost predicate GoesOn(log: Log, next: Log, size: nat, sizes: seq<nat>, line: seq<Octet>, k: nat) {
    && k <= |line| && next.cap == log.cap
    && if size > 0 && size + |line| > SegmentSize(log.cap) then
        next.cur == line[..k] && Kept(log, size, sizes, next.rotated)
      else next.cur == log.cur + line[..k] && next.rotated == log.rotated
  }

  lemma {:induction false} SumSizesCons(x: nat, sizes: seq<nat>)
    ensures SumSizes([x] + sizes) == x + SumSizes(sizes)
  {
    var all := [x] + sizes;
    if sizes != [] {
      var n := |sizes| - 1;
      SumSizesCons(x, sizes[..n]);
      assert all[..|all| - 1] == [x] + sizes[..n];
    } else {
      assert all[..0] == [];
    }
  }

  // ------------------------------------------------------------- the rotator

  class Rotator {
    var disk: Disk
    var cap: nat
    var curSize: nat
    var rotated: seq<nat>
    /** Which of the steps that can fail do so, and how many have been taken. */
    const fail: nat -> bool
    var clock: nat

    /** The recorded sizes are those of the files. Files past the recorded ones may be left over
        from a removal that failed. */
    ghost predicate Valid()
      reads this
    {
      curSize == |FileAt(disk, 0)| && SizesOf(disk, rotated)
    }

    /** The listed files are there, whatever their sizes are: a line written in part is not recorded. */
    ghost predicate Present()
      reads this
    {
      (curSize > 0 ==> 0 in disk) && Listed(disk, |rotated|)
    }

    lemma ValidIsPresent()
      requires Valid()
      ensures Present()
    {
      AllListed(disk, rotated);
    }

    ghost function Abs(): Log
      reads this
    {
      Log(cap, FileAt(disk, 0), Files(disk, |rotated|))
    }

    /** No step fails from now on. */
    ghost predicate Smooth()
      reads this
    {
      forall i :: clock <= i ==> !fail(i)
    }

    method Step() returns (bad: bool)
      modifies this`clock
      ensures clock == old(clock) + 1 && bad == fail(old(clock))
    {
      bad, clock := fail(clock), clock + 1;
    }

    /** Takes the last file off the list; it may stay on disk when it cannot be removed. */
    method PopOldest(mustRemove: bool) returns (ok: bool)
      requires rotated != []
      modifies this`disk, this`rotated, this`clock
      ensures clock > old(clock) && Shrunk(old(disk), |old(rotated)|, disk, |rotated|)
      ensures ok <==> !(mustRemove && fail(old(clock)) && |old(rotated)| in old(disk))
      ensures if ok then rotated == old(rotated[..|rotated| - 1]) else disk == old(disk) && rotated == old(rotated)
      ensures !fail(old(clock)) ==> ok && disk == old(disk) - {|old(rotated)|}
    {
      var n := |rotated|;
      var fails := Step();
      if fails && mustRemove && n in disk { return false; }
      if !fails { disk := disk - {n}; }
      rotated := rotated[..n - 1];
      ok := true;
    }

    /** Drops the oldest files until the rest and `extra` fit. */
    method DropUntilFits(extra: nat, mustRemove: bool) returns (ok: bool)
      modifies this`disk, this`rotated, this`clock
      ensures clock >= old(clock) && (!mustRemove || old(Smooth()) ==> ok)
      ensures SumSizes(old(rotated)) + extra <= Budget(cap) ==> ok && disk == old(disk) && clock == old(clock)
      ensures ok ==> rotated == Fitting(old(rotated), extra, Budget(cap))
      ensures Shrunk(old(disk), |old(rotated)|, disk, |rotated|) && SameAt(old(disk), disk, 0)
      ensures old(Smooth()) ==> DropsOnly(old(disk), |old(rotated)|, disk, |rotated|)
      ensures old(Valid()) ==> Valid()
      ensures old(Valid()) && ok ==>
                Files(disk, |rotated|) == DropOldest(old(Files(disk, |rotated|)), extra, Budget(cap))
    {
      var budget := Budget(cap);
      ghost var b, sizes := disk, rotated;
      ok := true;
      while ok && rotated != [] && SumSizes(rotated) + extra > budget
        invariant Shrunk(b, |sizes|, disk, |rotated|) && rotated <= sizes && clock >= old(clock)
        invariant Fitting(rotated, extra, budget) == Fitting(sizes, extra, budget)
        invariant SumSizes(sizes) + extra <= budget ==> ok && disk == b && rotated == sizes && clock == old(clock)
        invariant !mustRemove || old(Smooth()) ==> ok
        invariant old(Smooth()) ==> DropsOnly(b, |sizes|, disk, |rotated|)
        decreases ok, |rotated|
      {
        ghost var c, m := disk, |rotated|;
        ok := PopOldest(mustRemove);
        ShrunkAgain(b, |sizes|, c, m, disk, |rotated|);
        if old(Smooth()) { DropOneMore(b, |sizes|, c, m); }
      }
      if SizesOf(b, sizes) {
        ShrunkSizes(b, sizes, disk, |rotated|);
        ShrunkKeeps(b, |sizes|, disk, |rotated|);
        FittingDrops(b, sizes, extra, budget);
      }
    }

    /** Renames every rotated file up by one, the last first. It stops at a step that fails, and at a
        file that is not there. */
    method ShiftUp() returns (ok: bool, ghost at: nat)
      modifies this`disk, this`clock
      ensures ShiftedFrom(old(disk), disk, |rotated|, at) && (ok <==> at == 0)
      ensures clock == old(clock) + (|rotated| - at) + (if ok then 0 else 1)
      ensures forall i :: old(clock) <= i < old(clock) + |rotated| - at ==> !fail(i)
      ensures !ok ==> fail(clock - 1) || at !in old(disk)
    {
      var i, n := |rotated|, |rotated|;
      at := n;
      while i > 0
        invariant 0 <= i == at <= n == |rotated| && ShiftedFrom(old(disk), disk, n, i)
        invariant clock == old(clock) + (n - at) && forall k :: old(clock) <= k < clock ==> !fail(k)
      {
        var fails := Step();
        assert ShiftedAt(old(disk), disk, n, i, i);
        if fails || i !in disk { return false, at; }
        ShiftOne(old(disk), disk, n, i);
        disk := disk[i + 1 := disk[i]] - {i};
        i, at := i - 1, at - 1;
      }
      ok := true;
    }

    /** Cuts the current segment down to what the budget can hold. */
    method TrimCurrent() returns (ok: bool)
      modifies this`disk, this`curSize, this`clock
      ensures clock >= old(clock) && (!ok ==> disk == old(disk) && curSize == old(curSize))
              && (0 in old(disk) ==> 0 in disk)
      ensures old(curSize) <= Budget(cap) ==> ok && disk == old(disk) && curSize == old(curSize) && clock == old(clock)
      ensures ok ==> curSize <= Budget(cap)
      ensures old(Present()) && old(curSize) > 0 && old(Smooth()) ==> ok
      ensures SameOthers(old(disk), disk) && (old(Present()) ==> Present())
      ensures ok ==> FileAt(disk, 0) == Cut(old(FileAt(disk, 0)), old(curSize), Budget(cap))
      ensures 0 in old(disk) && old(Smooth()) ==> ok
      ensures ok ==> curSize == if old(curSize) > Budget(cap) then |FileAt(disk, 0)| else old(curSize)
      ensures old(Valid()) && ok ==>
                Valid() && FileAt(disk, 0) == Head(old(Abs())) && Files(disk, |rotated|) == old(Abs()).rotated
    {
      ok := true;
      if curSize > Budget(cap) {
        var fails := Step();
        if fails || 0 !in disk { return false; }
        ghost var b := disk;
        TrimToTailFits(disk[0], Budget(cap));
        disk := disk[0 := TrimToTail(disk[0], Budget(cap))];
        curSize := |disk[0]|;
        if SizesOf(b, rotated) { RotatedStay(b, disk, rotated); }
      }
    }

    /** The current file and those listed are what a rotation of `log` keeps. */
    ghost predicate Ready(log: Log)
      reads this
    {
      && Valid() && log.cap == cap && [FileAt(disk, 0)] + Files(disk, |rotated|) == Rotated(log).rotated
      && Fits()
    }

    /** Drops what will not fit. */
    method MakeRoom() returns (ok: bool)
      modifies this`disk, this`curSize, this`rotated, this`clock
      ensures clock >= old(clock) && (!ok ==> disk == old(disk) && curSize == old(curSize) && rotated == old(rotated))
      ensures 0 in old(disk) ==> 0 in disk
      ensures old(Fits()) ==>
                ok && disk == old(disk) && curSize == old(curSize) && rotated == old(rotated) && clock == old(clock)
      ensures old(Present()) && old(curSize) > 0 && old(Smooth()) ==> ok
      ensures old(Valid()) && ok ==> Ready(old(Abs()))
      ensures old(Present()) && ok ==>
                Present() && Kept(old(Abs()), old(curSize), old(rotated), [FileAt(disk, 0)] + Files(disk, |rotated|))
      ensures ok ==> Fits()
      ensures 0 in old(disk) && old(Smooth()) ==>
                && ok && RoomMade(cap, old(disk), old(rotated), old(curSize), disk)
                && rotated == KeptSizes(cap, old(disk), old(rotated), old(curSize))
                && curSize == KeptSize(cap, old(disk), old(curSize))
    {
      ghost var log, size0 := Abs(), curSize;
      RotatedFits(log);
      TrimToTailFits(log.cur, Budget(cap));
      ok := TrimCurrent();
      if !ok { return; }
      OthersStay(old(disk), disk, |rotated|);
      ghost var b, sizes := disk, rotated;
      var dropped := DropUntilFits(curSize, false);
      assert SameAt(b, disk, 0);
      KeptFiles(log, size0, sizes, curSize, b, disk);
      if old(Smooth()) { DropsSince(old(disk), b, |sizes|, disk, |rotated|); }
    }

    lemma KeptFiles(log: Log, size0: nat, sizes: seq<nat>, size: nat, b: Disk, c: Disk)
      requires log.cap == cap && FileAt(c, 0) == Cut(log.cur, size0, Budget(cap)) && log.rotated == Files(b, |sizes|)
      requires size == (if size0 > Budget(cap) then |FileAt(c, 0)| else size0)
      requires rotated == Fitting(sizes, size, Budget(cap)) && Shrunk(b, |sizes|, c, |rotated|)
      ensures Kept(log, size0, sizes, [FileAt(c, 0)] + Files(c, |rotated|))
      ensures Listed(b, |sizes|) ==> Listed(c, |rotated|)
    {
      ShrunkKeeps(b, |sizes|, c, |rotated|);
    }

    /** The files `a` have moved up by one, and there is no current one. */
    ghost predicate MovedOn(a: Disk, n: nat)
      reads this
    {
      && Present() && FileAt(disk, 0) == [] && |rotated| == n + 1
      && Files(disk, n + 1) == [FileAt(a, 0)] + Files(a, n)
    }

    /** The current file becomes the first rotated one. */
    method PutFirst() returns (ok: bool, ghost at: nat)
      modifies this`disk, this`curSize, this`rotated, this`clock
      ensures clock > old(clock)
      ensures !ok ==> ShiftedFrom(old(disk), disk, |rotated|, at) && rotated == old(rotated) && curSize == old(curSize)
      ensures !ok ==> fail(clock - 1) || (at > 0 && at !in old(disk))
      ensures Listed(old(disk), |old(rotated)|)
              && (forall i :: old(clock) <= i < old(clock) + |old(rotated)| ==> !fail(i)) ==>
                at == 0 && clock == old(clock) + |old(rotated)| + 1 && (ok <==> !fail(clock - 1))
      ensures 0 in old(disk) && ok ==> MovedOn(old(disk), |old(rotated)|)
      ensures old(Valid()) && 0 in old(disk) && ok ==> Valid()
      ensures ok ==> SumSizes(rotated) <= old(SumSizes(rotated)) + old(curSize)
      ensures ok ==> Listed(old(disk), |old(rotated)|)
    {
      ghost var b := disk;
      ok, at := ShiftUp();
      if !ok { return; }
      var fails := Step();
      if fails { return false, at; }
      assert ShiftedAt(b, disk, |rotated|, 0, 0);
      if 0 in disk {
        ghost var c := disk;
        disk := disk[1 := disk[0]] - {0};
        NewFirst(b, c, disk, |rotated|);
        if old(Valid()) { FirstSize(disk, c[0], b, rotated); }
        SumSizesCons(curSize, rotated);
        rotated := [curSize] + rotated;
      }
      curSize := 0;
    }

    /** What is left by a rotation that failed: the files `a` in the middle of a shift. */
    ghost predicate Interrupted(a: Disk, at: nat)
      reads this
    {
      0 in a && Listed(a, |rotated|) && ShiftedFrom(a, disk, |rotated|, at) && Fits()
    }

    /** What is left of the files `a` then: a gap of `m` after place `at`, and some that follow it. */
    ghost predicate Broken(a: Disk, at: nat, m: nat, e: nat)
      reads this
    {
      Gapped(a, disk, |rotated|, at, m, e) && 0 in disk
    }

    /** A rotation from the files `a` in which no step fails: it works if all listed are there, and
        stops at one that is not. */
    ghost predicate Tried(a: Disk, sizes: seq<nat>, size: nat, ok: bool, at: nat)
      reads this
    {
      if ok then Listed(a, |sizes|) && MovedOn(a, |sizes|)
      else rotated == sizes && curSize == size && ShiftedFrom(a, disk, |sizes|, at) && at > 0 && at !in a
    }

    /** Of the steps from `from` on, the first `n` do not fail, and the next one does. */
    ghost predicate FailsAt(from: nat, n: nat) {
      (forall i :: from <= i < from + n ==> !fail(i)) && fail(from + n)
    }

    /** Only a shift was tried from the files `a`: all were there if it worked, and otherwise it
        stopped before `at`, which is 0 if they were there and only the last step failed. */
    ghost predicate ShiftTried(a: Disk, rotated0: seq<nat>, size0: nat, clock0: nat, ok: bool, at: nat)
      reads this
    {
      && (ok ==> Listed(a, |rotated0|)) && (!ok ==> ShiftFailed(a, rotated0, size0, clock0, at))
      && (Listed(a, |rotated0|) && FailsAt(clock0, |rotated0|) ==>
            !ok && at == 0 && clock == clock0 + |rotated0| + 1)
    }

    /** The part of a rotation that moves files. */
    method Advance() returns (ok: bool, ghost at: nat)
      requires Fits()
      modifies this`disk, this`curSize, this`rotated, this`clock
      ensures clock >= old(clock)
      ensures ShiftTried(old(disk), old(rotated), old(curSize), old(clock), ok, at)
      ensures 0 in old(disk) && ok ==> MovedOn(old(disk), |old(rotated)|)
      ensures old(Valid()) && 0 in old(disk) && ok ==> Valid()
      ensures old(Present()) && old(Smooth()) ==> ok
      ensures 0 in old(disk) && old(Smooth()) ==> Tried(old(disk), old(rotated), old(curSize), ok, at)
    {
      ok, at := PutFirst();
      if !ok { return; }
      ok := DropUntilFits(0, true);
    }

    /** Turns the current segment into the newest rotated one. When a step fails, either nothing has
        happened or the files that the rotation was to keep are in the middle of a shift. */
    method Rotate() returns (ok: bool, ghost a: Disk, ghost at: nat)
      modifies this`disk, this`curSize, this`rotated, this`clock
      ensures clock >= old(clock)
      ensures old(Valid()) && old(curSize) > 0 && ok ==> Valid() && Abs() == Rotated(old(Abs()))
      ensures old(Valid()) && old(curSize) > 0 && !ok ==> RotationFailed(old(disk), old(rotated), old(Abs()), a, at)
      ensures old(Present()) && old(curSize) > 0 && ok ==>
                && Present() && FileAt(disk, 0) == []
                && Kept(old(Abs()), old(curSize), old(rotated), Files(disk, |rotated|))
      ensures old(Present()) && old(curSize) > 0 && !ok ==>
                (Present() && Abs() == old(Abs())) || Halted(old(Abs()), old(curSize), old(rotated), a, at)
      ensures old(Present()) && old(curSize) > 0 && old(Smooth()) ==> ok
      ensures old(Fits()) ==>
                a == old(disk) && ShiftTried(a, old(rotated), old(curSize), old(clock), ok, at)
      ensures 0 in old(disk) && old(Smooth()) ==> TriedFrom(old(disk), old(rotated), old(curSize), a, ok, at)
    {
      a, at := disk, |rotated|;
      if Valid() { ValidIsPresent(); }
      ok := MakeRoom();
      if !ok { return; }
      a := disk;
      ok, at := Finish(old(Abs()), old(curSize), old(rotated), old(Valid() && curSize > 0),
        old(Present() && curSize > 0));
    }

    /** The rest of a rotation of `log`, when there is room. */
    method Finish(ghost log: Log, ghost size: nat, ghost sizes: seq<nat>, ghost valid: bool, ghost present: bool)
        returns (ok: bool, ghost at: nat)
      requires Fits() && (valid ==> Ready(log) && present)
      requires present ==>
                 Present() && 0 in disk && Kept(log, size, sizes, [FileAt(disk, 0)] + Files(disk, |rotated|))
      modifies this`disk, this`curSize, this`rotated, this`clock
      ensures clock >= old(clock) && ShiftTried(old(disk), old(rotated), old(curSize), old(clock), ok, at)
      ensures valid && ok ==> Valid() && Abs() == Rotated(log)
      ensures valid && !ok ==> Interrupted(old(disk), at) && HeldBack(old(disk), Rotated(log).rotated)
      ensures present && ok ==> Present() && FileAt(disk, 0) == [] && Kept(log, size, sizes, Files(disk, |rotated|))
      ensures present && !ok ==> Halted(log, size, sizes, old(disk), at)
      ensures present && old(Smooth()) ==> ok
      ensures 0 in old(disk) && old(Smooth()) ==> Tried(old(disk), old(rotated), old(curSize), ok, at)
    {
      ghost var a := disk;
      ok, at := Advance();
      if ok && valid { RotationDone(log, a, |rotated| - 1); }
    }

    /** The files `a` are these segments. */
    ghost predicate HeldBack(a: Disk, segs: seq<Segment>)
      reads this
    {
      [FileAt(a, 0)] + Files(a, |rotated|) == segs
    }

    lemma RotationDone(log: Log, a: Disk, n: nat)
      requires MovedOn(a, n) && log.cap == cap && [FileAt(a, 0)] + Files(a, n) == Rotated(log).rotated
      ensures Abs() == Rotated(log)
    {
    }

    /** A rotation from the files `b` in which no step fails: it makes room, which leaves the files `a`,
        and goes on from these. */
    ghost predicate TriedFrom(b: Disk, sizes: seq<nat>, size: nat, a: Disk, ok: bool, at: nat)
      reads this
    {
      && RoomMade(cap, b, sizes, size, a)
      && Tried(a, KeptSizes(cap, b, sizes, size), KeptSize(cap, b, size), ok, at)
    }

    /** What a rotation of `log` was to keep is in the middle of a shift. */
    ghost predicate Halted(log: Log, size: nat, sizes: seq<nat>, a: Disk, at: nat)
      reads this
    {
      Interrupted(a, at) && Kept(log, size, sizes, [FileAt(a, 0)] + Files(a, |rotated|))
    }

    /** Everything fits as it is. */
    ghost predicate Fits()
      reads this
    {
      SumSizes(rotated) + curSize <= Budget(cap)
    }

    ghost predicate RotationFailed(disk0: Disk, rotated0: seq<nat>, log: Log, a: Disk, at: nat)
      reads this
    {
      || (Valid() && disk == disk0 && rotated == rotated0)
      || (Interrupted(a, at) && HeldBack(a, Rotated(log).rotated))
    }

    /** Only a shift was tried, and it stopped before `at`. */
    ghost predicate ShiftFailed(disk0: Disk, rotated0: seq<nat>, size0: nat, clock0: nat, at: nat)
      reads this
    {
      && rotated == rotated0 && curSize == size0 && ShiftedFrom(disk0, disk, |rotated|, at) && clock > clock0
      && (fail(clock - 1) || (at > 0 && at !in disk0))
    }

    /** Appends as much of a line to the current file as the system takes. */
    method WriteLine(line: seq<Octet>) returns (k: nat)
      modifies this`disk, this`clock
      ensures k <= |line| && FileAt(disk, 0) == old(FileAt(disk, 0)) + line[..k]
      ensures SameOthers(old(disk), disk) && clock > old(clock) && (!fail(old(clock)) ==> k == |line|)
      ensures k > 0 || 0 in old(disk) ==> 0 in disk
    {
      var fails := Step();
      k := |line|;
      if fails {
        var created: bool := *;
        if !created {
          assert line[..0] == [];
          return 0;
        }
        k :| 0 <= k <= |line|;
      }
      disk := disk[0 := FileAt(disk, 0) + line[..k]];
    }

    /** Adds a line to the current segment. */
    method AddLine(line: seq<Octet>) returns (ok: bool, ghost k: nat)
      modifies this`disk, this`curSize, this`clock
      ensures clock >= old(clock) && k <= |line| && (ok ==> k == |line|) && (old(Smooth()) ==> ok)
      ensures SameOthers(old(disk), disk)
      ensures Abs() == old(Abs()).(cur := old(FileAt(disk, 0)) + line[..k])
      ensures old(Present()) ==> Present()
      ensures old(Valid()) && ok ==> Valid()
      ensures ok ==> curSize == old(curSize) + |line|
      ensures 0 in old(disk) ==> 0 in disk
    {
      ghost var b := disk;
      var written := WriteLine(line);
      k, ok := written, written == |line|;
      OthersStay(b, disk, |rotated|);
      if SizesOf(b, rotated) { RotatedStay(b, disk, rotated); }
      forall j | 1 <= j <= |rotated| && Listed(b, |rotated|) ensures j in disk {
        assert SameAt(b, disk, j);
      }
      if ok { curSize := curSize + |line|; }
    }

    ghost predicate NeedsRotation(line: seq<Octet>)
      reads this
    {
      curSize > 0 && curSize + |line| > SegmentSize(cap)
    }

    /** Rotates if the line does not fit the current segment. */
    method Prepare(line: seq<Octet>) returns (ok: bool, ghost a: Disk, ghost at: nat)
      modifies this`disk, this`curSize, this`rotated, this`clock
      ensures clock >= old(clock) && (old(Present()) && old(Smooth()) ==> ok)
      ensures !old(NeedsRotation(line)) ==>
              ok && disk == old(disk) && curSize == old(curSize) && rotated == old(rotated)
      ensures old(Valid()) && old(NeedsRotation(line)) && ok ==> Valid() && Abs() == Rotated(old(Abs()))
      ensures old(Valid()) && !ok ==> NoneLost(old(Abs()), old(disk), disk, line)
      ensures old(Present()) && ok ==> Present()
      ensures old(Present()) && old(NeedsRotation(line)) && ok ==>
                FileAt(disk, 0) == [] && Kept(old(Abs()), old(curSize), old(rotated), Files(disk, |rotated|))
      ensures old(Present()) && !ok ==> Stuck(old(Abs()), old(curSize), old(rotated), line)
      ensures old(NeedsRotation(line)) && 0 in old(disk) && old(Smooth()) ==>
                TriedFrom(old(disk), old(rotated), old(curSize), a, ok, at)
    {
      ok, a, at := true, disk, 0;
      if Valid() { ValidIsPresent(); }
      if curSize > 0 && curSize + |line| > SegmentSize(cap) {
        ghost var log, valid := Abs(), Valid();
        ok, a, at := Rotate();
        if !ok && valid { FailedKeeps(log, old(disk), old(rotated), a, at, line); }
      }
    }

    /** The line was added to the current one of the files `b`. */
    ghost predicate WroteMore(b: Disk, sizes: seq<nat>, size: nat, line: seq<Octet>)
      reads this
    {
      && SameOthers(b, disk) && 0 in disk && FileAt(disk, 0) == FileAt(b, 0) + line && rotated == sizes
      && curSize == size + |line|
    }

    /** The line was added to a new file, after a rotation that made the files `a` of `b` to go on from. */
    ghost predicate WroteNew(b: Disk, sizes: seq<nat>, size: nat, a: Disk, line: seq<Octet>)
      reads this
    {
      var n := |KeptSizes(cap, b, sizes, size)|;
      && RoomMade(cap, b, sizes, size, a) && Listed(a, n) && Present()
      && Abs() == Log(cap, line, [FileAt(a, 0)] + Files(a, n))
    }

    /** Adds a line, rotating first when it does not fit the current segment. */
    method Append(line: seq<Octet>) returns (ok: bool, ghost a: Disk, ghost at: nat)
      modifies this`disk, this`curSize, this`rotated, this`clock
      ensures clock >= old(clock)
      ensures old(Valid()) && ok ==> Valid() && Abs() == Appended(old(Abs()), line)
      ensures old(Valid()) && ok && old(WithinCap(Abs())) && |line| <= SegmentSize(cap) ==> WithinCap(Abs())
      ensures old(Valid()) && !ok ==> NoneLost(old(Abs()), old(disk), disk, line)
      ensures old(Present()) && ok ==> Present() && GoesOn(old(Abs()), Abs(), old(curSize), old(rotated), line, |line|)
      ensures old(Present()) && !ok ==> Stuck(old(Abs()), old(curSize), old(rotated), line)
      ensures old(Valid() || Present()) && old(Smooth()) ==> ok
      ensures 0 in old(disk) && old(Smooth()) && !old(NeedsRotation(line)) ==>
                ok && WroteMore(old(disk), old(rotated), old(curSize), line)
      ensures 0 in old(disk) && old(Smooth()) && old(NeedsRotation(line)) ==>
                if ok then WroteNew(old(disk), old(rotated), old(curSize), a, line)
                else TriedFrom(old(disk), old(rotated), old(curSize), a, false, at)
    {
      ghost var log, size, sizes, valid := Abs(), curSize, rotated, Valid();
      if Valid() { ValidIsPresent(); }
      ok, a, at := Prepare(line);
      if !ok { return; }
      ghost var b := disk;
      ghost var k: nat;
      ok, k := AddLine(line);
      assert line[..|line|] == line;
      if old(Present()) { assert GoesOn(log, Abs(), size, sizes, line, k); }
      if valid && !ok { PartLeft(log, old(disk), b, disk, rotated, line, k); }
      if WithinCap(log) && |line| <= SegmentSize(cap) { AppendKeepsCap(log, line); }
    }

    /** After an append that failed: nothing has happened, or part of the line was written, or a
        rotation stopped halfway. */
    ghost predicate Stuck(log: Log, size: nat, sizes: seq<nat>, line: seq<Octet>)
      reads this
    {
      || (Present() && (Abs() == log || exists k :: GoesOn(log, Abs(), size, sizes, line, k)))
      || exists a, at :: Halted(log, size, sizes, a, at)
    }

    lemma FailedKeeps(log: Log, disk0: Disk, rotated0: seq<nat>, a: Disk, at: nat, line: seq<Octet>)
      requires RotationFailed(disk0, rotated0, log, a, at)
      ensures NoneLost(log, disk0, disk, line)
    {
      if disk == disk0 {
        assert FileAt(disk0, 0) == FileAt(disk0, 0) + line[..0];
      } else {
        ShiftKeepsAll(a, disk, |rotated|, at);
      }
    }

    /** Brings the log within its cap. */
    method Enforce() returns (ok: bool)
      modifies this`disk, this`curSize, this`rotated, this`clock
      ensures clock >= old(clock)
      ensures old(Valid()) && ok ==> Valid() && Abs() == Enforced(old(Abs())) && WithinCap(Abs())
      ensures old(Valid()) && old(Smooth()) ==> ok
    {
      EnforceMakesCap(Abs());
      if Valid() { ValidIsPresent(); }
      if curSize > SegmentSize(cap) {
        ghost var a: Disk, at: nat;
        ok, a, at := Rotate();
      } else {
        ok := DropUntilFits(0, true);
      }
    }

    method SetCap(newCap: nat) returns (ok: bool)
      modifies this`disk, this`curSize, this`rotated, this`clock, this`cap
      ensures cap == newCap
      ensures old(Valid()) && ok ==> Valid() && (WithinCap(Abs()) || (newCap == old(cap) && !WithinCap(old(Abs()))))
      ensures newCap == old(cap) ==> ok && Abs() == old(Abs())
      ensures old(Valid()) && ok && newCap != old(cap) ==> Abs() == Enforced(old(Abs()).(cap := newCap))
      ensures old(Valid()) && old(Smooth()) ==> ok
    {
      ok := true;
      if newCap != cap {
        cap := newCap;
        ok := Enforce();
      }
    }

    /** Finds the segments on disk, up to the first gap, and removes what lies past it. */
    constructor OpenRaw(files: Disk, limit: nat, fail: nat -> bool)
      ensures Valid() && cap == limit && this.fail == fail
      ensures FileAt(disk, 0) == FileAt(files, 0) && Files(disk, |rotated|) == Files(files, |rotated|)
      ensures |rotated| + 1 !in files && forall i :: 1 <= i <= |rotated| ==> i in files
      ensures Sweeps(files, disk, |rotated|)
      ensures (forall i :: !fail(i)) ==> Swept(files, disk, |rotated|)
    {
      disk, cap, curSize, rotated, this.fail, clock := files, limit, |FileAt(files, 0)|, [], fail, 0;
      new;
      ghost var ahead := files.Keys;
      while |rotated| + 1 in disk
        invariant Valid() && disk == files && cap == limit && curSize == |FileAt(files, 0)|
        invariant forall i :: 1 <= i <= |rotated| ==> i in files
        invariant forall i :: i in files && i > |rotated| ==> i in ahead
        decreases |ahead|
      {
        ahead := ahead - {|rotated| + 1};
        rotated := rotated + [|disk[|rotated| + 1]|];
      }
      Sweep();
    }

    /** Removes the files that follow the first gap. */
    method Sweep()
      requires Valid()
      modifies this`disk, this`clock
      ensures Valid() && Files(disk, |rotated|) == old(Files(disk, |rotated|)) && Sweeps(old(disk), disk, |rotated|)
      ensures old(Smooth()) ==> Swept(old(disk), disk, |rotated|)
    {
      var i := |rotated| + 2;
      while i in disk && i < LAST_STRAY
        invariant |rotated| + 2 <= i && Valid() && clock >= old(clock)
        invariant Files(disk, |rotated|) == old(Files(disk, |rotated|))
        invariant Sweeping(old(disk), disk, |rotated|, i, old(Smooth()))
        decreases LAST_STRAY - i
      {
        var fails := Step();
        ghost var b := disk;
        if !fails { disk := disk - {i}; }
        StrayGone(b, disk, rotated, i);
        i := i + 1;
      }
    }
  }

  const LAST_STRAY: nat := 10_000

  /** Only files past the gap are gone. */
  ghost predicate Sweeps(files: Disk, disk: Disk, n: nat) {
    && (forall k :: k in disk ==> k in files && disk[k] == files[k])
    && (forall k :: k in files && k < n + 2 ==> k in disk)
  }

  /** Up to `i` those past it are gone, or some of them when steps may fail. */
  ghost predicate Sweeping(files: Disk, disk: Disk, n: nat, i: nat, smooth: bool) {
    && Sweeps(files, disk, n) && (forall k :: k in files && k >= i ==> k in disk)
    && (smooth ==> forall k :: n + 2 <= k < i ==> k !in disk)
  }

  /** Files that follow the gap without another one are gone. */
  ghost predicate Swept(files: Disk, disk: Disk, n: nat) {
    forall i :: n + 2 <= i < LAST_STRAY && AllThere(files, n + 2, i) ==> i !in disk
  }

  ghost predicate AllThere(files: Disk, from: nat, to: nat) {
    forall k :: from <= k <= to ==> k in files
  }

  lemma StrayGone(b: Disk, c: Disk, sizes: seq<nat>, i: nat)
    requires SizesOf(b, sizes) && i > |sizes| && (c == b || c == b - {i})
    ensures SizesOf(c, sizes) && Files(c, |sizes|) == Files(b, |sizes|)
  {
    var n := |sizes|;
    forall j | 0 <= j < n ensures HasSize(c, j + 1, sizes[j]) && Files(c, n)[j] == Files(b, n)[j] {
      assert HasSize(b, j + 1, sizes[j]);
    }
  }

  /** Opens whatever segment files are there and brings them within the cap. */
  method Open(files: Disk, limit: nat, fail: nat -> bool) returns (r: Rotator, ok: bool)
    ensures fresh(r) && (ok ==> r.Valid() && r.cap == limit && WithinCap(r.Abs()) && Total(r.Abs()) <= Max(limit, 1))
    ensures (forall i :: !fail(i)) ==> ok
  {
    r := new Rotator.OpenRaw(files, limit, fail);
    ok := r.Enforce();
    if ok { WithinCapTotal(r.Abs()); }
  }

  /** After an append that failed everything is there, but for what a rotation drops: it has not
      gone further than a part of the line, or what the rotation keeps is on disk. */
  ghost predicate NoneLost(log: Log, a: Disk, b: Disk, line: seq<Octet>) {
    || (SameOthers(a, b) && exists k :: 0 <= k <= |line| && FileAt(b, 0) == FileAt(a, 0) + line[..k])
    || AllOnDisk(b, Rotated(log).rotated)
  }

  lemma ListedOnDisk(disk: Disk, sizes: seq<nat>)
    requires SizesOf(disk, sizes)
    ensures AllOnDisk(disk, Files(disk, |sizes|))
  {
    var all := Files(disk, |sizes|);
    forall i | 0 <= i < |all| ensures Stored(disk, all[i]) {
      assert HasSize(disk, i + 1, sizes[i]);
      assert disk[i + 1] == all[i];
    }
  }

  lemma PartLeft(log: Log, a: Disk, b: Disk, c: Disk, sizes: seq<nat>, line: seq<Octet>, k: nat)
    requires SizesOf(b, sizes) && (b == a || Files(b, |sizes|) == Rotated(log).rotated)
    requires SameOthers(b, c) && k <= |line| && FileAt(c, 0) == FileAt(b, 0) + line[..k]
    ensures NoneLost(log, a, c, line)
  {
    RotatedStay(b, c, sizes);
    ListedOnDisk(c, sizes);
  }

  // ------------------------------------------------------------- after a failed rotation

  /** A rotation that failed is tried again, and no step fails: it cannot be completed, unless the
      shift had moved nothing, and otherwise it makes the gap wider if something listed follows it. */
  method RotateAgain(r: Rotator, ghost a: Disk, ghost at: nat) returns (ok: bool)
    requires r.Interrupted(a, at) && r.Smooth() && r.curSize > 0
    modifies r
    ensures ok <==> at == |old(r.rotated)|
    ensures !ok ==>
              && r.rotated == old(r.rotated) && r.Broken(a, at, if at + 1 < |r.rotated| then 2 else 1, |r.rotated| + 1)
              && Beyond(a, r.disk, |r.rotated|)
  {
    ghost var b, n := r.disk, |r.rotated|;
    ghost var a2: Disk, stop: nat;
    BeyondShift(a, b, n, at);
    if at == n { NothingMoved(a, b, n); } else { FirstGap(a, b, n, at); }
    assert at < n ==> GapAt(a, b, n, at, 1, n + 1, at + 1);
    ok, a2, stop := r.Rotate();
    if at < n {
      NextGap(a, b, r.disk, n, at, 1, n + 1, stop);
      BeyondShift(b, r.disk, n, stop);
      BeyondTwice(a, b, r.disk, n);
      assert SameAt(a, r.disk, 0);
    }
  }

  /** The current file and what is past the places that a rotation reaches have not changed. */
  ghost predicate Beyond(a: Disk, d: Disk, n: nat) {
    forall p: nat :: p == 0 || p > n + 1 ==> SameAt(a, d, p)
  }

  lemma BeyondShift(b: Disk, c: Disk, n: nat, at: nat)
    requires ShiftedFrom(b, c, n, at)
    ensures Beyond(b, c, n)
  {
    forall p: nat | p == 0 || p > n + 1 ensures SameAt(b, c, p) {
      assert ShiftedAt(b, c, n, at, p);
    }
  }

  lemma BeyondTwice(a: Disk, b: Disk, c: Disk, n: nat)
    requires Beyond(a, b, n) && Beyond(b, c, n)
    ensures Beyond(a, c, n)
  {
    forall p: nat | p == 0 || p > n + 1 ensures SameAt(a, c, p) {
      assert SameAt(a, b, p) && SameAt(b, c, p);
    }
  }

  /** The rotation worked, and has kept the first `k` of the files `a` and `cur`. */
  ghost predicate Healed(r: Rotator, a: Disk, k: nat, cur: Segment)
    reads r
  {
    r.Present() && FileAt(r.disk, 0) == [] && |r.rotated| == k + 1 && Files(r.disk, k + 1) == [cur] + Files(a, k)
  }

  /** What a rotation makes of a gap, when no step fails and `sizes` and `size` are recorded for the
      files `b`. With `k` files to keep it works exactly when these end before the gap. Otherwise it
      fails, has dropped the others, and makes the gap wider if one of the `k` follows it. */
  ghost predicate GapTried(r: Rotator, b: Disk, sizes: seq<nat>, size: nat, a: Disk, at: nat, m: nat, e: nat, ok: bool)
    reads r
  {
    var k, cur := |KeptSizes(r.cap, b, sizes, size)|, Cut(FileAt(b, 0), size, Budget(r.cap));
    && (ok <==> k <= at) && (ok ==> Healed(r, a, k, cur))
    && (!ok ==> GapLeft(r, b, sizes, size, a, at, m, e))
  }

  ghost predicate GapLeft(r: Rotator, b: Disk, sizes: seq<nat>, size: nat, a: Disk, at: nat, m: nat, e: nat)
    reads r
  {
    var k := |KeptSizes(r.cap, b, sizes, size)|;
    && at < k && r.rotated == KeptSizes(r.cap, b, sizes, size) && r.curSize == KeptSize(r.cap, b, size)
    && FileAt(r.disk, 0) == Cut(FileAt(b, 0), size, Budget(r.cap))
    && r.Broken(a, at, NextWidth(at, m, k), NextEnd(at, m, e, |sizes|, k))
  }

  lemma TriedMeansGap(r: Rotator, b: Disk, sizes: seq<nat>, size: nat, c: Disk, ok: bool, stop: nat, a: Disk, at: nat,
                      m: nat, e: nat)
    requires Gapped(a, b, |sizes|, at, m, e) && r.TriedFrom(b, sizes, size, c, ok, stop)
    ensures GapTried(r, b, sizes, size, a, at, m, e, ok)
  {
    var n, k := |sizes|, |KeptSizes(r.cap, b, sizes, size)|;
    ListedIff(a, b, c, n, at, m, e, k);
    if !ok {
      assert ShiftedAt(c, r.disk, k, stop, 0);
      StopsWithin(c, r.disk, k, stop);
      GapAfterDrop(a, b, c, r.disk, n, at, m, e, k, stop);
    }
  }

  /** A shift that stops at a file that is not there has not got them all. */
  lemma StopsWithin(c: Disk, d: Disk, k: nat, stop: nat)
    requires ShiftedFrom(c, d, k, stop) && 0 < stop && stop !in c
    ensures !Listed(c, k)
  {
  }

  /** Once there is a gap, a rotation can fail although no step does. */
  method RotateBroken(r: Rotator, ghost a: Disk, ghost at: nat, ghost m: nat, ghost e: nat) returns (ok: bool)
    requires r.Broken(a, at, m, e) && r.Smooth() && r.curSize > 0
    modifies r
    ensures r.Smooth() && r.cap == old(r.cap)
    ensures GapTried(r, old(r.disk), old(r.rotated), old(r.curSize), a, at, m, e, ok)
    ensures old(r.Fits()) ==> !ok && r.rotated == old(r.rotated) && r.curSize == old(r.curSize)
    ensures old(r.Fits()) ==> Beyond(old(r.disk), r.disk, |r.rotated|)
  {
    ghost var b, sizes, size := r.disk, r.rotated, r.curSize;
    ghost var c: Disk, stop: nat;
    ok, c, stop := r.Rotate();
    TriedMeansGap(r, b, sizes, size, c, ok, stop, a, at, m, e);
    if old(r.Fits()) {
      AllFit(r.cap, b, sizes, size);
      BeyondShift(b, r.disk, |sizes|, stop);
    }
  }

  lemma AllFit(cap: nat, b: Disk, sizes: seq<nat>, size: nat)
    requires SumSizes(sizes) + size <= Budget(cap)
    ensures KeptSizes(cap, b, sizes, size) == sizes && KeptSize(cap, b, size) == size
  {
  }

  /** An append to a log with a gap, when no step fails: while the line fits the current segment it is
      added there; otherwise it is lost, or begins a new segment, as the rotation fails or works. */
  method AppendBroken(r: Rotator, line: seq<Octet>, ghost a: Disk, ghost at: nat, ghost m: nat, ghost e: nat)
      returns (ok: bool)
    requires r.Broken(a, at, m, e) && r.Smooth()
    modifies r
    ensures r.Smooth() && r.cap == old(r.cap)
    ensures !old(r.NeedsRotation(line)) ==>
              && ok && r.Broken(a, at, m, e)
              && r.WroteMore(old(r.disk), old(r.rotated), old(r.curSize), line)
    ensures old(r.NeedsRotation(line)) ==>
              var k := |KeptSizes(r.cap, old(r.disk), old(r.rotated), old(r.curSize))|;
              && (ok <==> k <= at) && (!ok ==> GapLeft(r, old(r.disk), old(r.rotated), old(r.curSize), a, at, m, e))
              && (ok ==> && r.Present()
                         && r.Abs() == Log(r.cap, line, [Cut(old(FileAt(r.disk, 0)), old(r.curSize), Budget(r.cap))] +
                                             Files(a, k)))
  {
    ghost var b, sizes, size := r.disk, r.rotated, r.curSize;
    ghost var c: Disk, stop: nat;
    ok, c, stop := r.Append(line);
    if !old(r.NeedsRotation(line)) {
      SameGap(a, b, r.disk, |sizes|, at, m, e);
    } else if ok {
      ListedIff(a, b, c, |sizes|, at, m, e, |KeptSizes(r.cap, b, sizes, size)|);
    } else {
      TriedMeansGap(r, b, sizes, size, c, false, stop, a, at, m, e);
    }
  }

  lemma SameGap(a: Disk, b: Disk, c: Disk, n: nat, at: nat, m: nat, e: nat)
    requires Gapped(a, b, n, at, m, e) && SameOthers(b, c)
    ensures Gapped(a, c, n, at, m, e)
  {
    forall p: nat ensures GapAt(a, c, n, at, m, e, p) {
      assert GapAt(a, b, n, at, m, e, p);
      if p != 0 { assert SameAt(b, c, p); }
    }
  }

  /** What a rotation that failed and was tried again costs, which is the oldest file exactly when the
      shift had moved at least two. */
  lemma AgainCosts(r: Rotator, a: Disk, at: nat)
    requires at < |r.rotated| && r.Broken(a, at, if at + 1 < |r.rotated| then 2 else 1, |r.rotated| + 1)
    requires DistinctFiles(a) && Beyond(a, r.disk, |r.rotated|)
    ensures forall j :: j < |r.rotated| && j in a ==> Stored(r.disk, a[j])
    ensures |r.rotated| in a && (Stored(r.disk, a[|r.rotated|]) <==> at + 1 == |r.rotated|)
  {
    var n, m := |r.rotated|, if at + 1 < |r.rotated| then 2 else 1;
    forall j | j < n && j in a ensures Stored(r.disk, a[j]) {
      if j == 0 {
        assert SameAt(a, r.disk, 0);
      } else {
        GapStores(a, r.disk, n, at, m, n + 1, j);
        WithinIsStored(a, r.disk, n, j);
      }
    }
    GapStores(a, r.disk, n, at, m, n + 1, n);
    WithinIsStored(a, r.disk, n, n);
  }

  method FailLastStep(r: Rotator) returns (ok: bool)
    requires r.Valid() && r.Fits() && r.curSize > 0 && |r.rotated| >= 1
    requires forall i :: r.clock <= i ==> (r.fail(i) <==> i == r.clock + |r.rotated|)
    modifies r
    ensures !ok && r.rotated == old(r.rotated) && r.curSize == old(r.curSize) && r.Smooth() && r.Fits()
    ensures r.Broken(old(r.disk), 0, 1, |r.rotated| + 1) && Beyond(old(r.disk), r.disk, |r.rotated|)
  {
    ghost var a := r.disk;
    r.ValidIsPresent();
    ghost var a1: Disk, at: nat;
    ok, a1, at := r.Rotate();
    FirstGap(a, r.disk, |r.rotated|, 0);
    BeyondShift(a, r.disk, |r.rotated|, 0);
    assert SameAt(a, r.disk, 0);
  }

  /** Such a run, from any state in which everything fits, of as many rotations as files are listed:
      the last step of the first one fails, no other does, and all of these files but one are lost. */
  method RotationsLoseAllButOne(r: Rotator) returns (worked: bool)
    requires r.Valid() && r.Fits() && r.curSize > 0 && |r.rotated| >= 1 && DistinctFiles(r.disk)
    requires forall i :: r.clock <= i ==> (r.fail(i) <==> i == r.clock + |r.rotated|)
    modifies r
    ensures !worked && Listed(old(r.disk), |old(r.rotated)|)
    ensures forall j :: 1 <= j <= |old(r.rotated)| ==> (Stored(r.disk, old(r.disk)[j]) <==> j == 1)
  {
    ghost var a, n := r.disk, |r.rotated|;
    r.ValidIsPresent();
    worked := FailLastStep(r);
    var i := 1;
    while i < |r.rotated|
      invariant 1 <= i <= n == |r.rotated| && !worked && r.Broken(a, 0, i, n + 1) && r.Smooth() && r.curSize > 0
      invariant r.Fits() && Beyond(a, r.disk, n)
    {
      ghost var b := r.disk;
      worked := RotateBroken(r, a, 0, i, n + 1);
      BeyondTwice(a, b, r.disk, n);
      i := i + 1;
    }
    forall j | 1 <= j <= n ensures Stored(r.disk, a[j]) <==> j == 1 {
      GapStores(a, r.disk, n, 0, n, n + 1, j);
      WithinIsStored(a, r.disk, n, j);
    }
  }

  /** A log that is opened again after a failed rotation loses the files that had moved, and no
      others. */
  method ReopenedAfterFailure(a: Disk, b: Disk, n: nat, ghost at: nat, limit: nat, fail: nat -> bool)
      returns (r: Rotator)
    requires (forall j :: 0 <= j <= n ==> j in a) && n + 1 !in a && n + 1 < LAST_STRAY && ShiftedFrom(a, b, n, at)
    requires DistinctFiles(a) && forall i :: !fail(i)
    ensures fresh(r) && r.Valid() && forall j :: 0 <= j <= n ==> (Stored(r.disk, a[j]) <==> j <= at)
  {
    r := new Rotator.OpenRaw(b, limit, fail);
    forall j | 0 <= j <= n ensures Stored(r.disk, a[j]) <==> j <= at {
      ReopenedAt(a, b, r.disk, n, at, |r.rotated|, j);
    }
  }

  lemma ReopenedAt(a: Disk, b: Disk, c: Disk, n: nat, at: nat, m: nat, j: nat)
    requires (forall k :: 0 <= k <= n ==> k in a) && n + 1 !in a && n + 1 < LAST_STRAY && ShiftedFrom(a, b, n, at)
    requires DistinctFiles(a) && j <= n
    requires m + 1 !in b && (forall i :: 1 <= i <= m ==> i in b) && Sweeps(b, c, m) && Swept(b, c, m)
    ensures Stored(c, a[j]) <==> j <= at
  {
    ListedUpToGap(a, b, n, at, m);
    assert ShiftedAt(a, b, n, at, j);
    if j <= at {
      assert c[j] == a[j];
    } else {
      forall k | k in c ensures c[k] != a[j] {
        assert ShiftedAt(a, b, n, at, k);
        if at + 2 <= k <= n + 1 { SweptAway(a, b, c, n, at, k); }
      }
    }
  }

  lemma ListedUpToGap(a: Disk, b: Disk, n: nat, at: nat, m: nat)
    requires (forall k :: 0 <= k <= n ==> k in a) && n + 1 !in a && ShiftedFrom(a, b, n, at)
    requires m + 1 !in b && forall i :: 1 <= i <= m ==> i in b
    ensures m == at
  {
    assert ShiftedAt(a, b, n, at, m + 1) && ShiftedAt(a, b, n, at, at + 1);
  }

  lemma SweptAway(a: Disk, b: Disk, c: Disk, n: nat, at: nat, k: nat)
    requires ShiftedFrom(a, b, n, at) && Swept(b, c, at) && at + 2 <= k <= n + 1 < LAST_STRAY
    ensures k !in c
  {
    forall i | at + 2 <= i <= k ensures i in b {
      assert ShiftedAt(a, b, n, at, i);
    }
    assert AllThere(b, at + 2, k);
  }

  lemma NothingMoved(a: Disk, b: Disk, n: nat)
    requires ShiftedFrom(a, b, n, n)
    ensures b == a
  {
    forall p: nat ensures (p in a <==> p in b) && (p in a ==> a[p] == b[p]) {
      assert ShiftedAt(a, b, n, n, p);
    }
  }
}
