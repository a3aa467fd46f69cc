/** The order in which the picker walks the pieces of a torrent. */
module DownloadOrder {
  import opened Prelude
  import opened TorrentLengths

  datatype FileOrder = Name | Torrent | SmallestFirst | LargestFirst

  datatype DownloadOrderDefaults = DownloadOrderDefaults(sequentialFiles: bool, fileOrder: FileOrder, sequential: bool,
    firstLastFirst: bool)

  datatype FileOrderSettings = FileOrderSettings(sequential: Option<bool>, firstLastFirst: Option<bool>)

  datatype TorrentDownloadOrder = TorrentDownloadOrder(
    sequentialFiles: Option<bool>,
    fileOrder: Option<FileOrder>,
    sequential: Option<bool>,
    firstLastFirst: Option<bool>,
    files: map<nat, FileOrderSettings>)

  function Or<T>(o: Option<T>, default: T): T {
    if o.Some? then o.value else default
  }

  /** Resolved torrent-level settings: the most specific one set wins. */
  function Effective(g: DownloadOrderDefaults, t: TorrentDownloadOrder): DownloadOrderDefaults {
    DownloadOrderDefaults(Or(t.sequentialFiles, g.sequentialFiles), Or(t.fileOrder, g.fileOrder),
                          Or(t.sequential, g.sequential), Or(t.firstLastFirst, g.firstLastFirst))
  }

  function EffectiveFile(e: DownloadOrderDefaults, t: TorrentDownloadOrder, file: nat): (bool, bool) {
    var f := if file in t.files then t.files[file] else FileOrderSettings(None, None);
    (Or(f.sequential, e.sequential), Or(f.firstLastFirst, e.firstLastFirst))
  }

  // ------------------------------------------------------------- stable sorting

  function InsertBy(s: seq<nat>, x: nat, le: (nat, nat) -> bool): seq<nat> {
    if s == [] || le(s[|s| - 1], x) then s + [x]
    else InsertBy(s[..|s| - 1], x, le) + [s[|s| - 1]]
  }

  /** The standard library's stable sort. */
  function SortBy(s: seq<nat>, le: (nat, nat) -> bool): seq<nat> {
    if s == [] then [] else InsertBy(SortBy(s[..|s| - 1], le), s[|s| - 1], le)
  }

  lemma {:induction false} InsertByPermutes(s: seq<nat>, x: nat, le: (nat, nat) -> bool)
    ensures multiset(InsertBy(s, x, le)) == multiset(s) + multiset{x}
  {
    if s == [] || le(s[|s| - 1], x) {
    } else {
      InsertByPermutes(s[..|s| - 1], x, le);
      assert s == s[..|s| - 1] + [s[|s| - 1]];
    }
  }

  lemma {:induction false} SortByPermutes(s: seq<nat>, le: (nat, nat) -> bool)
    ensures multiset(SortBy(s, le)) == multiset(s)
    ensures forall x :: x in SortBy(s, le) <==> x in s
  {
    if s != [] {
      SortByPermutes(s[..|s| - 1], le);
      InsertByPermutes(SortBy(s[..|s| - 1], le), s[|s| - 1], le);
      assert s == s[..|s| - 1] + [s[|s| - 1]];
    }
    MembersOf(SortBy(s, le), s);
  }

  lemma MembersOf(a: seq<nat>, b: seq<nat>)
    requires multiset(a) == multiset(b)
    ensures forall x :: x in a <==> x in b
  {
    forall x ensures x in a <==> x in b {
      assert x in a <==> x in multiset(a);
      assert x in b <==> x in multiset(b);
    }
  }

  predicate NoDuplicates(s: seq<nat>) {
    forall i, j :: 0 <= i < j < |s| ==> s[i] != s[j]
  }

  ghost predicate SortedUnder(s: seq<nat>, le: (nat, nat) -> bool) {
    forall i, j :: 0 <= i < j < |s| ==> le(s[i], s[j])
  }

  ghost predicate TotalPreorder(le: (nat, nat) -> bool) {
    && (forall a: nat, b: nat :: le(a, b) || le(b, a))
    && (forall a: nat, b: nat, c: nat :: le(a, b) && le(b, c) ==> le(a, c))
  }

  lemma {:induction false} InsertBySorts(s: seq<nat>, x: nat, le: (nat, nat) -> bool)
    requires TotalPreorder(le) && SortedUnder(s, le)
    ensures SortedUnder(InsertBy(s, x, le), le)
  {
    if s == [] || le(s[|s| - 1], x) {
    } else {
      var init := s[..|s| - 1];
      InsertBySorts(init, x, le);
      InsertByPermutes(init, x, le);
      var r := InsertBy(init, x, le);
      forall i | 0 <= i < |r| ensures le(r[i], s[|s| - 1]) {
        assert r[i] in multiset(r);
        assert r[i] in init || r[i] == x;
      }
    }
  }

  lemma {:induction false} SortBySorts(s: seq<nat>, le: (nat, nat) -> bool)
    requires TotalPreorder(le)
    ensures SortedUnder(SortBy(s, le), le)
  {
    if s != [] {
      SortBySorts(s[..|s| - 1], le);
      InsertBySorts(SortBy(s[..|s| - 1], le), s[|s| - 1], le);
    }
  }

  // ------------------------------------------------------------- pieces of one file

  function Range(lo: nat, hi: nat): (r: seq<nat>)
    ensures |r| == SaturatingSub(hi, lo)
    ensures forall i :: 0 <= i < |r| ==> r[i] == lo + i
  {
    seq(SaturatingSub(hi, lo), i => lo + i)
  }

  const USIZE_RANGE: nat := 0x1_0000_0000_0000_0000

  function WrappingSub(a: nat, b: nat): nat
    requires a < USIZE_RANGE && b < USIZE_RANGE
  {
    (a - b) % USIZE_RANGE
  }

  function Take(s: seq<nat>, n: nat): seq<nat> {
    if n <= |s| then s[..n] else s
  }

  function Skip(s: seq<nat>, n: nat): seq<nat> {
    if n <= |s| then s[n..] else []
  }

  /** First, last, then the rest from start to end, as the iterator chain computes it. */
  function IterPiecePriorities(lo: nat, hi: nat): seq<nat>
    requires hi < USIZE_RANGE
  {
    var len := SaturatingSub(hi, lo);
    var last := (lo + WrappingSub(len, 1)) % USIZE_RANGE;
    var mid := Take(Skip(Range(lo, hi), 1), WrappingSub(len, 2));
    Take([lo] + [last] + mid, len)
  }

  function WithoutEnds(s: seq<nat>, first: nat, last: nat): seq<nat> {
    if s == [] then []
    else
      var rest := WithoutEnds(s[1..], first, last);
      if s[0] != first && s[0] != last then [s[0]] + rest else rest
  }

  function ByKey(key: nat -> nat): (nat, nat) -> bool {
    (a: nat, b: nat) => key(a) <= key(b)
  }

  /** Piece order within one file; `key` is the scatter key of the shuffled order. */
  function FilePieceOrder(lo: nat, hi: nat, sequential: bool, firstLastFirst: bool, key: nat -> nat): seq<nat> {
    if hi <= lo then []
    else
      var first, last := lo, hi - 1;
      var ends := if !firstLastFirst then [] else if last != first then [first, last] else [first];
      var rest := if firstLastFirst then WithoutEnds(Range(lo, hi), first, last) else Range(lo, hi);
      var ordered := if sequential then rest else SortBy(rest, ByKey(key));
      ends + ordered
  }

  lemma {:induction false} WithoutEndsOfRange(lo: nat, hi: nat, first: nat, last: nat)
    requires first < lo && hi - 1 <= last && lo <= hi
    ensures WithoutEnds(Range(lo, hi), first, last) == Range(lo, if last == hi - 1 && lo < hi then hi - 1 else hi)
    decreases hi - lo
  {
    if lo < hi {
      assert Range(lo, hi)[1..] == Range(lo + 1, hi);
      WithoutEndsOfRange(lo + 1, hi, first, last);
    }
  }

  lemma RestOfFile(lo: nat, hi: nat)
    requires lo < hi
    ensures WithoutEnds(Range(lo, hi), lo, hi - 1) == Range(lo + 1, hi - 1)
  {
    assert Range(lo, hi)[1..] == Range(lo + 1, hi);
    WithoutEndsOfRange(lo + 1, hi, lo, hi - 1);
  }

  lemma RangeEnds(lo: nat, hi: nat)
    requires lo < hi
    ensures hi - 1 == lo ==> Range(lo, hi) == [lo]
    ensures hi - 1 > lo ==> Range(lo, hi) == [lo] + Range(lo + 1, hi - 1) + [hi - 1]
  {
  }

  lemma OrderedPermutes(rest: seq<nat>, sequential: bool, key: nat -> nat)
    ensures multiset(if sequential then rest else SortBy(rest, ByKey(key))) == multiset(rest)
  {
    SortByPermutes(rest, ByKey(key));
  }

  /** Every setting lists each piece of the file exactly once. */
  lemma FilePieceOrderPermutes(lo: nat, hi: nat, sequential: bool, firstLastFirst: bool, key: nat -> nat)
    ensures multiset(FilePieceOrder(lo, hi, sequential, firstLastFirst, key)) == multiset(Range(lo, hi))
  {
    if lo < hi {
      RestOfFile(lo, hi);
      RangeEnds(lo, hi);
      var rest := if firstLastFirst then WithoutEnds(Range(lo, hi), lo, hi - 1) else Range(lo, hi);
      OrderedPermutes(rest, sequential, key);
      if firstLastFirst && hi - 1 > lo {
        EndsFirst(lo, Range(lo + 1, hi - 1), hi - 1, if sequential then rest else SortBy(rest, ByKey(key)));
      }
    } else {
      assert Range(lo, hi) == [];
    }
  }

  lemma EndsFirst(a: nat, mid: seq<nat>, z: nat, shuffled: seq<nat>)
    requires multiset(shuffled) == multiset(mid)
    ensures multiset([a, z] + shuffled) == multiset([a] + mid + [z])
  {
  }

  lemma WrapFacts(len: nat)
    requires 0 < len < USIZE_RANGE
    ensures WrappingSub(len, 1) == len - 1
    ensures len >= 2 ==> WrappingSub(len, 2) == len - 2
  {
  }

  /** The default order is the historical one. */
  lemma DefaultIsHistorical(lo: nat, hi: nat, key: nat -> nat)
    requires hi < USIZE_RANGE
    ensures FilePieceOrder(lo, hi, true, true, key) == IterPiecePriorities(lo, hi)
  {
    if lo < hi {
      RestOfFile(lo, hi);
      WrapFacts(hi - lo);
      assert (lo + (hi - lo - 1)) % USIZE_RANGE == hi - 1;
      if hi - lo >= 2 {
        assert Take(Skip(Range(lo, hi), 1), hi - lo - 2) == Range(lo + 1, hi - 1);
      } else {
        assert Range(lo + 1, hi - 1) == [];
      }
    }
  }

  // ------------------------------------------------------------- the whole torrent

  /** Indices of the files that are not padding. */
  function NonPadding(files: seq<FileInfo>): (r: seq<nat>)
    ensures forall x: nat :: x in r <==> x < |files| && !files[x].padding
  {
    if files == [] then []
    else
      var n := |files| - 1;
      var init := files[..n];
      assert forall i :: 0 <= i < n ==> init[i] == files[i];
      NonPadding(init) + (if files[n].padding then [] else [n])
  }

  /** Component-wise comparison of names, component by component. */
  predicate StringLe(a: string, b: string) {
    a == [] || (b != [] && (a[0] < b[0] || (a[0] == b[0] && StringLe(a[1..], b[1..]))))
  }

  predicate NameLe(a: seq<string>, b: seq<string>) {
    a == [] || (b != [] && (if a[0] == b[0] then NameLe(a[1..], b[1..]) else StringLe(a[0], b[0])))
  }

  function LenOf(files: seq<FileInfo>, i: nat): nat {
    if i < |files| then files[i].len else 0
  }

  function NameOf(files: seq<FileInfo>, i: nat): seq<string> {
    if i < |files| then files[i].name else []
  }

  /** File `a` comes no later than file `b`. */
  predicate FileLe(files: seq<FileInfo>, order: FileOrder, a: nat, b: nat) {
    match order
    case Name => NameLe(NameOf(files, a), NameOf(files, b))
    case Torrent => true
    case SmallestFirst => LenOf(files, a) < LenOf(files, b) || (LenOf(files, a) == LenOf(files, b) && a <= b)
    case LargestFirst => LenOf(files, a) > LenOf(files, b) || (LenOf(files, a) == LenOf(files, b) && a <= b)
  }

  function OrderedIds(files: seq<FileInfo>, order: FileOrder): seq<nat> {
    if order == Torrent then NonPadding(files)
    else SortBy(NonPadding(files), (a: nat, b: nat) => FileLe(files, order, a, b))
  }

  lemma OrderedIdsMembers(files: seq<FileInfo>, order: FileOrder)
    ensures forall x: nat :: x in OrderedIds(files, order) <==> x < |files| && !files[x].padding
  {
    SortByPermutes(NonPadding(files), (a: nat, b: nat) => FileLe(files, order, a, b));
  }

  /** Files come smallest (or largest) first, equal ones in torrent order. */
  lemma SizeOrderSorted(files: seq<FileInfo>, order: FileOrder, i: nat, j: nat)
    requires order.SmallestFirst? || order.LargestFirst?
    requires i < j < |OrderedIds(files, order)|
    ensures var a, b := OrderedIds(files, order)[i], OrderedIds(files, order)[j];
            && a < |files| && b < |files|
            && (if order.SmallestFirst? then files[a].len <= files[b].len else files[a].len >= files[b].len)
            && (files[a].len == files[b].len ==> a <= b)
  {
    var le := (a: nat, b: nat) => FileLe(files, order, a, b);
    OrderedIdsMembers(files, order);
    assert TotalPreorder(le);
    SortBySorts(NonPadding(files), le);
    var r := OrderedIds(files, order);
    assert r[i] in r && r[j] in r && le(r[i], r[j]);
  }

  /** The pieces of each listed file in that file's own order. */
  function PerFile(files: seq<FileInfo>, ids: seq<nat>, e: DownloadOrderDefaults, t: TorrentDownloadOrder,
                   key: nat -> nat): seq<seq<nat>>
    requires forall x :: x in ids ==> x < |files|
  {
    seq(|ids|, i requires 0 <= i < |ids| =>
      assert ids[i] in ids;
      var f := files[ids[i]];
      var (sequential, firstLast) := EffectiveFile(e, t, ids[i]);
      FilePieceOrder(f.pieceStart, f.pieceEnd, sequential, firstLast, key))
  }

  function Flatten(v: seq<seq<nat>>): seq<nat> {
    if v == [] then [] else Flatten(v[..|v| - 1]) + v[|v| - 1]
  }

  /** The `k`-th piece of each of the files that have one. */
  function Round(v: seq<seq<nat>>, k: nat): seq<nat> {
    if v == [] then []
    else Round(v[..|v| - 1], k) + (if k < |v[|v| - 1]| then [v[|v| - 1][k]] else [])
  }

  function Rounds(v: seq<seq<nat>>, n: nat): seq<nat> {
    if n == 0 then [] else Rounds(v, n - 1) + Round(v, n - 1)
  }

  function Longest(v: seq<seq<nat>>): nat {
    if v == [] then 0 else Max(Longest(v[..|v| - 1]), |v[|v| - 1]|)
  }

  ghost predicate SomeLonger(v: seq<seq<nat>>, k: nat) {
    exists j :: 0 <= j < |v| && k < |v[j]|
  }

  lemma {:induction false} LongerThan(v: seq<seq<nat>>, k: nat)
    ensures k < Longest(v) <==> SomeLonger(v, k)
  {
    if v != [] {
      var init := v[..|v| - 1];
      LongerThan(init, k);
      if SomeLonger(init, k) {
        var j :| 0 <= j < |init| && k < |init[j]|;
        assert v[j] == init[j];
      }
      if SomeLonger(v, k) {
        var j :| 0 <= j < |v| && k < |v[j]|;
        assert j < |init| ==> init[j] == v[j];
      }
    }
  }

  /** Keeps the first occurrence of each piece. */
  function Dedup(s: seq<nat>): seq<nat> {
    if s == [] then []
    else
      var r := Dedup(s[..|s| - 1]);
      if s[|s| - 1] in r then r else r + [s[|s| - 1]]
  }

  lemma {:induction false} DedupKeepsEachOnce(s: seq<nat>)
    ensures NoDuplicates(Dedup(s))
    ensures forall x :: x in Dedup(s) <==> x in s
  {
    if s != [] {
      assert s == s[..|s| - 1] + [s[|s| - 1]];
      DedupKeepsEachOnce(s[..|s| - 1]);
    }
  }

  lemma DedupStep(s: seq<nat>, x: nat)
    ensures Dedup(s + [x]) == if x in Dedup(s) then Dedup(s) else Dedup(s) + [x]
  {
    assert (s + [x])[..|s|] == s;
  }

  ghost predicate InSome(v: seq<seq<nat>>, x: nat) {
    exists i :: 0 <= i < |v| && x in v[i]
  }

  lemma {:induction false} FlattenMembers(v: seq<seq<nat>>, x: nat)
    ensures x in Flatten(v) <==> InSome(v, x)
  {
    if v != [] {
      var init := v[..|v| - 1];
      FlattenMembers(init, x);
      if InSome(init, x) {
        var i :| 0 <= i < |init| && x in init[i];
        assert v[i] == init[i];
      }
      if InSome(v, x) {
        var i :| 0 <= i < |v| && x in v[i];
        assert i < |init| ==> init[i] == v[i];
      }
    }
  }

  lemma {:induction false} RoundMembers(v: seq<seq<nat>>, k: nat, x: nat)
    ensures x in Round(v, k) <==> exists i :: 0 <= i < |v| && k < |v[i]| && v[i][k] == x
  {
    if v != [] {
      var init := v[..|v| - 1];
      RoundMembers(init, k, x);
      if x in Round(init, k) {
        var i :| 0 <= i < |init| && k < |init[i]| && init[i][k] == x;
        assert v[i] == init[i];
      }
      if i :| 0 <= i < |v| && k < |v[i]| && v[i][k] == x {
        assert i < |init| ==> init[i] == v[i];
      }
    }
  }

  lemma {:induction false} RoundInRounds(v: seq<seq<nat>>, n: nat, k: nat, x: nat)
    requires k < n && x in Round(v, k)
    ensures x in Rounds(v, n)
  {
    if k < n - 1 { RoundInRounds(v, n - 1, k, x); }
  }

  lemma {:induction false} RoundsInSome(v: seq<seq<nat>>, n: nat, x: nat)
    requires x in Rounds(v, n)
    ensures InSome(v, x)
  {
    if x in Rounds(v, n - 1) { RoundsInSome(v, n - 1, x); } else { RoundMembers(v, n - 1, x); }
  }

  /** Going round robin to the end visits the same pieces as going file by file. */
  lemma RoundRobinIsComplete(v: seq<seq<nat>>, x: nat)
    ensures x in Rounds(v, Longest(v)) <==> InSome(v, x)
  {
    if InSome(v, x) {
      var i :| 0 <= i < |v| && x in v[i];
      var k :| 0 <= k < |v[i]| && v[i][k] == x;
      RoundMembers(v, k, x);
      LongerThan(v, k);
      RoundInRounds(v, Longest(v), k, x);
    }
    if x in Rounds(v, Longest(v)) {
      RoundsInSome(v, Longest(v), x);
    }
  }

  /** The walk so far: `out` is what was visited without repetitions, `seen` its elements. */
  ghost predicate Walked(visited: seq<nat>, seen: set<nat>, out: seq<nat>) {
    && out == Dedup(visited)
    && forall x :: x in seen <==> x in out
  }

  method InsertNew(seen: set<nat>, out: seq<nat>, ghost visited: seq<nat>, p: nat)
      returns (seen': set<nat>, out': seq<nat>)
    requires Walked(visited, seen, out)
    ensures Walked(visited + [p], seen', out')
  {
    DedupStep(visited, p);
    seen', out' := seen + {p}, out;
    if p !in seen {
      out' := out + [p];
    }
  }

  lemma FlattenStep(v: seq<seq<nat>>, i: nat)
    requires i < |v|
    ensures Flatten(v[..i + 1]) == Flatten(v[..i]) + v[i]
  {
    assert v[..i + 1][..i] == v[..i];
  }

  lemma RoundStep(v: seq<seq<nat>>, i: nat, k: nat)
    requires i < |v|
    ensures Round(v[..i + 1], k) == Round(v[..i], k) + (if k < |v[i]| then [v[i][k]] else [])
  {
    assert v[..i + 1][..i] == v[..i];
  }

  /** Walks all of one file's pieces. */
  method OneFile(s: seq<nat>, seen0: set<nat>, out0: seq<nat>, ghost visited: seq<nat>)
    returns (seen: set<nat>, out: seq<nat>)
    requires Walked(visited, seen0, out0)
    ensures Walked(visited + s, seen, out)
  {
    seen, out := seen0, out0;
    assert visited + s[..0] == visited;
    for j := 0 to |s|
      invariant Walked(visited + s[..j], seen, out)
    {
      assert visited + s[..j] + [s[j]] == visited + s[..j + 1];
      seen, out := InsertNew(seen, out, visited + s[..j], s[j]);
    }
    assert s[..|s|] == s;
  }

  method FileByFile(v: seq<seq<nat>>) returns (out: seq<nat>)
    ensures out == Dedup(Flatten(v))
  {
    out := [];
    var seen: set<nat> := {};
    for i := 0 to |v|
      invariant Walked(Flatten(v[..i]), seen, out)
    {
      FlattenStep(v, i);
      seen, out := OneFile(v[i], seen, out, Flatten(v[..i]));
    }
    assert v[..|v|] == v;
  }

  /** One turn of every file that still has a piece; `any` says whether there was one. */
  method OneRound(v: seq<seq<nat>>, k: nat, seen0: set<nat>, out0: seq<nat>, ghost visited: seq<nat>)
    returns (any: bool, seen: set<nat>, out: seq<nat>)
    requires Walked(visited, seen0, out0)
    ensures Walked(visited + Round(v, k), seen, out)
    ensures any <==> SomeLonger(v, k)
  {
    any, seen, out := false, seen0, out0;
    assert visited + [] == visited;
    for i := 0 to |v|
      invariant Walked(visited + Round(v[..i], k), seen, out)
      invariant any <==> exists j :: 0 <= j < i && k < |v[j]|
    {
      RoundStep(v, i, k);
      if k < |v[i]| {
        any := true;
        assert visited + Round(v[..i], k) + [v[i][k]] == visited + Round(v[..i + 1], k);
        seen, out := InsertNew(seen, out, visited + Round(v[..i], k), v[i][k]);
      } else {
        assert Round(v[..i + 1], k) == Round(v[..i], k);
      }
    }
    assert v[..|v|] == v;
  }

  method Interleaved(v: seq<seq<nat>>) returns (out: seq<nat>)
    ensures out == Dedup(Rounds(v, Longest(v)))
  {
    out := [];
    var seen: set<nat> := {};
    var k := 0;
    while true
      invariant k <= Longest(v)
      invariant Walked(Rounds(v, k), seen, out)
      decreases Longest(v) - k
    {
      var any;
      LongerThan(v, k);
      any, seen, out := OneRound(v, k, seen, out, Rounds(v, k));
      if !any {
        LastRound(v, k);
        return;
      }
      k := k + 1;
    }
  }

  /** A round without any piece ends the walk. */
  lemma LastRound(v: seq<seq<nat>>, k: nat)
    requires !SomeLonger(v, k)
    ensures Rounds(v, k) + Round(v, k) == Rounds(v, k)
  {
    RoundEmpty(v, k);
  }

  lemma {:induction false} RoundEmpty(v: seq<seq<nat>>, k: nat)
    requires !SomeLonger(v, k)
    ensures Round(v, k) == []
  {
    if v != [] {
      assert forall j :: 0 <= j < |v| - 1 ==> v[..|v| - 1][j] == v[j];
      RoundEmpty(v[..|v| - 1], k);
    }
  }

  ghost predicate NonPaddingPiece(files: seq<FileInfo>, p: nat) {
    exists i :: 0 <= i < |files| && !files[i].padding && files[i].HasPiece(p)
  }

  lemma InRange(lo: nat, hi: nat, p: nat)
    ensures p in Range(lo, hi) <==> lo <= p < hi
  {
    if lo <= p < hi { assert Range(lo, hi)[p - lo] == p; }
  }

  /** The per-file lists together hold exactly the pieces of the non-padding files. */
  lemma PerFileMembers(files: seq<FileInfo>, ids: seq<nat>, e: DownloadOrderDefaults, t: TorrentDownloadOrder,
                       key: nat -> nat, p: nat)
    requires forall x: nat :: x in ids <==> x < |files| && !files[x].padding
    ensures InSome(PerFile(files, ids, e, t, key), p) <==> NonPaddingPiece(files, p)
  {
    var v := PerFile(files, ids, e, t, key);
    forall i | 0 <= i < |ids| ensures p in v[i] <==> files[ids[i]].HasPiece(p) {
      assert ids[i] in ids;
      var f := files[ids[i]];
      var (sequential, firstLast) := EffectiveFile(e, t, ids[i]);
      FilePieceOrderPermutes(f.pieceStart, f.pieceEnd, sequential, firstLast, key);
      MembersOf(v[i], Range(f.pieceStart, f.pieceEnd));
      InRange(f.pieceStart, f.pieceEnd, p);
    }
    if NonPaddingPiece(files, p) {
      var x :| 0 <= x < |files| && !files[x].padding && files[x].HasPiece(p);
      var i :| 0 <= i < |ids| && ids[i] == x;
      assert p in v[i];
    }
    if InSome(v, p) {
      var i :| 0 <= i < |v| && p in v[i];
      assert ids[i] in ids;
    }
  }

  /** The pieces in the order the settings ask for, with repetitions. */
  function PieceWalk(files: seq<FileInfo>, g: DownloadOrderDefaults, t: TorrentDownloadOrder,
                     key: nat -> nat): seq<nat> {
    var e := Effective(g, t);
    OrderedIdsMembers(files, e.fileOrder);
    var v := PerFile(files, OrderedIds(files, e.fileOrder), e, t, key);
    if e.sequentialFiles then Flatten(v) else Rounds(v, Longest(v))
  }

  /** The full piece order: under every setting, each piece of the non-padding files exactly once,
      at its first occurrence. */
  method ComputePieceOrder(files: seq<FileInfo>, g: DownloadOrderDefaults, t: TorrentDownloadOrder, key: nat -> nat)
      returns (out: seq<nat>)
    ensures out == Dedup(PieceWalk(files, g, t, key))
    ensures NoDuplicates(out)
    ensures forall p :: p in out <==> NonPaddingPiece(files, p)
  {
    var e := Effective(g, t);
    var ids := OrderedIds(files, e.fileOrder);
    OrderedIdsMembers(files, e.fileOrder);
    var perFile := PerFile(files, ids, e, t, key);
    if e.sequentialFiles {
      out := FileByFile(perFile);
    } else {
      out := Interleaved(perFile);
    }
    DedupKeepsEachOnce(Flatten(perFile));
    DedupKeepsEachOnce(Rounds(perFile, Longest(perFile)));
    forall p ensures p in out <==> NonPaddingPiece(files, p) {
      PerFileMembers(files, ids, e, t, key, p);
      FlattenMembers(perFile, p);
      RoundRobinIsComplete(perFile, p);
    }
  }
}
