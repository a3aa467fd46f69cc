/** Size, number of files, newest change and symlinks of a folder. */
module DirSummaries {
  import opened Prelude
  import opened FileTrees
  import opened FileSystems
  import opened DirScans

  datatype Summary = Summary(size: nat, files: nat, newest: Option<nat>, symlinks: nat)

  function Mtime(e: Entry): Option<nat> {
    if e.Link? then None else e.mtime
  }

  predicate NoLater(a: Option<nat>, b: Option<nat>) {
    a.Some? ==> b.Some? && a.value <= b.value
  }

  function Later(a: Option<nat>, b: Option<nat>): (r: Option<nat>)
    ensures NoLater(a, r) && NoLater(b, r) && (r == a || r == b)
  {
    if a.None? then b else if b.None? then a else Some(Max(a.value, b.value))
  }

  // ------------------------------------------------------------- what is counted

  ghost function PlainOf(t: Listing, s: set<Path>): set<Path> {
    set p | p in s && p in t && t[p].Plain?
  }

  ghost function LinksOf(t: Listing, s: set<Path>): set<Path> {
    set p | p in s && p in t && t[p].Link?
  }

  ghost function SizeOf(t: Listing, s: set<Path>): nat
    requires s <= t.Keys && forall p :: p in s ==> t[p].Plain?
  {
    if s == {} then 0 else var p :| p in s; t[p].size + SizeOf(t, s - {p})
  }

  /** The sum does not depend on the order in which it is taken. */
  lemma {:induction false} SizeOfAdd(t: Listing, s: set<Path>, x: Path)
    requires s <= t.Keys && (forall p :: p in s ==> t[p].Plain?) && x in t && t[x].Plain? && x !in s
    ensures SizeOf(t, s + {x}) == SizeOf(t, s) + t[x].size
    decreases |s|
  {
    var all := s + {x};
    var p :| p in all && SizeOf(t, all) == t[p].size + SizeOf(t, all - {p});
    if p == x {
      assert all - {p} == s;
    } else {
      SizeOfAdd(t, s - {p}, x);
      assert all - {p} == (s - {p}) + {x};
      SizeOfAdd(t, s - {p}, p);
      assert (s - {p}) + {p} == s;
    }
  }

  /** The summary is that of the entries in `seen`: their files, symlinks and sizes, and the
      latest of their changes. */
  ghost predicate Counted(t: Listing, s: Summary, seen: set<Path>) {
    && s.files == |PlainOf(t, seen)| && s.symlinks == |LinksOf(t, seen)| && s.size == SizeOf(t, PlainOf(t, seen))
    && NewestIn(t, s.newest, seen)
  }

  ghost predicate NewestIn(t: Listing, newest: Option<nat>, seen: set<Path>) {
    && (forall p :: p in seen && p in t ==> NoLater(Mtime(t[p]), newest))
    && (newest.Some? ==> exists p :: p in seen && p in t && Mtime(t[p]) == newest)
  }

  /** The summary with one more entry. */
  function Plus(s: Summary, e: Entry): Summary {
    match e
    case Link => s.(symlinks := s.symlinks + 1)
    case Folder(m) => s.(newest := Later(s.newest, m))
    case Plain(size, m) => Summary(s.size + size, s.files + 1, Later(s.newest, m), s.symlinks)
    case Special(m) => s.(newest := Later(s.newest, m))
  }

  lemma CountOne(t: Listing, s: Summary, seen: set<Path>, x: Path)
    requires Counted(t, s, seen) && x in t && x !in seen
    ensures Counted(t, Plus(s, t[x]), seen + {x})
  {
    SeenSets(t, seen, x);
    if t[x].Plain? { SizeOfAdd(t, PlainOf(t, seen), x); }
    NewestPlus(t, s, seen, x);
  }

  lemma SeenSets(t: Listing, seen: set<Path>, x: Path)
    requires x in t && x !in seen
    ensures PlainOf(t, seen + {x}) == if t[x].Plain? then PlainOf(t, seen) + {x} else PlainOf(t, seen)
    ensures LinksOf(t, seen + {x}) == if t[x].Link? then LinksOf(t, seen) + {x} else LinksOf(t, seen)
  {
  }

  lemma NewestPlus(t: Listing, s: Summary, seen: set<Path>, x: Path)
    requires NewestIn(t, s.newest, seen) && x in t
    ensures NewestIn(t, Plus(s, t[x]).newest, seen + {x})
  {
    var newest := Plus(s, t[x]).newest;
    assert newest == s.newest || newest == Mtime(t[x]);
    if newest.Some? && newest == s.newest {
      var p :| p in seen && p in t && Mtime(t[p]) == s.newest;
      assert p in seen + {x};
    }
  }

  // ------------------------------------------------------------- what is met

  /** Everything below the folder that is not below an entry whose metadata cannot be read. */
  ghost function Reach(t: Listing, f: Faults, dir: Path): set<Path> {
    set p | p in t && Reached(f, dir, p)
  }

  ghost predicate Reached(f: Faults, dir: Path, p: Path) {
    Under(p, dir) && p != dir && forall a :: a in f.stats && Under(a, dir) && a != dir && Under(p, a) ==> a == p
  }

  lemma ReachChild(t: Listing, f: Faults, dir: Path, d: Path, n: Name)
    requires d == dir || (Reached(f, dir, d) && d !in f.stats)
    requires d + [n] in t
    ensures d + [n] in Reach(t, f, dir)
  {
    var x := d + [n];
    assert Parent(x) == d;
    UnderTwice(x, d, dir);
    forall a | a in f.stats && Under(a, dir) && a != dir && Under(x, a) ensures a == x {
      ParentUnder(x, a);
    }
  }

  /** The entries that enter the summary. */
  ghost function SeenOf(f: Faults, dir: Path, met: set<Path>): set<Path> {
    (met - f.stats) + (if dir in f.restats then {} else {dir})
  }

  /** No entry failed and every folder could be listed. */
  ghost predicate Unbroken(t: Listing, f: Faults, dir: Path, met: set<Path>) {
    met !! f.entries && forall p :: p in f.lists && IsFolder(t, p) ==> p != dir && (p in met ==> p in f.stats)
  }

  /** What a summary says of the run: the entries that were met cost one each; all that can be
      reached was met, unless the budget ran out; the figures are those of what was met; and it
      fails exactly when something that was met does. */
  ghost predicate Summarized(t: Listing, f: Faults, dir: Path, limit: nat, r: Result<Summary, ()>, budget: nat,
                             met: set<Path>) {
    && met <= Reach(t, f, dir) && budget <= limit && |met| == limit - budget
    && (r.Ok? <==> Unbroken(t, f, dir, met))
    && (r.Ok? ==> (met == Reach(t, f, dir) || budget == 0) && Counted(t, r.value, SeenOf(f, dir, met)))
  }

  /** With budget for everything that can be reached, it is all met, and the summary fails exactly
      when a step within reach does. */
  lemma EnoughBudget(t: Listing, f: Faults, dir: Path, limit: nat, r: Result<Summary, ()>, budget: nat, met: set<Path>)
    requires Summarized(t, f, dir, limit, r, budget, met) && |Reach(t, f, dir)| <= limit
    ensures r.Ok? <==> Unbroken(t, f, dir, Reach(t, f, dir))
    ensures r.Ok? ==> met == Reach(t, f, dir) && Counted(t, r.value, SeenOf(f, dir, Reach(t, f, dir)))
  {
    var all := Reach(t, f, dir);
    if r.Ok? && met != all {
      SmallerSubset(met, all);
    }
  }

  lemma SmallerSubset(a: set<Path>, b: set<Path>)
    requires a <= b && a != b
    ensures |a| < |b|
  {
    assert b == a + (b - a) && b - a != {};
  }

  /** The folder and everything below it. */
  ghost function Inside(t: Listing, dir: Path): set<Path> {
    set p | p in t && Under(p, dir)
  }

  /** Nothing inside resists having its metadata read. */
  ghost predicate AllReadable(t: Listing, f: Faults, dir: Path) {
    dir !in f.restats && forall p :: p in f.stats && p in t && Under(p, dir) ==> p == dir
  }

  /** Then the summary is that of the folder and everything below it. */
  lemma SummaryExact(t: Listing, f: Faults, dir: Path, limit: nat, r: Result<Summary, ()>, budget: nat, met: set<Path>)
    requires Sound(t) && IsFolder(t, dir) && AllReadable(t, f, dir)
    requires Summarized(t, f, dir, limit, r, budget, met) && |Reach(t, f, dir)| <= limit && r.Ok?
    ensures Counted(t, r.value, Inside(t, dir))
  {
    EnoughBudget(t, f, dir, limit, r, budget, met);
    ReadableIsReached(t, f, dir);
  }

  lemma ReadableIsReached(t: Listing, f: Faults, dir: Path)
    requires Sound(t) && IsFolder(t, dir) && AllReadable(t, f, dir)
    ensures SeenOf(f, dir, Reach(t, f, dir)) == Inside(t, dir)
  {
    forall p | p in Inside(t, dir) ensures p in SeenOf(f, dir, Reach(t, f, dir)) {
      forall a | a in f.stats && Under(a, dir) && Under(p, a) ensures a == dir {
        OnTheWay(t, p, a);
      }
    }
  }

  lemma OnTheWay(t: Listing, p: Path, a: Path)
    requires Sound(t) && p in t && Under(p, a)
    ensures a in t
  {
    if a != p { AncestorsAreDirs(Shape(t), p, a); }
  }

  // ------------------------------------------------------------- the walk

  /** Where a summary stands: what was met is on the stack, opened or settled; what was opened or
      settled was met, unless the budget ran out. */
  ghost predicate Going(t: Listing, f: Faults, dir: Path, stack: seq<Path>, settled: set<Path>, done: set<Path>,
                        met: set<Path>, cut: bool) {
    && met <= Reach(t, f, dir) && met <= settled + Elems(stack) + done && met !! f.entries && done !! f.lists
    && (forall p :: p in done || p in stack ==> p == dir || (p in met && p !in f.stats))
    && (forall e :: e in settled && e in met ==> !IsFolder(t, e) || e in f.stats)
    && (!cut ==> settled <= met)
  }

  /** The summary so far. */
  ghost predicate Summing(t: Listing, f: Faults, dir: Path, limit: nat, budget: nat, s: Summary, met: set<Path>,
                          cut: bool) {
    budget <= limit && |met| == limit - budget && (cut ==> budget == 0) && Counted(t, s, SeenOf(f, dir, met))
  }

  lemma NotYetMet(t: Listing, f: Faults, dir: Path, stack: seq<Path>, settled: set<Path>, done: set<Path>,
                  met: set<Path>, cut: bool, d: Path, left: set<Name>, n: Name)
    requires Walking(t, dir, stack, settled, done, d, left) && Going(t, f, dir, stack, settled, done, met, cut)
             && n in left
    ensures d + [n] !in met && d + [n] !in done && d + [n] !in stack && d + [n] !in settled
  {
    var x := d + [n];
    assert x in ChildPaths(d, left);
    assert x in Elems(stack) + settled + ChildPaths(d, left);
    assert Under(x, x);
  }

  lemma GoFolder(t: Listing, f: Faults, dir: Path, stack: seq<Path>, settled: set<Path>, done: set<Path>,
                 met: set<Path>, cut: bool, d: Path, x: Path)
    requires Going(t, f, dir, stack, settled, done, met, cut) && d in done && x in Reach(t, f, dir)
    requires x !in settled && x !in f.stats && x !in f.entries
    ensures Going(t, f, dir, stack + [x], settled, done, met + {x}, cut)
  {
    assert Elems(stack + [x]) == Elems(stack) + {x};
  }

  lemma GoLeaf(t: Listing, f: Faults, dir: Path, stack: seq<Path>, settled: set<Path>, done: set<Path>,
               met: set<Path>, cut: bool, d: Path, x: Path)
    requires Going(t, f, dir, stack, settled, done, met, cut) && d in done && x in Reach(t, f, dir)
    requires (!IsFolder(t, x) || x in f.stats) && x !in f.entries
    ensures Going(t, f, dir, stack, settled + {x}, done, met + {x}, cut)
  {
  }

  lemma GoCut(t: Listing, f: Faults, dir: Path, stack: seq<Path>, settled: set<Path>, done: set<Path>,
              met: set<Path>, cut: bool, d: Path, left: set<Name>)
    requires Walking(t, dir, stack, settled, done, d, left) && Going(t, f, dir, stack, settled, done, met, cut)
    ensures Going(t, f, dir, stack, settled + ChildPaths(d, left), done, met, true)
  {
    forall e | e in ChildPaths(d, left) ensures e !in met {
      var n :| n in left && e == d + [n];
      NotYetMet(t, f, dir, stack, settled, done, met, cut, d, left, n);
    }
  }

  lemma GoPop(t: Listing, f: Faults, dir: Path, stack: seq<Path>, settled: set<Path>, done: set<Path>, met: set<Path>,
              cut: bool)
    requires Going(t, f, dir, stack, settled, done, met, cut) && stack != [] && stack[|stack| - 1] !in f.lists
             && Distinct(stack)
    ensures Going(t, f, dir, stack[..|stack| - 1], settled, done + {stack[|stack| - 1]}, met, cut)
  {
    TopApart(stack);
  }

  lemma ParentOfEntry(t: Listing, f: Faults, dir: Path, stack: seq<Path>, settled: set<Path>, done: set<Path>,
                      met: set<Path>, cut: bool, d: Path, n: Name)
    requires Going(t, f, dir, stack, settled, done, met, cut) && d in done && d + [n] in t
    ensures d + [n] in Reach(t, f, dir)
  {
    ReachChild(t, f, dir, d, n);
  }

  lemma SeenMore(f: Faults, dir: Path, met: set<Path>, x: Path)
    requires x != dir && x !in met
    ensures SeenOf(f, dir, met + {x}) == if x in f.stats then SeenOf(f, dir, met) else SeenOf(f, dir, met) + {x}
    ensures x !in SeenOf(f, dir, met)
  {
  }

  function PlusIf(s: Summary, e: Entry, add: bool): Summary {
    if add then Plus(s, e) else s
  }

  lemma SumOne(t: Listing, f: Faults, dir: Path, limit: nat, budget: nat, s: Summary, met: set<Path>, cut: bool,
               x: Path)
    requires Summing(t, f, dir, limit, budget, s, met, cut) && budget > 0 && x in t && x != dir && x !in met
    ensures Summing(t, f, dir, limit, budget - 1, PlusIf(s, t[x], x !in f.stats), met + {x}, cut)
  {
    SeenMore(f, dir, met, x);
    if x !in f.stats { CountOne(t, s, SeenOf(f, dir, met), x); }
  }

  /** A summary in the middle of the entries of `d`, of which `left` are still to be looked at. */
  ghost predicate InProgress(t: Listing, f: Faults, dir: Path, limit: nat, budget: nat, s: Summary, stack: seq<Path>,
                             settled: set<Path>, done: set<Path>, met: set<Path>, cut: bool, d: Path, left: set<Name>) {
    && Walking(t, dir, stack, settled, done, d, left) && Going(t, f, dir, stack, settled, done, met, cut)
    && Summing(t, f, dir, limit, budget, s, met, cut) && (dir in done || dir in stack)
  }

  /** Looks at the entries of `d`, pushing its folders. */
  method VisitEntries(t: Listing, f: Faults, ghost dir: Path, d: Path, budget0: nat, stack0: seq<Path>, s0: Summary,
                      ghost limit: nat, ghost settled0: set<Path>, ghost done: set<Path>, ghost met0: set<Path>,
                        ghost cut0: bool)
    returns (ok: bool, budget: nat, stack: seq<Path>, s: Summary, ghost settled: set<Path>, ghost met: set<Path>,
      ghost cut: bool)
    requires InProgress(t, f, dir, limit, budget0, s0, stack0, settled0, done, met0, cut0, d, Names(t, d)) && d in done
    ensures ok ==> InProgress(t, f, dir, limit, budget, s, stack, settled, done, met, cut, d, {})
    ensures !ok ==> Summarized(t, f, dir, limit, Err(()), budget, met)
  {
    budget, stack, s, settled, met, cut, ok := budget0, stack0, s0, settled0, met0, cut0, true;
    var left := Names(t, d);
    while left != {}
      invariant left <= Names(t, d)
      invariant InProgress(t, f, dir, limit, budget, s, stack, settled, done, met, cut, d, left)
      decreases |left|
    {
      if budget == 0 {
        GoCut(t, f, dir, stack, settled, done, met, cut, d, left);
        WalkAbandon(t, dir, stack, settled, done, d, left, left);
        assert left - left == {};
        settled, cut, left := settled + ChildPaths(d, left), true, {};
        break;
      }
      var n :| n in left;
      var x := d + [n];
      NamesAreChildren(t, d, n);
      ParentOfEntry(t, f, dir, stack, settled, done, met, cut, d, n);
      NotYetMet(t, f, dir, stack, settled, done, met, cut, d, left, n);
      SumOne(t, f, dir, limit, budget, s, met, cut, x);
      budget := budget - 1;
      s := PlusIf(s, t[x], x !in f.stats);
      if x in f.entries { ok, met := false, met + {x}; return; }
      if x !in f.stats && t[x].Folder? {
        WalkPush(t, dir, stack, settled, done, d, left, n);
        GoFolder(t, f, dir, stack, settled, done, met, cut, d, x);
        stack := stack + [x];
      } else {
        WalkSettle(t, dir, stack, settled, done, d, left, n);
        GoLeaf(t, f, dir, stack, settled, done, met, cut, d, x);
        settled := settled + {x};
      }
      met := met + {x};
      left := left - {n};
    }
  }

  /** The folder on top of the stack is opened. */
  lemma OpenTop(t: Listing, f: Faults, dir: Path, limit: nat, budget: nat, s: Summary, stack: seq<Path>,
                settled: set<Path>, done: set<Path>, met: set<Path>, cut: bool, at: Path)
    requires InProgress(t, f, dir, limit, budget, s, stack, settled, done, met, cut, at, {}) && stack != [] && Sound(t)
    requires stack[|stack| - 1] !in f.lists
    ensures var d := stack[|stack| - 1];
            && InProgress(t, f, dir, limit, budget, s, stack[..|stack| - 1], settled, done + {d}, met, cut, d,
              Names(t, d))
            && |t.Keys - (done + {d})| < |t.Keys - done|
  {
    WalkPop(t, dir, stack, settled, done, at);
    GoPop(t, f, dir, stack, settled, done, met, cut);
    OneMoreDone(t, done, stack[|stack| - 1]);
    TopApart(stack);
  }

  lemma ListFailed(t: Listing, f: Faults, dir: Path, limit: nat, budget: nat, s: Summary, stack: seq<Path>,
                   settled: set<Path>, done: set<Path>, met: set<Path>, cut: bool, at: Path)
    requires InProgress(t, f, dir, limit, budget, s, stack, settled, done, met, cut, at, {}) && stack != []
    requires stack[|stack| - 1] in f.lists
    ensures Summarized(t, f, dir, limit, Err(()), budget, met)
  {
  }

  /** Reads everything below `dir` while the budget lasts. */
  method SummarizeDir(t: Listing, f: Faults, dir: Path, limit: nat)
    returns (r: Result<Summary, ()>, budget: nat, ghost met: set<Path>)
    requires Sound(t) && IsFolder(t, dir)
    ensures Summarized(t, f, dir, limit, r, budget, met)
  {
    ghost var cut;
    budget, met, cut := limit, {}, false;
    var s := Summary(0, 0, if dir in f.restats then None else t[dir].mtime, 0);
    var stack := [dir];
    ghost var settled: set<Path>, done: set<Path>, at := {}, {}, dir;
    WalkStart(t, dir);
    StartSumming(t, f, dir, limit, s);
    while stack != []
      invariant InProgress(t, f, dir, limit, budget, s, stack, settled, done, met, cut, at, {})
      decreases |t.Keys - done|
    {
      var d := stack[|stack| - 1];
      if d in f.lists {
        ListFailed(t, f, dir, limit, budget, s, stack, settled, done, met, cut, at);
        return Err(()), budget, met;
      }
      OpenTop(t, f, dir, limit, budget, s, stack, settled, done, met, cut, at);
      done, at := done + {d}, d;
      var ok: bool;
      ok, budget, stack, s, settled, met, cut :=
        VisitEntries(t, f, dir, d, budget, stack[..|stack| - 1], s, limit, settled, done, met, cut);
      if !ok { return Err(()), budget, met; }
    }
    EndSumming(t, f, dir, settled, done, met, cut, at);
    r := Ok(s);
  }

  lemma StartSumming(t: Listing, f: Faults, dir: Path, limit: nat, s: Summary)
    requires IsFolder(t, dir) && s == Summary(0, 0, if dir in f.restats then None else t[dir].mtime, 0)
    ensures Going(t, f, dir, [dir], {}, {}, {}, false) && Summing(t, f, dir, limit, limit, s, {}, false)
  {
    var seen := SeenOf(f, dir, {});
    assert seen == {} || seen == {dir};
    assert PlainOf(t, seen) == {} && LinksOf(t, seen) == {};
  }

  /** With the stack empty, everything within reach was met, unless the budget ran out. */
  lemma EndSumming(t: Listing, f: Faults, dir: Path, settled: set<Path>, done: set<Path>, met: set<Path>, cut: bool,
                   at: Path)
    requires Sound(t) && Walking(t, dir, [], settled, done, at, {}) && Going(t, f, dir, [], settled, done, met, cut)
             && dir in done
    ensures Unbroken(t, f, dir, met) && (!cut ==> met == Reach(t, f, dir))
  {
    assert Elems([]) + settled + ChildPaths(at, {}) == settled;
    if !cut {
      forall q | q in Reach(t, f, dir) ensures q in met {
        if q !in done {
          var e :| e in settled && Under(q, e);
          if !IsFolder(t, e) { NothingBelowEntry(t, e, q); }
        }
      }
    }
  }

  lemma OneMoreDone(t: Listing, done: set<Path>, d: Path)
    requires d in t && d !in done
    ensures |t.Keys - (done + {d})| < |t.Keys - done|
  {
    assert t.Keys - (done + {d}) == (t.Keys - done) - {d};
  }
}
