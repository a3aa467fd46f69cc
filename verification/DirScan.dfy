/** Walking a directory with a stack of folders still to open. */
module DirScans {
  import opened Prelude
  import opened FileTrees
  import opened FileSystems

  datatype Entry = Folder(mtime: Option<nat>) | Plain(size: nat,
    mtime: Option<nat>) | Link | Special(mtime: Option<nat>)

  type Listing = map<Path, Entry>

  /** Which steps of reading a tree fail: listing a folder, reading an entry of a listing, reading
      the metadata of an entry, and reading that of a folder a second time. */
  datatype Faults = Faults(lists: set<Path>, entries: set<Path>, stats: set<Path>, restats: set<Path>)

  /** The same tree with folders and everything else told apart. */
  ghost function Shape(t: Listing): Tree {
    map p | p in t :: if t[p].Folder? then Dir else File(Content([]))
  }

  ghost predicate Sound(t: Listing) {
    WellFormed(Shape(t))
  }

  predicate IsFolder(t: Listing, p: Path) {
    p in t && t[p].Folder?
  }

  lemma NothingBelowEntry(t: Listing, a: Path, p: Path)
    requires Sound(t) && p in t && Under(p, a) && !IsFolder(t, a)
    ensures p == a
  {
    NothingBelow(Shape(t), a, p);
  }

  function Names(t: Listing, p: Path): set<Name> {
    set q | q in t && |q| == |p| + 1 && Under(q, p) :: q[|p|]
  }

  ghost function ChildPaths(d: Path, names: set<Name>): set<Path> {
    set n | n in names :: d + [n]
  }

  lemma NamesAreChildren(t: Listing, d: Path, n: Name)
    ensures n in Names(t, d) <==> d + [n] in t
  {
    if n in Names(t, d) {
      var q :| q in t && |q| == |d| + 1 && Under(q, d) && q[|d|] == n;
      assert q == d + [n];
    }
    if d + [n] in t { assert Under(d + [n], d) && (d + [n])[|d|] == n; }
  }

  /** What is below `root`, cut into parts: pairwise apart, and everything is in a part or is a
      folder that has been opened. */
  ghost predicate Cut(t: Listing, root: Path, parts: set<Path>, done: set<Path>) {
    PartsBelow(t, root, parts) && PairwiseApart(parts) && NoneBelow(done, parts) && Foldered(t, done)
      && Covered(t, root, parts, done)
  }

  ghost predicate PartsBelow(t: Listing, root: Path, parts: set<Path>) {
    forall x :: x in parts ==> x in t && Under(x, root)
  }

  ghost predicate PairwiseApart(parts: set<Path>) {
    forall x, y :: x in parts && y in parts && x != y ==> Disjoint(x, y)
  }

  ghost predicate NoneBelow(done: set<Path>, parts: set<Path>) {
    forall c, x :: c in done && x in parts ==> !Under(c, x)
  }

  ghost predicate Foldered(t: Listing, done: set<Path>) {
    forall c :: c in done ==> IsFolder(t, c)
  }

  ghost predicate Covered(t: Listing, root: Path, parts: set<Path>, done: set<Path>) {
    forall q :: q in t && Under(q, root) ==> q in done || InPart(parts, q)
  }

  ghost predicate InPart(parts: set<Path>, q: Path) {
    exists x :: x in parts && Under(q, x)
  }

  lemma CutStart(t: Listing, root: Path)
    requires root in t
    ensures Cut(t, root, {root}, {})
  {
  }

  ghost function Opened(t: Listing, parts: set<Path>, d: Path): set<Path> {
    parts - {d} + ChildPaths(d, Names(t, d))
  }

  /** Opening a folder replaces it by its entries. */
  lemma CutOpen(t: Listing, root: Path, parts: set<Path>, done: set<Path>, d: Path)
    requires Sound(t) && Cut(t, root, parts, done) && d in parts && IsFolder(t, d)
    ensures Cut(t, root, Opened(t, parts, d), done + {d}) && d !in done
  {
    OpenBelow(t, root, parts, d);
    OpenApart(t, parts, d);
    OpenNoneBelow(t, root, parts, done, d);
    OpenCovered(t, root, parts, done, d);
    assert d !in done by { assert Under(d, d); }
  }

  lemma OpenBelow(t: Listing, root: Path, parts: set<Path>, d: Path)
    requires PartsBelow(t, root, parts) && PairwiseApart(parts) && d in parts
    ensures PartsBelow(t, root, Opened(t, parts, d))
  {
    forall x | x in Opened(t, parts, d) ensures x in t && Under(x, root) {
      ChildOrPart(t, root, parts, d, x);
    }
  }

  lemma OpenApart(t: Listing, parts: set<Path>, d: Path)
    requires PairwiseApart(parts) && d in parts
    ensures PairwiseApart(Opened(t, parts, d))
  {
    var next := Opened(t, parts, d);
    forall x, y | x in next && y in next && x != y ensures Disjoint(x, y) {
      StillApart(t, parts, d, x, y);
    }
  }

  lemma OpenNoneBelow(t: Listing, root: Path, parts: set<Path>, done: set<Path>, d: Path)
    requires PartsBelow(t, root, parts) && PairwiseApart(parts) && NoneBelow(done, parts) && d in parts
    ensures NoneBelow(done + {d}, Opened(t, parts, d))
  {
    forall c, x | c in done + {d} && x in Opened(t, parts, d) ensures !Under(c, x) {
      StillNotBelow(t, root, parts, done, d, c, x);
    }
  }

  lemma OpenCovered(t: Listing, root: Path, parts: set<Path>, done: set<Path>, d: Path)
    requires Sound(t) && Covered(t, root, parts, done) && d in parts && IsFolder(t, d)
    ensures Covered(t, root, Opened(t, parts, d), done + {d})
  {
    forall q | q in t && Under(q, root) ensures q in done + {d} || InPart(Opened(t, parts, d), q) {
      StillCovered(t, root, parts, done, d, q);
    }
  }

  lemma StillNotBelow(t: Listing, root: Path, parts: set<Path>, done: set<Path>, d: Path, c: Path, x: Path)
    requires PartsBelow(t, root, parts) && PairwiseApart(parts) && NoneBelow(done, parts)
    requires d in parts && c in done + {d} && x in Opened(t, parts, d)
    ensures !Under(c, x)
  {
    ChildOrPart(t, root, parts, d, x);
    if c != d && x !in parts && Under(c, x) { UnderTwice(c, x, d); }
  }

  lemma StillCovered(t: Listing, root: Path, parts: set<Path>, done: set<Path>, d: Path, q: Path)
    requires Sound(t) && Covered(t, root, parts, done) && d in parts && IsFolder(t, d) && q in t && Under(q, root)
    ensures q in done + {d} || InPart(Opened(t, parts, d), q)
  {
    if q !in done && q != d {
      var x :| x in parts && Under(q, x);
      if x == d {
        HasChild(Shape(t), d, q);
        NamesShape(t, d);
        assert q[..|d| + 1] == d + [q[|d|]];
        assert d + [q[|d|]] in Opened(t, parts, d);
        assert Under(q, d + [q[|d|]]);
      } else {
        assert x in Opened(t, parts, d);
      }
    }
  }

  lemma NamesShape(t: Listing, d: Path)
    ensures Names(t, d) == Children(Shape(t), d)
  {
  }

  lemma ChildOrPart(t: Listing, root: Path, parts: set<Path>, d: Path, x: Path)
    requires PartsBelow(t, root, parts) && PairwiseApart(parts) && d in parts && x in Opened(t, parts, d)
    ensures x in t && Under(x, root) && !Under(d, x) && (x in parts || Under(x, d))
  {
    if x in ChildPaths(d, Names(t, d)) {
      var n :| n in Names(t, d) && x == d + [n];
      NamesAreChildren(t, d, n);
      assert Under(x, d);
      UnderTwice(x, d, root);
    }
  }

  lemma StillApart(t: Listing, parts: set<Path>, d: Path, x: Path, y: Path)
    requires PairwiseApart(parts)
    requires d in parts && x in Opened(t, parts, d) && y in Opened(t, parts, d) && x != y
    ensures Disjoint(x, y)
  {
    var kids := ChildPaths(d, Names(t, d));
    if x in kids && y in kids {
      assert |x| == |y| == |d| + 1;
    } else if x in kids {
      StaysDisjoint(x, d, y);
    } else if y in kids {
      StaysDisjoint(y, d, x);
    }
  }

  // ------------------------------------------------------------- the walk

  ghost function Elems(stack: seq<Path>): set<Path> {
    set x | x in stack
  }

  ghost predicate Distinct(stack: seq<Path>) {
    forall i, j :: 0 <= i < j < |stack| ==> stack[i] != stack[j]
  }

  /** A walk in progress: folders on the stack, parts that are settled, and the entries of `d`
      that are still to be looked at; together they cut what is below `root`. */
  ghost predicate Walking(t: Listing, root: Path, stack: seq<Path>, settled: set<Path>, done: set<Path>, d: Path,
                          left: set<Name>) {
    Cut(t, root, Elems(stack) + settled + ChildPaths(d, left), done) && Distinct(stack) &&
    (forall x :: x in stack ==> x !in settled && x !in ChildPaths(d, left) && IsFolder(t, x)) &&
    settled !! ChildPaths(d, left)
  }

  lemma WalkStart(t: Listing, root: Path)
    requires IsFolder(t, root)
    ensures Walking(t, root, [root], {}, {}, root, {})
  {
    CutStart(t, root);
    assert Elems([root]) + {} + ChildPaths(root, {}) == {root};
  }

  /** The top folder is opened. */
  lemma WalkPop(t: Listing, root: Path, stack: seq<Path>, settled: set<Path>, done: set<Path>, d0: Path)
    requires Sound(t) && Walking(t, root, stack, settled, done, d0, {}) && stack != []
    ensures var d := stack[|stack| - 1];
            Walking(t, root, stack[..|stack| - 1], settled, done + {d}, d, Names(t, d)) && d !in done
  {
    var n := |stack| - 1;
    var d, rest := stack[n], stack[..n];
    var parts := Elems(stack) + settled + ChildPaths(d0, {});
    PopParts(stack, settled, d0);
    CutOpen(t, root, parts, done, d);
    KidsFresh(parts, d, Names(t, d));
  }

  lemma PopParts(stack: seq<Path>, settled: set<Path>, d0: Path)
    requires stack != [] && Distinct(stack) && stack[|stack| - 1] !in settled
    ensures var n := |stack| - 1; var parts := Elems(stack) + settled + ChildPaths(d0, {});
            Distinct(stack[..n]) && parts - {stack[n]} == Elems(stack[..n]) + settled && stack[n] in parts
              && Elems(stack[..n]) <= parts && settled <= parts
  {
    TopApart(stack);
  }

  /** The entries of a part are not parts themselves. */
  lemma KidsFresh(parts: set<Path>, d: Path, names: set<Name>)
    requires PairwiseApart(parts) && d in parts
    ensures ChildPaths(d, names) !! parts
  {
    forall n | n in names ensures d + [n] !in parts {
      assert Under(d + [n], d) && d + [n] != d;
    }
  }

  lemma TopApart(stack: seq<Path>)
    requires stack != [] && Distinct(stack)
    ensures var n := |stack| - 1;
            Elems(stack) == Elems(stack[..n]) + {stack[n]} && stack[n] !in stack[..n] && Distinct(stack[..n])
  {
    var n := |stack| - 1;
    forall x | x in stack ensures x in stack[..n] || x == stack[n] {
      var i :| 0 <= i < |stack| && stack[i] == x;
      if i < n { assert stack[..n][i] == x; }
    }
  }

  /** The top folder could not be listed. */
  lemma WalkGiveUp(t: Listing, root: Path, stack: seq<Path>, settled: set<Path>, done: set<Path>, d: Path)
    requires Walking(t, root, stack, settled, done, d, {}) && stack != []
    ensures Walking(t, root, stack[..|stack| - 1], settled + {stack[|stack| - 1]}, done, d, {})
  {
    var n := |stack| - 1;
    TopApart(stack);
    assert Elems(stack[..n]) + (settled + {stack[n]}) + ChildPaths(d, {}) == Elems(stack) + settled + ChildPaths(d, {});
  }

  lemma ChildPathsLess(d: Path, left: set<Name>, n: Name)
    requires n in left
    ensures ChildPaths(d, left) == ChildPaths(d, left - {n}) + {d + [n]} && d + [n] !in ChildPaths(d, left - {n})
  {
    forall x | x in ChildPaths(d, left) ensures x in ChildPaths(d, left - {n}) || x == d + [n] {
      var m :| m in left && x == d + [m];
    }
    forall m | m in left - {n} ensures d + [m] != d + [n] {
      assert (d + [n])[|d|] == n && (d + [m])[|d|] == m;
    }
  }

  /** An entry is settled. */
  lemma WalkSettle(t: Listing, root: Path, stack: seq<Path>, settled: set<Path>, done: set<Path>, d: Path,
                   left: set<Name>, n: Name)
    requires Walking(t, root, stack, settled, done, d, left) && n in left
    ensures Walking(t, root, stack, settled + {d + [n]}, done, d, left - {n})
  {
    ChildPathsLess(d, left, n);
    assert Elems(stack) + (settled + {d + [n]}) + ChildPaths(d, left - {n}) ==
           Elems(stack) + settled + ChildPaths(d, left);
  }

  /** A folder among the entries goes on the stack. */
  lemma WalkPush(t: Listing, root: Path, stack: seq<Path>, settled: set<Path>, done: set<Path>, d: Path,
                 left: set<Name>, n: Name)
    requires Walking(t, root, stack, settled, done, d, left) && n in left && IsFolder(t, d + [n])
    ensures Walking(t, root, stack + [d + [n]], settled, done, d, left - {n})
  {
    ChildPathsLess(d, left, n);
    assert Elems(stack + [d + [n]]) == Elems(stack) + {d + [n]};
    assert Elems(stack + [d + [n]]) + settled + ChildPaths(d, left - {n}) ==
           Elems(stack) + settled + ChildPaths(d, left);
  }

  /** Some of the entries are not looked at. */
  lemma WalkAbandon(t: Listing, root: Path, stack: seq<Path>, settled: set<Path>, done: set<Path>, d: Path,
                    left: set<Name>, some: set<Name>)
    requires Walking(t, root, stack, settled, done, d, left) && some <= left
    ensures Walking(t, root, stack, settled + ChildPaths(d, some), done, d, left - some)
  {
    ChildPathsSplit(d, left, some);
    assert Elems(stack) + (settled + ChildPaths(d, some)) + ChildPaths(d, left - some) ==
           Elems(stack) + settled + ChildPaths(d, left);
  }

  lemma ChildPathsSplit(d: Path, left: set<Name>, some: set<Name>)
    requires some <= left
    ensures ChildPaths(d, left) == ChildPaths(d, some) + ChildPaths(d, left - some)
            && ChildPaths(d, some) !! ChildPaths(d, left - some)
  {
    forall m, n | m in some && n in left - some ensures d + [m] != d + [n] {
      assert (d + [n])[|d|] == n && (d + [m])[|d|] == m;
    }
  }
}
