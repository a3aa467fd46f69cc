/** Directory trees: paths, what is at them, and moving a subtree. */
module FileTrees {
  import opened Prelude

  datatype Name = Name(text: string)

  type Path = seq<Name>

  datatype Content = Content(bytes: seq<Byte>)

  datatype Node = Dir | File(content: Content)

  type Tree = map<Path, Node>

  predicate Under(p: Path, root: Path) {
    root <= p
  }

  function Parent(p: Path): (r: Path)
    requires p != []
    ensures |r| == |p| - 1 && r <= p
  {
    p[..|p| - 1]
  }

  function Join(root: Path, rel: Path): Path {
    root + rel
  }

  function StripPrefix(p: Path, root: Path): (r: Path)
    requires Under(p, root)
    ensures Join(root, r) == p
  {
    p[|root|..]
  }

  /** The same place below another root. */
  function Rebase(p: Path, src: Path, dst: Path): Path
    requires Under(p, src)
  {
    Join(dst, StripPrefix(p, src))
  }

  /** Where a path ends up when `src` moves to `dst`. */
  function Shift(p: Path, src: Path, dst: Path): Path {
    if Under(p, src) then Rebase(p, src, dst) else p
  }

  /** The root is a directory, and so is the parent of everything. */
  ghost predicate WellFormed(t: Tree) {
    (forall p :: p in t && p != [] ==> IsDir(t, Parent(p))) && IsDir(t, [])
  }

  predicate IsDir(t: Tree, p: Path) {
    p in t && t[p].Dir?
  }

  predicate IsFile(t: Tree, p: Path) {
    p in t && t[p].File?
  }

  /** No two files are alike. */
  ghost predicate DistinctContents(t: Tree) {
    forall p, q :: IsFile(t, p) && IsFile(t, q) && t[p] == t[q] ==> p == q
  }

  // ------------------------------------------------------------- prefixes

  lemma PrefixesCompare(p: Path, a: Path, b: Path)
    requires Under(p, a) && Under(p, b)
    ensures Under(a, b) || Under(b, a)
  {
    if |a| <= |b| {
      assert a == p[..|a|] == b[..|a|];
    } else {
      assert b == p[..|b|] == a[..|b|];
    }
  }

  lemma ParentUnder(p: Path, root: Path)
    requires p != []
    ensures Under(p, root) <==> p == root || Under(Parent(p), root)
  {
    if Under(p, root) && p != root {
      assert Parent(p)[..|root|] == p[..|root|];
    }
  }

  /** Everything on the way to something that is there is a directory. */
  lemma {:induction false} AncestorsAreDirs(t: Tree, p: Path, a: Path)
    requires WellFormed(t) && p in t && Under(p, a) && a != p
    ensures IsDir(t, a)
  {
    ParentUnder(p, a);
    if Parent(p) != a { AncestorsAreDirs(t, Parent(p), a); }
  }

  /** Nothing is below a file or below a path that is not there. */
  lemma NothingBelow(t: Tree, a: Path, p: Path)
    requires WellFormed(t) && Under(p, a) && !IsDir(t, a) && p in t
    ensures p == a
  {
    if p != a { AncestorsAreDirs(t, p, a); }
  }

  lemma RebaseIsUnder(p: Path, src: Path, dst: Path)
    requires Under(p, src)
    ensures Under(Rebase(p, src, dst), dst)
    ensures StripPrefix(Rebase(p, src, dst), dst) == StripPrefix(p, src)
    ensures Rebase(Rebase(p, src, dst), dst, src) == p
  {
  }

  lemma RebaseParent(p: Path, src: Path, dst: Path)
    requires Under(p, src) && p != src
    ensures Under(Parent(p), src) && Rebase(p, src, dst) != []
            && Parent(Rebase(p, src, dst)) == Rebase(Parent(p), src, dst)
  {
    ParentUnder(p, src);
    assert p[|src|..][..|p| - |src| - 1] == p[..|p| - 1][|src|..];
  }

  /** Neither is inside the other. */
  predicate Disjoint(a: Path, b: Path) {
    !Under(a, b) && !Under(b, a)
  }

  lemma UnderTwice(p: Path, q: Path, r: Path)
    requires Under(p, q) && Under(q, r)
    ensures Under(p, r)
  {
    assert p[..|r|] == q[..|r|];
  }

  lemma StaysDisjoint(p: Path, a: Path, b: Path)
    requires Under(p, a) && Disjoint(a, b)
    ensures Disjoint(p, b)
  {
    if Under(p, b) { PrefixesCompare(p, a, b); }
    if Under(b, p) { UnderTwice(b, p, a); }
  }

  // ------------------------------------------------------------- moving a subtree

  /** `src` and all below it, renamed to `dst`. */
  function RenameTree(t: Tree, src: Path, dst: Path): Tree {
    map p | p in t.Keys + Rebased(t, src, dst) && (Under(p, dst) || !Under(p, src)) ::
      if Under(p, dst) && Rebase(p, dst, src) in t then t[Rebase(p, dst, src)] else if p in t then t[p] else Dir
  }

  /** The tree with a copy of `src` and all below it at `dst`. */
  function CopyTree(t: Tree, src: Path, dst: Path): Tree {
    map p | p in t.Keys + Rebased(t, src, dst) ::
      if Under(p, dst) && Rebase(p, dst, src) in t then t[Rebase(p, dst, src)] else if p in t then t[p] else Dir
  }

  function Rebased(t: Tree, src: Path, dst: Path): set<Path> {
    set p | p in t && Under(p, src) :: Rebase(p, src, dst)
  }

  /** The destination is free and not inside what moves. */
  ghost predicate CanRename(t: Tree, src: Path, dst: Path) {
    WellFormed(t) && src in t && src != [] && dst !in t && dst != [] && IsDir(t, Parent(dst)) && !Under(dst, src)
  }

  /** What is at each path after a rename: below `dst`, what was below `src`; elsewhere what was
      there, and nothing below `src`. */
  lemma RenameAt(t: Tree, src: Path, dst: Path, p: Path)
    requires CanRename(t, src, dst)
    ensures Under(p, dst) ==> (p in RenameTree(t, src, dst) <==> Rebase(p, dst, src) in t)
    ensures Under(p, dst) && p in RenameTree(t, src, dst) ==> RenameTree(t, src, dst)[p] == t[Rebase(p, dst, src)]
    ensures !Under(p, dst) ==> (p in RenameTree(t, src, dst) <==> p in t && !Under(p, src))
    ensures !Under(p, dst) && p in RenameTree(t, src, dst) ==> RenameTree(t, src, dst)[p] == t[p]
  {
    if Under(p, dst) {
      var q := Rebase(p, dst, src);
      RebaseIsUnder(p, dst, src);
      if p in t { NothingBelow(t, dst, p); }
      if p in Rebased(t, src, dst) {
        var q' :| q' in t && Under(q', src) && p == Rebase(q', src, dst);
        RebaseIsUnder(q', src, dst);
      }
    }
  }

  lemma RenameWellFormed(t: Tree, src: Path, dst: Path)
    requires CanRename(t, src, dst)
    ensures WellFormed(RenameTree(t, src, dst))
  {
    var u := RenameTree(t, src, dst);
    forall p | p in u && p != [] ensures IsDir(u, Parent(p)) {
      RenameParent(t, src, dst, p);
    }
    RenameAt(t, src, dst, []);
  }

  lemma RenameParent(t: Tree, src: Path, dst: Path, p: Path)
    requires CanRename(t, src, dst) && p in RenameTree(t, src, dst) && p != []
    ensures IsDir(RenameTree(t, src, dst), Parent(p))
  {
    RenameAt(t, src, dst, p);
    RenameAt(t, src, dst, Parent(p));
    ParentUnder(p, dst);
    if Under(p, dst) {
      if p != dst {
        RebaseParent(p, dst, src);
      } else {
        ParentUnder(dst, src);
      }
    } else {
      ParentUnder(p, src);
    }
  }
}
