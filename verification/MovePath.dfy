/** Moving one file or directory: by rename, or across file systems by a verified copy. */
module Moving {
  import opened Prelude
  import opened FileTrees
  import opened FileSystems

  datatype MoveMethod = Nothing | Rename | Copy {
    function Merge(other: MoveMethod): MoveMethod {
      if this.Copy? || other.Copy? then Copy
      else if this.Rename? || other.Rename? then Rename
      else Nothing
    }
  }

  /** What is new lies on the way to `dst` or below a place beside it that was free. */
  ghost predicate NewAreNear(a: Tree, b: Tree, dst: Path) {
    forall p :: p in b && p !in a ==> Near(a, p, dst)
  }

  ghost predicate Near(a: Tree, p: Path, dst: Path) {
    Under(dst, p) || (dst != [] && |p| >= |dst| && Under(p, Parent(dst)) && p[..|dst|] !in a)
  }

  lemma NearStep(a: Tree, b: Tree, c: Tree, x: Path, dst: Path)
    requires NewAreNear(a, b, dst) && NoClobber(a, b) && SameOutside(b, c, x)
             && (forall p :: p in c && p in b ==> c[p] == b[p])
    requires WellFormed(a) && x != [] && dst != [] && x !in a && Parent(x) == Parent(dst)
    ensures NewAreNear(a, c, dst) && NoClobber(a, c)
  {
    forall p | p in c && p !in a ensures Near(a, p, dst) {
      if Under(p, x) {
        assert p[..|dst|] == x;
        ParentUnder(x, Parent(dst));
      }
    }
    forall p | p in a && p in c ensures c[p] == a[p] {
      if Under(p, x) { NothingBelow(a, x, p); }
    }
  }

  /** Any name that is not taken beside `dst`. */
  method TempSibling(fs: FileSystem, dst: Path) returns (tmp: Path)
    requires dst != []
    ensures tmp != [] && Parent(tmp) == Parent(dst) && tmp !in fs.tree && tmp != dst
  {
    FreshName(fs.tree[dst := Dir], Parent(dst));
    var name: Name :| Parent(dst) + [name] !in fs.tree && Parent(dst) + [name] != dst;
    tmp := Parent(dst) + [name];
  }

  ghost function Long(k: nat): Name {
    Name(seq(k, _ => 'x'))
  }

  lemma FreshName(t: Tree, dir: Path)
    ensures exists n: Name :: dir + [n] !in t
  {
    var k := Longest(t.Keys, dir);
    if dir + [Long(k)] in t {
      LongestBound(t.Keys, dir, Long(k));
    }
  }

  ghost function NameLen(p: Path, k: nat): nat {
    if |p| > k then |p[k].text| + 1 else 0
  }

  ghost function Longest(ps: set<Path>, dir: Path): nat
    decreases |ps|, 1
  {
    if ps == {} then 0
    else
      var p :| p in ps;
      LongestWith(ps, p, dir)
  }

  ghost function LongestWith(ps: set<Path>, p: Path, dir: Path): nat
    requires p in ps
    decreases |ps|, 0
  {
    Max(NameLen(p, |dir|), Longest(ps - {p}, dir))
  }

  lemma {:induction false} LongestBound(ps: set<Path>, dir: Path, n: Name)
    requires dir + [n] in ps
    ensures |n.text| < Longest(ps, dir)
  {
    var p :| p in ps && Longest(ps, dir) == LongestWith(ps, p, dir);
    var rest := ps - {p};
    assert LongestWith(ps, p, dir) == Max(NameLen(p, |dir|), Longest(rest, dir));
    if p != dir + [n] {
      LongestBound(rest, dir, n);
    } else {
      assert p[|dir|] == n;
    }
  }

  /** Removes empty directories below and including `dir`. */
  method RemoveEmptyTree(fs: FileSystem, dir: Path)
    requires fs.Valid()
    modifies fs`tree
    ensures fs.Valid() && OnlyDirsGone(old(fs.tree), fs.tree) && KeptOutside(old(fs.tree), fs.tree, dir)
    decreases MAX_DEPTH - |dir|
  {
    var listFails := fs.Fails();
    var listing := fs.ReadDir(dir, listFails);
    if listing.Ok? {
      var left := listing.value;
      while left != {}
        invariant fs.Valid() && OnlyDirsGone(old(fs.tree), fs.tree) && KeptOutside(old(fs.tree), fs.tree, dir)
        decreases |left|
      {
        var n := fs.pick(dir, left);
        ghost var b := fs.tree;
        var typeFails := fs.Fails();
        if IsDir(fs.tree, dir + [n]) && !typeFails {
          RemoveEmptyTree(fs, dir + [n]);
          KeptInner(b, fs.tree, dir, n);
        }
        left := left - {n};
      }
    }
    var r := fs.RemoveDir(dir);
  }

  lemma KeptInner(a: Tree, b: Tree, dir: Path, n: Name)
    requires KeptOutside(a, b, dir + [n])
    ensures KeptOutside(a, b, dir)
  {
    forall p | p in a && !Under(p, dir) ensures p in b {
      BelowOne(p, dir, n);
    }
  }

  /** Removes copied sources, as far as that works. */
  method RemoveFiles(fs: FileSystem, files: set<Path>)
    requires fs.Valid() && forall q :: q in fs.loc ==> fs.loc[q] !in files
    modifies fs`tree
    ensures fs.Valid() && forall p :: p in fs.tree ==> p in old(fs.tree) && fs.tree[p] == old(fs.tree)[p]
    ensures forall p :: p in old(fs.tree) && p !in files ==> p in fs.tree
  {
    var left := files;
    while left != {}
      invariant fs.Valid() && left <= files
      invariant forall p :: p in fs.tree ==> p in old(fs.tree) && fs.tree[p] == old(fs.tree)[p]
      invariant forall p :: p in old(fs.tree) && p !in files ==> p in fs.tree
      decreases |left|
    {
      var f :| f in left;
      var r := fs.RemoveFile(f);
      left := left - {f};
    }
  }

  /** No file of the initial ones is below what was copied away. */
  lemma NoneLeftUnder(a: Tree, initial: map<Path, Content>, loc: map<Path, Path>, src: Path, dst: Path)
    requires WellFormed(a) && Held(initial, a, loc) && src in a && dst !in a && !Under(dst, src)
    ensures forall q :: q in loc ==> !Under(ShiftAll(loc, src, dst)[q], src)
  {
    forall q | q in loc ensures !Under(ShiftAll(loc, src, dst)[q], src) {
      var x := loc[q];
      if Under(x, src) {
        RebaseIsUnder(x, src, dst);
        SourceApart(a, src, dst, x);
        if Under(Rebase(x, src, dst), src) {
          SourceApart(a, src, dst, Rebase(x, src, dst));
        }
      }
    }
  }

  /** What is below `src` is also below `dst`. */
  ghost predicate CopiedTo(a: Tree, b: Tree, src: Path, dst: Path) {
    forall p :: p in a && Under(p, src) ==> Rebase(p, src, dst) in b && b[Rebase(p, src, dst)] == a[p]
  }

  /** What a move onto `dst` begins with: without what is in its way. */
  ghost function Freed(t: Tree, dst: Path): Tree {
    if dst in t then t - {dst} else t
  }

  ghost function FreedLoc(t: Tree, loc: map<Path, Path>, dst: Path): map<Path, Path> {
    if dst in t then Without(loc, dst) else loc
  }

  /** A copy beside the destination, put in place; then the sources go. */
  method MoveByCopy(fs: FileSystem, src: Path, dst: Path, copy: bool) returns (r: Result<MoveMethod, IoError>)
    requires fs.Valid() && src in fs.tree && dst != [] && IsDir(fs.tree, Parent(dst)) && !Under(dst, src)
    modifies fs
    ensures fs.Valid() && Tore(old(fs.replaced), fs.replaced, old(fs.tree), fs.unread, fs.noReplace, src, dst, r.Ok?)
    ensures Moves(old(fs.tree), old(fs.loc), fs.tree, fs.loc, src, dst, copy, r.Ok?)
    ensures fs.calm && copy ==> (r.Ok? <==> CanMoveOnto(old(fs.tree), fs.unread, fs.noReplace, copy, src, dst))
    ensures fs.calm && copy && r.Ok? ==> fs.tree == MovedOnto(old(fs.tree), copy, src, dst)
  {
    ghost var a, l := fs.tree, fs.loc;
    if src in fs.unread { StaysPut(a, l, src, dst, copy); return Err(NotFound); }
    var tmp := TempSibling(fs, dst);
    var isDir := fs.tree[src].Dir?;
    var copied := CopyAside(fs, src, tmp, dst);
    if copied.Err? {
      Discard(fs, a, tmp, dst);
      return Err(copied.error);
    }
    r := PutCopy(fs, a, src, tmp, dst, copy, isDir, copied.value);
  }

  /** The copy beside the destination, in the making of a move that began at `a`. */
  ghost predicate Aside(a: Tree, b: Tree, src: Path, tmp: Path, dst: Path) {
    && WellFormed(a) && src in a && dst != [] && IsDir(a, Parent(dst)) && !Under(dst, src)
    && tmp !in a && tmp in b && tmp != [] && tmp != dst && Parent(tmp) == Parent(dst)
    && KeepsAll(a, b) && SameOutside(a, b, tmp) && Mirrors(a, src, b, tmp)
  }

  /** Puts the copy in place; then the sources go. */
  method PutCopy(fs: FileSystem, ghost a: Tree, src: Path, tmp: Path, dst: Path, copy: bool, isDir: bool,
                 copied: set<Path>) returns (r: Result<MoveMethod, IoError>)
    requires fs.Valid() && Aside(a, fs.tree, src, tmp, dst) && Held(fs.initial, a, fs.loc)
    requires forall f :: f in copied ==> Under(f, src)
    modifies fs
    ensures fs.Valid() && Tore(old(fs.replaced), fs.replaced, a, fs.unread, fs.noReplace, src, dst, r.Ok?)
    ensures Moves(a, old(fs.loc), fs.tree, fs.loc, src, dst, copy, r.Ok?)
    ensures fs.calm ==> (r.Ok? <==> dst !in a || Overwrites(a, fs.unread, fs.noReplace, src, dst))
    ensures copy && r.Ok? ==> fs.tree == CopyTree(Freed(a, dst), src, dst)
  {
    ghost var l := fs.loc;
    var put := PlaceCopy(fs, a, src, tmp, dst);
    if put.Err? {
      Discard(fs, a, tmp, dst);
      return Err(put.error);
    }
    if !copy {
      ghost var c := fs.tree;
      RemoveSources(fs, src, isDir, copied);
      SourcesGone(Freed(a, dst), FreedLoc(a, l, dst), c, fs.tree, src, dst);
    }
    r := Ok(Copy);
  }

  method PlaceCopy(fs: FileSystem, ghost a: Tree, src: Path, tmp: Path, dst: Path) returns (r: Result<(), IoError>)
    requires fs.Valid() && Aside(a, fs.tree, src, tmp, dst) && Held(fs.initial, a, fs.loc)
    modifies fs
    ensures fs.Valid() && Tore(old(fs.replaced), fs.replaced, a, fs.unread, fs.noReplace, src, dst, r.Ok?)
    ensures r.Err? ==> fs.tree == old(fs.tree) && fs.loc == old(fs.loc)
    ensures r.Ok? ==> Placed(a, old(fs.loc), fs.tree, fs.loc, src, dst)
    ensures fs.calm ==> (r.Ok? <==> dst !in a || Overwrites(a, fs.unread, fs.noReplace, src, dst))
  {
    ghost var b, l := fs.tree, fs.loc;
    r := fs.RenameNoClobber(tmp, dst);
    AsideOutcome(a, b, fs.unread, fs.noReplace, src, tmp, dst, r.Ok?);
    if r.Ok? {
      CopyPut(a, b, l, fs.initial, src, tmp, dst);
      fs.Follow(ShiftAll(FreedLoc(a, l, dst), src, dst));
    }
  }

  /** Putting the copy in place works, and replaces something, when moving the source would. */
  lemma AsideOutcome(a: Tree, b: Tree, unread: set<Path>, noReplace: bool, src: Path, tmp: Path, dst: Path, ok: bool)
    requires WellFormed(b) && Aside(a, b, src, tmp, dst)
    ensures src != dst && (dst in a <==> dst in b) && Replacing(b, tmp, dst, ok) == Replacing(a, src, dst, ok)
    ensures Overwrites(b, unread, noReplace, tmp, dst) <==> Overwrites(a, unread, noReplace, src, dst)
    ensures CanRename(b, tmp, dst) <==> dst !in a
  {
    AsideCanRename(a, b, tmp, dst);
    AsideReplaces(a, b, src, tmp, dst);
  }

  /** The copy is in place, and counts as the file. */
  ghost predicate Placed(a: Tree, l0: map<Path, Path>, c: Tree, l: map<Path, Path>, src: Path, dst: Path) {
    && l == ShiftAll(FreedLoc(a, l0, dst), src, dst) && c == CopyTree(Freed(a, dst), src, dst)
    && MoveKeeps(Freed(a, dst), FreedLoc(a, l0, dst), c, l, src, dst, true, true)
    && forall q :: q in l ==> !Under(l[q], src)
  }

  lemma CopyPut(a: Tree, b: Tree, l: map<Path, Path>, initial: map<Path, Content>, src: Path, tmp: Path, dst: Path)
    requires WellFormed(b) && Aside(a, b, src, tmp, dst) && Held(initial, a, l)
    requires if dst in b then Replaces(b, tmp, dst) else CanRename(b, tmp, dst)
    ensures var c := if dst in b then ReplaceTree(b, tmp, dst) else RenameTree(b, tmp, dst);
            var l' := ShiftAll(FreedLoc(a, l, dst), src, dst);
            && Held(initial, c, l') && Placed(a, l, c, l', src, dst)
            && l'.Keys == if dst in b then ReplaceLoc(l, tmp, dst).Keys else ShiftAll(l, tmp, dst).Keys
  {
    AsideReplaces(a, b, src, tmp, dst);
    AsideFreed(a, b, l, initial, src, tmp, dst);
    CopyInPlace(Freed(a, dst), Freed(b, dst), FreedLoc(a, l, dst), initial, src, tmp, dst);
  }

  /** The copy is in the way of nothing, and replaces what the source would. */
  lemma AsideReplaces(a: Tree, b: Tree, src: Path, tmp: Path, dst: Path)
    requires WellFormed(b) && Aside(a, b, src, tmp, dst)
    ensures (dst in a <==> dst in b) && (dst in a ==> (Replaces(b, tmp, dst) <==> Replaces(a, src, dst)))
  {
    assert !Under(dst, tmp) && dst != src;
    assert Rebase(tmp, tmp, src) == src && Under(tmp, tmp);
    forall n | n in Children(b, dst) ensures n in Children(a, dst) {
      var q :| q in b && |q| == |dst| + 1 && Under(q, dst) && q[|dst|] == n;
      assert q[..|tmp|] == dst;
    }
    forall n | n in Children(a, dst) ensures n in Children(b, dst) {
      var q :| q in a && |q| == |dst| + 1 && Under(q, dst) && q[|dst|] == n;
      assert q in b;
    }
    assert Children(a, dst) == Children(b, dst);
  }

  /** It is as if what is replaced had not been there. */
  lemma AsideFreed(a: Tree, b: Tree, l: map<Path, Path>, initial: map<Path, Content>, src: Path, tmp: Path, dst: Path)
    requires WellFormed(b) && Aside(a, b, src, tmp, dst) && Held(initial, a, l)
    requires if dst in b then Replaces(b, tmp, dst) else CanRename(b, tmp, dst)
    ensures Aside(Freed(a, dst), Freed(b, dst), src, tmp, dst) && CanRename(Freed(b, dst), tmp, dst)
    ensures Held(initial, Freed(a, dst), FreedLoc(a, l, dst))
  {
    AsideReplaces(a, b, src, tmp, dst);
    HeldWithout(initial, a, l, dst);
    if dst in b {
      ReplaceIsRename(b, tmp, dst);
      ReplaceIsRename(a, src, dst);
      FreedMirrors(a, b, src, tmp, dst);
    }
  }

  lemma FreedMirrors(a: Tree, b: Tree, src: Path, tmp: Path, dst: Path)
    requires Aside(a, b, src, tmp, dst) && dst in a
    ensures Mirrors(a - {dst}, src, b - {dst}, tmp)
  {
    forall p | Under(p, tmp) ensures p != dst && Rebase(p, tmp, src) != dst {
      RebaseIsUnder(p, tmp, src);
    }
  }

  lemma CopyInPlace(a: Tree, b: Tree, l: map<Path, Path>, initial: map<Path, Content>, src: Path, tmp: Path, dst: Path)
    requires Aside(a, b, src, tmp, dst) && CanRename(b, tmp, dst) && Held(initial, a, l)
    ensures var c, l' := RenameTree(b, tmp, dst), ShiftAll(l, src, dst);
            && Held(initial, c, l') && MoveKeeps(a, l, c, l', src, dst, true, true) && c == CopyTree(a, src, dst)
            && forall q :: q in l' ==> !Under(l'[q], src)
  {
    PutInPlace(a, b, src, tmp, dst);
    assert Under(src, src) && Rebase(src, src, dst) == dst;
    HeldShifted(initial, a, RenameTree(b, tmp, dst), l, src, dst);
    NoneLeftUnder(a, initial, l, src, dst);
  }

  lemma SourcesGone(a: Tree, l: map<Path, Path>, c: Tree, d: Tree, src: Path, dst: Path)
    requires MoveKeeps(a, l, c, ShiftAll(l, src, dst), src, dst, true, true) && KeptOutside(c, d, src)
             && !Under(dst, src)
    requires forall p :: p in d ==> p in c && d[p] == c[p]
    ensures MoveKeeps(a, l, d, ShiftAll(l, src, dst), src, dst, false, true)
  {
  }

  method RemoveSources(fs: FileSystem, src: Path, isDir: bool, files: set<Path>)
    requires fs.Valid() && (forall f :: f in files ==> Under(f, src))
    requires forall q :: q in fs.loc ==> !Under(fs.loc[q], src)
    modifies fs`tree
    ensures fs.Valid() && KeptOutside(old(fs.tree), fs.tree, src)
    ensures forall p :: p in fs.tree ==> p in old(fs.tree) && fs.tree[p] == old(fs.tree)[p]
  {
    RemoveFiles(fs, files);
    if isDir { RemoveEmptyTree(fs, src); }
  }

  /** What a move does to the tree and to the files: a failure leaves every file in its place, and
      success takes every file below `src` to the same place below `dst`. */
  ghost predicate MoveKeeps(a: Tree, l0: map<Path, Path>, b: Tree, l: map<Path, Path>, src: Path, dst: Path, copy: bool,
                            ok: bool)
  {
    && NoClobber(a, b) && NewAreNear(a, b, dst) && KeptOutside(a, b, src) && (copy || !ok ==> KeepsAll(a, b))
    && (if ok then dst !in a && dst in b && l == ShiftAll(l0, src, dst) else l == l0)
    && (copy && ok ==> CopiedTo(a, b, src, dst))
  }

  lemma StaysPut(a: Tree, l: map<Path, Path>, src: Path, dst: Path, copy: bool)
    ensures MoveKeeps(a, l, a, l, src, dst, copy, false)
  {
  }

  /** The same when something in the way may be replaced: the rest fares as if that had not been
      there. */
  ghost predicate Moves(a: Tree, l0: map<Path, Path>, b: Tree, l: map<Path, Path>, src: Path, dst: Path, copy: bool,
                        ok: bool)
  {
    if ok then MoveKeeps(Freed(a, dst), FreedLoc(a, l0, dst), b, l, src, dst, copy, true)
    else MoveKeeps(a, l0, b, l, src, dst, copy, false)
  }

  /** A move replaces something exactly when it works and something is in its way, and then only what
      it cannot see. */
  ghost predicate Tore(was: seq<Path>, now: seq<Path>, t: Tree, unread: set<Path>, noReplace: bool, src: Path,
                       dst: Path, ok: bool)
  {
    && now == was + Replacing(t, src, dst, ok) && (ok ==> src != dst)
    && (ok && dst in t ==> Overwrites(t, unread, noReplace, src, dst))
  }

  /** Nothing is in the way of a move, or what is cannot be seen and is replaced. */
  ghost predicate CanMove(t: Tree, unread: set<Path>, noReplace: bool, copy: bool, src: Path, dst: Path) {
    && dst != [] && CanMakeDirs(t, Parent(dst))
    && CanMoveOnto(MakeDirs(t, Parent(dst)), unread, noReplace, copy, src, dst)
  }

  ghost predicate CanMoveOnto(t: Tree, unread: set<Path>, noReplace: bool, copy: bool, src: Path, dst: Path) {
    && (CanRename(t, src, dst) || (src != dst && WellFormed(t) && Overwrites(t, unread, noReplace, src, dst)))
    && (copy ==> src !in unread && Listable(t, src))
  }

  /** What a move comes to when nothing fails. */
  ghost function MoveRun(t: Tree, unread: set<Path>, noReplace: bool, copy: bool, src: Path, dst: Path): Option<Tree> {
    if CanMove(t, unread, noReplace, copy, src, dst) then Some(Moved(t, copy, src, dst)) else None
  }

  /** The tree after a move. */
  ghost function Moved(t: Tree, copy: bool, src: Path, dst: Path): Tree
    requires dst != []
  {
    MovedOnto(MakeDirs(t, Parent(dst)), copy, src, dst)
  }

  ghost function MovedOnto(t: Tree, copy: bool, src: Path, dst: Path): Tree {
    if copy then CopyTree(Freed(t, dst), src, dst) else RenameTree(Freed(t, dst), src, dst)
  }

  /** What it replaces. */
  ghost function MoveTears(t: Tree, unread: set<Path>, noReplace: bool, copy: bool, src: Path, dst: Path): seq<Path> {
    if CanMove(t, unread, noReplace, copy, src, dst) && dst in t then [dst] else []
  }

  lemma AsideCanRename(a: Tree, b: Tree, tmp: Path, dst: Path)
    requires WellFormed(a) && WellFormed(b) && tmp !in a && tmp in b && tmp != [] && tmp != dst && dst != []
    requires Parent(tmp) == Parent(dst) && SameOutside(a, b, tmp) && KeepsAll(a, b)
    ensures dst !in a && IsDir(a, Parent(dst)) ==> CanRename(b, tmp, dst)
  {
    assert !Under(dst, tmp) && !Under(Parent(dst), tmp) by {
      assert |tmp| == |dst|;
    }
  }

  method CopyAside(fs: FileSystem, src: Path, tmp: Path, dst: Path) returns (r: Result<set<Path>, IoError>)
    requires fs.Valid() && src in fs.tree && tmp !in fs.tree && tmp != [] && dst != [] && Parent(tmp) == Parent(dst)
             && !Under(dst, src)
    modifies fs`tree
    ensures fs.Valid() && KeepsAll(old(fs.tree), fs.tree) && SameOutside(old(fs.tree), fs.tree, tmp)
    ensures r.Ok? ==> Mirrors(old(fs.tree), src, fs.tree, tmp) && forall f :: f in r.value ==> Under(f, src)
    ensures r.Ok? ==> tmp in fs.tree
    ensures r.Ok? ==> Listable(old(fs.tree), src)
    ensures fs.calm && IsDir(old(fs.tree), Parent(dst)) && Listable(old(fs.tree), src) ==> r.Ok?
  {
    ParentUnder(tmp, src);
    ParentUnder(dst, src);
    if fs.tree[src].Dir? {
      r := fs.CopyTreeVerified(src, tmp);
    } else {
      var one := fs.CopyFileVerified(src, tmp);
      if one.Ok? { FileMirrors(old(fs.tree), src, tmp); }
      FileIsListable(old(fs.tree), src);
      r := if one.Ok? then Ok({src}) else Err(one.error);
    }
    if r.Ok? { assert Rebase(tmp, tmp, src) == src; }
  }

  lemma FileIsListable(t: Tree, p: Path)
    requires WellFormed(t) && IsFile(t, p)
    ensures Listable(t, p)
  {
    forall q | IsDir(t, q) ensures !Under(q, p) {
      if Under(q, p) { NothingBelow(t, p, q); }
    }
  }

  /** Throws an unfinished copy away; the rest is as it was. */
  method Discard(fs: FileSystem, ghost a: Tree, tmp: Path, ghost dst: Path)
    requires fs.Valid() && WellFormed(a) && tmp !in a && tmp != [] && dst != [] && Parent(tmp) == Parent(dst)
    requires Held(fs.initial, a, fs.loc) && KeepsAll(a, fs.tree) && SameOutside(a, fs.tree, tmp)
    modifies fs`tree
    ensures fs.Valid() && KeepsAll(a, fs.tree) && NoClobber(a, fs.tree) && NewAreNear(a, fs.tree, dst)
  {
    forall q | q in fs.loc ensures !Under(fs.loc[q], tmp) {
      assert AtPlace(a, fs.loc[q], fs.initial[q]);
      if Under(fs.loc[q], tmp) { NothingBelow(a, tmp, fs.loc[q]); }
    }
    fs.RemoveAll(tmp);
    forall p | p in a ensures p in fs.tree && fs.tree[p] == a[p] {
      if Under(p, tmp) { NothingBelow(a, tmp, p); }
    }
    NearStep(a, a, fs.tree, tmp, dst);
  }

  lemma PutInPlace(a: Tree, b: Tree, src: Path, tmp: Path, dst: Path)
    requires WellFormed(a) && src in a && tmp !in a && dst !in a && dst != [] && !Under(dst, src)
    requires KeepsAll(a, b) && SameOutside(a, b, tmp) && Mirrors(a, src, b, tmp) && CanRename(b, tmp, dst)
             && Parent(tmp) == Parent(dst)
    ensures var c := RenameTree(b, tmp, dst);
            CopiedTo(a, c, src, dst) && KeepsAll(a, c) && NewAreNear(a, c, dst) && c == CopyTree(a, src, dst)
  {
    var c := RenameTree(b, tmp, dst);
    PutIsCopy(a, b, src, tmp, dst);
    forall p | p in a && Under(p, src) ensures Rebase(p, src, dst) in c && c[Rebase(p, src, dst)] == a[p] {
      PlacedAt(a, b, src, tmp, dst, p);
    }
    forall p | p in a ensures p in c && c[p] == a[p] {
      RenameAt(b, tmp, dst, p);
      if Under(p, dst) { NothingBelow(a, dst, p); }
      if Under(p, tmp) { NothingBelow(a, tmp, p); }
    }
    forall p | p in c && p !in a ensures Near(a, p, dst) {
      RenameAt(b, tmp, dst, p);
      if Under(p, dst) {
        assert p[..|dst|] == dst;
        ParentUnder(dst, Parent(dst));
      }
    }
  }

  lemma PutIsCopy(a: Tree, b: Tree, src: Path, tmp: Path, dst: Path)
    requires WellFormed(a) && src in a && tmp !in a && dst !in a && dst != [] && !Under(dst, src)
    requires KeepsAll(a, b) && SameOutside(a, b, tmp) && Mirrors(a, src, b, tmp) && CanRename(b, tmp, dst)
    ensures RenameTree(b, tmp, dst) == CopyTree(a, src, dst)
  {
    var c, d := RenameTree(b, tmp, dst), CopyTree(a, src, dst);
    forall p ensures (p in c <==> p in d) && (p in c ==> c[p] == d[p]) {
      RenameAt(b, tmp, dst, p);
      CopyAt(a, src, dst, p);
      if Under(p, dst) {
        RebaseIsUnder(p, dst, tmp);
        assert Rebase(Rebase(p, dst, tmp), tmp, src) == Rebase(p, dst, src);
      } else if p in a && Under(p, tmp) {
        NothingBelow(a, tmp, p);
      }
    }
  }

  lemma CopyAt(a: Tree, src: Path, dst: Path, p: Path)
    requires WellFormed(a) && dst !in a
    ensures var d := CopyTree(a, src, dst);
            if Under(p, dst) then (p in d <==> Rebase(p, dst, src) in a) && (p in d ==> d[p] == a[Rebase(p, dst, src)])
            else (p in d <==> p in a) && (p in d ==> d[p] == a[p])
  {
    if Under(p, dst) {
      RebaseIsUnder(p, dst, src);
      if p in a { NothingBelow(a, dst, p); }
      if p in Rebased(a, src, dst) {
        var q :| q in a && Under(q, src) && p == Rebase(q, src, dst);
        RebaseIsUnder(q, src, dst);
      }
    }
  }

  lemma PlacedAt(a: Tree, b: Tree, src: Path, tmp: Path, dst: Path, p: Path)
    requires Mirrors(a, src, b, tmp) && CanRename(b, tmp, dst) && p in a && Under(p, src)
    ensures Rebase(p, src, dst) in RenameTree(b, tmp, dst) && RenameTree(b, tmp, dst)[Rebase(p, src, dst)] == a[p]
  {
    var q, x := Rebase(p, src, dst), Rebase(p, src, tmp);
    RebaseIsUnder(p, src, dst);
    RebaseIsUnder(p, src, tmp);
    RenameAt(b, tmp, dst, q);
  }

  lemma DirsMade(a: Tree, b: Tree, dst: Path)
    requires dst != [] && KeepsAll(a, b) && forall q :: q in b && q !in a ==> Under(Parent(dst), q)
    ensures NoClobber(a, b) && NewAreNear(a, b, dst)
  {
    forall q | q in b && q !in a ensures Near(a, q, dst) {
      assert q <= Parent(dst) <= dst;
    }
  }

  /** A place whose parent is a directory is not below a file. */
  lemma NotBelowFile(b: Tree, src: Path, dst: Path)
    requires WellFormed(b) && src in b && src != dst && dst != [] && IsDir(b, Parent(dst))
             && (b[src].Dir? ==> !Under(dst, src))
    ensures !Under(dst, src)
  {
    ParentUnder(dst, src);
    if Under(dst, src) && Parent(dst) != src { AncestorsAreDirs(b, Parent(dst), src); }
  }

  /** What happened since `b` is as near as seen from `a`, when `b` only has more directories. */
  lemma NearSinceDirs(a: Tree, b: Tree, c: Tree, dst: Path)
    requires KeepsAll(a, b) && NewAreNear(a, b, dst) && NewAreNear(b, c, dst) && NoClobber(b, c)
    ensures NewAreNear(a, c, dst) && NoClobber(a, c)
  {
    forall p | p in c && p !in a ensures Near(a, p, dst) {
      if p !in b { assert Near(b, p, dst); }
    }
  }

  lemma RenamedNear(b: Tree, src: Path, dst: Path)
    requires CanRename(b, src, dst)
    ensures NewAreNear(b, RenameTree(b, src, dst), dst)
  {
    forall p | p in RenameTree(b, src, dst) && p !in b ensures Near(b, p, dst) {
      RenameAt(b, src, dst, p);
      assert p[..|dst|] == dst;
      ParentUnder(dst, Parent(dst));
    }
  }

  lemma RenamedKept(b: Tree, src: Path, dst: Path)
    requires CanRename(b, src, dst)
    ensures KeptOutside(b, RenameTree(b, src, dst), src)
  {
    forall p | p in b && !Under(p, src) ensures p in RenameTree(b, src, dst) {
      RenameAt(b, src, dst, p);
      if Under(p, dst) { NothingBelow(b, dst, p); }
    }
  }

  /** New directories bring no files. */
  lemma DirsNoStray(a: Tree, b: Tree, loc: map<Path, Path>)
    requires NoStray(a, loc) && KeepsAll(a, b) && forall q :: q in b && q !in a ==> b[q].Dir?
    ensures NoStray(b, loc)
  {
    forall p | IsFile(b, p) ensures exists q :: q in loc && loc[q] == p {
      assert IsFile(a, p);
    }
  }

  lemma RenamedNoStray(b: Tree, loc: map<Path, Path>, src: Path, dst: Path)
    requires NoStray(b, loc) && CanRename(b, src, dst)
    ensures NoStray(RenameTree(b, src, dst), ShiftAll(loc, src, dst))
  {
    var c, l := RenameTree(b, src, dst), ShiftAll(loc, src, dst);
    forall p | IsFile(c, p) ensures exists q :: q in l && l[q] == p {
      RenameAt(b, src, dst, p);
      var home := if Under(p, dst) then Rebase(p, dst, src) else p;
      if Under(p, dst) { RebaseIsUnder(p, dst, src); }
      assert IsFile(b, home);
      var q :| q in loc && loc[q] == home;
      assert l[q] == p;
    }
  }

  /** Moves or copies `src` to `dst`, which must be free. A failure leaves every file in its
      place; success takes every file below `src` to the same place below `dst`. A directory is
      never put inside itself, and nothing onto itself. */
  method MovePath(fs: FileSystem, src: Path, dst: Path, copy: bool) returns (r: Result<MoveMethod, IoError>)
    requires fs.Valid()
    modifies fs
    ensures fs.Valid() && Tore(old(fs.replaced), fs.replaced, old(fs.tree), fs.unread, fs.noReplace, src, dst, r.Ok?)
    ensures Moves(old(fs.tree), old(fs.loc), fs.tree, fs.loc, src, dst, copy, r.Ok?)
    ensures fs.calm && !copy && NoStray(old(fs.tree), old(fs.loc)) ==> NoStray(fs.tree, fs.loc)
    ensures fs.calm ==>
              RunsAs(MoveRun(old(fs.tree), fs.unread, fs.noReplace, copy, src, dst),
                MoveTears(old(fs.tree), fs.unread, fs.noReplace, copy, src, dst), old(fs.replaced), fs.replaced,
                fs.tree, r.Ok?)
  {
    ghost var a, l := fs.tree, fs.loc;
    if dst == [] { StaysPut(a, l, src, dst, copy); return Err(AlreadyExists); }
    var made := fs.CreateDirAll(Parent(dst));
    ghost var b := fs.tree;
    DirsMade(a, b, dst);
    if NoStray(a, l) { DirsNoStray(a, b, l); }
    if made.Err? { return Err(made.error); }
    MakingChanges(a, dst);
    r := MoveOnto(fs, src, dst, copy);
    SinceDirs(a, b, fs.tree, l, fs.loc, src, dst, copy, r.Ok?);
  }

  /** Where something is at `dst`, no directory has to be made. */
  lemma MakingChanges(a: Tree, dst: Path)
    requires WellFormed(a) && dst != []
    ensures dst in MakeDirs(a, Parent(dst)) <==> dst in a
    ensures dst in a ==> MakeDirs(a, Parent(dst)) == a
  {
    if dst in a { DirsAreThere(a, Parent(dst)); }
    assert forall q :: q in Prefixes(Parent(dst)) ==> |q| < |dst|;
  }

  lemma SinceDirs(a: Tree, b: Tree, c: Tree, l0: map<Path, Path>, l: map<Path, Path>, src: Path, dst: Path, copy: bool,
                  ok: bool)
    requires KeepsAll(a, b) && NewAreNear(a, b, dst) && Moves(b, l0, c, l, src, dst, copy, ok)
    requires (dst in a <==> dst in b) && (dst in a ==> a == b)
    ensures Moves(a, l0, c, l, src, dst, copy, ok)
  {
    if dst !in a || !ok {
      NearSinceDirs(a, b, c, dst);
      if ok && copy { CopiedMore(a, b, c, src, dst); }
    }
  }

  lemma CopiedMore(a: Tree, b: Tree, c: Tree, src: Path, dst: Path)
    requires KeepsAll(a, b) && CopiedTo(b, c, src, dst)
    ensures CopiedTo(a, c, src, dst)
  {
  }

  /** The part after the directories on the way are there. */
  method MoveOnto(fs: FileSystem, src: Path, dst: Path, copy: bool) returns (r: Result<MoveMethod, IoError>)
    requires fs.Valid() && dst != [] && IsDir(fs.tree, Parent(dst))
    modifies fs
    ensures fs.Valid() && Tore(old(fs.replaced), fs.replaced, old(fs.tree), fs.unread, fs.noReplace, src, dst, r.Ok?)
    ensures Moves(old(fs.tree), old(fs.loc), fs.tree, fs.loc, src, dst, copy, r.Ok?)
    ensures fs.calm && !copy && NoStray(old(fs.tree), old(fs.loc)) ==> NoStray(fs.tree, fs.loc)
    ensures fs.calm ==> (r.Ok? <==> CanMoveOnto(old(fs.tree), fs.unread, fs.noReplace, copy, src, dst))
    ensures fs.calm && r.Ok? ==> fs.tree == MovedOnto(old(fs.tree), copy, src, dst)
  {
    ghost var b, l := fs.tree, fs.loc;
    StaysPut(b, l, src, dst, copy);
    if CanMoveOnto(b, fs.unread, fs.noReplace, copy, src, dst) && dst in b { ReplaceIsRename(b, src, dst); }
    if Seen(fs.tree, fs.unread, dst) || src == dst { return Err(AlreadyExists); }
    if src !in fs.tree { return Err(NotFound); }
    if fs.tree[src].Dir? && Under(dst, src) { return Err(OtherError); }
    NotBelowFile(b, src, dst);
    r := MoveInto(fs, src, dst, copy);
    if fs.calm && !copy && NoStray(b, l) && r.Ok? { MovedNoStray(b, l, fs.unread, fs.noReplace, src, dst); }
  }

  lemma MovedNoStray(b: Tree, l: map<Path, Path>, unread: set<Path>, noReplace: bool, src: Path, dst: Path)
    requires NoStray(b, l) && CanMoveOnto(b, unread, noReplace, false, src, dst)
    ensures NoStray(MovedOnto(b, false, src, dst), ShiftAll(FreedLoc(b, l, dst), src, dst))
  {
    if dst in b {
      ReplaceIsRename(b, src, dst);
      forall p | IsFile(b - {dst}, p) ensures exists q :: q in Without(l, dst) && Without(l, dst)[q] == p {
        assert IsFile(b, p);
        var q :| q in l && l[q] == p;
        assert Without(l, dst)[q] == p;
      }
    }
    RenamedNoStray(Freed(b, dst), FreedLoc(b, l, dst), src, dst);
  }

  method MoveInto(fs: FileSystem, src: Path, dst: Path, copy: bool) returns (r: Result<MoveMethod, IoError>)
    requires fs.Valid() && src in fs.tree && dst != [] && IsDir(fs.tree, Parent(dst)) && !Under(dst, src)
    modifies fs
    ensures fs.Valid() && Tore(old(fs.replaced), fs.replaced, old(fs.tree), fs.unread, fs.noReplace, src, dst, r.Ok?)
    ensures Moves(old(fs.tree), old(fs.loc), fs.tree, fs.loc, src, dst, copy, r.Ok?)
    ensures fs.calm ==> (r.Ok? <==> CanMoveOnto(old(fs.tree), fs.unread, fs.noReplace, copy, src, dst))
    ensures fs.calm && r.Ok? ==> fs.tree == MovedOnto(old(fs.tree), copy, src, dst)
    ensures fs.calm && !copy && r.Err? ==> fs.tree == old(fs.tree)
  {
    if !copy {
      var moved := fs.RenameNoClobber(src, dst);
      if moved.Ok? {
        RenamedOrReplaced(old(fs.tree), old(fs.loc), src, dst);
        return Ok(Rename);
      }
      if moved.error != CrossesDevices {
        StaysPut(fs.tree, fs.loc, src, dst, copy);
        return Err(moved.error);
      }
    }
    r := MoveByCopy(fs, src, dst, copy);
  }

  lemma RenamedOrReplaced(b: Tree, l: map<Path, Path>, src: Path, dst: Path)
    requires WellFormed(b) && src != dst && (CanRename(b, src, dst) || Replaces(b, src, dst))
    ensures Moves(b, l, RenameTree(Freed(b, dst), src, dst), ShiftAll(FreedLoc(b, l, dst), src, dst), src, dst, false,
              true)
  {
    if dst in b { ReplaceIsRename(b, src, dst); }
    RenamedMoves(Freed(b, dst), FreedLoc(b, l, dst), src, dst);
  }

  /** Where the directory is there, a move is a rename. */
  lemma MoveIsRename(t: Tree, unread: set<Path>, noReplace: bool, src: Path, dst: Path)
    requires WellFormed(t) && src != dst && dst != [] && IsDir(t, Parent(dst))
    requires CanRename(t, src, dst) || Overwrites(t, unread, noReplace, src, dst)
    ensures MoveRun(t, unread, noReplace, false, src, dst) ==
            Some(if dst in t then ReplaceTree(t, src, dst) else RenameTree(t, src, dst))
    ensures MoveTears(t, unread, noReplace, false, src, dst) == if dst in t then [dst] else []
  {
    DirsAreThere(t, Parent(dst));
  }

  lemma RenamedMoves(b: Tree, l: map<Path, Path>, src: Path, dst: Path)
    requires CanRename(b, src, dst)
    ensures MoveKeeps(b, l, RenameTree(b, src, dst), ShiftAll(l, src, dst), src, dst, false, true)
  {
    RenameKeeps(b, src, dst);
    assert Under(src, src) && Rebase(src, src, dst) == dst;
    RenamedNear(b, src, dst);
    RenamedKept(b, src, dst);
  }
}
