/** A file system whose every operation may fail, and the fate of the files that were on it. */
module FileSystems {
  import opened Prelude
  import opened FileTrees

  datatype IoError = AlreadyExists | CrossesDevices | NotFound | OtherError

  /** Deepest path that can be listed. */
  const MAX_DEPTH: nat := 2048

  type Digest = nat

  ghost predicate Injective(sha1: Content -> Digest) {
    forall a, b :: sha1(a) == sha1(b) ==> a == b
  }

  /** Where files that were on disk at the start are now: their contents are there, and no two of
      them are in the same place. */
  ghost predicate Held(initial: map<Path, Content>, t: Tree, loc: map<Path, Path>) {
    loc.Keys <= initial.Keys &&
    (forall p :: p in loc ==> AtPlace(t, loc[p], initial[p])) &&
    forall p, q :: p in loc && q in loc && loc[p] == loc[q] ==> p == q
  }

  /** Where each of them is. */
  ghost predicate Located(initial: map<Path, Content>, t: Tree, loc: map<Path, Path>) {
    loc.Keys == initial.Keys && Held(initial, t, loc)
  }

  /** Every file is in its place or was replaced, by one of the renames that replaced something. */
  ghost predicate Accounted(initial: map<Path, Content>, loc: map<Path, Path>, gone: map<Path, nat>,
                            replaced: seq<Path>) {
    && loc.Keys + gone.Keys == initial.Keys && loc.Keys !! gone.Keys
    && (forall p :: p in gone ==> gone[p] < |replaced|)
    && forall p, q :: p in gone && q in gone && gone[p] == gone[q] ==> p == q
  }

  /** The metadata of what is at `p` can be read. Where it cannot, `p` seems to be free. */
  predicate Seen(t: Tree, unread: set<Path>, p: Path) {
    p in t && p !in unread
  }

  predicate SeenDir(t: Tree, unread: set<Path>, p: Path) {
    IsDir(t, p) && p !in unread
  }

  predicate AtPlace(t: Tree, p: Path, c: Content) {
    p in t && t[p] == File(c)
  }

  /** The files that are not at `dst`. */
  ghost function Without(loc: map<Path, Path>, dst: Path): map<Path, Path> {
    map p | p in loc && loc[p] != dst :: loc[p]
  }

  lemma HeldWithout(initial: map<Path, Content>, t: Tree, loc: map<Path, Path>, dst: Path)
    requires Held(initial, t, loc)
    ensures Held(initial, t - {dst}, Without(loc, dst)) && (dst !in t ==> Without(loc, dst) == loc)
  {
    var l := Without(loc, dst);
    forall p | p in l ensures AtPlace(t - {dst}, l[p], initial[p]) {
      assert AtPlace(t, loc[p], initial[p]);
    }
    if dst !in t {
      forall p | p in loc ensures p in l {
        assert AtPlace(t, loc[p], initial[p]);
      }
    }
  }

  ghost function ShiftAll(loc: map<Path, Path>, src: Path, dst: Path): (r: map<Path, Path>)
    ensures r.Keys == loc.Keys && forall p :: p in r ==> r[p] == Shift(loc[p], src, dst)
  {
    map p | p in loc :: Shift(loc[p], src, dst)
  }

  /** The places of `m`, for some of its files. */
  ghost predicate Follows(l: map<Path, Path>, m: map<Path, Path>) {
    l.Keys <= m.Keys && forall p :: p in l ==> l[p] == m[p]
  }

  /** Nothing that stays in its place is changed. */
  ghost predicate NoClobber(a: Tree, b: Tree) {
    forall p :: p in a && p in b ==> b[p] == a[p]
  }

  /** Everything is still there. */
  ghost predicate KeepsAll(a: Tree, b: Tree) {
    forall p :: p in a ==> p in b && b[p] == a[p]
  }

  /** Only the part below `root` may differ. */
  ghost predicate SameOutside(a: Tree, b: Tree, root: Path) {
    forall p :: !Under(p, root) ==> (p in a <==> p in b) && (p in a ==> b[p] == a[p])
  }

  /** The part below `dst` mirrors the part below `src` of `a`. */
  ghost predicate Mirrors(a: Tree, src: Path, b: Tree, dst: Path) {
    forall p :: Under(p, dst) ==> (p in b <==> Rebase(p, dst, src) in a) && (p in b ==> b[p] == a[Rebase(p, dst, src)])
  }

  lemma HeldKept(initial: map<Path, Content>, a: Tree, b: Tree, loc: map<Path, Path>)
    requires Held(initial, a, loc) && forall p :: p in loc ==> loc[p] in b && b[loc[p]] == a[loc[p]]
    ensures Held(initial, b, loc)
  {
    forall p | p in loc ensures AtPlace(b, loc[p], initial[p]) {
      assert AtPlace(a, loc[p], initial[p]);
    }
  }

  /** Files that moved with a subtree, or were copied with it, are found in the new place. */
  lemma HeldShifted(initial: map<Path, Content>, a: Tree, b: Tree, loc: map<Path, Path>, src: Path, dst: Path)
    requires Held(initial, a, loc) && WellFormed(a) && dst !in a
    requires forall p :: p in a && Under(p, src) ==> Rebase(p, src, dst) in b && b[Rebase(p, src, dst)] == a[p]
    requires forall p :: p in a && !Under(p, src) && a[p].File? ==> p in b && b[p] == a[p]
    ensures Held(initial, b, ShiftAll(loc, src, dst))
  {
    var r := ShiftAll(loc, src, dst);
    forall p | p in r ensures AtPlace(b, r[p], initial[p]) {
      assert AtPlace(a, loc[p], initial[p]);
    }
    forall p, q | p in r && q in r && r[p] == r[q] ensures p == q {
      assert AtPlace(a, loc[p], initial[p]) && AtPlace(a, loc[q], initial[q]);
      ShiftInjective(a, loc[p], loc[q], src, dst);
    }
  }

  lemma ShiftInjective(a: Tree, x: Path, y: Path, src: Path, dst: Path)
    requires WellFormed(a) && dst !in a && x in a && y in a && Shift(x, src, dst) == Shift(y, src, dst)
    ensures x == y
  {
    if Under(x, src) { RebaseIsUnder(x, src, dst); }
    if Under(y, src) { RebaseIsUnder(y, src, dst); }
    if Under(x, src) && !Under(y, src) {
      NothingBelow(a, dst, y);
    } else if Under(y, src) && !Under(x, src) {
      NothingBelow(a, dst, x);
    }
  }

  /** A listing yields one of the names that are left. */
  ghost predicate Lists(pick: (Path, set<Name>) -> Name) {
    forall p, s :: s != {} ==> pick(p, s) in s
  }

  /** Everything away from `src` is still there. */
  ghost predicate KeptOutside(a: Tree, b: Tree, src: Path) {
    forall p :: p in a && !Under(p, src) ==> p in b
  }

  /** Every file is one of those that were there at the start. */
  ghost predicate NoStray(t: Tree, loc: map<Path, Path>) {
    forall p :: IsFile(t, p) ==> exists q :: q in loc && loc[q] == p
  }

  /** Since `was` something has been replaced only at places in `may`. */
  ghost predicate Tears(was: seq<Path>, now: seq<Path>, may: set<Path>) {
    was <= now && forall i :: |was| <= i < |now| ==> now[i] in may
  }

  /** The places at which something has been replaced since `was`. */
  ghost function Since(was: seq<Path>, now: seq<Path>): set<Path> {
    set i | |was| <= i < |now| :: now[i]
  }

  lemma SinceNext(was: seq<Path>, mid: seq<Path>, now: seq<Path>)
    requires was <= mid && mid <= now
    ensures Since(was, now) == Since(was, mid) + Since(mid, now)
  {
    forall i | |was| <= i < |mid| ensures mid[i] == now[i] {
    }
    forall p | p in Since(was, mid) ensures p in Since(was, now) {
      var i :| |was| <= i < |mid| && mid[i] == p;
      assert now[i] == p;
    }
    forall p | p in Since(was, now) ensures p in Since(was, mid) + Since(mid, now) {
      var i :| |was| <= i < |now| && now[i] == p;
      if i < |mid| { assert mid[i] == p; }
    }
  }

  lemma TearsMore(was: seq<Path>, mid: seq<Path>, now: seq<Path>, may: set<Path>, more: set<Path>)
    requires Tears(was, mid, may) && Tears(mid, now, more)
    ensures Tears(was, now, may + more)
  {
    forall i | |was| <= i < |now| ensures now[i] in may + more {
      if i < |mid| { assert now[i] == mid[i]; }
    }
  }

  /** And at none of them twice. */
  ghost predicate TearsOnce(was: seq<Path>, now: seq<Path>, may: set<Path>) {
    Tears(was, now, may) && forall i, j :: |was| <= i < j < |now| ==> now[i] != now[j]
  }

  /** What happens when nothing fails: it works as `run` does, or stops where that does, and replaces
      something at the places `tears`. */
  ghost predicate RunsAs(run: Option<Tree>, tears: seq<Path>, was: seq<Path>, now: seq<Path>, t: Tree, ok: bool) {
    (ok <==> run.Some?) && (ok ==> t == run.value) && now == was + tears
  }

  /** A step of a run, and the rest of it. */
  lemma StepThenRest(step: Option<Tree>, tears: seq<Path>, rest: Option<Tree>, restTears: seq<Path>,
                     run: Option<Tree>, was: seq<Path>, now: seq<Path>, total: seq<Path>, t: Tree, ok: bool)
    requires RunsAs(step, tears, was, now, t, ok) && run == (if step.None? then None else rest)
    requires total == was + (if step.None? then tears else tears + restTears)
    ensures if ok then rest == run && now + restTears == total else run.None? && now == total
  {
    assert was + (tears + restTears) == (was + tears) + restTears;
  }

  lemma TearsNext(was: seq<Path>, mid: seq<Path>, now: seq<Path>, first: set<Path>, second: set<Path>, may: set<Path>)
    requires TearsOnce(was, mid, first) && TearsOnce(mid, now, second) && first !! second && first + second <= may
    ensures TearsOnce(was, now, may)
  {
    forall i | |was| <= i < |now| ensures now[i] in first + second && (i < |mid| ==> now[i] in first) {
      if i < |mid| { assert now[i] == mid[i]; }
    }
    forall i, j | |was| <= i < j < |now| ensures now[i] != now[j] {
      if j < |mid| {
        assert now[i] == mid[i] && now[j] == mid[j];
      } else {
        assert now[j] in second;
      }
    }
  }

  class FileSystem {
    var tree: Tree
    const sha1: Content -> Digest
    /** Nothing fails but for what is in its way or cannot be read, and everything is on one
        device. */
    const calm: bool
    /** Paths whose metadata cannot be read. */
    const unread: set<Path>
    /** Renaming can be asked never to replace anything. */
    const noReplace: bool
    /** The order in which directories are listed: the next of the names that are left. */
    const pick: (Path, set<Name>) -> Name
    /** The files at the start and where their contents are now. */
    ghost const initial: map<Path, Content>
    ghost var loc: map<Path, Path>
    /** The places at which a rename has replaced something, and by which of these renames which of
        the files at the start was. */
    ghost var replaced: seq<Path>
    ghost var gone: map<Path, nat>

    ghost predicate Valid()
      reads this
    {
      && WellFormed(tree) && Held(initial, tree, loc) && Accounted(initial, loc, gone, replaced)
      && (Torn() || Located(initial, tree, loc)) && Injective(sha1) && Lists(pick)
    }

    /** Something has been replaced. */
    ghost predicate Torn()
      reads this
    {
      replaced != []
    }

    constructor (t: Tree, hash: Content -> Digest, calm: bool, pick: (Path, set<Name>) -> Name, unread: set<Path>,
                 noReplace: bool)
      requires WellFormed(t) && Injective(hash) && Lists(pick)
      ensures Valid() && tree == t && sha1 == hash && this.calm == calm && this.pick == pick && Untouched()
      ensures this.unread == unread && this.noReplace == noReplace
    {
      tree, sha1, this.calm, this.pick, replaced, gone := t, hash, calm, pick, [], map[];
      this.unread, this.noReplace := unread, noReplace;
      initial := map p | p in t && t[p].File? :: t[p].content;
      loc := map p | p in t && t[p].File? :: p;
    }

    /** Every file is where it was at the start. */
    ghost predicate Untouched()
      reads this
    {
      !Torn() && (forall p :: p in loc ==> loc[p] == p) && forall p :: IsFile(tree, p) ==> p in loc
    }

    /** Those of the places `at` where a rename may replace what it cannot see. */
    function Shaky(at: set<Path>): set<Path> {
      if noReplace then {} else at * unread
    }

    /** Those below `dst`. */
    function ShakyUnder(dst: Path): set<Path> {
      if noReplace then {} else set p | p in unread && Under(p, dst)
    }

    /** Those below the given children of `dst`. */
    function ShakyBelow(dst: Path, names: set<Name>): set<Path> {
      if noReplace then {} else set p | p in unread && Below(p, dst, names)
    }

    /** Whether an operation fails that nothing is in the way of. */
    method Fails() returns (b: bool)
      ensures calm ==> !b
    {
      b := *;
      b := b && !calm;
    }

    method CreateDirAll(p: Path) returns (r: Result<(), IoError>)
      requires Valid()
      modifies this`tree
      ensures Valid() && KeepsAll(old(tree), tree)
      ensures forall q :: q in tree && q !in old(tree) ==> tree[q].Dir? && Under(p, q)
      ensures r.Ok? ==> CanMakeDirs(old(tree), p) && tree == MakeDirs(old(tree), p) && IsDir(tree, p)
      ensures calm ==> (r.Ok? <==> CanMakeDirs(old(tree), p))
    {
      var i := 0;
      ghost var t := tree;
      NoDirsYet(t, p);
      r := Ok(());
      while i < |p| && r.Ok?
        invariant Valid() && MadeUpTo(t, tree, p, i) && (calm && r.Err? ==> !CanMakeDirs(t, p))
        invariant r.Ok? || i < |p|
        decreases |p| - i, r.Ok?
      {
        r := MakeNext(t, p, i);
        if r.Ok? { i := i + 1; }
      }
      MadeKeeps(t, tree, p, i);
    }

    method MakeNext(ghost t: Tree, p: Path, i: nat) returns (r: Result<(), IoError>)
      requires Valid() && MadeUpTo(t, tree, p, i) && i < |p|
      modifies this`tree
      ensures Valid() && MadeUpTo(t, tree, p, if r.Ok? then i + 1 else i)
      ensures calm && r.Err? ==> !CanMakeDirs(t, p)
    {
      var next := p[..i + 1];
      NextDir(t, tree, p, i);
      if next !in tree {
        var fails := Fails();
        if fails { return Err(OtherError); }
        AddDir(next);
      } else if tree[next].File? {
        return Err(AlreadyExists);
      }
      r := Ok(());
    }

    /** Moves a subtree to a free place, or leaves everything as it is. Where the system cannot be
        asked for this, something in the way is noticed only if it can be seen. */
    method RenameNoClobber(src: Path, dst: Path) returns (r: Result<(), IoError>)
      requires Valid()
      modifies this`tree, this`loc, this`replaced, this`gone
      ensures Valid() && replaced == old(replaced) + Replacing(old(tree), src, dst, r.Ok?)
      ensures r.Err? ==> tree == old(tree) && loc == old(loc)
      ensures r.Ok? && dst in old(tree) ==>
                && Overwrites(old(tree), unread, noReplace, src, dst) && tree == ReplaceTree(old(tree), src, dst)
                && loc == ReplaceLoc(old(loc), src, dst)
      ensures r.Ok? && dst !in old(tree) ==>
                && CanRename(old(tree), src, dst) && tree == RenameTree(old(tree), src, dst)
                && loc == ShiftAll(old(loc), src, dst) && NoClobber(old(tree), tree)
      ensures calm ==>
                (r.Ok? <==> CanRename(old(tree), src, dst) || Overwrites(old(tree), unread, noReplace, src, dst))
      ensures calm && r.Err? ==> r.error != CrossesDevices
    {
      if (if noReplace then dst in tree else Seen(tree, unread, dst)) { return Err(AlreadyExists); }
      r := Rename(src, dst);
    }

    /** Moves a subtree. A file that is at `dst` is replaced by a file, an empty directory by a
        directory. */
    method Rename(src: Path, dst: Path) returns (r: Result<(), IoError>)
      requires Valid()
      modifies this`tree, this`loc, this`replaced, this`gone
      ensures Valid() && replaced == old(replaced) + Replacing(old(tree), src, dst, r.Ok?)
      ensures r.Err? ==> tree == old(tree) && loc == old(loc)
      ensures r.Ok? && dst in old(tree) ==>
                && Replaces(old(tree), src, dst) && tree == ReplaceTree(old(tree), src, dst)
                && loc == ReplaceLoc(old(loc), src, dst)
      ensures r.Ok? && dst !in old(tree) ==>
                && CanRename(old(tree), src, dst) && tree == RenameTree(old(tree), src, dst)
                && loc == ShiftAll(old(loc), src, dst) && NoClobber(old(tree), tree)
      ensures calm ==> (r.Ok? <==> CanRename(old(tree), src, dst) || Replaces(old(tree), src, dst))
      ensures calm && r.Err? ==> r.error != CrossesDevices
    {
      if src !in tree || src == [] { return Err(NotFound); }
      if dst in tree && !Replaces(tree, src, dst) { return Err(AlreadyExists); }
      if dst !in tree && (dst == [] || !IsDir(tree, Parent(dst)) || Under(dst, src)) { return Err(OtherError); }
      var fails := Fails();
      var crosses: bool := *;
      if fails { return Err(if crosses then CrossesDevices else OtherError); }
      if dst in tree {
        Replace(src, dst);
      } else {
        RenameWellFormed(tree, src, dst);
        RenameKeeps(tree, src, dst);
        HeldShifted(initial, tree, RenameTree(tree, src, dst), loc, src, dst);
        tree, loc := RenameTree(tree, src, dst), ShiftAll(loc, src, dst);
      }
      r := Ok(());
    }

    /** Puts `src` in the place of what is at `dst`, which is gone then. */
    method Replace(src: Path, dst: Path)
      requires Valid() && Replaces(tree, src, dst)
      modifies this`tree, this`loc, this`replaced, this`gone
      ensures Valid() && replaced == old(replaced) + Replacing(old(tree), src, dst, true)
      ensures tree == ReplaceTree(old(tree), src, dst) && loc == ReplaceLoc(old(loc), src, dst)
    {
      if src != dst {
        ReplacedWellFormed(tree, src, dst);
        ReplaceHeld(initial, tree, loc, src, dst);
        OneMoreGone(initial, tree, loc, gone, replaced, dst);
        gone := gone + GoneAt(loc, dst, |replaced|);
        tree, loc, replaced := ReplaceTree(tree, src, dst), ReplaceLoc(loc, src, dst), replaced + [dst];
      }
    }

    /** A new file with the content of another, checked by reading it back. When the copy is not
        good it is removed again, if that works. */
    method CopyFileVerified(src: Path, dst: Path) returns (r: Result<(), IoError>)
      requires Valid()
      modifies this`tree
      ensures Valid() && SameOutside(old(tree), tree, dst) && KeepsAll(old(tree), tree)
      ensures r.Ok? ==> IsFile(old(tree), src) && dst !in old(tree) && tree == old(tree)[dst := old(tree)[src]]
      ensures calm && IsFile(old(tree), src) && CanCreate(old(tree), dst) ==> r.Ok?
    {
      if !IsFile(tree, src) { return Err(NotFound); }
      if dst in tree { return Err(AlreadyExists); }
      var fails := Fails();
      var cleans: bool := *;
      if dst == [] || !IsDir(tree, Parent(dst)) || fails { return Err(OtherError); }
      var before, want := tree, tree[src].content;
      var written: Content := *;
      if calm { written := want; }
      ghost var now := before[dst := File(written)];
      assert WellFormed(now) by {
        forall p | p in now && p != [] ensures IsDir(now, Parent(p)) {
          if p != dst { assert IsDir(before, Parent(p)); }
        }
      }
      HeldKept(initial, before, now, loc);
      tree := tree[dst := File(written)];
      var readFails := Fails();
      if !readFails && sha1(written) == sha1(want) && |written.bytes| == |want.bytes| {
        return Ok(());
      }
      if cleans { tree := before; }
      r := Err(OtherError);
    }

    /** The names in a directory at this moment. */
    method ReadDir(p: Path, fails: bool) returns (r: Result<set<Name>, IoError>)
      ensures r.Ok? <==> CanList(tree, p) && !fails
      ensures r.Ok? ==> r.value == Children(tree, p)
    {
      if !IsDir(tree, p) || |p| >= MAX_DEPTH || fails { return Err(OtherError); }
      r := Ok(Children(tree, p));
    }

    /** A file may go only when it is no longer the place of anything. */
    method RemoveFile(p: Path) returns (r: Result<(), IoError>)
      requires Valid() && forall q :: q in loc ==> loc[q] != p
      modifies this`tree
      ensures Valid() && (tree == old(tree) || (IsFile(old(tree), p) && tree == old(tree) - {p}))
    {
      var fails := Fails();
      if !IsFile(tree, p) || fails { return Err(OtherError); }
      FileHasNoChildren(tree, p);
      RemovedWellFormed(tree, p);
      HeldKept(initial, tree, tree - {p}, loc);
      tree := tree - {p};
      r := Ok(());
    }

    /** Only an empty directory can be removed. */
    method RemoveDir(p: Path) returns (r: Result<(), IoError>)
      requires Valid()
      modifies this`tree
      ensures Valid() && OnlyDirsGone(old(tree), tree)
      ensures tree == old(tree) || (CanRemove(old(tree), p) && tree == old(tree) - {p})
      ensures calm ==> tree == if CanRemove(old(tree), p) then old(tree) - {p} else old(tree)
    {
      var fails := Fails();
      if !IsDir(tree, p) || p == [] || Children(tree, p) != {} || fails { return Err(OtherError); }
      RemovedWellFormed(tree, p);
      HeldKept(initial, tree, tree - {p}, loc);
      tree := tree - {p};
      r := Ok(());
    }

    /** Removes what it can below `root`: any set of subtrees. */
    method RemoveAll(root: Path)
      requires Valid() && root != [] && forall q :: q in loc ==> !Under(loc[q], root)
      modifies this`tree
      ensures Valid() && SameOutside(old(tree), tree, root) && forall p :: p in tree ==> p in old(tree)
    {
      var victims: set<Path> := *;
      ghost var before := tree;
      tree := map p | p in tree && (forall v :: v in victims && Under(v, root) ==> !Under(p, v)) :: tree[p];
      forall p | p in tree && p != [] ensures IsDir(tree, Parent(p)) {
        forall v | v in victims && Under(v, root) ensures !Under(Parent(p), v) {
          ParentUnder(p, v);
        }
        assert IsDir(before, Parent(p));
      }
      forall p | p in before && !Under(p, root) ensures p in tree {
        forall v | v in victims && Under(v, root) ensures !Under(p, v) {
        }
      }
      HeldKept(initial, before, tree, loc);
    }

    /** A verified copy of a directory at a free place; `copied` are the files that were copied. */
    method CopyTreeVerified(src: Path, dst: Path) returns (r: Result<set<Path>, IoError>)
      requires Valid() && !Under(dst, src) && src in tree
      modifies this`tree
      ensures Valid() && KeepsAll(old(tree), tree) && SameOutside(old(tree), tree, dst)
      ensures r.Ok? ==> dst !in old(tree) && Mirrors(old(tree), src, tree, dst)
      ensures r.Ok? ==> r.value == FilesUnder(old(tree), src) && Listable(old(tree), src)
      ensures calm && CanCreate(old(tree), dst) && IsDir(old(tree), src) && Listable(old(tree), src) ==> r.Ok?
      decreases MAX_DEPTH - |src|, 1
    {
      var fails := Fails();
      if dst in tree || dst == [] || !IsDir(tree, Parent(dst)) || fails { return Err(OtherError); }
      ghost var a := tree;
      AddDir(dst);
      MirrorStart(a, src, dst);
      var listFails := Fails();
      var listing := ReadDir(src, listFails);
      if listing.Err? { return Err(listing.error); }
      r := CopyEntries(a, src, dst, listing.value);
      if r.Ok? {
        AllMirrored(a, tree, src, dst);
        AllListable(a, src);
      }
    }

    method CopyEntries(ghost a: Tree, src: Path, dst: Path, names: set<Name>) returns (r: Result<set<Path>, IoError>)
      requires Valid() && names == Children(a, src) && |src| < MAX_DEPTH && CopyingAt(a, src, tree, dst, {})
      modifies this`tree
      ensures Valid() && KeepsAll(a, tree) && SameOutside(a, tree, dst)
      ensures r.Ok? ==> CopyingAt(a, src, tree, dst, names) && r.value == FilesOf(a, src, names)
      ensures r.Ok? ==> ListableAll(a, src, names)
      ensures calm && Listable(a, src) ==> r.Ok?
      decreases MAX_DEPTH - |src|, 0, 1
    {
      var left := names;
      var copied: set<Path> := {};
      while left != {}
        invariant Valid() && left <= names && CopyingAt(a, src, tree, dst, names - left)
        invariant copied == FilesOf(a, src, names - left) && ListableAll(a, src, names - left)
        decreases |left|
      {
        var n :| n in left;
        ghost var done := names - left;
        var entry := CopyEntry(a, src, dst, n, done);
        if entry.Err? { return entry; }
        copied := copied + entry.value;
        left := left - {n};
        assert names - left == done + {n};
      }
      assert names - {} == names;
      r := Ok(copied);
    }

    method CopyEntry(ghost a: Tree, src: Path, dst: Path, n: Name, ghost done: set<Name>)
        returns (r: Result<set<Path>, IoError>)
      requires Valid() && CopyingAt(a, src, tree, dst, done) && n in Children(a, src) && n !in done && |src| < MAX_DEPTH
      modifies this`tree
      ensures Valid() && KeepsAll(a, tree) && SameOutside(a, tree, dst)
      ensures r.Ok? ==>
              CopyingAt(a, src, tree, dst, done + {n}) && FilesOf(a, src, done + {n}) == FilesOf(a, src, done) + r.value
      ensures r.Ok? ==> Listable(a, src + [n])
      ensures calm && Listable(a, src) ==> r.Ok?
      decreases MAX_DEPTH - |src|, 0, 0
    {
      var from, to := src + [n], dst + [n];
      ghost var b := tree;
      ChildFacts(a, b, src, dst, n, done);
      if Listable(a, src) { ChildListable(a, b, src, dst, n); }
      ChildSame(a, b, src, dst, n);
      if tree[from].Dir? {
        r := CopyTreeVerified(from, to);
      } else {
        var one := CopyFileVerified(from, to);
        if one.Ok? { FileMirrors(b, from, to); }
        r := if one.Ok? then Ok({from}) else Err(one.error);
      }
      StillCopying(a, b, tree, src, dst, n, done);
      if r.Ok? { ChildMirrored(a, b, tree, src, dst, n, done); }
    }

    /** The files are found in other places too, and from now on these count. */
    ghost method Follow(places: map<Path, Path>)
      requires Valid() && Held(initial, tree, places) && places.Keys == loc.Keys
      modifies this`loc
      ensures Valid() && loc == places
    {
      loc := places;
    }

    method AddDir(dst: Path)
      requires Valid() && dst !in tree && dst != [] && IsDir(tree, Parent(dst))
      modifies this`tree
      ensures Valid() && tree == old(tree)[dst := Dir]
    {
      HeldKept(initial, tree, tree[dst := Dir], loc);
      tree := tree[dst := Dir];
    }
  }

  // ------------------------------------------------------------- making directories

  /** Nothing on the way to `p` is a file. */
  ghost predicate CanMakeDirs(t: Tree, p: Path) {
    forall i :: 0 <= i <= |p| && p[..i] in t ==> t[p[..i]].Dir?
  }

  ghost function Prefixes(p: Path): set<Path> {
    set i | 0 <= i <= |p| :: p[..i]
  }

  /** The tree with all the directories down to `p`. */
  ghost function MakeDirs(t: Tree, p: Path): Tree {
    map q | q in t.Keys + Prefixes(p) :: if q in t then t[q] else Dir
  }

  /** The first `i` of them are there. */
  ghost predicate MadeUpTo(t: Tree, u: Tree, p: Path, i: nat) {
    i <= |p| && CanMakeDirs(t, p[..i]) && u == MakeDirs(t, p[..i]) && IsDir(u, p[..i])
  }

  lemma NoDirsYet(t: Tree, p: Path)
    requires WellFormed(t)
    ensures MadeUpTo(t, t, p, 0)
  {
    assert p[..0] == [];
    forall q | q in Prefixes([]) ensures q == [] {
    }
  }

  lemma NextDir(t: Tree, u: Tree, p: Path, i: nat)
    requires MadeUpTo(t, u, p, i) && i < |p|
    ensures var next := p[..i + 1];
            && Parent(next) == p[..i] && (next !in u ==> MadeUpTo(t, u[next := Dir], p, i + 1))
            && (IsDir(u, next) ==> MadeUpTo(t, u, p, i + 1)) && (IsFile(u, next) ==> !CanMakeDirs(t, p))
  {
    var at, next := p[..i], p[..i + 1];
    assert forall k :: 0 <= k <= i ==> next[..k] == at[..k] == p[..k];
    assert next[..i + 1] == next;
    assert Prefixes(next) == Prefixes(at) + {next};
    assert next !in Prefixes(at);
  }

  lemma MadeKeeps(t: Tree, u: Tree, p: Path, i: nat)
    requires MadeUpTo(t, u, p, i)
    ensures KeepsAll(t, u) && (forall q :: q in u && q !in t ==> u[q].Dir? && Under(p, q))
    ensures i == |p| ==> CanMakeDirs(t, p) && u == MakeDirs(t, p) && IsDir(u, p)
  {
    if i == |p| { assert p[..i] == p; }
  }

  /** Where the directory is there nothing has to be made. */
  lemma DirsAreThere(t: Tree, p: Path)
    requires WellFormed(t) && IsDir(t, p)
    ensures CanMakeDirs(t, p) && MakeDirs(t, p) == t
  {
    forall i | 0 <= i <= |p| ensures IsDir(t, p[..i]) {
      if i < |p| { AncestorsAreDirs(t, p, p[..i]); } else { assert p[..i] == p; }
    }
  }

  // ------------------------------------------------------------- replacing what is there

  ghost function ReplaceLoc(loc: map<Path, Path>, src: Path, dst: Path): map<Path, Path> {
    if src == dst then loc else ShiftAll(Without(loc, dst), src, dst)
  }

  /** The other files are where they were, or moved along. */
  lemma ReplaceHeld(initial: map<Path, Content>, t: Tree, loc: map<Path, Path>, src: Path, dst: Path)
    requires WellFormed(t) && Held(initial, t, loc) && Replaces(t, src, dst) && src != dst
    ensures Held(initial, ReplaceTree(t, src, dst), ReplaceLoc(loc, src, dst))
  {
    ReplaceIsRename(t, src, dst);
    RenameKeeps(t - {dst}, src, dst);
    HeldWithout(initial, t, loc, dst);
    HeldShifted(initial, t - {dst}, ReplaceTree(t, src, dst), Without(loc, dst), src, dst);
  }

  lemma OneMoreGone(initial: map<Path, Content>, t: Tree, loc: map<Path, Path>, gone: map<Path, nat>,
                    replaced: seq<Path>, dst: Path)
    requires Held(initial, t, loc) && Accounted(initial, loc, gone, replaced)
    ensures Accounted(initial, Without(loc, dst), gone + GoneAt(loc, dst, |replaced|), replaced + [dst])
  {
  }

  ghost function GoneAt(loc: map<Path, Path>, dst: Path, k: nat): map<Path, nat> {
    map p | p in loc && loc[p] == dst :: k
  }

  /** A rename puts `src` in the place of what is at `dst`. */
  predicate Replaces(t: Tree, src: Path, dst: Path) {
    && src in t && dst in t && src != []
    && (src == dst || (IsFile(t, src) && IsFile(t, dst)) || (IsDir(t, src) && CanRemove(t, dst) && !Under(dst, src)))
  }

  /** A rename that should not does so, because what is there cannot be seen. */
  predicate Overwrites(t: Tree, unread: set<Path>, noReplace: bool, src: Path, dst: Path) {
    !noReplace && dst in unread && Replaces(t, src, dst)
  }

  /** Where a rename that worked or not has replaced something. */
  function Replacing(t: Tree, src: Path, dst: Path, ok: bool): seq<Path> {
    if ok && dst in t && src != dst then [dst] else []
  }

  function ReplaceTree(t: Tree, src: Path, dst: Path): Tree {
    if src == dst then t else RenameTree(t - {dst}, src, dst)
  }

  lemma ReplaceIsRename(t: Tree, src: Path, dst: Path)
    requires WellFormed(t) && Replaces(t, src, dst) && src != dst
    ensures CanRename(t - {dst}, src, dst)
  {
    if IsFile(t, dst) { FileHasNoChildren(t, dst); }
    assert dst != [] by {
      if dst == [] && IsFile(t, src) { assert false; }
    }
    RemovedWellFormed(t, dst);
    assert IsDir(t, Parent(dst));
    if Under(dst, src) { NothingBelow(t, src, dst); }
  }

  lemma ReplacedWellFormed(t: Tree, src: Path, dst: Path)
    requires WellFormed(t) && Replaces(t, src, dst)
    ensures WellFormed(ReplaceTree(t, src, dst))
  {
    if src != dst {
      ReplaceIsRename(t, src, dst);
      RenameWellFormed(t - {dst}, src, dst);
    }
  }

  /** What was replaced is nowhere any more. */
  lemma ReplacedIsGone(t: Tree, src: Path, dst: Path, p: Path)
    requires WellFormed(t) && DistinctContents(t) && IsFile(t, src) && IsFile(t, dst) && src != dst
    ensures var u := ReplaceTree(t, src, dst); p in u ==> u[p] != t[dst]
  {
    ReplaceIsRename(t, src, dst);
    RenameAt(t - {dst}, src, dst, p);
    if Under(p, dst) && Rebase(p, dst, src) in t - {dst} {
      RebaseIsUnder(p, dst, src);
      NothingBelow(t, src, Rebase(p, dst, src));
    }
  }

  lemma RenameKeeps(t: Tree, src: Path, dst: Path)
    requires CanRename(t, src, dst)
    ensures var u := RenameTree(t, src, dst);
            && (forall p :: p in t && Under(p, src) ==> Rebase(p, src, dst) in u && u[Rebase(p, src, dst)] == t[p])
            && NoClobber(t, u) && forall p :: p in t && !Under(p, src) ==> p in u && u[p] == t[p]
  {
    var u := RenameTree(t, src, dst);
    forall p | p in t && Under(p, src) ensures Rebase(p, src, dst) in u && u[Rebase(p, src, dst)] == t[p] {
      RebaseIsUnder(p, src, dst);
      RenameAt(t, src, dst, Rebase(p, src, dst));
    }
    forall p | p in t && p in u ensures u[p] == t[p] {
      RenameAt(t, src, dst, p);
      if Under(p, dst) { NothingBelow(t, dst, p); }
    }
    forall p | p in t && !Under(p, src) ensures p in u {
      RenameAt(t, src, dst, p);
      if Under(p, dst) { NothingBelow(t, dst, p); }
    }
  }

  // ------------------------------------------------------------- what can be done

  predicate CanCreate(t: Tree, p: Path) {
    p !in t && p != [] && IsDir(t, Parent(p))
  }

  /** Every directory below `root` can be listed. */
  ghost predicate Listable(t: Tree, root: Path) {
    forall p :: IsDir(t, p) && Under(p, root) ==> |p| < MAX_DEPTH
  }

  lemma ChildListable(a: Tree, b: Tree, src: Path, dst: Path, n: Name)
    requires WellFormed(a) && src in a && dst !in a && !Under(dst, src) && SameOutside(a, b, dst) && Listable(a, src)
    ensures Listable(b, src + [n])
  {
    BelowOne(src + [n], src, n);
    SubtreeSame(a, b, src, dst, src + [n]);
    forall p | IsDir(b, p) && Under(p, src + [n]) ensures |p| < MAX_DEPTH {
      BelowOne(p, src, n);
    }
  }

  lemma ChildSame(a: Tree, b: Tree, src: Path, dst: Path, n: Name)
    requires WellFormed(a) && src in a && dst !in a && !Under(dst, src) && SameOutside(a, b, dst)
    ensures IsDir(b, src + [n]) && Listable(b, src + [n]) ==> Listable(a, src + [n])
    ensures IsFile(b, src + [n]) ==> Listable(a, src + [n])
  {
    BelowOne(src + [n], src, n);
    SubtreeSame(a, b, src, dst, src + [n]);
    if IsFile(a, src + [n]) {
      forall p | IsDir(a, p) && Under(p, src + [n]) ensures false {
        NothingBelow(a, src + [n], p);
      }
    }
  }

  ghost predicate ListableAll(t: Tree, root: Path, names: set<Name>) {
    forall n :: n in names ==> Listable(t, root + [n])
  }

  lemma AllListable(t: Tree, root: Path)
    requires WellFormed(t) && |root| < MAX_DEPTH && ListableAll(t, root, Children(t, root))
    ensures Listable(t, root)
  {
    forall p | IsDir(t, p) && Under(p, root) ensures |p| < MAX_DEPTH {
      if p != root {
        HasChild(t, root, p);
        BelowOne(p, root, p[|root|]);
      }
    }
  }

  predicate CanRemove(t: Tree, p: Path) {
    IsDir(t, p) && p != [] && Children(t, p) == {}
  }

  predicate CanList(t: Tree, p: Path) {
    IsDir(t, p) && |p| < MAX_DEPTH
  }

  function Children(t: Tree, p: Path): set<Name> {
    set q | q in t && |q| == |p| + 1 && Under(q, p) :: q[|p|]
  }

  ghost function FilesUnder(t: Tree, root: Path): set<Path> {
    set p | p in t && Under(p, root) && t[p].File?
  }

  /** Files below the given children of `root`. */
  ghost function FilesOf(t: Tree, root: Path, names: set<Name>): set<Path> {
    set p | p in t && Below(p, root, names) && t[p].File?
  }

  predicate Below(p: Path, root: Path, names: set<Name>) {
    Under(p, root) && |p| > |root| && p[|root|] in names
  }

  /** `b` is `a` without some directories. */
  ghost predicate OnlyDirsGone(a: Tree, b: Tree) {
    (forall p :: p in b ==> p in a && b[p] == a[p]) && forall p :: p in a && p !in b ==> a[p].Dir?
  }

  /** Of the children of `src` those in `names` have been mirrored. */
  ghost predicate MirrorsPart(a: Tree, src: Path, b: Tree, dst: Path, names: set<Name>) {
    forall p :: Under(p, dst) ==> (p in b <==> p == dst || (Below(p, dst, names) && Rebase(p, dst, src) in a)) &&
                                  (p in b && p != dst ==> b[p] == a[Rebase(p, dst, src)])
  }

  lemma IsChild(t: Tree, q: Path)
    requires q in t && q != []
    ensures q[|q| - 1] in Children(t, Parent(q))
  {
  }

  lemma RemovedWellFormed(t: Tree, p: Path)
    requires WellFormed(t) && p in t && p != [] && Children(t, p) == {}
    ensures WellFormed(t - {p})
  {
    var u := t - {p};
    forall q | q in u && q != [] ensures IsDir(u, Parent(q)) {
      assert IsDir(t, Parent(q));
      IsChild(t, q);
    }
  }

  lemma FileHasNoChildren(t: Tree, p: Path)
    requires WellFormed(t) && IsFile(t, p)
    ensures Children(t, p) == {}
  {
    forall n | n in Children(t, p) ensures false {
      var q :| q in t && |q| == |p| + 1 && Under(q, p) && q[|p|] == n;
      NothingBelow(t, p, q);
    }
  }

  // ------------------------------------------------------------- copying a directory

  /** A copy of `src` at `dst` in the making: the children in `names` are there. */
  ghost predicate CopyingAt(a: Tree, src: Path, b: Tree, dst: Path, names: set<Name>) {
    WellFormed(a) && IsDir(a, src) && dst !in a && !Under(dst, src) && names <= Children(a, src) &&
    KeepsAll(a, b) && SameOutside(a, b, dst) && MirrorsPart(a, src, b, dst, names) && IsDir(b, dst)
  }

  lemma MirrorStart(a: Tree, src: Path, dst: Path)
    requires WellFormed(a) && src in a && dst !in a && !Under(dst, src)
    ensures var b := a[dst := Dir];
            KeepsAll(a, b) && SameOutside(a, b, dst) && MirrorsPart(a, src, b, dst, {})
              && Children(b, src) == Children(a, src)
  {
    var b := a[dst := Dir];
    forall p | Under(p, dst) && p in b ensures p == dst {
      if p in a { NothingBelow(a, dst, p); }
    }
    forall n | n in Children(b, src) ensures n in Children(a, src) {
      var q :| q in b && |q| == |src| + 1 && Under(q, src) && q[|src|] == n;
      assert q in a;
    }
    forall n | n in Children(a, src) ensures n in Children(b, src) {
      var q :| q in a && |q| == |src| + 1 && Under(q, src) && q[|src|] == n;
      assert q in b;
    }
  }

  lemma ChildPath(a: Tree, src: Path, n: Name)
    requires n in Children(a, src)
    ensures src + [n] in a
  {
    var q :| q in a && |q| == |src| + 1 && Under(q, src) && q[|src|] == n;
    assert q == src + [n];
  }

  /** The source is not touched by what happens below the copy. */
  lemma SourceApart(a: Tree, src: Path, dst: Path, p: Path)
    requires WellFormed(a) && src in a && dst !in a && !Under(dst, src) && Under(p, src)
    ensures !Under(p, dst)
  {
    if Under(p, dst) {
      PrefixesCompare(p, src, dst);
      AncestorsAreDirs(a, src, dst);
    }
  }

  lemma StillCopying(a: Tree, b: Tree, c: Tree, src: Path, dst: Path, n: Name, done: set<Name>)
    requires CopyingAt(a, src, b, dst, done) && KeepsAll(b, c) && SameOutside(b, c, dst + [n])
    ensures KeepsAll(a, c) && SameOutside(a, c, dst)
  {
    forall p | !Under(p, dst) ensures !Under(p, dst + [n]) {
      BelowOne(p, dst, n);
    }
  }

  lemma FileMirrors(b: Tree, from: Path, to: Path)
    requires WellFormed(b) && IsFile(b, from) && to !in b
    ensures Mirrors(b, from, b[to := b[from]], to) && FilesUnder(b, from) == {from}
  {
    assert Rebase(to, to, from) == from;
    forall p | Under(p, to) && p in b[to := b[from]] ensures p == to {
      if p in b { NothingBelow(b, to, p); }
    }
    forall p | Under(p, to) && Rebase(p, to, from) in b ensures p == to {
      RebaseIsUnder(p, to, from);
      NothingBelow(b, from, Rebase(p, to, from));
    }
    forall p | p in FilesUnder(b, from) ensures p == from {
      NothingBelow(b, from, p);
    }
  }

  /** One more child is mirrored. */
  lemma ChildMirrored(a: Tree, b: Tree, c: Tree, src: Path, dst: Path, n: Name, done: set<Name>)
    requires CopyingAt(a, src, b, dst, done) && n in Children(a, src) && n !in done
    requires KeepsAll(b, c) && SameOutside(b, c, dst + [n]) && Mirrors(b, src + [n], c, dst + [n])
    ensures CopyingAt(a, src, c, dst, done + {n})
    ensures FilesOf(a, src, done + {n}) == FilesOf(a, src, done) + FilesUnder(b, src + [n])
  {
    StillCopying(a, b, c, src, dst, n, done);
    forall p | Under(p, dst) ensures MirroredAt(a, src, c, dst, done + {n}, p) {
      ChildMirroredAt(a, b, c, src, dst, n, done, p);
    }
    MirroredEverywhere(a, src, c, dst, done + {n});
    SubtreeSame(a, b, src, dst, src + [n]);
    forall p ensures Below(p, src, {n}) <==> Under(p, src + [n]) {
      BelowOne(p, src, n);
    }
    assert FilesUnder(b, src + [n]) == FilesUnder(a, src + [n]);
  }

  lemma BelowOne(p: Path, root: Path, n: Name)
    ensures Below(p, root, {n}) <==> Under(p, root + [n])
  {
    if Below(p, root, {n}) { assert p[..|root| + 1] == root + [n]; }
    if Under(p, root + [n]) { assert p[..|root|] == (root + [n])[..|root|] == root; }
  }

  ghost predicate MirroredAt(a: Tree, src: Path, b: Tree, dst: Path, names: set<Name>, p: Path)
    requires Under(p, dst)
  {
    (p in b <==> p == dst || (Below(p, dst, names) && Rebase(p, dst, src) in a)) &&
    (p in b && p != dst ==> b[p] == a[Rebase(p, dst, src)])
  }

  lemma MirroredEverywhere(a: Tree, src: Path, b: Tree, dst: Path, names: set<Name>)
    requires forall p :: Under(p, dst) ==> MirroredAt(a, src, b, dst, names, p)
    ensures MirrorsPart(a, src, b, dst, names)
  {
  }

  lemma ChildMirroredAt(a: Tree, b: Tree, c: Tree, src: Path, dst: Path, n: Name, done: set<Name>, p: Path)
    requires CopyingAt(a, src, b, dst, done) && n in Children(a, src) && n !in done
    requires SameOutside(b, c, dst + [n]) && Mirrors(b, src + [n], c, dst + [n]) && Under(p, dst)
    ensures MirroredAt(a, src, c, dst, done + {n}, p)
  {
    BelowOne(p, dst, n);
    if Under(p, dst + [n]) {
      RebaseChild(p, src, dst, n);
      var q := Rebase(p, dst, src);
      assert (q in a <==> q in b) && (q in a ==> b[q] == a[q]) by {
        BelowOne(q, src, n);
        SourceApart(a, src, dst, q);
      }
    } else {
      assert MirroredAt(a, src, b, dst, done, p);
      assert Below(p, dst, done + {n}) <==> Below(p, dst, done);
    }
  }

  lemma RebaseChild(p: Path, src: Path, dst: Path, n: Name)
    requires Under(p, dst) && Under(p, dst + [n])
    ensures Rebase(p, dst + [n], src + [n]) == Rebase(p, dst, src)
    ensures Under(Rebase(p, dst, src), src + [n])
  {
    assert p[|dst|..] == [n] + p[|dst| + 1..];
    RebaseIsUnder(p, dst + [n], src + [n]);
  }

  /** Below the source nothing has changed. */
  lemma SubtreeSame(a: Tree, b: Tree, src: Path, dst: Path, root: Path)
    requires WellFormed(a) && src in a && dst !in a && !Under(dst, src) && SameOutside(a, b, dst) && Under(root, src)
    ensures forall p :: Under(p, root) ==> (p in a <==> p in b) && (p in a ==> b[p] == a[p])
  {
    forall p | Under(p, root) ensures (p in a <==> p in b) && (p in a ==> b[p] == a[p]) {
      assert Under(p, src) by { assert src <= root <= p; }
      SourceApart(a, src, dst, p);
    }
  }

  lemma AllMirrored(a: Tree, b: Tree, src: Path, dst: Path)
    requires CopyingAt(a, src, b, dst, Children(a, src))
    ensures Mirrors(a, src, b, dst) && FilesOf(a, src, Children(a, src)) == FilesUnder(a, src)
  {
    forall p | p in a && Under(p, src) && p != src ensures Below(p, src, Children(a, src)) {
      HasChild(a, src, p);
    }
    forall p | Under(p, dst) ensures (p in b <==> Rebase(p, dst, src) in a)
      && (p in b ==> b[p] == a[Rebase(p, dst, src)]) {
      RebaseIsUnder(p, dst, src);
      assert MirroredAt(a, src, b, dst, Children(a, src), p);
      if p == dst { assert Rebase(p, dst, src) == src; }
      else { assert p[|dst|] == Rebase(p, dst, src)[|src|]; }
    }
  }

  lemma HasChild(a: Tree, src: Path, p: Path)
    requires WellFormed(a) && p in a && Under(p, src) && p != src
    ensures Below(p, src, Children(a, src))
  {
    var q := p[..|src| + 1];
    assert Under(q, src) && Under(p, q);
    if q != p { AncestorsAreDirs(a, p, q); }
    assert q in a && q[|src|] in Children(a, src);
  }

  lemma ChildFacts(a: Tree, b: Tree, src: Path, dst: Path, n: Name, done: set<Name>)
    requires CopyingAt(a, src, b, dst, done) && n in Children(a, src) && n !in done
    ensures var from, to := src + [n], dst + [n];
            from in b && !Under(to, from) && to !in b && to != [] && Parent(to) == dst
  {
    ChildPath(a, src, n);
    ChildApart(src, dst, n);
    var to := dst + [n];
    assert Parent(to) == dst;
    BelowOne(to, dst, n);
    assert MirroredAt(a, src, b, dst, done, to);
  }

  /** Children of the same name are apart when the directories are. */
  lemma ChildApart(src: Path, dst: Path, n: Name)
    requires !Under(dst, src)
    ensures !Under(dst + [n], src + [n])
  {
    var to := dst + [n];
    assert Parent(to) == dst;
    BelowOne(to, src, n);
    ParentUnder(to, src);
  }
}
