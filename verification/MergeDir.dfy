/** Merging one directory into another, and looking for clashes beforehand. */
module Merging {
  import opened Prelude
  import opened FileTrees
  import opened FileSystems
  import opened Moving
  import opened MergePlaces

  // ------------------------------------------------------------- clashes

  /** `rel` exists on both sides, and not as a directory on both. */
  predicate Conflict(t: Tree, src: Path, dst: Path, rel: Path) {
    Join(src, rel) in t && Join(dst, rel) in t && !(t[Join(src, rel)].Dir? && t[Join(dst, rel)].Dir?)
  }

  /** Nothing below `rel` clashes. */
  ghost predicate ConflictFree(t: Tree, src: Path, dst: Path, rel: Path) {
    forall r :: Under(r, rel) && r != rel ==> !Conflict(t, src, dst, r)
  }

  /** Everything that is reported clashes, or is a directory that did not look like one. */
  ghost predicate AllConflict(t: Tree, src: Path, dst: Path, b: Blind, out: seq<Path>) {
    forall r :: r in out ==> Join(src, r) in t && (Conflict(t, src, dst, r) || Join(src, r) in b.types)
  }

  /** Which listings fail while clashes are looked for, which entries they do not yield, and of which
      they do not tell the type. */
  datatype Blind = Blind(lists: set<Path>, entries: set<Path>, types: set<Path>)

  /** Everything below `rel` can be seen, and so can what is in its way. */
  ghost predicate SeesAll(t: Tree, unread: set<Path>, src: Path, dst: Path, rel: Path, b: Blind) {
    forall r :: Under(r, rel) && Join(src, r) in t ==> SeesAt(unread, src, dst, r, b)
  }

  ghost predicate SeesAt(unread: set<Path>, src: Path, dst: Path, r: Path, b: Blind) {
    var p := Join(src, r);
    |p| < MAX_DEPTH && p !in b.lists && p !in b.entries && Join(dst, r) !in unread
  }

  lemma SeesBelow(t: Tree, unread: set<Path>, src: Path, dst: Path, rel: Path, b: Blind, n: Name)
    requires SeesAll(t, unread, src, dst, rel, b)
    ensures SeesAll(t, unread, src, dst, rel + [n], b)
  {
    forall r | Under(r, rel + [n]) && Join(src, r) in t ensures SeesAt(unread, src, dst, r, b) {
      BelowOne(r, rel, n);
    }
  }

  function Yields(t: Tree, dir: Path, b: Blind): set<Name> {
    set n | n in Children(t, dir) && dir + [n] !in b.entries
  }

  lemma YieldsAll(t: Tree, unread: set<Path>, src: Path, dst: Path, rel: Path, b: Blind)
    requires SeesAll(t, unread, src, dst, rel, b)
    ensures Yields(t, Join(src, rel), b) == Children(t, Join(src, rel))
  {
    var dir := Join(src, rel);
    forall n | n in Children(t, dir) ensures dir + [n] !in b.entries {
      ChildPath(t, dir, n);
      assert Join(src, rel + [n]) == dir + [n];
      assert SeesAt(unread, src, dst, rel + [n], b);
    }
  }

  /** Everything reported clashes or does not show its type; when everything can be seen and nothing
      is reported, nothing clashes. */
  method FindConflicts(fs: FileSystem, src: Path, dst: Path, rel: Path, b: Blind) returns (out: seq<Path>)
    requires WellFormed(fs.tree) && Lists(fs.pick)
    ensures AllConflict(fs.tree, src, dst, b, out)
    ensures SeesAll(fs.tree, fs.unread, src, dst, rel, b) && out == [] ==> ConflictFree(fs.tree, src, dst, rel)
    decreases MAX_DEPTH - |Join(src, rel)|, 1
  {
    out := [];
    var dir := Join(src, rel);
    ghost var sees := SeesAll(fs.tree, fs.unread, src, dst, rel, b);
    if sees && dir in fs.tree { assert SeesAt(fs.unread, src, dst, rel, b); }
    var listing := fs.ReadDir(dir, dir in b.lists);
    if listing.Err? {
      if !IsDir(fs.tree, dir) { NothingToSee(fs.tree, src, dst, rel); }
      return;
    }
    var left := Yields(fs.tree, dir, b);
    ghost var all := left;
    while left != {}
      invariant left <= all && AllConflict(fs.tree, src, dst, b, out)
      invariant sees && out == [] ==> ChildrenFree(fs.tree, src, dst, rel, all - left)
      decreases |left|
    {
      var n := fs.pick(dir, left);
      EntryThere(fs.tree, src, rel, n);
      if sees { SeesBelow(fs.tree, fs.unread, src, dst, rel, b, n); }
      var more := ConflictsAt(fs, src, dst, rel + [n], b);
      OneMoreFree(fs.tree, src, dst, rel, b, all, left, n, out, more, sees);
      out := out + more;
      left := left - {n};
    }
    if sees && out == [] {
      YieldsAll(fs.tree, fs.unread, src, dst, rel, b);
      assert all - {} == all;
      AllChildrenFree(fs.tree, src, dst, rel);
    }
  }

  lemma EntryThere(t: Tree, src: Path, rel: Path, n: Name)
    requires n in Children(t, Join(src, rel))
    ensures Join(src, rel + [n]) == Join(src, rel) + [n] && Join(src, rel + [n]) in t
  {
    ChildPath(t, Join(src, rel), n);
    assert Join(src, rel + [n]) == Join(src, rel) + [n];
  }

  lemma OneMoreFree(t: Tree, src: Path, dst: Path, rel: Path, b: Blind, all: set<Name>, left: set<Name>, n: Name,
                    out: seq<Path>, more: seq<Path>, sees: bool)
    requires AllConflict(t, src, dst, b, out) && AllConflict(t, src, dst, b, more)
    requires sees && out == [] ==> ChildrenFree(t, src, dst, rel, all - left)
    requires sees && more == [] ==> ChildFree(t, src, dst, rel + [n])
    ensures AllConflict(t, src, dst, b, out + more)
    ensures sees && out + more == [] ==> ChildrenFree(t, src, dst, rel, all - (left - {n}))
  {
  }

  lemma NothingToSee(t: Tree, src: Path, dst: Path, rel: Path)
    requires WellFormed(t) && !IsDir(t, Join(src, rel))
    ensures ConflictFree(t, src, dst, rel)
  {
    forall r | Under(r, rel) && r != rel ensures !Conflict(t, src, dst, r) {
      if Join(src, r) in t {
        assert Under(Join(src, r), Join(src, rel));
        NothingBelow(t, Join(src, rel), Join(src, r));
      }
    }
  }

  method ConflictsAt(fs: FileSystem, src: Path, dst: Path, r: Path, b: Blind) returns (out: seq<Path>)
    requires WellFormed(fs.tree) && Lists(fs.pick) && Join(src, r) in fs.tree && |Join(src, r)| <= MAX_DEPTH
    ensures AllConflict(fs.tree, src, dst, b, out)
    ensures SeesAll(fs.tree, fs.unread, src, dst, r, b) && out == [] ==> ChildFree(fs.tree, src, dst, r)
    decreases MAX_DEPTH - |Join(src, r)|, 2
  {
    out := [];
    ghost var sees := SeesAll(fs.tree, fs.unread, src, dst, r, b);
    if sees { assert SeesAt(fs.unread, src, dst, r, b); }
    if Seen(fs.tree, fs.unread, Join(dst, r)) {
      if fs.tree[Join(src, r)].Dir? && Join(src, r) !in b.types && fs.tree[Join(dst, r)].Dir? {
        out := FindConflicts(fs, src, dst, r, b);
        if sees && out == [] { FreeBelow(fs.tree, src, dst, r); }
      } else {
        out := [r];
      }
    } else if Join(dst, r) !in fs.tree {
      AbsentIsFree(fs.tree, src, dst, r);
    }
  }

  ghost predicate ChildrenFree(t: Tree, src: Path, dst: Path, rel: Path, names: set<Name>) {
    forall n :: n in names ==> ChildFree(t, src, dst, rel + [n])
  }

  /** Neither `r` nor anything below it clashes. */
  ghost predicate ChildFree(t: Tree, src: Path, dst: Path, r: Path) {
    forall x :: Under(x, r) ==> !Conflict(t, src, dst, x)
  }

  lemma FreeBelow(t: Tree, src: Path, dst: Path, r: Path)
    requires ConflictFree(t, src, dst, r) && !Conflict(t, src, dst, r)
    ensures ChildFree(t, src, dst, r)
  {
  }

  lemma AbsentIsFree(t: Tree, src: Path, dst: Path, r: Path)
    requires WellFormed(t) && Join(dst, r) !in t
    ensures ChildFree(t, src, dst, r)
  {
    forall x | Under(x, r) ensures !Conflict(t, src, dst, x) {
      if Join(dst, x) in t {
        assert Under(Join(dst, x), Join(dst, r));
        NothingBelow(t, Join(dst, r), Join(dst, x));
      }
    }
  }

  lemma AllChildrenFree(t: Tree, src: Path, dst: Path, rel: Path)
    requires WellFormed(t) && ChildrenFree(t, src, dst, rel, Children(t, Join(src, rel)))
    ensures ConflictFree(t, src, dst, rel)
  {
    forall r | Under(r, rel) && r != rel ensures !Conflict(t, src, dst, r) {
      if Join(src, r) in t {
        HasChild(t, Join(src, rel), Join(src, r));
        var n := r[|rel|];
        assert Join(src, r)[|Join(src, rel)|] == n;
        assert r[..|rel| + 1] == rel + [n];
        assert ChildFree(t, src, dst, rel + [n]);
      }
    }
  }

  // ------------------------------------------------------------- merging

  /** A file is where it was or, if it was below `src`, at the same place below `dst`. It is gone only
      if something was replaced in one of these places. */
  ghost predicate PartlyMoved(l0: map<Path, Path>, l: map<Path, Path>, src: Path, dst: Path, torn: set<Path>) {
    && l.Keys <= l0.Keys && (forall p :: p in l ==> PartlyAt(l0[p], l[p], src, dst))
    && forall p :: p in l0 && p !in l ==> PartlyGone(l0[p], src, dst, torn)
  }

  ghost predicate PartlyGone(x: Path, src: Path, dst: Path, torn: set<Path>) {
    exists y :: y in torn && PartlyAt(x, y, src, dst)
  }

  ghost predicate PartlyAt(x: Path, y: Path, src: Path, dst: Path) {
    y == x || (Under(x, src) && y == Rebase(x, src, dst))
  }

  /** Files outside `src` are gone only from the places `torn`, where something was replaced. */
  ghost predicate LostAt(l0: map<Path, Path>, l: map<Path, Path>, src: Path, torn: set<Path>) {
    l.Keys <= l0.Keys && forall p :: p in l0 && p !in l && !Under(l0[p], src) ==> l0[p] in torn
  }

  /** No file lands inside `src` again. */
  ghost predicate NoneReturn(l: map<Path, Path>, src: Path, dst: Path) {
    forall p :: p in l ==> StaysOut(l[p], src, dst)
  }

  ghost predicate StaysOut(x: Path, src: Path, dst: Path) {
    Under(x, src) ==> !Under(Rebase(x, src, dst), src)
  }

  /** Below `home`, what is there was there before. */
  ghost predicate QuietUnder(a: Tree, b: Tree, home: Path) {
    forall p :: p in b && Under(p, home) ==> p in a && b[p] == a[p]
  }

  /** Merging `src` into `dst` puts nothing below `home`. */
  ghost predicate NoEntry(t: Tree, src: Path, dst: Path, home: Path) {
    && home in t && (Under(home, src) ==> home == src) && !Under(dst, home)
    && (Under(home, dst) ==> Join(src, StripPrefix(home, dst)) !in t && Under(Join(src, StripPrefix(home, dst)), home))
  }

  lemma NoEntryChild(t: Tree, src: Path, dst: Path, home: Path, e: Name)
    requires NoEntry(t, src, dst, home) && src + [e] in t
    ensures NoEntry(t, src + [e], dst + [e], home)
  {
    BelowOne(home, src, e);
    BelowOne(home, dst, e);
    var to := dst + [e];
    assert Parent(to) == dst;
    ParentUnder(to, home);
    if Under(home, dst) {
      var h := StripPrefix(home, dst);
      assert to[|dst|..] == [e];
      if Under(home, to) {
        assert h == [e] + StripPrefix(home, to);
        assert Join(src + [e], StripPrefix(home, to)) == Join(src, h);
      }
    }
  }

  /** Moving or merging the entry `e` puts nothing below `home`. */
  ghost predicate EntryAvoids(t: Tree, src: Path, dst: Path, e: Name, home: Path) {
    home in t && !Under(dst, home) && (src + [e] in t ==> NoEntry(t, src + [e], dst + [e], home))
  }

  lemma NoEntryKept(a: Tree, b: Tree, src: Path, dst: Path, home: Path, e: Name)
    requires NoEntry(a, src, dst, home) && QuietUnder(a, b, home) && KeptOutside(a, b, src + [e])
    ensures NoEntry(b, src, dst, home)
  {
    BelowOne(home, src, e);
  }

  lemma QuietMove(a: Tree, b: Tree, dst: Path, e: Name, home: Path)
    requires WellFormed(a) && NoClobber(a, b) && NewAreNear(a, b, dst + [e]) && home in a && !Under(dst, home)
    ensures QuietUnder(a, b, home)
  {
    forall p | p in b && Under(p, home) ensures p in a {
      if p !in a { HomeNear(a, p, dst, e, home); }
    }
  }

  lemma HomeNear(a: Tree, p: Path, dst: Path, e: Name, home: Path)
    requires WellFormed(a) && Under(p, home) && home in a && !Under(dst, home) && Near(a, p, dst + [e])
    ensures p in a
  {
    var to := dst + [e];
    assert Parent(to) == dst;
    ParentUnder(to, home);
    if Under(to, p) {
      UnderTwice(to, p, home);
      assert p == to;
    } else {
      var w := p[..|to|];
      assert Under(p, w) && Parent(w) == dst;
      ParentUnder(w, home);
      PrefixesCompare(p, w, home);
      if w != home { AncestorsAreDirs(a, home, w); }
    }
  }

  /** Files below `src` are also at the same place below `dst`. */
  ghost predicate FilesCopied(a: Tree, b: Tree, src: Path, dst: Path) {
    forall p :: IsFile(a, p) && Under(p, src) ==> Rebase(p, src, dst) in b && b[Rebase(p, src, dst)] == a[p]
  }

  // ------------------------------------------------------------- a run in which nothing fails

  ghost function MergeRun(t: Tree, pick: Order, unread: set<Path>, noReplace: bool, copy: bool, src: Path,
                          dst: Path): Option<Tree>
    decreases MAX_DEPTH - |src|, 2, 0
  {
    if !CanList(t, src) then None else
    var u := EntriesRun(t, pick, unread, noReplace, copy, src, dst, Children(t, src));
    if u.None? then None else Some(if !copy && CanRemove(u.value, src) then u.value - {src} else u.value)
  }

  ghost function EntriesRun(t: Tree, pick: Order, unread: set<Path>, noReplace: bool, copy: bool, src: Path, dst: Path,
                            left: set<Name>): Option<Tree>
    requires |src| < MAX_DEPTH
    decreases MAX_DEPTH - |src|, 1, |left|
  {
    if left == {} then Some(t) else
    var e := pick(src, left);
    if e !in left then None else
    var u := EntryRun(t, pick, unread, noReplace, copy, src, dst, e);
    if u.None? then None else EntriesRun(u.value, pick, unread, noReplace, copy, src, dst, left - {e})
  }

  ghost function EntryRun(t: Tree, pick: Order, unread: set<Path>, noReplace: bool, copy: bool, src: Path, dst: Path,
                          e: Name): Option<Tree>
    requires |src| < MAX_DEPTH
    decreases MAX_DEPTH - |src|, 0, 0
  {
    if IsDir(t, src + [e]) && SeenDir(t, unread, dst + [e]) then
      MergeRun(t, pick, unread, noReplace, copy, src + [e], dst + [e])
    else MoveRun(t, unread, noReplace, copy, src + [e], dst + [e])
  }

  /** What such a run replaces. */
  ghost function MergeTears(t: Tree, pick: Order, unread: set<Path>, noReplace: bool, copy: bool, src: Path,
                            dst: Path): seq<Path>
    decreases MAX_DEPTH - |src|, 2, 0
  {
    if !CanList(t, src) then [] else EntriesTears(t, pick, unread, noReplace, copy, src, dst, Children(t, src))
  }

  ghost function EntriesTears(t: Tree, pick: Order, unread: set<Path>, noReplace: bool, copy: bool, src: Path,
                              dst: Path, left: set<Name>): seq<Path>
    requires |src| < MAX_DEPTH
    decreases MAX_DEPTH - |src|, 1, |left|
  {
    if left == {} then [] else
    var e := pick(src, left);
    if e !in left then [] else
    var u := EntryRun(t, pick, unread, noReplace, copy, src, dst, e);
    EntryTears(t, pick, unread, noReplace, copy, src, dst, e) +
    if u.None? then [] else EntriesTears(u.value, pick, unread, noReplace, copy, src, dst, left - {e})
  }

  ghost function EntryTears(t: Tree, pick: Order, unread: set<Path>, noReplace: bool, copy: bool, src: Path, dst: Path,
                            e: Name): seq<Path>
    requires |src| < MAX_DEPTH
    decreases MAX_DEPTH - |src|, 0, 0
  {
    if IsDir(t, src + [e]) && SeenDir(t, unread, dst + [e]) then
      MergeTears(t, pick, unread, noReplace, copy, src + [e], dst + [e])
    else MoveTears(t, unread, noReplace, copy, src + [e], dst + [e])
  }

  // ------------------------------------------------------------- one entry

  lemma ApartFinal(t: Tree, pick: Order, src: Path, dst: Path, l: map<Path, Path>)
    requires !Holds(dst, src)
    ensures FinalMap(t, pick, src, dst, l) == ShiftAll(l, src, dst)
  {
    forall p | p in l ensures Place(t, pick, src, dst, l[p]) == Shift(l[p], src, dst) {
      if Under(l[p], src) { assert Final(t, pick, src, dst, l[p]) == Rebase(l[p], src, dst); }
    }
  }

  /** Something is on the way to `src`, so nothing can be put there. */
  lemma WayIsTaken(t: Tree, src: Path, dst: Path, e: Name)
    requires WellFormed(t) && src in t && !Under(dst, src) && Holds(dst + [e], src + [e])
    ensures dst + [e] in t
  {
    HoldsChild(src, dst, e);
    assert src[..|dst| + 1] == dst + [e];
    if src != dst + [e] { AncestorsAreDirs(t, src, dst + [e]); }
  }

  /** What moving or merging the entry `e` does to the tree and to the files. `intact` is a copy that
      has replaced nothing. */
  ghost predicate EntryKeeps(a: Tree, l0: map<Path, Path>, b: Tree, l: map<Path, Path>, pick: Order, torn: set<Path>,
                             src: Path, dst: Path, e: Name, intact: bool, ok: bool) {
    && KeptOutside(a, b, src + [e]) && LostAt(l0, l, src + [e], torn)
    && (forall home :: EntryAvoids(a, src, dst, e, home) ==> QuietUnder(a, b, home))
    && (NoneReturn(l0, src + [e], dst + [e]) ==> PartlyMoved(l0, l, src + [e], dst + [e], torn))
    && (ok ==> Follows(l, FinalMap(a, pick, src + [e], dst + [e], l0)))
    && (intact ==> KeepsAll(a, b) && (ok ==> FilesCopied(a, b, src + [e], dst + [e])))
  }

  /** Moves one entry of `src` to `dst`, or merges it into the directory that is there. */
  method MergeEntry(fs: FileSystem, src: Path, dst: Path, e: Name, copy: bool) returns (r: Result<MoveMethod, IoError>)
    requires fs.Valid() && !Under(dst, src) && |src| < MAX_DEPTH && src in fs.tree
    modifies fs
    ensures fs.Valid() && TearsOnce(old(fs.replaced), fs.replaced, fs.ShakyUnder(dst + [e]))
    ensures EntryKeeps(old(fs.tree), old(fs.loc), fs.tree, fs.loc, fs.pick, Since(old(fs.replaced), fs.replaced), src,
              dst, e, copy && fs.replaced == old(fs.replaced), r.Ok?)
    ensures fs.calm && !copy && NoStray(old(fs.tree), old(fs.loc)) ==> NoStray(fs.tree, fs.loc)
    ensures fs.calm ==>
              RunsAs(EntryRun(old(fs.tree), fs.pick, fs.unread, fs.noReplace, copy, src, dst, e),
                EntryTears(old(fs.tree), fs.pick, fs.unread, fs.noReplace, copy, src, dst, e), old(fs.replaced),
                fs.replaced, fs.tree, r.Ok?)
    decreases MAX_DEPTH - |src|, 0
  {
    var from, to := src + [e], dst + [e];
    ghost var t, l, was := fs.tree, fs.loc, fs.replaced;
    HoldsChild(src, dst, e);
    if IsDir(fs.tree, from) && SeenDir(fs.tree, fs.unread, to) {
      r := MergeDir(fs, from, to, copy);
    } else {
      r := MovePath(fs, from, to, copy);
      ToreOnce(was, fs.replaced, t, fs.unread, fs.noReplace, from, to, r.Ok?);
      EntryMoved(t, l, fs.tree, fs.loc, fs.pick, fs.unread, fs.noReplace, Since(was, fs.replaced), src, dst, e, copy,
        r.Ok?);
    }
  }

  lemma ToreOnce(was: seq<Path>, now: seq<Path>, t: Tree, unread: set<Path>, noReplace: bool, src: Path, dst: Path,
                 ok: bool)
    requires Tore(was, now, t, unread, noReplace, src, dst, ok)
    ensures TearsOnce(was, now, if noReplace then {} else {dst} * unread)
    ensures TearsOnce(was, now, if noReplace then {} else set p | p in unread && Under(p, dst))
    ensures now == was <==> !(ok && dst in t)
    ensures ok && dst in t ==> dst in Since(was, now)
  {
    if ok && dst in t { assert now[|was|] == dst; }
  }

  lemma EntryMoved(a: Tree, l0: map<Path, Path>, b: Tree, l: map<Path, Path>, pick: Order, unread: set<Path>,
                   noReplace: bool, torn: set<Path>, src: Path, dst: Path, e: Name, copy: bool, ok: bool)
    requires WellFormed(a) && src in a && !Under(dst, src) && (ok && dst + [e] in a ==> dst + [e] in torn)
    requires Moves(a, l0, b, l, src + [e], dst + [e], copy, ok)
    requires ok && dst + [e] in a ==> src != dst && Overwrites(a, unread, noReplace, src + [e], dst + [e])
    ensures EntryKeeps(a, l0, b, l, pick, torn, src, dst, e, copy && !(ok && dst + [e] in a), ok)
  {
    if ok && dst + [e] in a {
      EntryReplaced(a, l0, b, l, pick, torn, src, dst, e, copy);
    } else {
      forall home | home in a && !Under(dst, home) ensures QuietUnder(a, b, home) {
        QuietMove(a, b, dst, e, home);
      }
      if ok {
        if Holds(dst + [e], src + [e]) { WayIsTaken(a, src, dst, e); }
        ApartFinal(a, pick, src + [e], dst + [e], l0);
      }
    }
  }

  /** The entry takes the place of something that cannot be read. */
  lemma EntryReplaced(a: Tree, l0: map<Path, Path>, b: Tree, l: map<Path, Path>, pick: Order, torn: set<Path>,
                      src: Path, dst: Path, e: Name, copy: bool)
    requires WellFormed(a) && src in a && !Under(dst, src) && src != dst && dst + [e] in torn
    requires Replaces(a, src + [e], dst + [e])
    requires MoveKeeps(a - {dst + [e]}, Without(l0, dst + [e]), b, l, src + [e], dst + [e], copy, true)
    ensures EntryKeeps(a, l0, b, l, pick, torn, src, dst, e, false, true)
  {
    var from, to := src + [e], dst + [e];
    ReplaceIsRename(a, from, to);
    forall home | EntryAvoids(a, src, dst, e, home) ensures QuietUnder(a, b, home) {
      AvoidsTarget(a, src, dst, e, home);
      QuietMove(a - {to}, b, dst, e, home);
    }
    WayIsFree(a, src, dst, e);
    ApartFinal(a, pick, from, to, l0);
  }

  lemma AvoidsTarget(a: Tree, src: Path, dst: Path, e: Name, home: Path)
    requires EntryAvoids(a, src, dst, e, home) && src + [e] in a
    ensures home != dst + [e]
  {
    assert Join(src + [e], StripPrefix(dst + [e], dst + [e])) == src + [e];
  }

  /** What can be replaced is not on the way to `src`. */
  lemma WayIsFree(t: Tree, src: Path, dst: Path, e: Name)
    requires WellFormed(t) && src in t && !Under(dst, src) && Replaces(t, src + [e], dst + [e])
    ensures !Holds(dst + [e], src + [e])
  {
    if Holds(dst + [e], src + [e]) {
      HoldsChild(src, dst, e);
      assert src[..|dst| + 1] == dst + [e];
      assert Under(src + [e], dst + [e]) && src + [e] != dst + [e];
      HasChild(t, dst + [e], src + [e]);
      AncestorsAreDirs(t, src + [e], dst + [e]);
    }
  }

  // ------------------------------------------------------------- all entries

  ghost predicate Staged(t0: Tree, l0: map<Path, Path>, l: map<Path, Path>, pick: Order, src: Path, dst: Path,
                         left: set<Name>) {
    l.Keys <= l0.Keys && forall p :: p in l ==> l[p] == Stage(t0, pick, src, dst, left, l0[p])
  }

  ghost predicate Quieted(t0: Tree, t: Tree, src: Path, dst: Path) {
    forall home :: NoEntry(t0, src, dst, home) ==> QuietUnder(t0, t, home) && NoEntry(t, src, dst, home)
  }

  /** Until its turn comes, nothing happens below the entry on the way from `dst` to `src`. */
  ghost predicate Waiting(t0: Tree, t: Tree, pick: Order, src: Path, dst: Path, left: set<Name>) {
    Holds(dst, src) && src[|dst|] in Children(t0, src) ==>
      && InTurn(pick, src, Children(t0, src), left, src[|dst|])
      && (src[|dst|] in left ==> SameUnder(t0, t, src + [src[|dst|]]))
  }

  ghost predicate Underway(t0: Tree, t: Tree, pick: Order, src: Path, dst: Path, left: set<Name>) {
    src in t && KeptOutside(t0, t, src) && Quieted(t0, t, src, dst) && Waiting(t0, t, pick, src, dst, left)
  }

  lemma NothingYet(t: Tree, l: map<Path, Path>, initial: map<Path, Content>, pick: Order, src: Path, dst: Path)
    requires WellFormed(t) && IsDir(t, src) && Held(initial, t, l)
    ensures Underway(t, t, pick, src, dst, Children(t, src)) && Staged(t, l, l, pick, src, dst, Children(t, src))
  {
    forall p | p in l ensures l[p] == Stage(t, pick, src, dst, Children(t, src), l[p]) {
      assert AtPlace(t, l[p], initial[p]);
      StageFirst(t, pick, src, dst, l[p]);
    }
  }

  /** One more entry is done. */
  lemma EntryDone(t0: Tree, b: Tree, c: Tree, pick: Order, src: Path, dst: Path, left: set<Name>, e: Name)
    requires Lists(pick) && left != {} && e == pick(src, left) && !Under(dst, src) && WellFormed(t0) && WellFormed(b)
    requires Underway(t0, b, pick, src, dst, left) && KeptOutside(b, c, src + [e])
    requires forall home :: EntryAvoids(b, src, dst, e, home) ==> QuietUnder(b, c, home)
    ensures Underway(t0, c, pick, src, dst, left - {e})
  {
    BelowOne(src, src, e);
    KeptInner(b, c, src, e);
    forall home | NoEntry(t0, src, dst, home) ensures QuietUnder(t0, c, home) && NoEntry(c, src, dst, home) {
      if src + [e] in b { NoEntryChild(b, src, dst, home, e); }
      assert EntryAvoids(b, src, dst, e, home);
      NoEntryKept(b, c, src, dst, home, e);
    }
    if Holds(dst, src) && src[|dst|] in Children(t0, src) {
      StillWaiting(t0, b, c, pick, src, dst, left, e);
    }
  }

  lemma StillWaiting(t0: Tree, b: Tree, c: Tree, pick: Order, src: Path, dst: Path, left: set<Name>, e: Name)
    requires Lists(pick) && left != {} && e == pick(src, left) && !Under(dst, src)
    requires Holds(dst, src) && src[|dst|] in Children(t0, src) && Waiting(t0, b, pick, src, dst, left)
    requires KeptOutside(b, c, src + [e])
    requires forall home :: EntryAvoids(b, src, dst, e, home) ==> QuietUnder(b, c, home)
    ensures Waiting(t0, c, pick, src, dst, left - {e})
  {
    var n := src[|dst|];
    NextTurn(pick, src, Children(t0, src), left, n);
    if n in left && e != n {
      ChildPath(t0, src, n);
      OtherEntry(b, src, dst, e);
      forall p | Under(p, src + [n]) && p in b ensures p in c {
        BelowOne(p, src, n);
        BelowOne(p, src, e);
      }
    }
  }

  lemma OtherEntry(b: Tree, src: Path, dst: Path, e: Name)
    requires Holds(dst, src) && e != src[|dst|] && src + [src[|dst|]] in b
    ensures EntryAvoids(b, src, dst, e, src + [src[|dst|]])
  {
    var n := src[|dst|];
    var home := src + [n];
    BelowOne(home, src, e);
    BelowOne(home, src, n);
    BelowOne(home, dst, e);
    assert home[|dst|] == n && home[|src|] == n;
  }

  /** The files are at their next stage. */
  lemma LocDone(t0: Tree, initial: map<Path, Content>, l0: map<Path, Path>, b: Tree, l: map<Path, Path>,
                l': map<Path, Path>, pick: Order, src: Path, dst: Path, left: set<Name>, e: Name)
    requires Lists(pick) && left != {} && e == pick(src, left) && !Under(dst, src) && WellFormed(t0) && IsDir(t0, src)
    requires Held(initial, t0, l0) && Waiting(t0, b, pick, src, dst, left) && Staged(t0, l0, l, pick, src, dst, left)
    requires Follows(l', FinalMap(b, pick, src + [e], dst + [e], l)) && left <= Children(t0, src)
    ensures Staged(t0, l0, l', pick, src, dst, left - {e})
  {
    forall p | p in l' ensures l'[p] == Stage(t0, pick, src, dst, left - {e}, l0[p]) {
      assert AtPlace(t0, l0[p], initial[p]);
      LocDoneAt(t0, b, pick, src, dst, left, e, l0[p]);
    }
  }

  lemma LocDoneAt(t0: Tree, b: Tree, pick: Order, src: Path, dst: Path, left: set<Name>, e: Name, x: Path)
    requires Lists(pick) && left != {} && e == pick(src, left) && !Under(dst, src) && WellFormed(t0) && IsDir(t0, src)
    requires IsFile(t0, x) && Waiting(t0, b, pick, src, dst, left) && left <= Children(t0, src)
    ensures Place(b, pick, src + [e], dst + [e], Stage(t0, pick, src, dst, left, x)) ==
            Stage(t0, pick, src, dst, left - {e}, x)
  {
    if Under(x, src) { HasChild(t0, src, x); }
    StageStep(t0, b, pick, src, dst, left, x);
  }

  lemma LocAll(t0: Tree, initial: map<Path, Content>, l0: map<Path, Path>, l: map<Path, Path>, pick: Order, src: Path,
               dst: Path)
    requires IsDir(t0, src) && Held(initial, t0, l0) && Staged(t0, l0, l, pick, src, dst, {})
    ensures Follows(l, FinalMap(t0, pick, src, dst, l0))
  {
    forall p | p in l ensures l[p] == Place(t0, pick, src, dst, l0[p]) {
      assert AtPlace(t0, l0[p], initial[p]);
      StageLast(t0, pick, src, dst, l0[p]);
    }
  }

  lemma PartlyNoReturn(l0: map<Path, Path>, l: map<Path, Path>, src: Path, dst: Path, torn: set<Path>, e: Name)
    requires NoneReturn(l0, src, dst) && PartlyMoved(l0, l, src, dst, torn)
    ensures NoneReturn(l, src + [e], dst + [e])
  {
    forall p | p in l ensures StaysOut(l[p], src + [e], dst + [e]) {
      PartlyStaysOut(l0[p], l[p], src, dst, e);
    }
  }

  lemma PartlyStaysOut(x: Path, z: Path, src: Path, dst: Path, e: Name)
    requires StaysOut(x, src, dst) && PartlyAt(x, z, src, dst)
    ensures StaysOut(z, src + [e], dst + [e])
  {
    BelowOne(z, src, e);
    if Under(z, src + [e]) {
      RebasedChild(z, src, dst, e);
      BelowOne(Rebase(z, src, dst), src, e);
    }
  }

  lemma PartlyTwice(l0: map<Path, Path>, l: map<Path, Path>, l': map<Path, Path>, src: Path, dst: Path,
                    torn: set<Path>, more: set<Path>, e: Name)
    requires NoneReturn(l0, src, dst) && PartlyMoved(l0, l, src, dst, torn)
    requires PartlyMoved(l, l', src + [e], dst + [e], more)
    ensures PartlyMoved(l0, l', src, dst, torn + more)
  {
    forall p | p in l' ensures PartlyAt(l0[p], l'[p], src, dst) {
      PartlyOnce(l0[p], l[p], l'[p], src, dst, e);
    }
    forall p | p in l0 && p !in l' ensures PartlyGone(l0[p], src, dst, torn + more) {
      if p in l {
        var y :| y in more && PartlyAt(l[p], y, src + [e], dst + [e]);
        PartlyOnce(l0[p], l[p], y, src, dst, e);
      } else {
        var y :| y in torn && PartlyAt(l0[p], y, src, dst);
        assert y in torn + more;
      }
    }
  }

  lemma PartlyOnce(x: Path, y: Path, z: Path, src: Path, dst: Path, e: Name)
    requires StaysOut(x, src, dst) && PartlyAt(x, y, src, dst) && PartlyAt(y, z, src + [e], dst + [e])
    ensures PartlyAt(x, z, src, dst)
  {
    if z != y {
      BelowOne(y, src, e);
      RebasedChild(y, src, dst, e);
    }
  }

  /** The files of one more entry are copied. */
  ghost predicate CopiedBut(a: Tree, b: Tree, src: Path, dst: Path, left: set<Name>) {
    && KeepsAll(a, b)
    && forall p :: IsFile(a, p) && Under(p, src) && p != src && p[|src|] !in left ==>
         Rebase(p, src, dst) in b && b[Rebase(p, src, dst)] == a[p]
  }

  lemma CopiedMoreFiles(a: Tree, b: Tree, c: Tree, src: Path, dst: Path, left: set<Name>, e: Name)
    requires CopiedBut(a, b, src, dst, left) && KeepsAll(b, c) && FilesCopied(b, c, src + [e], dst + [e])
    ensures CopiedBut(a, c, src, dst, left - {e})
  {
    forall p | IsFile(a, p) && Under(p, src) && p != src && p[|src|] !in left - {e}
      ensures Rebase(p, src, dst) in c && c[Rebase(p, src, dst)] == a[p]
    {
      if p[|src|] == e {
        BelowOne(p, src, e);
        RebasedChild(p, src, dst, e);
        assert IsFile(b, p);
      }
    }
  }

  lemma CopiedNone(a: Tree, src: Path, dst: Path)
    requires WellFormed(a)
    ensures CopiedBut(a, a, src, dst, Children(a, src))
  {
    forall p | IsFile(a, p) && Under(p, src) && p != src ensures p[|src|] in Children(a, src) {
      HasChild(a, src, p);
    }
  }

  /** What a merge does to the tree and to the files, whatever fails: nothing is removed outside
      `src`, nothing appears where it should not, and while no file returns each is where it was or
      at its destination. A copy leaves everything in its place. */
  ghost predicate MergeKeeps(a: Tree, l0: map<Path, Path>, b: Tree, l: map<Path, Path>, torn: set<Path>, src: Path,
                             dst: Path, intact: bool) {
    && KeptOutside(a, b, src) && LostAt(l0, l, src, torn) && (intact ==> KeepsAll(a, b))
    && (NoneReturn(l0, src, dst) ==> PartlyMoved(l0, l, src, dst, torn))
    && forall home :: NoEntry(a, src, dst, home) ==> QuietUnder(a, b, home)
  }

  /** What it does without a failure: every file is where the merge takes it. */
  ghost predicate MergeDone(a: Tree, l0: map<Path, Path>, b: Tree, l: map<Path, Path>, pick: Order, src: Path,
                            dst: Path, intact: bool) {
    Follows(l, FinalMap(a, pick, src, dst, l0)) && (intact ==> FilesCopied(a, b, src, dst))
  }

  lemma DirRemoved(a: Tree, l0: map<Path, Path>, b: Tree, c: Tree, l: map<Path, Path>, torn: set<Path>, src: Path,
                   dst: Path)
    requires MergeKeeps(a, l0, b, l, torn, src, dst, false) && (c == b || (CanRemove(b, src) && c == b - {src}))
    ensures MergeKeeps(a, l0, c, l, torn, src, dst, false) && (NoStray(b, l) ==> NoStray(c, l))
  {
    assert Under(src, src);
    forall home | NoEntry(a, src, dst, home) ensures QuietUnder(a, c, home) {
      assert QuietUnder(a, b, home);
    }
    if NoStray(b, l) {
      forall p | IsFile(c, p) ensures exists q :: q in l && l[q] == p {
        assert IsFile(b, p);
      }
    }
  }

  lemma RunThenRemove(t: Tree, pick: Order, unread: set<Path>, noReplace: bool, copy: bool, src: Path, dst: Path)
    requires CanList(t, src)
    ensures var u := EntriesRun(t, pick, unread, noReplace, copy, src, dst, Children(t, src));
            var m := MergeRun(t, pick, unread, noReplace, copy, src, dst);
            && (m.Some? <==> u.Some?)
            && (u.Some? ==> m.value == if !copy && CanRemove(u.value, src) then u.value - {src} else u.value)
  {
  }

  /** Moves every entry of `src` below `dst`. */
  method MergeDir(fs: FileSystem, src: Path, dst: Path, copy: bool) returns (r: Result<MoveMethod, IoError>)
    requires fs.Valid() && !Under(dst, src)
    modifies fs
    ensures fs.Valid() && TearsOnce(old(fs.replaced), fs.replaced, fs.ShakyUnder(dst))
    ensures MergeKeeps(old(fs.tree), old(fs.loc), fs.tree, fs.loc, Since(old(fs.replaced), fs.replaced), src, dst,
              copy && fs.replaced == old(fs.replaced))
    ensures r.Ok? ==> MergeDone(old(fs.tree), old(fs.loc), fs.tree, fs.loc, fs.pick, src, dst,
                        copy && fs.replaced == old(fs.replaced))
    ensures fs.calm && !copy && NoStray(old(fs.tree), old(fs.loc)) ==> NoStray(fs.tree, fs.loc)
    ensures fs.calm ==>
              RunsAs(MergeRun(old(fs.tree), fs.pick, fs.unread, fs.noReplace, copy, src, dst),
                MergeTears(old(fs.tree), fs.pick, fs.unread, fs.noReplace, copy, src, dst), old(fs.replaced),
                fs.replaced, fs.tree, r.Ok?)
    decreases MAX_DEPTH - |src|, 3
  {
    ghost var a, l0, was := fs.tree, fs.loc, fs.replaced;
    var listFails := fs.Fails();
    var listing := fs.ReadDir(src, listFails);
    if listing.Err? { return Err(listing.error); }
    RunThenRemove(a, fs.pick, fs.unread, fs.noReplace, copy, src, dst);
    r := MergeEntries(fs, src, dst, listing.value, copy);
    if r.Ok? && !copy {
      ghost var b := fs.tree;
      var gone := fs.RemoveDir(src);
      DirRemoved(a, l0, b, fs.tree, fs.loc, Since(was, fs.replaced), src, dst);
    }
  }

  /** A merge of `src` that began at `t0` and is through, or stopped with an error. */
  ghost predicate Merged(fs: FileSystem, src: Path, dst: Path, copy: bool, t0: Tree, l0: map<Path, Path>,
                         was: seq<Path>, run: Option<Tree>, tears: seq<Path>, ok: bool)
    reads fs
  {
    var intact := copy && fs.replaced == was;
    && fs.Valid() && TearsOnce(was, fs.replaced, fs.ShakyUnder(dst))
    && MergeKeeps(t0, l0, fs.tree, fs.loc, Since(was, fs.replaced), src, dst, intact)
    && (ok ==> MergeDone(t0, l0, fs.tree, fs.loc, fs.pick, src, dst, intact))
    && (fs.calm && !copy && NoStray(t0, l0) ==> NoStray(fs.tree, fs.loc))
    && (fs.calm ==> RunsAs(run, tears, was, fs.replaced, fs.tree, ok))
  }

  /** With the entries in `left` to come. */
  ghost predicate PartMerged(fs: FileSystem, src: Path, dst: Path, copy: bool, left: set<Name>, t0: Tree,
                             l0: map<Path, Path>, was: seq<Path>, run: Option<Tree>, tears: seq<Path>)
    reads fs
  {
    && fs.Valid() && WellFormed(t0) && IsDir(t0, src) && |src| < MAX_DEPTH && Held(fs.initial, t0, l0)
    && TearsOnce(was, fs.replaced, fs.ShakyBelow(dst, Children(t0, src) - left))
    && Inward(t0, l0, fs.tree, fs.loc, fs.pick, Since(was, fs.replaced), src, dst, left, copy && fs.replaced == was)
    && (fs.calm && !copy && NoStray(t0, l0) ==> NoStray(fs.tree, fs.loc))
    && (fs.calm ==>
          RunsTo(fs.tree, fs.pick, fs.unread, fs.noReplace, copy, src, dst, left, run, fs.replaced, was + tears))
  }

  method MergeEntries(fs: FileSystem, src: Path, dst: Path, names: set<Name>, copy: bool)
      returns (r: Result<MoveMethod, IoError>)
    requires fs.Valid() && !Under(dst, src) && CanList(fs.tree, src) && names == Children(fs.tree, src)
    modifies fs
    ensures Merged(fs, src, dst, copy, old(fs.tree), old(fs.loc), old(fs.replaced),
              EntriesRun(old(fs.tree), fs.pick, fs.unread, fs.noReplace, copy, src, dst, names),
              EntriesTears(old(fs.tree), fs.pick, fs.unread, fs.noReplace, copy, src, dst, names), r.Ok?)
    decreases MAX_DEPTH - |src|, 2
  {
    ghost var t0, l0, was := fs.tree, fs.loc, fs.replaced;
    ghost var run := EntriesRun(t0, fs.pick, fs.unread, fs.noReplace, copy, src, dst, names);
    ghost var tears := EntriesTears(t0, fs.pick, fs.unread, fs.noReplace, copy, src, dst, names);
    var left, how := names, Nothing;
    NothingYet(t0, l0, fs.initial, fs.pick, src, dst);
    CopiedNone(t0, src, dst);
    while left != {}
      invariant PartMerged(fs, src, dst, copy, left, t0, l0, was, run, tears)
      decreases |left|
    {
      var moved := MergeNext(fs, src, dst, left, copy, t0, l0, was, run, tears);
      if moved.Err? { return moved; }
      how := how.Merge(moved.value);
      left := left - {fs.pick(src, left)};
    }
    AllMerged(fs, src, dst, copy, t0, l0, was, run, tears);
    r := Ok(how);
  }

  lemma AllMerged(fs: FileSystem, src: Path, dst: Path, copy: bool, t0: Tree, l0: map<Path, Path>, was: seq<Path>,
                  run: Option<Tree>, tears: seq<Path>)
    requires !Under(dst, src) && PartMerged(fs, src, dst, copy, {}, t0, l0, was, run, tears)
    ensures Merged(fs, src, dst, copy, t0, l0, was, run, tears, true)
  {
    var torn, intact := Since(was, fs.replaced), copy && fs.replaced == was;
    BelowIsUnder(was, fs.replaced, fs, dst, Children(t0, src) - {});
    InwardKeeps(t0, l0, fs.tree, fs.loc, fs.pick, torn, src, dst, {}, intact);
    AllInward(t0, l0, fs.tree, fs.loc, fs.initial, fs.pick, torn, src, dst, intact);
    if fs.calm { NoneToCome(fs.tree, fs.pick, fs.unread, fs.noReplace, copy, src, dst); }
  }

  lemma NoneToCome(t: Tree, pick: Order, unread: set<Path>, noReplace: bool, copy: bool, src: Path, dst: Path)
    requires |src| < MAX_DEPTH
    ensures EntriesRun(t, pick, unread, noReplace, copy, src, dst, {}) == Some(t)
    ensures EntriesTears(t, pick, unread, noReplace, copy, src, dst, {}) == []
  {
  }

  /** Each entry replaces something in its own place only. */
  lemma TearsEntry(was: seq<Path>, mid: seq<Path>, now: seq<Path>, fs: FileSystem, dst: Path, names: set<Name>,
                   left: set<Name>, e: Name)
    requires e in left && left <= names && TearsOnce(was, mid, fs.ShakyBelow(dst, names - left))
    requires TearsOnce(mid, now, fs.ShakyUnder(dst + [e]))
    ensures TearsOnce(was, now, fs.ShakyBelow(dst, names - (left - {e}))) && TearsOnce(was, now, fs.ShakyUnder(dst))
  {
    var first, second, may := fs.ShakyBelow(dst, names - left), fs.ShakyUnder(dst + [e]),
      fs.ShakyBelow(dst, names - (left - {e}));
    forall p | p in second ensures p !in first && p in may {
      BelowOne(p, dst, e);
    }
    TearsNext(was, mid, now, first, second, may);
  }

  lemma BelowIsUnder(was: seq<Path>, now: seq<Path>, fs: FileSystem, dst: Path, names: set<Name>)
    requires TearsOnce(was, now, fs.ShakyBelow(dst, names))
    ensures TearsOnce(was, now, fs.ShakyUnder(dst))
  {
  }

  /** With the entries in `left` to come, a run in which nothing fails ends at `run`, and has replaced
      something at the places `total` then. */
  ghost predicate RunsTo(t: Tree, pick: Order, unread: set<Path>, noReplace: bool, copy: bool, src: Path, dst: Path,
                         left: set<Name>, run: Option<Tree>, now: seq<Path>, total: seq<Path>)
    requires |src| < MAX_DEPTH
  {
    && EntriesRun(t, pick, unread, noReplace, copy, src, dst, left) == run
    && now + EntriesTears(t, pick, unread, noReplace, copy, src, dst, left) == total
  }

  lemma RunsOn(t: Tree, pick: Order, unread: set<Path>, noReplace: bool, copy: bool, src: Path, dst: Path,
               left: set<Name>, run: Option<Tree>, was: seq<Path>, now: seq<Path>, total: seq<Path>, v: Tree, ok: bool)
    requires |src| < MAX_DEPTH && left != {} && Lists(pick)
    requires RunsTo(t, pick, unread, noReplace, copy, src, dst, left, run, was, total)
    requires var e := pick(src, left);
             RunsAs(EntryRun(t, pick, unread, noReplace, copy, src, dst, e),
               EntryTears(t, pick, unread, noReplace, copy, src, dst, e), was, now, v, ok)
    ensures if ok then RunsTo(v, pick, unread, noReplace, copy, src, dst, left - {pick(src, left)}, run, now, total)
            else run.None? && now == total
  {
    FirstThenRest(t, pick, unread, noReplace, copy, src, dst, left);
    var e := pick(src, left);
    StepThenRest(EntryRun(t, pick, unread, noReplace, copy, src, dst, e),
      EntryTears(t, pick, unread, noReplace, copy, src, dst, e),
      EntriesRun(v, pick, unread, noReplace, copy, src, dst, left - {e}),
      EntriesTears(v, pick, unread, noReplace, copy, src, dst, left - {e}), run, was, now, total, v, ok);
  }

  lemma FirstThenRest(t: Tree, pick: Order, unread: set<Path>, noReplace: bool, copy: bool, src: Path, dst: Path,
                      left: set<Name>)
    requires |src| < MAX_DEPTH && left != {} && Lists(pick)
    ensures var e := pick(src, left);
            var u := EntryRun(t, pick, unread, noReplace, copy, src, dst, e);
            var tears := EntryTears(t, pick, unread, noReplace, copy, src, dst, e);
            && EntriesRun(t, pick, unread, noReplace, copy, src, dst, left) ==
                 (if u.None? then None else EntriesRun(u.value, pick, unread, noReplace, copy, src, dst, left - {e}))
            && EntriesTears(t, pick, unread, noReplace, copy, src, dst, left) ==
                 (if u.None? then tears
                  else tears + EntriesTears(u.value, pick, unread, noReplace, copy, src, dst, left - {e}))
  {
  }

  /** The next entry of the listing. */
  method MergeNext(fs: FileSystem, src: Path, dst: Path, left: set<Name>, copy: bool, ghost t0: Tree,
                   ghost l0: map<Path, Path>, ghost was: seq<Path>, ghost run: Option<Tree>, ghost tears: seq<Path>)
    returns (moved: Result<MoveMethod, IoError>)
    requires !Under(dst, src) && left != {} && PartMerged(fs, src, dst, copy, left, t0, l0, was, run, tears)
    modifies fs
    ensures moved.Ok? ==> PartMerged(fs, src, dst, copy, left - {fs.pick(src, left)}, t0, l0, was, run, tears)
    ensures moved.Err? ==> Merged(fs, src, dst, copy, t0, l0, was, run, tears, false)
    decreases MAX_DEPTH - |src|, 1
  {
    var e := fs.pick(src, left);
    ghost var b, l, mid := fs.tree, fs.loc, fs.replaced;
    var entryFails := fs.Fails();
    if entryFails {
      BelowIsUnder(was, mid, fs, dst, Children(t0, src) - left);
      InwardKeeps(t0, l0, b, l, fs.pick, Since(was, mid), src, dst, left, copy && mid == was);
      return Err(OtherError);
    }
    moved := MergeEntry(fs, src, dst, e, copy);
    TearsEntry(was, mid, fs.replaced, fs, dst, Children(t0, src), left, e);
    if fs.calm {
      RunsOn(b, fs.pick, fs.unread, fs.noReplace, copy, src, dst, left, run, mid, fs.replaced, was + tears, fs.tree,
        moved.Ok?);
    }
    SinceNext(was, mid, fs.replaced);
    ghost var torn, more, intact := Since(was, mid), Since(mid, fs.replaced), copy && fs.replaced == was;
    InwardIntact(t0, l0, b, l, fs.pick, torn, src, dst, left, copy && mid == was, intact);
    EntryStep(t0, l0, b, l, fs.tree, fs.loc, fs.initial, fs.pick, torn, more, src, dst, left, e, intact, moved.Ok?);
  }

  lemma InwardIntact(t0: Tree, l0: map<Path, Path>, t: Tree, l: map<Path, Path>, pick: Order, torn: set<Path>,
                     src: Path, dst: Path, left: set<Name>, before: bool, after: bool)
    requires Inward(t0, l0, t, l, pick, torn, src, dst, left, before) && (after ==> before)
    ensures Inward(t0, l0, t, l, pick, torn, src, dst, left, after)
  {
  }

  /** A merge in the middle of the entries. */
  ghost predicate Inward(t0: Tree, l0: map<Path, Path>, t: Tree, l: map<Path, Path>, pick: Order, torn: set<Path>,
                         src: Path, dst: Path, left: set<Name>, intact: bool) {
    && left <= Children(t0, src) && Underway(t0, t, pick, src, dst, left) && Staged(t0, l0, l, pick, src, dst, left)
    && LostAt(l0, l, src, torn) && (NoneReturn(l0, src, dst) ==> PartlyMoved(l0, l, src, dst, torn))
    && (intact ==> CopiedBut(t0, t, src, dst, left))
  }

  lemma InwardKeeps(t0: Tree, l0: map<Path, Path>, t: Tree, l: map<Path, Path>, pick: Order, torn: set<Path>,
                    src: Path, dst: Path, left: set<Name>, intact: bool)
    requires !Under(dst, src) && Inward(t0, l0, t, l, pick, torn, src, dst, left, intact)
    ensures MergeKeeps(t0, l0, t, l, torn, src, dst, intact)
  {
  }

  lemma AllInward(t0: Tree, l0: map<Path, Path>, t: Tree, l: map<Path, Path>, initial: map<Path, Content>, pick: Order,
                  torn: set<Path>, src: Path, dst: Path, intact: bool)
    requires Inward(t0, l0, t, l, pick, torn, src, dst, {}, intact) && IsDir(t0, src) && Held(initial, t0, l0)
    ensures MergeDone(t0, l0, t, l, pick, src, dst, intact)
  {
    LocAll(t0, initial, l0, l, pick, src, dst);
  }

  /** One entry further, or stopped at it. */
  lemma EntryStep(t0: Tree, l0: map<Path, Path>, b: Tree, l: map<Path, Path>, c: Tree, l': map<Path, Path>,
                  initial: map<Path, Content>, pick: Order, torn: set<Path>, more: set<Path>, src: Path, dst: Path,
                  left: set<Name>, e: Name, intact: bool, ok: bool)
    requires Lists(pick) && left != {} && e == pick(src, left) && !Under(dst, src) && WellFormed(t0) && WellFormed(b)
    requires IsDir(t0, src) && Held(initial, t0, l0) && Inward(t0, l0, b, l, pick, torn, src, dst, left, intact)
    requires EntryKeeps(b, l, c, l', pick, more, src, dst, e, intact, ok)
    ensures ok ==> Inward(t0, l0, c, l', pick, torn + more, src, dst, left - {e}, intact)
    ensures MergeKeeps(t0, l0, c, l', torn + more, src, dst, intact)
  {
    EntryDone(t0, b, c, pick, src, dst, left, e);
    LostMore(t0, l0, l, l', pick, torn, more, src, dst, left, e);
    if NoneReturn(l0, src, dst) {
      PartlyNoReturn(l0, l, src, dst, torn, e);
      PartlyTwice(l0, l, l', src, dst, torn, more, e);
    }
    if ok {
      LocDone(t0, initial, l0, b, l, l', pick, src, dst, left, e);
      if intact { CopiedMoreFiles(t0, b, c, src, dst, left, e); }
    }
  }

  lemma LostMore(t0: Tree, l0: map<Path, Path>, l: map<Path, Path>, l': map<Path, Path>, pick: Order,
                 torn: set<Path>, more: set<Path>, src: Path, dst: Path, left: set<Name>, e: Name)
    requires Staged(t0, l0, l, pick, src, dst, left) && LostAt(l0, l, src, torn)
    requires LostAt(l, l', src + [e], more)
    ensures LostAt(l0, l', src, torn + more)
  {
    forall p | p in l0 && p !in l' && !Under(l0[p], src) ensures l0[p] in torn + more {
      if p in l { BelowOne(l[p], src, e); }
    }
  }
}
