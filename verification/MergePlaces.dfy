/** Where merging one directory into another takes each file, when the other contains the one. */
module MergePlaces {
  import opened Prelude
  import opened FileTrees
  import opened FileSystems

  type Order = (Path, set<Name>) -> Name

  /** `dst` contains `src`. */
  predicate Holds(dst: Path, src: Path) {
    Under(src, dst) && src != dst
  }

  /** The names that a listing yields after `n`. */
  ghost function Rest(pick: Order, dir: Path, names: set<Name>, n: Name): set<Name> {
    var e := pick(dir, names);
    if e !in names || e == n then names - {n} else Rest(pick, dir, names - {e}, n)
  }

  /** Where a file below `src` is after a merge into `dst`: at the same place below `dst`, except
      that a file which lands inside `src` again, below an entry that is still to come, goes on. */
  ghost function Final(t: Tree, pick: Order, src: Path, dst: Path, x: Path): Path
    requires Under(x, src)
    decreases |x| - |src|
  {
    if x == src || !Holds(dst, src) || x[|src|] != src[|dst|] then Rebase(x, src, dst)
    else
      var n := src[|dst|];
      BelowOne(x, src, n);
      var y := Final(t, pick, src + [n], dst + [n], x);
      if Below(y, src, Rest(pick, src, Children(t, src), n)) then Rebase(y, src, dst) else y
  }

  ghost function Place(t: Tree, pick: Order, src: Path, dst: Path, x: Path): Path {
    if Under(x, src) then Final(t, pick, src, dst, x) else x
  }

  ghost function FinalMap(t: Tree, pick: Order, src: Path, dst: Path, l: map<Path, Path>): (r: map<Path, Path>)
    ensures r.Keys == l.Keys && forall p :: p in r ==> r[p] == Place(t, pick, src, dst, l[p])
  {
    map p | p in l :: Place(t, pick, src, dst, l[p])
  }

  /** Where it is while the entries in `left` are still to come. */
  ghost function Stage(t: Tree, pick: Order, src: Path, dst: Path, left: set<Name>, x: Path): Path {
    if !Under(x, src) || x == src then x
    else if !Holds(dst, src) || x[|src|] != src[|dst|] then if x[|src|] in left then x else Rebase(x, src, dst)
    else if src[|dst|] in left then x
    else LateStage(t, pick, src, dst, left, x, Final(t, pick, src + [src[|dst|]], dst + [src[|dst|]], x))
  }

  ghost function LateStage(t: Tree, pick: Order, src: Path, dst: Path, left: set<Name>, x: Path, y: Path): Path
    requires Holds(dst, src)
  {
    if Below(y, src, Rest(pick, src, Children(t, src), src[|dst|]) - left) then Rebase(y, src, dst) else y
  }

  lemma StageFirst(t: Tree, pick: Order, src: Path, dst: Path, x: Path)
    requires WellFormed(t) && x in t
    ensures Stage(t, pick, src, dst, Children(t, src), x) == x
  {
    if Under(x, src) && x != src { HasChild(t, src, x); }
  }

  lemma StageLast(t: Tree, pick: Order, src: Path, dst: Path, x: Path)
    requires x != src
    ensures Stage(t, pick, src, dst, {}, x) == Place(t, pick, src, dst, x)
  {
    if Under(x, src) && Holds(dst, src) && x[|src|] == src[|dst|] {
      var rest := Rest(pick, src, Children(t, src), src[|dst|]);
      assert rest - {} == rest;
    }
  }

  /** The part below `root` is the same. */
  ghost predicate SameUnder(a: Tree, b: Tree, root: Path) {
    forall p :: Under(p, root) ==> (p in a <==> p in b) && (p in a ==> b[p] == a[p])
  }

  lemma ChildrenSame(a: Tree, b: Tree, root: Path)
    requires SameUnder(a, b, root)
    ensures Children(a, root) == Children(b, root)
  {
    ChildrenIn(a, b, root);
    ChildrenIn(b, a, root);
  }

  lemma ChildrenIn(a: Tree, b: Tree, root: Path)
    requires SameUnder(a, b, root)
    ensures Children(a, root) <= Children(b, root)
  {
    forall n | n in Children(a, root) ensures n in Children(b, root) {
      var q :| q in a && |q| == |root| + 1 && Under(q, root) && q[|root|] == n;
      assert q in b;
    }
  }

  lemma SameBelow(a: Tree, b: Tree, root: Path, n: Name)
    requires SameUnder(a, b, root)
    ensures SameUnder(a, b, root + [n])
  {
    forall p | Under(p, root + [n]) ensures (p in a <==> p in b) && (p in a ==> b[p] == a[p]) {
      BelowOne(p, root, n);
    }
  }

  lemma {:induction false} FinalSame(a: Tree, b: Tree, pick: Order, src: Path, dst: Path, x: Path)
    requires Under(x, src) && SameUnder(a, b, src)
    ensures Final(a, pick, src, dst, x) == Final(b, pick, src, dst, x)
    decreases |x| - |src|
  {
    if x != src && Holds(dst, src) && x[|src|] == src[|dst|] {
      var n := src[|dst|];
      BelowOne(x, src, n);
      SameBelow(a, b, src, n);
      FinalSame(a, b, pick, src + [n], dst + [n], x);
      ChildrenSame(a, b, src);
    }
  }

  /** Only the entry on the way to `src` stays inside the directory it goes to. */
  lemma HoldsChild(src: Path, dst: Path, e: Name)
    requires !Under(dst, src)
    ensures Holds(dst + [e], src + [e]) <==> Holds(dst, src) && src[|dst|] == e
    ensures !Under(dst + [e], src + [e])
  {
    ChildApart(src, dst, e);
    if Holds(dst + [e], src + [e]) {
      assert |dst| < |src|;
      assert src[..|dst|] == (src + [e])[..|dst| + 1][..|dst|] == dst;
      assert (src + [e])[|dst|] == (dst + [e])[|dst|];
    }
    if Holds(dst, src) && src[|dst|] == e {
      assert src[..|dst| + 1] == dst + [e];
      assert (src + [e])[..|dst| + 1] == src[..|dst| + 1];
    }
  }

  lemma RebasedChild(x: Path, src: Path, dst: Path, e: Name)
    requires Under(x, src + [e])
    ensures Under(x, src) && Rebase(x, src + [e], dst + [e]) == Rebase(x, src, dst)
  {
    BelowOne(x, src, e);
    RebaseChild(x, dst, src, e);
  }

  /** What goes to another entry of `dst` than the one on the way to `src` leaves `src`. */
  lemma LeavesSource(x: Path, src: Path, dst: Path)
    requires Under(x, src) && x != src && !Under(dst, src) && (Holds(dst, src) ==> x[|src|] != src[|dst|])
    ensures !Under(Rebase(x, src, dst), src)
  {
    var y := Rebase(x, src, dst);
    RebaseIsUnder(x, src, dst);
    assert y[|dst|] == x[|src|];
    if Under(y, src) { PrefixesCompare(y, src, dst); }
  }

  /** Which names are left when the entry on the way to `src` has its turn. */
  ghost predicate InTurn(pick: Order, src: Path, names: set<Name>, left: set<Name>, n: Name) {
    left <= names && if n in left then Rest(pick, src, left, n) == Rest(pick, src, names, n)
      else left <= Rest(pick, src, names, n)
  }

  lemma NextTurn(pick: Order, src: Path, names: set<Name>, left: set<Name>, n: Name)
    requires Lists(pick) && left != {} && InTurn(pick, src, names, left, n)
    ensures InTurn(pick, src, names, left - {pick(src, left)}, n)
    ensures pick(src, left) == n ==> Rest(pick, src, names, n) == left - {n}
  {
  }

  /** Moving the next entry takes every file to its next stage. */
  lemma StageStep(t: Tree, now: Tree, pick: Order, src: Path, dst: Path, left: set<Name>, x: Path)
    requires Lists(pick) && left != {} && !Under(dst, src) && x != src
             && (Under(x, src) ==> x[|src|] in Children(t, src))
    requires Holds(dst, src) && src[|dst|] in Children(t, src) ==> InTurn(pick, src, Children(t, src), left, src[|dst|])
    requires Holds(dst, src) && src[|dst|] in left ==> SameUnder(t, now, src + [src[|dst|]])
    ensures var e := pick(src, left);
            Place(now, pick, src + [e], dst + [e], Stage(t, pick, src, dst, left, x)) ==
              Stage(t, pick, src, dst, left - {e}, x)
  {
    var e, z := pick(src, left), Stage(t, pick, src, dst, left, x);
    HoldsChild(src, dst, e);
    BelowOne(z, src, e);
    if Under(x, src) {
      if !Holds(dst, src) || x[|src|] != src[|dst|] {
        PlainStep(t, now, pick, src, dst, left, x, e);
      } else if src[|dst|] in left {
        CriticalStep(t, now, pick, src, dst, left, x, e);
      } else {
        LateStep(t, now, pick, src, dst, left, x, e);
      }
    }
  }

  lemma PlainStep(t: Tree, now: Tree, pick: Order, src: Path, dst: Path, left: set<Name>, x: Path, e: Name)
    requires !Under(dst, src) && Under(x, src) && x != src && (Holds(dst, src) ==> x[|src|] != src[|dst|]) && e in left
    ensures Place(now, pick, src + [e], dst + [e], Stage(t, pick, src, dst, left, x)) ==
            Stage(t, pick, src, dst, left - {e}, x)
  {
    HoldsChild(src, dst, e);
    BelowOne(x, src, e);
    if x[|src|] in left {
      if x[|src|] == e {
        RebasedChild(x, src, dst, e);
        assert Final(now, pick, src + [e], dst + [e], x) == Rebase(x, src + [e], dst + [e]);
      }
    } else {
      LeavesSource(x, src, dst);
      BelowOne(Rebase(x, src, dst), src, e);
    }
  }

  lemma CriticalStep(t: Tree, now: Tree, pick: Order, src: Path, dst: Path, left: set<Name>, x: Path, e: Name)
    requires Lists(pick) && left != {} && e == pick(src, left) && Under(x, src) && x != src && Holds(dst, src)
    requires x[|src|] == src[|dst|] && src[|dst|] in left && InTurn(pick, src, Children(t, src), left, src[|dst|])
    requires SameUnder(t, now, src + [src[|dst|]])
    ensures Place(now, pick, src + [e], dst + [e], Stage(t, pick, src, dst, left, x)) ==
            Stage(t, pick, src, dst, left - {e}, x)
  {
    var n := src[|dst|];
    BelowOne(x, src, e);
    if e == n {
      FinalSame(t, now, pick, src + [n], dst + [n], x);
      NextTurn(pick, src, Children(t, src), left, n);
    }
  }

  lemma LateStep(t: Tree, now: Tree, pick: Order, src: Path, dst: Path, left: set<Name>, x: Path, e: Name)
    requires Holds(dst, src) && Under(x, src) && x != src && x[|src|] == src[|dst|] && src[|dst|] !in left && e in left
    requires !Under(dst, src) && left <= Rest(pick, src, Children(t, src), src[|dst|])
    ensures Place(now, pick, src + [e], dst + [e], Stage(t, pick, src, dst, left, x)) ==
            Stage(t, pick, src, dst, left - {e}, x)
  {
    var n, rest := src[|dst|], Rest(pick, src, Children(t, src), src[|dst|]);
    BelowOne(x, src, n);
    var y := Final(t, pick, src + [n], dst + [n], x);
    HoldsChild(src, dst, e);
    if Below(y, src, rest - left) {
      RestExcludes(pick, src, Children(t, src), n);
      LeavesSource(y, src, dst);
      BelowOne(Rebase(y, src, dst), src, e);
    } else if Under(y, src + [e]) {
      RebasedChild(y, src, dst, e);
      assert Final(now, pick, src + [e], dst + [e], y) == Rebase(y, src + [e], dst + [e]);
      BelowOne(y, src, e);
    } else {
      BelowOne(y, src, e);
    }
  }

  lemma {:induction false} RestExcludes(pick: Order, dir: Path, names: set<Name>, n: Name)
    ensures n !in Rest(pick, dir, names, n)
    decreases names
  {
    var e := pick(dir, names);
    if e in names && e != n { RestExcludes(pick, dir, names - {e}, n); }
  }

  /** A file that does not land inside `src` is moved once. */
  lemma {:induction false} FinalNoReturn(t: Tree, pick: Order, src: Path, dst: Path, x: Path)
    requires Under(x, src) && !Under(dst, src) && !Under(Rebase(x, src, dst), src)
    ensures Final(t, pick, src, dst, x) == Rebase(x, src, dst)
    decreases |x| - |src|
  {
    if x != src && Holds(dst, src) && x[|src|] == src[|dst|] {
      var n := src[|dst|];
      BelowOne(x, src, n);
      RebasedChild(x, src, dst, n);
      HoldsChild(src, dst, n);
      BelowOne(Rebase(x, src, dst), src, n);
      FinalNoReturn(t, pick, src + [n], dst + [n], x);
    }
  }
}
