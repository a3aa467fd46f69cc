/** What the torrents use: files, folders protected as a whole, and everything above them. */
module OwnedSets {
  import opened Prelude
  import opened FileTrees

  class OwnedSet {
    var files: set<Path>
    var ancestors: set<Path>
    var protectedDirs: seq<Path>

    /** The recorded ancestors are exactly the places above something used. */
    ghost predicate Valid()
      reads this
    {
      forall a :: a in ancestors <==> AboveAny(a, files, protectedDirs)
    }

    constructor ()
      ensures Valid() && files == {} && protectedDirs == []
    {
      files, ancestors, protectedDirs := {}, {}, [];
    }

    method AddFile(p: Path)
      requires Valid()
      modifies this
      ensures Valid() && files == old(files) + {p} && protectedDirs == old(protectedDirs)
    {
      UpwardClosed(ancestors, files, protectedDirs);
      AddAncestors(p);
      files := files + {p};
    }

    method AddProtectedDir(p: Path)
      requires Valid()
      modifies this
      ensures Valid() && files == old(files) && protectedDirs == old(protectedDirs) + [p]
    {
      UpwardClosed(ancestors, files, protectedDirs);
      AddAncestors(p);
      protectedDirs := protectedDirs + [p];
    }

    /** Walks up and stops at the first directory that is already recorded: what is above that one
        is recorded too. */
    method AddAncestors(p: Path)
      requires Closed(ancestors)
      modifies this`ancestors
      ensures forall a :: a in ancestors <==> a in old(ancestors) || Above(a, p)
    {
      var cur := if p == [] then None else Some(Parent(p));
      while cur.Some?
        invariant forall a :: a in ancestors ==>
                  a in old(ancestors) || (Above(a, p) && (cur.Some? ==> |a| > |cur.value|))
        invariant cur.Some? ==> Above(cur.value, p)
        invariant forall a :: a in old(ancestors) ==> a in ancestors
        invariant forall a :: Above(a, p) && (cur.Some? ==> !Under(cur.value, a)) ==> a in ancestors
        decreases if cur.Some? then |cur.value| + 1 else 0
      {
        var a := cur.value;
        if a in ancestors {
          forall b | Under(a, b) ensures b in ancestors {
            ClosedUp(old(ancestors), a, b);
          }
          break;
        }
        ancestors := ancestors + {a};
        NextUp(p, a);
        cur := if a == [] then None else Some(Parent(a));
      }
    }

    predicate IsProtected(p: Path)
      reads this
    {
      exists i :: 0 <= i < |protectedDirs| && Under(p, protectedDirs[i])
    }

    predicate Touches(p: Path)
      reads this
    {
      p in files || p in ancestors || IsProtected(p)
    }
  }

  /** `a` is a directory on the way to `p`. */
  predicate Above(a: Path, p: Path) {
    Under(p, a) && a != p
  }

  ghost predicate AboveAny(a: Path, files: set<Path>, dirs: seq<Path>) {
    (exists f :: f in files && Above(a, f)) || exists d :: d in dirs && Above(a, d)
  }

  ghost predicate Closed(s: set<Path>) {
    forall a :: a in s && a != [] ==> Parent(a) in s
  }

  lemma UpwardClosed(s: set<Path>, files: set<Path>, dirs: seq<Path>)
    requires forall a :: a in s <==> AboveAny(a, files, dirs)
    ensures Closed(s)
  {
    forall a | a in s && a != [] ensures Parent(a) in s {
      if f :| f in files && Above(a, f) {
        UnderTwice(f, a, Parent(a));
        assert Above(Parent(a), f);
      } else {
        var d :| d in dirs && Above(a, d);
        UnderTwice(d, a, Parent(a));
        assert Above(Parent(a), d);
      }
    }
  }

  lemma {:induction false} ClosedUp(s: set<Path>, a: Path, b: Path)
    requires Closed(s) && a in s && Under(a, b)
    ensures b in s
  {
    if a != b {
      ParentUnder(a, b);
      ClosedUp(s, Parent(a), b);
    }
  }

  lemma NextUp(p: Path, a: Path)
    requires Above(a, p)
    ensures a != [] ==> Above(Parent(a), p) && forall x :: Under(a, x) <==> x == a || Under(Parent(a), x)
    ensures a == [] ==> forall x :: Under(a, x) ==> x == a
  {
    if a != [] {
      UnderTwice(p, a, Parent(a));
      forall x ensures Under(a, x) <==> x == a || Under(Parent(a), x) {
        ParentUnder(a, x);
      }
    }
  }

  /** A path is touched exactly when it or something below it is used, or it lies in a protected
      folder. */
  lemma TouchesMeans(o: OwnedSet, p: Path)
    requires o.Valid()
    ensures o.Touches(p) <==>
            || (exists f :: f in o.files && Under(f, p))
            || (exists d :: d in o.protectedDirs && (Under(d, p) || Under(p, d)))
  {
    if f :| f in o.files && Under(f, p) {
      assert f == p || Above(p, f);
    }
    if d :| d in o.protectedDirs && (Under(d, p) || Under(p, d)) {
      assert Under(p, d) || Above(p, d);
    }
  }
}
