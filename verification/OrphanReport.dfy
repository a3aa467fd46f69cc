/** What a scan for unused files finds. */
module OrphanReports {
  import opened Prelude
  import opened FileTrees
  import opened FileSystems
  import opened OwnedSets
  import opened DirScans
  import opened DirSummaries
  import opened OrphanScans

  /** Nothing that is reported is used, contains anything used or lies in it. */
  lemma NothingUsedIsReported(j: Job, owned: OwnedSet, items: seq<Item>, sk: Skipped, fate: map<Path, Fate>,
                              unseen: set<Path>, i: nat)
    requires ScanRight(j, owned, items, sk, fate, unseen) && i < |items|
    ensures Clear(j.t, owned, items[i].path)
  {
    assert ItemBooked(j, items[i], fate);
  }

  /** No file is in two items. */
  lemma InOneItem(items: seq<Item>, q: Path, i: nat, k: nat)
    requires ItemsApart(items) && i < |items| && k < |items| && Under(q, items[i].path) && Under(q, items[k].path)
    ensures i == k
  {
    PrefixesCompare(q, items[i].path, items[k].path);
  }

  // ------------------------------------------------------------- from the root to an entry

  /** No step from the root to `e` fails, and nothing on the way is hidden. */
  ghost predicate WayOk(j: Job, root: Path, e: Path) {
    && (forall a :: Under(e, a) && Under(a, root) && a != root ==> !Hides(a) && a !in j.f.stats && a !in j.f.entries)
    && (forall a :: Under(e, a) && Under(a, root) && a != e ==> a !in j.f.lists)
  }

  lemma SameRoot(roots: seq<Path>, i: nat, k: nat, e: Path)
    requires RootsApart(roots) && i < |roots| && k < |roots| && Under(e, roots[i]) && Under(e, roots[k])
    ensures i == k
  {
    PrefixesCompare(e, roots[i], roots[k]);
  }

  lemma GuardedBelow(owned: OwnedSet, e: Path, q: Path)
    requires Guarded(owned, e) && Under(q, e)
    ensures Guarded(owned, q)
  {
    if owned.IsProtected(e) {
      var i :| 0 <= i < |owned.protectedDirs| && Under(e, owned.protectedDirs[i]);
      UnderTwice(q, e, owned.protectedDirs[i]);
    } else {
      var f :| f in owned.files && Under(e, f);
      UnderTwice(q, e, f);
    }
  }

  /** An entry below a root that is neither used nor a folder above something used is at or below
      one that has a fate. */
  lemma SomeFate(j: Job, owned: OwnedSet, items: seq<Item>, sk: Skipped, fate: map<Path, Fate>, unseen: set<Path>,
                 k: nat, q: Path) returns (x: Path)
    requires RootsApart(j.roots) && ScanRight(j, owned, items, sk, fate, unseen) && !sk.truncated
    requires k < |j.roots| && q in j.t && Under(q, j.roots[k]) && q != j.roots[k] && WayOk(j, j.roots[k], q)
    requires !Guarded(owned, q) && !(IsFolder(j.t, q) && q in owned.ancestors)
    ensures x in fate && Under(q, x) && PlacedAt(owned, j.roots[k], x, fate[x])
  {
    var root := j.roots[k];
    assert Covers(j, owned, root, fate.Keys, unseen);
    if owned.IsProtected(root) { GuardedBelow(owned, root, q); }
    assert Fated(j.t, owned, root, fate.Keys, unseen, q);
    if u :| u in unseen && Under(q, u) {
      var i :| 0 <= i < |j.roots| && Under(u, j.roots[i]) && u != j.roots[i];
      UnderTwice(q, u, j.roots[i]);
      SameRoot(j.roots, i, k, q);
    }
    x :| x in fate.Keys && Under(q, x);
    var i :| 0 <= i < |j.roots| && PlacedAt(owned, j.roots[i], x, fate[x]);
    UnderTwice(q, x, j.roots[i]);
    SameRoot(j.roots, i, k, q);
  }

  /** Fates above the entry that no failing step explains: only folders that were looked into. */
  lemma FateAbove(j: Job, owned: OwnedSet, root: Path, x: Path, v: Fate, q: Path, big: bool)
    requires Sound(j.t) && q in j.t && Under(q, root) && q != root && WayOk(j, root, q) && !Guarded(owned, q)
    requires Under(q, x) && FateRight(j, owned, x, v, big) && PlacedAt(owned, root, x, v) && x != q
    ensures IsFolder(j.t, x) && x != root && (v.Reported? || v.Passed?) && !owned.Touches(x)
    ensures v.Passed? ==> LookedInto(j, owned, x, v.met) && !v.why.Hidden?
  {
    AncestorsAreDirs(Shape(j.t), q, x);
    AncestorsAreDirs(Shape(j.t), q, root);
    if v.Left? { GuardedBelow(owned, x, q); }
  }

  /** The uppermost unused entry on a way has a fate of its own. */
  lemma TopHasFate(j: Job, owned: OwnedSet, items: seq<Item>, sk: Skipped, fate: map<Path, Fate>, unseen: set<Path>,
                   k: nat, e: Path)
    requires Sound(j.t) && owned.Valid() && RootsApart(j.roots) && ScanRight(j, owned, items, sk, fate, unseen)
    requires !sk.truncated && k < |j.roots| && Top(j, owned, j.roots[k], e) && WayOk(j, j.roots[k], e)
    ensures e in fate && PlacedAt(owned, j.roots[k], e, fate[e])
  {
    var root := j.roots[k];
    var x := SomeFate(j, owned, items, sk, fate, unseen, k, e);
    if x != e {
      FateAbove(j, owned, root, x, fate[x], e, Overfull(j));
      ParentUnder(e, x);
      if Parent(e) != root {
        UpwardClosed(owned.ancestors, owned.files, owned.protectedDirs);
        ClosedUp(owned.ancestors, Parent(e), x);
      }
    }
  }

  /** A file or folder below the root that nothing uses, in the root or a folder above something
      used. */
  ghost predicate Top(j: Job, owned: OwnedSet, root: Path, e: Path)
    reads owned
  {
    && e in j.t && Under(e, root) && e != root && (Parent(e) == root || Parent(e) in owned.ancestors)
    && !owned.Touches(e) && !Guarded(owned, e) && (j.t[e].Folder? || j.t[e].Plain?)
  }

  // ------------------------------------------------------------- exactly what is reported

  /** What can be seen of an entry can be read, is old and is no symlink. */
  ghost predicate SeemsUnused(j: Job, e: Path)
    requires e in j.t
  {
    if j.t[e].Plain? then Old(j.t[e].mtime, j.cutoff) else
    Unbroken(j.t, j.f, e, Reach(j.t, j.f, e)) && Quiet(j.t, SeenOf(j.f, e, Reach(j.t, j.f, e)), j.cutoff)
  }

  /** In a tree that one scan can look at, exactly those of the uppermost unused entries are
      reported that seem unused. */
  lemma ReportedIff(j: Job, owned: OwnedSet, items: seq<Item>, sk: Skipped, fate: map<Path, Fate>, unseen: set<Path>,
                    k: nat, e: Path)
    requires Sound(j.t) && owned.Valid() && RootsApart(j.roots) && ScanRight(j, owned, items, sk, fate, unseen)
    requires !Overfull(j) && !sk.truncated
    requires k < |j.roots| && Top(j, owned, j.roots[k], e) && WayOk(j, j.roots[k], e)
    ensures ReportedAt(items, e) <==> SeemsUnused(j, e)
  {
    TopHasFate(j, owned, items, sk, fate, unseen, k, e);
    assert Under(e, e);
    ReportedHasFate(j, owned, items, fate, e);
    FateDecides(j, owned, e, fate[e]);
  }

  lemma ReportedHasFate(j: Job, owned: OwnedSet, items: seq<Item>, fate: map<Path, Fate>, e: Path)
    requires ItemsRight(j, items, fate) && FatesRight(j, owned, items, fate, false) && e in fate
    ensures ReportedAt(items, e) <==> fate[e].Reported?
  {
    if ReportedAt(items, e) {
      var i :| 0 <= i < |items| && items[i].path == e;
      assert ItemBooked(j, items[i], fate);
    }
  }

  lemma FateDecides(j: Job, owned: OwnedSet, e: Path, v: Fate)
    requires e in j.t && (j.t[e].Folder? || j.t[e].Plain?) && FateRight(j, owned, e, v, false)
    requires !v.Unlisted? && !Guarded(owned, e) && !Hides(e) && e !in j.f.stats
    ensures v.Reported? <==> SeemsUnused(j, e)
  {
    if v.Passed? && v.why.Symlinks? {
      var links := LinksOf(j.t, SeenOf(j.f, e, v.met));
      assert links != {};
      var p :| p in links;
    }
  }

  // ------------------------------------------------------------- nothing is missed

  ghost predicate InItem(items: seq<Item>, q: Path) {
    exists i :: 0 <= i < |items| && Under(q, items[i].path)
  }

  /** A folder that is not reported for a reason: a step inside fails, or something inside is recent
      or a symlink. */
  ghost predicate HeldBack(j: Job, owned: OwnedSet, x: Path)
    reads owned
  {
    && IsFolder(j.t, x) && !owned.Touches(x)
    && (!Unbroken(j.t, j.f, x, Reach(j.t, j.f, x)) || !Quiet(j.t, Inside(j.t, x), j.cutoff))
  }

  /** Whatever fails elsewhere, an old file that nothing uses, with no failing step or hidden name
      on the way to it, is in an item, unless the folder around it is held back or the scan says that
      it was cut short. */
  lemma NothingIsMissed(j: Job, owned: OwnedSet, items: seq<Item>, sk: Skipped, fate: map<Path, Fate>,
                        unseen: set<Path>, k: nat, q: Path)
    requires Sound(j.t) && owned.Valid() && RootsApart(j.roots) && ScanRight(j, owned, items, sk, fate, unseen)
    requires !sk.truncated && k < |j.roots| && q in j.t && Under(q, j.roots[k]) && q != j.roots[k]
             && WayOk(j, j.roots[k], q)
    requires j.t[q].Plain? && Old(j.t[q].mtime, j.cutoff) && !Guarded(owned, q)
    ensures InItem(items, q) || AroundHeldBack(j, owned, j.roots[k], q)
  {
    var x := SomeFate(j, owned, items, sk, fate, unseen, k, q);
    if q in j.roots {
      var i :| 0 <= i < |j.roots| && j.roots[i] == q;
      SameRoot(j.roots, i, k, q);
    }
    FateExplains(j, owned, j.roots[k], x, fate[x], q, Overfull(j));
    if fate[x].Reported? { InReported(items, x, q); }
  }

  ghost predicate AroundHeldBack(j: Job, owned: OwnedSet, root: Path, q: Path)
    reads owned
  {
    exists x :: Under(q, x) && Under(x, root) && x != root && HeldBack(j, owned, x)
  }

  lemma InReported(items: seq<Item>, x: Path, q: Path)
    requires ReportedAt(items, x) && Under(q, x)
    ensures InItem(items, q)
  {
    var i :| 0 <= i < |items| && items[i].path == x;
    assert Under(q, items[i].path);
  }

  lemma FateExplains(j: Job, owned: OwnedSet, root: Path, x: Path, v: Fate, q: Path, big: bool)
    requires Sound(j.t) && q in j.t && Under(q, root) && q != root && q !in j.roots && WayOk(j, root, q)
    requires j.t[q].Plain? && Old(j.t[q].mtime, j.cutoff) && !Guarded(owned, q)
    requires Under(q, x) && FateRight(j, owned, x, v, big) && PlacedAt(owned, root, x, v)
    ensures v.Reported? || AroundHeldBack(j, owned, root, q)
  {
    assert Under(q, q);
    if x != q {
      FateAbove(j, owned, root, x, v, q, big);
      if v.Passed? { PassedIsHeldBack(j, owned, x, v, big); }
    } else {
      PlainFate(j, owned, q, v, big);
    }
  }

  lemma PlainFate(j: Job, owned: OwnedSet, q: Path, v: Fate, big: bool)
    requires q in j.t && j.t[q].Plain? && Old(j.t[q].mtime, j.cutoff) && !Guarded(owned, q)
    requires !Hides(q) && q !in j.f.stats && q !in j.roots && FateRight(j, owned, q, v, big)
    ensures v.Reported?
  {
  }

  lemma PassedIsHeldBack(j: Job, owned: OwnedSet, x: Path, v: Fate, big: bool)
    requires v.Passed? && x in j.t && PassedFor(j, owned, x, v.why, v.met, big)
    requires LookedInto(j, owned, x, v.met) && !v.why.Hidden?
    ensures HeldBack(j, owned, x)
  {
    var seen := SeenOf(j.f, x, v.met);
    assert Under(x, x);
    match v.why
    case Failed =>
    case Recent =>
      var p :| p in seen && p in j.t && !Old(Mtime(j.t[p]), j.cutoff);
      assert p in Inside(j.t, x);
    case Symlinks(_) =>
      assert LinksOf(j.t, seen) != {};
      var p :| p in LinksOf(j.t, seen);
      assert p in Inside(j.t, x);
  }

  // ------------------------------------------------------------- how far the report can be trusted

  /** When the metadata of everything inside could be read, the figures of a folder are those of
      everything in it, and nothing in it is recent or a symlink. */
  lemma FolderItemExact(j: Job, owned: OwnedSet, items: seq<Item>, sk: Skipped, fate: map<Path, Fate>,
                        unseen: set<Path>, i: nat)
    requires Sound(j.t) && ScanRight(j, owned, items, sk, fate, unseen) && !Overfull(j)
    requires i < |items| && items[i].isDir && AllReadable(j.t, j.f, items[i].path)
    ensures var it := items[i]; Counted(j.t, Summary(it.size, it.files, it.mtime, 0), Inside(j.t, it.path))
    ensures Quiet(j.t, Inside(j.t, items[i].path), j.cutoff)
  {
    assert ItemBooked(j, items[i], fate);
    ReadableIsReached(j.t, j.f, items[i].path);
  }

  /** The metadata of `p` is not read when `e` is summarized. */
  ghost predicate Unread(f: Faults, e: Path, p: Path) {
    if p == e then e in f.restats else exists a :: a in f.stats && Under(a, e) && a != e && Under(p, a)
  }

  lemma UnreadIsUnseen(j: Job, e: Path, p: Path)
    requires p in j.t && Under(p, e)
    ensures Unread(j.f, e, p) <==> p !in SeenOf(j.f, e, Reach(j.t, j.f, e))
  {
  }

  ghost predicate Noisy(j: Job, p: Path) {
    p in j.t && (!Old(Mtime(j.t[p]), j.cutoff) || j.t[p].Link?)
  }

  ghost predicate HidesNoise(j: Job, e: Path) {
    exists p :: p in Inside(j.t, e) && Noisy(j, p) && Unread(j.f, e, p)
  }

  /** A folder that holds something recent or a symlink is reported exactly when all of that is
      unreadable, while it can be listed. */
  lemma NoisyFolderReportedIff(j: Job, owned: OwnedSet, items: seq<Item>, sk: Skipped, fate: map<Path, Fate>,
                               unseen: set<Path>, k: nat, e: Path)
    requires Sound(j.t) && owned.Valid() && RootsApart(j.roots) && ScanRight(j, owned, items, sk, fate, unseen)
    requires !Overfull(j) && !sk.truncated
    requires k < |j.roots| && Top(j, owned, j.roots[k], e) && WayOk(j, j.roots[k], e) && IsFolder(j.t, e)
    ensures ReportedAt(items, e) && !Quiet(j.t, Inside(j.t, e), j.cutoff) <==>
            && Unbroken(j.t, j.f, e, Reach(j.t, j.f, e)) && HidesNoise(j, e)
            && forall p :: p in Inside(j.t, e) && Noisy(j, p) ==> Unread(j.f, e, p)
  {
    ReportedIff(j, owned, items, sk, fate, unseen, k, e);
    forall p | p in Inside(j.t, e) ensures Unread(j.f, e, p) <==> p !in SeenOf(j.f, e, Reach(j.t, j.f, e)) {
      UnreadIsUnseen(j, e, p);
    }
    assert Under(e, e);
    NoiseSplit(j, e, SeenOf(j.f, e, Reach(j.t, j.f, e)));
  }

  lemma NoiseSplit(j: Job, e: Path, seen: set<Path>)
    requires seen <= Inside(j.t, e)
    requires forall p :: p in Inside(j.t, e) ==> (Unread(j.f, e, p) <==> p !in seen)
    ensures Quiet(j.t, seen, j.cutoff) <==> forall p :: p in Inside(j.t, e) && Noisy(j, p) ==> Unread(j.f, e, p)
    ensures Quiet(j.t, Inside(j.t, e), j.cutoff) <==> forall p :: p in Inside(j.t, e) ==> !Noisy(j, p)
  {
  }

  /** A folder `d` in the root with one file that has just changed, whose metadata cannot be read. */
  ghost predicate IsExample(j: Job, r: Name, d: Name, x: Name) {
    && j.t == map[[] := Folder(None), [r] := Folder(None), [r, d] := Folder(None), [r, d, x] :=
      Plain(1, Some(j.cutoff + 1))]
    && j.f == Faults({}, {}, {[r, d, x]}, {}) && j.roots == [[r]] && !IsHiddenOrSystem(d) && !IsHiddenOrSystem(x)
  }

  lemma ExampleSound(j: Job, r: Name, d: Name, x: Name)
    requires j.t == map[[] := Folder(None), [r] := Folder(None), [r, d] := Folder(None), [r, d, x] :=
               Plain(1, Some(j.cutoff + 1))]
    ensures Sound(j.t)
  {
    assert Parent([r]) == [] && Parent([r, d]) == [r] && Parent([r, d, x]) == [r, d];
  }

  lemma ExampleWay(j: Job, owned: OwnedSet, r: Name, d: Name, x: Name)
    requires IsExample(j, r, d, x) && owned.Valid() && owned.files == {} && owned.protectedDirs == []
    ensures RootsApart(j.roots) && Top(j, owned, [r], [r, d]) && WayOk(j, [r], [r, d])
  {
    forall a | Under([r, d], a) && Under(a, [r]) ensures a == [r] || a == [r, d] {
      assert |a| == 1 || |a| == 2;
    }
    assert Parent([r, d]) == [r];
    assert AboveAny([r, d], {}, []) == false;
  }

  /** Such a folder is reported. */
  lemma RecentFileIsReported(j: Job, owned: OwnedSet, items: seq<Item>, sk: Skipped, fate: map<Path, Fate>,
                             unseen: set<Path>, r: Name, d: Name, x: Name)
    requires IsExample(j, r, d, x) && owned.Valid() && owned.files == {} && owned.protectedDirs == []
    requires ScanRight(j, owned, items, sk, fate, unseen) && !sk.truncated
    ensures ReportedAt(items, [r, d]) && Noisy(j, [r, d, x]) && Under([r, d, x], [r, d])
  {
    ExampleSound(j, r, d, x);
    ExampleWay(j, owned, r, d, x);
    ExampleFits(j, r, d, x);
    ExampleSeems(j, r, d, x);
    ReportedIff(j, owned, items, sk, fate, unseen, 0, [r, d]);
  }

  lemma ExampleFits(j: Job, r: Name, d: Name, x: Name)
    requires IsExample(j, r, d, x)
    ensures !Overfull(j)
  {
    var two := {[r, d], [r, d, x]};
    assert Entries(j) <= two;
    SubsetSize(Entries(j), two);
  }

  lemma ExampleSeems(j: Job, r: Name, d: Name, x: Name)
    requires IsExample(j, r, d, x)
    ensures SeemsUnused(j, [r, d]) && Noisy(j, [r, d, x])
  {
    forall q | q in Reach(j.t, j.f, [r, d]) ensures q == [r, d, x] {
    }
    assert SeenOf(j.f, [r, d], Reach(j.t, j.f, [r, d])) <= {[r, d]};
  }

  /** Folders are summarized for as long as the budget lasts, and reported for what was met by then:
      without any budget, whatever they hold. */
  lemma CutShortIsReported(j: Job, owned: OwnedSet, x: Path, root: Path, v: Verdict, budget: nat, met: set<Path>)
    requires IsFolder(j.t, x) && Glance(j, owned, x, root).None? && Judged(j, owned, x, root, 0, v, budget, met)
    ensures v.Report? <==> !(x in j.f.lists) && (x in j.f.restats || Old(Mtime(j.t[x]), j.cutoff))
  {
    var s :| Summarized(j.t, j.f, x, 0, s, budget, met) && v == FolderVerdict(x, root, s, j.cutoff);
    assert met == {};
    if s.Ok? {
      SeenQuiet(j.t, s.value, SeenOf(j.f, x, met), j.cutoff);
      assert LinksOf(j.t, SeenOf(j.f, x, met)) == {};
    }
  }

  /** With any budget: exactly when what was met can be read, is old and is no symlink. */
  lemma JudgedFolderIff(j: Job, owned: OwnedSet, x: Path, root: Path, limit: nat, v: Verdict, budget: nat,
                        met: set<Path>)
    requires IsFolder(j.t, x) && Glance(j, owned, x, root).None? && Judged(j, owned, x, root, limit, v, budget, met)
    ensures v.Report? <==> Unbroken(j.t, j.f, x, met) && Quiet(j.t, SeenOf(j.f, x, met), j.cutoff)
    ensures |met| == limit - budget && met <= Reach(j.t, j.f, x)
            && (v.Report? ==> met == Reach(j.t, j.f, x) || budget == 0)
  {
    var s :| Summarized(j.t, j.f, x, limit, s, budget, met) && v == FolderVerdict(x, root, s, j.cutoff);
    if s.Ok? {
      var seen := SeenOf(j.f, x, met);
      SeenQuiet(j.t, s.value, seen, j.cutoff);
      if s.value.symlinks > 0 {
        assert LinksOf(j.t, seen) != {};
        var p :| p in LinksOf(j.t, seen);
      }
    }
  }
}
