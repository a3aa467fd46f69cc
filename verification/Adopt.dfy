/** Adopting partial files that another client left behind. */
module Adoption {
  import opened Prelude
  import opened FileTrees
  import opened FileSystems
  import opened Sampling

  datatype Evidence = PieceHashMatch | UnfetchedZeros | SizeOnly

  datatype Rename = Rename(fileId: nat, from: Path, to: Path, evidence: Evidence)

  datatype AdoptPlan = AdoptPlan(
    keepFinal: set<nat>, ownPartial: set<nat>, renames: seq<Rename>, ambiguous: seq<Path>, rejected: set<Path>)

  /** What is there, where to, all files of the torrent, the suffix of our own partial files, the
      pieces, the paths of which a listing does not tell type or size, and those that cannot be
      inspected, listed or read. */
  datatype Job = Job(
    t: Tree, output: Path, allRel: seq<Path>, ext: Option<string>, ps: Pieces, unread: set<Path>, faults: set<Path>)

  datatype AdoptError = NotRegular(p: Path) | Inspecting | Listing | Sampling | TooBig(count: nat)

  // ------------------------------------------------------------- claiming a candidate

  /** The directory of a file and its name in it. */
  function Base(p: Path): string
    requires p != []
  {
    p[|p| - 1].text
  }

  function WithSuffix(p: Path, suffix: string): Path
    requires p != []
  {
    Parent(p) + [Name(Base(p) + suffix)]
  }

  function TargetOf(output: Path, f: AdoptFile, ext: Option<string>): Path
    requires f.rel != []
  {
    var final := Join(output, f.rel);
    if ext.Some? then WithSuffix(final, ext.value) else final
  }

  predicate StrictlyExtends(n: string, base: string) {
    |n| > |base| && base <= n
  }

  /** Another file of the torrent in the same directory whose longer name also starts `n`. */
  predicate BelongsToLonger(allRel: seq<Path>, rel: Path, n: string)
    requires rel != []
  {
    exists i :: 0 <= i < |allRel| && allRel[i] != [] && Parent(allRel[i]) == Parent(rel) &&
      StrictlyExtends(Base(allRel[i]), Base(rel)) && Base(allRel[i]) <= n
  }

  /** The name extends the file's name, is not itself a file of the torrent, and does not belong to
      a longer expected name. */
  predicate Claims(allRel: seq<Path>, rel: Path, n: Name)
    requires rel != []
  {
    StrictlyExtends(n.text, Base(rel)) && Parent(rel) + [n] !in allRel && !BelongsToLonger(allRel, rel, n.text)
  }

  lemma LongerClaim(allRel: seq<Path>, a: Path, b: Path, n: string)
    requires a != [] && b != [] && b in allRel && Parent(a) == Parent(b) && Base(a) <= n && Base(b) <= n
             && |Base(a)| < |Base(b)|
    ensures BelongsToLonger(allRel, a, n)
  {
    var x, y := Base(a), Base(b);
    assert y[..|x|] == n[..|x|] == x;
    var i :| 0 <= i < |allRel| && allRel[i] == b;
    assert StrictlyExtends(Base(allRel[i]), Base(a));
  }

  /** A name is claimed by at most one file of a directory. */
  lemma ClaimedOnce(allRel: seq<Path>, a: Path, b: Path, n: Name)
    requires a != [] && b != [] && a in allRel && b in allRel && Parent(a) == Parent(b) && Claims(allRel, a, n)
             && Claims(allRel, b, n)
    ensures a == b
  {
    var x, y := Base(a), Base(b);
    if |x| < |y| {
      LongerClaim(allRel, a, b, n.text);
    } else if |y| < |x| {
      LongerClaim(allRel, b, a, n.text);
    } else {
      assert x == n.text[..|x|] == y;
      assert a == Parent(a) + [a[|a| - 1]] == b;
    }
  }

  lemma TargetsDiffer(output: Path, f: AdoptFile, g: AdoptFile, ext: Option<string>)
    requires f.rel != [] && g.rel != [] && f.rel != g.rel
    ensures TargetOf(output, f, ext) != TargetOf(output, g, ext)
  {
    var a, b := Join(output, f.rel), Join(output, g.rel);
    assert a != b by { assert a[|output|..] == f.rel && b[|output|..] == g.rel; }
    if ext.Some? && WithSuffix(a, ext.value) == WithSuffix(b, ext.value) {
      SuffixInjective(a, b, ext.value);
    }
  }

  lemma SuffixInjective(a: Path, b: Path, suffix: string)
    requires a != [] && b != [] && WithSuffix(a, suffix) == WithSuffix(b, suffix)
    ensures a == b
  {
    var x, y := WithSuffix(a, suffix), WithSuffix(b, suffix);
    assert Parent(x) == Parent(a) && Parent(y) == Parent(b);
    assert x[|x| - 1].text == Base(a) + suffix && y[|y| - 1].text == Base(b) + suffix;
    assert (Base(a) + suffix)[..|Base(a)|] == (Base(b) + suffix)[..|Base(b)|];
    assert a == Parent(a) + [a[|a| - 1]] && b == Parent(b) + [b[|b| - 1]];
  }

  // ------------------------------------------------------------- renames that do not collide

  /** A file beside the expected one that may be its partial: seen, claimed, and not too long. */
  predicate IsCandidate(job: Job, f: AdoptFile, n: Name)
    requires f.rel != []
  {
    var p := Join(job.output, Parent(f.rel)) + [n];
    IsFile(job.t, p) && p !in job.unread && |job.t[p].content.bytes| <= f.len && Claims(job.allRel, f.rel, n)
  }

  /** What a planned rename is about: a file of the torrent that is missing, the only candidate for
      it, and a free target. */
  ghost predicate Planned(job: Job, files: seq<AdoptFile>, r: Rename, i: nat) {
    && i < |files| && files[i].rel != [] && r.fileId == files[i].fileId
    && r.to == TargetOf(job.output, files[i], job.ext) && r.to !in job.t
    && Join(job.output, files[i].rel) !in job.t && exists n :: OnlyCandidate(job, files[i], n, r.from)
  }

  ghost predicate OnlyCandidate(job: Job, f: AdoptFile, n: Name, from: Path)
    requires f.rel != []
  {
    from == Join(job.output, Parent(f.rel)) + [n] && IsCandidate(job, f, n) &&
    forall m :: IsCandidate(job, f, m) ==> m == n
  }

  ghost predicate MovesBeside(t: Tree, r: Rename) {
    IsFile(t, r.from) && r.to !in t && r.from != [] && r.to != [] && Parent(r.to) == Parent(r.from)
  }

  /** Renames of present files to free names beside them, with all sources and all targets
      different. */
  ghost predicate CollisionFree(t: Tree, rs: seq<Rename>) {
    (forall i :: 0 <= i < |rs| ==> MovesBeside(t, rs[i])) &&
    forall i, j :: 0 <= i < j < |rs| ==> rs[i].from != rs[j].from && rs[i].to != rs[j].to
  }

  ghost predicate FilesRight(files: seq<AdoptFile>, allRel: seq<Path>) {
    (forall i :: 0 <= i < |files| ==> files[i].rel in allRel && files[i].rel != []) &&
    forall i, j :: 0 <= i < j < |files| ==> files[i].rel != files[j].rel
  }

  ghost predicate PlannedFor(job: Job, files: seq<AdoptFile>, rs: seq<Rename>, at: seq<nat>) {
    |at| == |rs| && (forall k :: 0 <= k < |rs| ==> Planned(job, files, rs[k], at[k])) &&
    forall k, l :: 0 <= k < l < |at| ==> at[k] < at[l]
  }

  lemma PlannedApart(job: Job, files: seq<AdoptFile>, r: Rename, i: nat, s: Rename, j: nat)
    requires FilesRight(files, job.allRel) && Planned(job, files, r, i) && Planned(job, files, s, j) && i < j
    ensures r.from != s.from && r.to != s.to
  {
    var f, g := files[i], files[j];
    TargetsDiffer(job.output, f, g, job.ext);
    if r.from == s.from {
      var n :| OnlyCandidate(job, f, n, r.from);
      var m :| OnlyCandidate(job, g, m, s.from);
      SameDirectory(job.output, Parent(f.rel), Parent(g.rel), n, m);
      ClaimedOnce(job.allRel, f.rel, g.rel, n);
    }
  }

  lemma SameDirectory(output: Path, d: Path, e: Path, n: Name, m: Name)
    requires Join(output, d) + [n] == Join(output, e) + [m]
    ensures d == e && n == m
  {
    var x := Join(output, d) + [n];
    assert |d| == |e|;
    assert x[|x| - 1] == n && (Join(output, e) + [m])[|x| - 1] == m;
    assert d == x[|output|..|x| - 1] && e == (Join(output, e) + [m])[|output|..|x| - 1];
  }

  lemma PlannedBeside(job: Job, files: seq<AdoptFile>, r: Rename, i: nat)
    requires Planned(job, files, r, i)
    ensures MovesBeside(job.t, r)
  {
    var f := files[i];
    var n :| OnlyCandidate(job, f, n, r.from);
    assert Parent(r.from) == Join(job.output, Parent(f.rel));
    assert Parent(Join(job.output, f.rel)) == Join(job.output, Parent(f.rel));
    if job.ext.Some? { assert Parent(WithSuffix(Join(job.output, f.rel), job.ext.value)) ==
      Parent(Join(job.output, f.rel)); }
  }

  /** The longer-name rule makes a whole plan free of collisions. */
  lemma PlanIsCollisionFree(job: Job, files: seq<AdoptFile>, rs: seq<Rename>, at: seq<nat>)
    requires FilesRight(files, job.allRel) && PlannedFor(job, files, rs, at)
    ensures CollisionFree(job.t, rs)
  {
    forall k | 0 <= k < |rs| ensures MovesBeside(job.t, rs[k]) {
      PlannedBeside(job, files, rs[k], at[k]);
    }
    forall k, l | 0 <= k < l < |rs| ensures rs[k].from != rs[l].from && rs[k].to != rs[l].to {
      PlannedApart(job, files, rs[k], at[k], rs[l], at[l]);
    }
  }

  // ------------------------------------------------------------- applying them

  function ApplyAll(t: Tree, rs: seq<Rename>): Tree {
    if rs == [] then t else var u := ApplyAll(t, rs[..|rs| - 1]); RenameTree(u, rs[|rs| - 1].from, rs[|rs| - 1].to)
  }

  /** The tree after all renames at once: each target holds what its source held, the sources are
      gone, the rest is as it was. */
  ghost predicate AllAtOnce(t: Tree, rs: seq<Rename>, u: Tree) {
    (forall i :: 0 <= i < |rs| ==> HoldsMoved(t, u, rs[i])) && forall p :: RestSame(t, rs, u, p)
  }

  ghost predicate RestSame(t: Tree, rs: seq<Rename>, u: Tree, p: Path) {
    (p in u ==> p in t || IsTarget(rs, p)) && (p in t && !IsSource(rs, p) ==> p in u && u[p] == t[p])
  }

  ghost predicate HoldsMoved(t: Tree, u: Tree, r: Rename) {
    r.from in t && r.to in u && u[r.to] == t[r.from] && r.from !in u
  }

  ghost predicate IsSource(rs: seq<Rename>, p: Path) {
    exists i :: 0 <= i < |rs| && rs[i].from == p
  }

  ghost predicate IsTarget(rs: seq<Rename>, p: Path) {
    exists i :: 0 <= i < |rs| && rs[i].to == p
  }

  /** There is only one such tree, and it does not depend on the order of the renames. */
  lemma AtOnceIsUnique(t: Tree, rs: seq<Rename>, ss: seq<Rename>, u: Tree, v: Tree)
    requires AllAtOnce(t, rs, u) && AllAtOnce(t, ss, v) && forall r :: r in rs <==> r in ss
    ensures u == v
  {
    SameOnce(t, rs, ss, u, v);
    SameOnce(t, ss, rs, v, u);
    KeepsBoth(u, v);
  }

  lemma KeepsBoth(u: Tree, v: Tree)
    requires KeepsAll(u, v) && KeepsAll(v, u)
    ensures u == v
  {
  }

  lemma SameOnce(t: Tree, rs: seq<Rename>, ss: seq<Rename>, u: Tree, v: Tree)
    requires AllAtOnce(t, rs, u) && AllAtOnce(t, ss, v) && forall r :: r in rs <==> r in ss
    ensures KeepsAll(u, v)
  {
    forall p | p in u ensures p in v && v[p] == u[p] {
      if IsTarget(rs, p) {
        var i :| 0 <= i < |rs| && rs[i].to == p;
        assert rs[i] in ss;
        var j :| 0 <= j < |ss| && ss[j] == rs[i];
        assert HoldsMoved(t, u, rs[i]) && HoldsMoved(t, v, ss[j]);
      } else {
        SourceGone(t, rs, u, p);
        SameSources(rs, ss, p);
        assert RestSame(t, rs, u, p) && RestSame(t, ss, v, p);
      }
    }
  }

  lemma SourceGone(t: Tree, rs: seq<Rename>, u: Tree, p: Path)
    requires AllAtOnce(t, rs, u)
    ensures IsSource(rs, p) ==> p !in u
  {
    if IsSource(rs, p) {
      var i :| 0 <= i < |rs| && rs[i].from == p;
      assert HoldsMoved(t, u, rs[i]);
    }
  }

  lemma SameSources(rs: seq<Rename>, ss: seq<Rename>, p: Path)
    requires forall r :: r in rs <==> r in ss
    ensures IsSource(rs, p) <==> IsSource(ss, p)
  {
    if IsSource(rs, p) {
      var i :| 0 <= i < |rs| && rs[i].from == p;
      assert rs[i] in ss;
    }
    if IsSource(ss, p) {
      var i :| 0 <= i < |ss| && ss[i].from == p;
      assert ss[i] in rs;
    }
  }

  /** Renaming one file. */
  lemma RenameFileAt(t: Tree, from: Path, to: Path, p: Path)
    requires CanRename(t, from, to) && IsFile(t, from)
    ensures var u := RenameTree(t, from, to);
            if p == to then p in u && u[p] == t[from]
            else if p == from then p !in u
            else (p in u <==> p in t) && (p in t ==> u[p] == t[p])
  {
    RenameAt(t, from, to, p);
    assert Rebase(to, to, from) == from;
    if Under(p, to) && p != to {
      var q := Rebase(p, to, from);
      RebaseIsUnder(p, to, from);
      if q in t { NothingBelow(t, from, q); }
      if p in t { NothingBelow(t, to, p); }
    }
    if Under(p, from) && p in t { NothingBelow(t, from, p); }
    if Under(from, to) { NothingBelow(t, to, from); }
  }

  lemma CanRenameNext(t: Tree, rs: seq<Rename>, u: Tree)
    requires rs != [] && CollisionFree(t, rs) && WellFormed(t) && WellFormed(u) && AllAtOnce(t, rs[..|rs| - 1], u)
    ensures var r := rs[|rs| - 1]; CanRename(u, r.from, r.to) && IsFile(u, r.from) && u[r.from] == t[r.from]
  {
    var k := |rs| - 1;
    var r, before := rs[k], rs[..k];
    assert !IsSource(before, r.from) && !IsTarget(before, r.to);
    assert RestSame(t, before, u, r.from) && RestSame(t, before, u, r.to) && RestSame(t, before, u, Parent(r.to));
    assert IsDir(t, Parent(r.to)) && !IsSource(before, Parent(r.to)) by { ParentIsNoSource(t, rs, k); }
    if Under(r.to, r.from) { ParentUnder(r.to, r.from); }
  }

  lemma ParentIsNoSource(t: Tree, rs: seq<Rename>, k: nat)
    requires CollisionFree(t, rs) && WellFormed(t) && k < |rs|
    ensures IsDir(t, Parent(rs[k].to)) && !IsSource(rs[..k], Parent(rs[k].to))
  {
    assert IsDir(t, Parent(rs[k].from));
  }

  /** The state before the last rename. */
  ghost predicate BeforeLast(t: Tree, rs: seq<Rename>, u: Tree) {
    rs != [] && CollisionFree(t, rs) && AllAtOnce(t, rs[..|rs| - 1], u)
      && CanRename(u, rs[|rs| - 1].from, rs[|rs| - 1].to) &&
    IsFile(u, rs[|rs| - 1].from) && u[rs[|rs| - 1].from] == t[rs[|rs| - 1].from]
  }

  lemma StepMoved(t: Tree, rs: seq<Rename>, u: Tree, i: nat)
    requires BeforeLast(t, rs, u) && i < |rs|
    ensures HoldsMoved(t, RenameTree(u, rs[|rs| - 1].from, rs[|rs| - 1].to), rs[i])
  {
    var k := |rs| - 1;
    RenameFileAt(u, rs[k].from, rs[k].to, rs[i].to);
    RenameFileAt(u, rs[k].from, rs[k].to, rs[i].from);
    if i < k { assert HoldsMoved(t, u, rs[..k][i]); }
  }

  lemma StepRest(t: Tree, rs: seq<Rename>, u: Tree, p: Path)
    requires BeforeLast(t, rs, u)
    ensures RestSame(t, rs, RenameTree(u, rs[|rs| - 1].from, rs[|rs| - 1].to), p)
  {
    var k := |rs| - 1;
    assert RestSame(t, rs[..k], u, p);
    RenameFileAt(u, rs[k].from, rs[k].to, p);
    MoreEnds(rs, p);
    assert rs[k].to == p ==> IsTarget(rs, p);
  }

  lemma MoreEnds(rs: seq<Rename>, p: Path)
    requires rs != []
    ensures IsSource(rs[..|rs| - 1], p) ==> IsSource(rs, p)
    ensures IsTarget(rs[..|rs| - 1], p) ==> IsTarget(rs, p)
  {
    var before := rs[..|rs| - 1];
    if IsSource(before, p) {
      var i :| 0 <= i < |before| && before[i].from == p;
      assert rs[i].from == p;
    }
    if IsTarget(before, p) {
      var i :| 0 <= i < |before| && before[i].to == p;
      assert rs[i].to == p;
    }
  }

  lemma StepAtOnce(t: Tree, rs: seq<Rename>, u: Tree)
    requires BeforeLast(t, rs, u)
    ensures AllAtOnce(t, rs, RenameTree(u, rs[|rs| - 1].from, rs[|rs| - 1].to))
  {
    var v := RenameTree(u, rs[|rs| - 1].from, rs[|rs| - 1].to);
    forall i | 0 <= i < |rs| ensures HoldsMoved(t, v, rs[i]) {
      StepMoved(t, rs, u, i);
    }
    forall p ensures RestSame(t, rs, v, p) {
      StepRest(t, rs, u, p);
    }
  }

  /** Applied one after the other, collision-free renames do what they do all at once. */
  lemma {:induction false} ApplyAllAtOnce(t: Tree, rs: seq<Rename>)
    requires WellFormed(t) && CollisionFree(t, rs)
    ensures WellFormed(ApplyAll(t, rs)) && AllAtOnce(t, rs, ApplyAll(t, rs))
  {
    if rs != [] {
      var k := |rs| - 1;
      ApplyAllAtOnce(t, rs[..k]);
      CanRenameNext(t, rs, ApplyAll(t, rs[..k]));
      RenameWellFormed(ApplyAll(t, rs[..k]), rs[k].from, rs[k].to);
      StepAtOnce(t, rs, ApplyAll(t, rs[..k]));
    }
  }

  lemma Repeated(ss: seq<Rename>, i: nat, j: nat)
    requires i < j < |ss| && ss[i] == ss[j]
    ensures multiset(ss)[ss[i]] >= 2
  {
    assert ss == ss[..j] + [ss[j]] + ss[j + 1..];
    assert ss[..j][i] in multiset(ss[..j]);
  }

  lemma {:induction false} OnlyOnce(rs: seq<Rename>, r: Rename)
    requires forall i, j :: 0 <= i < j < |rs| ==> rs[i] != rs[j]
    ensures multiset(rs)[r] <= 1
  {
    if rs != [] {
      var n := |rs| - 1;
      OnlyOnce(rs[..n], r);
      assert rs == rs[..n] + [rs[n]];
      if rs[n] == r { assert r !in rs[..n]; }
    }
  }

  /** In any other order the renames still do not collide. */
  lemma PermutedCollisionFree(t: Tree, rs: seq<Rename>, ss: seq<Rename>)
    requires CollisionFree(t, rs) && multiset(rs) == multiset(ss)
    ensures CollisionFree(t, ss)
  {
    forall i | 0 <= i < |ss| ensures ss[i] in rs {
      assert ss[i] in multiset(ss);
    }
    forall i, j | 0 <= i < j < |ss| ensures ss[i].from != ss[j].from && ss[i].to != ss[j].to {
      if ss[i] == ss[j] {
        Repeated(ss, i, j);
        OnlyOnce(rs, ss[i]);
      }
      var k :| 0 <= k < |rs| && rs[k] == ss[i];
      var l :| 0 <= l < |rs| && rs[l] == ss[j];
      assert k < l || l < k;
    }
  }

  /** The order in which they are applied does not matter. */
  lemma OrderDoesNotMatter(t: Tree, rs: seq<Rename>, ss: seq<Rename>)
    requires WellFormed(t) && CollisionFree(t, rs) && multiset(rs) == multiset(ss)
    ensures CollisionFree(t, ss) && ApplyAll(t, rs) == ApplyAll(t, ss)
  {
    PermutedCollisionFree(t, rs, ss);
    forall r ensures r in rs <==> r in ss {
      assert r in multiset(rs) <==> r in multiset(ss);
    }
    ApplyAllAtOnce(t, rs);
    ApplyAllAtOnce(t, ss);
    AtOnceIsUnique(t, rs, ss, ApplyAll(t, rs), ApplyAll(t, ss));
  }

  // ------------------------------------------------------------- planning

  function Contents(t: Tree, p: Path): seq<Byte> {
    if IsFile(t, p) then t[p].content.bytes else []
  }

  /** The length of a regular file; nothing when there is none, an error for anything else. */
  method RegularFileLen(job: Job, p: Path) returns (r: Result<Option<nat>, AdoptError>)
    ensures r.Err? <==> p in job.faults || IsDir(job.t, p)
    ensures r.Err? ==> !r.error.TooBig?
    ensures r.Ok? ==> r.value == if IsFile(job.t, p) then Some(|Contents(job.t, p)|) else None
  {
    if p in job.faults { return Err(Inspecting); }
    if p !in job.t { return Ok(None); }
    if job.t[p].Dir? { return Err(NotRegular(p)); }
    r := Ok(Some(|job.t[p].content.bytes|));
  }

  predicate Unlistable(job: Job, dir: Path) {
    dir in job.faults || IsFile(job.t, dir)
  }

  /** A file that is claimed, but too long to be a candidate. */
  predicate TooLong(job: Job, f: AdoptFile, n: Name)
    requires f.rel != []
  {
    var p := Join(job.output, Parent(f.rel)) + [n];
    IsFile(job.t, p) && p !in job.unread && |job.t[p].content.bytes| > f.len && Claims(job.allRel, f.rel, n)
  }

  /** All candidates for a file, and the claimed names that are too long to be one. */
  method Candidates(job: Job, f: AdoptFile) returns (r: Result<(set<Name>, set<Name>), AdoptError>)
    requires f.rel != []
    ensures r.Err? <==> Unlistable(job, Join(job.output, Parent(f.rel)))
    ensures r.Err? ==> !r.error.TooBig?
    ensures r.Ok? ==> forall n :: n in r.value.0 <==> IsCandidate(job, f, n)
    ensures r.Ok? ==> forall n :: n in r.value.1 <==> TooLong(job, f, n)
  {
    var dir := Join(job.output, Parent(f.rel));
    if Unlistable(job, dir) { return Err(Listing); }
    var left := Children(job.t, dir);
    var found, long: set<Name> := {}, {};
    AllListed(job.t, dir);
    while left != {}
      invariant forall n :: n in found ==> IsCandidate(job, f, n)
      invariant forall n :: IsCandidate(job, f, n) ==> n in found || n in left
      invariant forall n :: n in long ==> TooLong(job, f, n)
      invariant forall n :: TooLong(job, f, n) ==> n in long || n in left
      decreases |left|
    {
      var n :| n in left;
      var p := dir + [n];
      if IsFile(job.t, p) && p !in job.unread && Claims(job.allRel, f.rel, n) {
        if |job.t[p].content.bytes| > f.len {
          long := long + {n};
        } else {
          found := found + {n};
        }
      }
      left := left - {n};
    }
    r := Ok((found, long));
  }

  lemma AllListed(t: Tree, dir: Path)
    ensures forall n: Name :: dir + [n] in t ==> n in Children(t, dir)
  {
    forall n: Name | dir + [n] in t ensures n in Children(t, dir) {
      IsChild(t, dir + [n]);
      assert Parent(dir + [n]) == dir;
    }
  }

  /** What is decided about one file. */
  datatype Decision = Keep(tooBig: bool) | Own(tooBig: bool) | Take(r: Rename) | Ambiguous(p: Path) | Pass

  /** Neither the file nor our own partial of it is there. */
  predicate Missing(job: Job, f: AdoptFile)
    requires f.rel != []
  {
    Join(job.output, f.rel) !in job.t && TargetOf(job.output, f, job.ext) !in job.t
  }

  function EvidenceFor(s: Sample): Evidence {
    if s.Verified? then PieceHashMatch else if s.Zeros? then UnfetchedZeros else SizeOnly
  }

  /** Every decision is a fact about the file: it is there, our own partial is, or both are missing
      and there is a single candidate that looks right, more than one, or none. */
  ghost predicate Decided(job: Job, f: AdoptFile, d: Decision)
    requires f.rel != []
  {
    var final, target := Join(job.output, f.rel), TargetOf(job.output, f, job.ext);
    match d
    case Keep(big) => IsFile(job.t, final) && (big <==> |Contents(job.t, final)| > f.len)
    case Own(big) =>
      job.ext.Some? && final !in job.t && IsFile(job.t, target) && (big <==> |Contents(job.t, target)| > f.len)
    case Take(r) =>
      && Missing(job, f) && r.fileId == f.fileId && r.to == target && Only(job, f, r.from)
      && var s := SampleOf(Contents(job.t, r.from), f, job.ps); !s.Mismatch? && r.evidence == EvidenceFor(s)
    case Ambiguous(p) =>
      && Missing(job, f) && p == final
      && exists m, n :: m != n && IsCandidate(job, f, m) && IsCandidate(job, f, n)
    case Pass =>
      && Missing(job, f)
      && forall n :: IsCandidate(job, f, n) ==>
           SampleOf(Contents(job.t, Join(job.output, Parent(f.rel)) + [n]), f, job.ps).Mismatch?
           && forall m :: IsCandidate(job, f, m) ==> m == n
  }

  ghost predicate Only(job: Job, f: AdoptFile, from: Path)
    requires f.rel != []
  {
    exists n :: OnlyCandidate(job, f, n, from)
  }

  /** A missing file with exactly one candidate is adopted from it exactly when the candidate does
      not look wrong. */
  lemma TakenIff(job: Job, f: AdoptFile, d: Decision, from: Path)
    requires f.rel != [] && Decided(job, f, d)
    requires Missing(job, f) && Only(job, f, from)
    ensures d.Take? <==> !SampleOf(Contents(job.t, from), f, job.ps).Mismatch?
    ensures d.Take? ==> d.r.from == from
  {
    var n :| OnlyCandidate(job, f, n, from);
    if d.Take? {
      var m :| OnlyCandidate(job, f, m, d.r.from);
    }
  }

  /** A file beside a missing one that is turned down: it is too long, or its pieces contradict it. */
  ghost predicate Rejected(job: Job, f: AdoptFile, p: Path)
    requires f.rel != []
  {
    && Missing(job, f)
    && (|| (exists n :: TooLong(job, f, n) && p == Join(job.output, Parent(f.rel)) + [n])
        || (Only(job, f, p) && SampleOf(Contents(job.t, p), f, job.ps).Mismatch?))
  }

  /** Something on the way to a decision is in the way or cannot be read. */
  ghost predicate Blocked(job: Job, f: AdoptFile)
    requires f.rel != []
  {
    var final, target := Join(job.output, f.rel), TargetOf(job.output, f, job.ext);
    var dir := Join(job.output, Parent(f.rel));
    || final in job.faults || IsDir(job.t, final) || target in job.faults || IsDir(job.t, target)
    || Unlistable(job, dir) || exists n :: IsCandidate(job, f, n) && dir + [n] in job.faults
  }

  method DecideOne(job: Job, f: AdoptFile) returns (r: Result<(Decision, set<Path>), AdoptError>)
    requires f.rel != []
    ensures r.Ok? ==> Decided(job, f, r.value.0)
    ensures r.Ok? ==> forall p :: p in r.value.1 <==> Rejected(job, f, p)
    ensures r.Err? ==> Blocked(job, f) && !r.error.TooBig?
  {
    var final, target := Join(job.output, f.rel), TargetOf(job.output, f, job.ext);
    var have := RegularFileLen(job, final);
    if have.Err? { return Err(have.error); }
    if have.value.Some? { return Ok((Keep(have.value.value > f.len), {})); }
    if job.ext.Some? {
      var part := RegularFileLen(job, target);
      if part.Err? { return Err(part.error); }
      if part.value.Some? { return Ok((Own(part.value.value > f.len), {})); }
    }
    var c := Candidates(job, f);
    if c.Err? { return Err(c.error); }
    var (found, long) := c.value;
    var dir := Join(job.output, Parent(f.rel));
    var rejected := set n | n in long :: dir + [n];
    if found == {} { return Ok((Pass, rejected)); }
    var n :| n in found;
    var from := Join(job.output, Parent(f.rel)) + [n];
    if found != {n} {
      TwoCandidates(found, n);
      return Ok((Ambiguous(final), rejected));
    }
    assert OnlyCandidate(job, f, n, from);
    var s := SampleCandidate(Contents(job.t, from), f, job.ps, from in job.faults);
    if s.None? { return Err(AdoptError.Sampling); }
    if s.value.Mismatch? { return Ok((Pass, rejected + {from})); }
    r := Ok((Take(Rename(f.fileId, from, target, EvidenceFor(s.value))), rejected));
  }

  lemma TwoCandidates(found: set<Name>, n: Name)
    requires n in found && found != {n}
    ensures exists m :: m in found && m != n
  {
    assert exists m :: m in found - {n} by { assert found == {n} + (found - {n}); }
  }

  // ------------------------------------------------------------- the plan

  /** The decisions about the first files are facts. */
  ghost predicate AllDecided(job: Job, files: seq<AdoptFile>, ds: seq<Decision>)
  {
    |ds| <= |files| && forall i :: 0 <= i < |ds| ==> files[i].rel != [] && Decided(job, files[i], ds[i])
  }

  /** The plan is what the decisions say, in order. */
  ghost predicate Collects(job: Job, plan: AdoptPlan, files: seq<AdoptFile>, ds: seq<Decision>)
    requires |ds| <= |files|
  {
    && (forall p :: p in plan.rejected <==> RejectedFor(job, files, |ds|, p))
    && plan.renames == Takes(ds) && plan.ambiguous == Ambiguities(ds)
    && (forall x :: x in plan.keepFinal <==> exists i :: 0 <= i < |ds| && ds[i].Keep? && files[i].fileId == x)
    && (forall x :: x in plan.ownPartial <==> exists i :: 0 <= i < |ds| && ds[i].Own? && files[i].fileId == x)
  }

  /** One of the first `n` files turns `p` down. */
  ghost predicate RejectedFor(job: Job, files: seq<AdoptFile>, n: nat, p: Path)
    requires n <= |files|
  {
    exists i :: 0 <= i < n && RejectedBy(job, files[i], p)
  }

  ghost predicate RejectedBy(job: Job, f: AdoptFile, p: Path) {
    f.rel != [] && Rejected(job, f, p)
  }

  lemma RejectMore(job: Job, files: seq<AdoptFile>, n: nat, p: Path)
    requires n < |files|
    ensures RejectedFor(job, files, n + 1, p) <==> RejectedFor(job, files, n, p) || RejectedBy(job, files[n], p)
  {
  }

  function Takes(ds: seq<Decision>): seq<Rename> {
    if ds == [] then [] else
    var d := ds[|ds| - 1];
    if d.Take? then Takes(ds[..|ds| - 1]) + [d.r] else Takes(ds[..|ds| - 1])
  }

  function Ambiguities(ds: seq<Decision>): seq<Path> {
    if ds == [] then [] else
    var d := ds[|ds| - 1];
    if d.Ambiguous? then Ambiguities(ds[..|ds| - 1]) + [d.p] else Ambiguities(ds[..|ds| - 1])
  }

  predicate IsTooBig(d: Decision) {
    (d.Keep? || d.Own?) && d.tooBig
  }

  function PlanWith(plan: AdoptPlan, f: AdoptFile, d: Decision, rejected: set<Path>): AdoptPlan {
    var p := plan.(rejected := plan.rejected + rejected);
    match d
    case Keep(_) => p.(keepFinal := p.keepFinal + {f.fileId})
    case Own(_) => p.(ownPartial := p.ownPartial + {f.fileId})
    case Take(r) => p.(renames := p.renames + [r])
    case Ambiguous(q) => p.(ambiguous := p.ambiguous + [q])
    case Pass => p
  }

  lemma CollectOne(job: Job, plan: AdoptPlan, files: seq<AdoptFile>, ds: seq<Decision>, d: Decision,
                   rejected: set<Path>)
    requires |ds| < |files| && Collects(job, plan, files, ds) && files[|ds|].rel != []
    requires forall p :: p in rejected <==> Rejected(job, files[|ds|], p)
    ensures Collects(job, PlanWith(plan, files[|ds|], d, rejected), files, ds + [d])
  {
    var more, next := ds + [d], PlanWith(plan, files[|ds|], d, rejected);
    forall p ensures p in next.rejected <==> RejectedFor(job, files, |more|, p) {
      RejectMore(job, files, |ds|, p);
    }
    assert more[..|more| - 1] == ds && more[|ds|] == d;
    forall x ensures x in next.keepFinal <==> exists i :: 0 <= i < |more| && more[i].Keep? && files[i].fileId == x {
      if x in plan.keepFinal {
        var i :| 0 <= i < |ds| && ds[i].Keep? && files[i].fileId == x;
        assert more[i] == ds[i];
      }
    }
    forall x ensures x in next.ownPartial <==> exists i :: 0 <= i < |more| && more[i].Own? && files[i].fileId == x {
      if x in plan.ownPartial {
        var i :| 0 <= i < |ds| && ds[i].Own? && files[i].fileId == x;
        assert more[i] == ds[i];
      }
    }
  }

  lemma TakeIsPlanned(job: Job, files: seq<AdoptFile>, ds: seq<Decision>, i: nat)
    requires AllDecided(job, files, ds) && i < |ds| && ds[i].Take?
    ensures Planned(job, files, ds[i].r, i)
  {
    assert Decided(job, files[i], ds[i]);
  }

  lemma DecidedNext(job: Job, files: seq<AdoptFile>, ds: seq<Decision>, d: Decision)
    requires AllDecided(job, files, ds) && |ds| < |files| && files[|ds|].rel != []
    requires Decided(job, files[|ds|], d)
    ensures AllDecided(job, files, ds + [d])
  {
  }

  /** The renames of a plan belong to different files, in order. */
  lemma {:induction false} TakesPlanned(job: Job, files: seq<AdoptFile>, ds: seq<Decision>) returns (at: seq<nat>)
    requires AllDecided(job, files, ds)
    ensures PlannedFor(job, files, Takes(ds), at) && forall k :: 0 <= k < |at| ==> at[k] < |ds|
  {
    if ds == [] { return []; }
    var n := |ds| - 1;
    FirstDecided(job, files, ds, n);
    at := TakesPlanned(job, files, ds[..n]);
    if ds[n].Take? {
      TakeIsPlanned(job, files, ds, n);
      PlannedNext(job, files, Takes(ds[..n]), at, ds[n].r, n);
      at := at + [n];
    }
  }

  lemma FirstDecided(job: Job, files: seq<AdoptFile>, ds: seq<Decision>, n: nat)
    requires AllDecided(job, files, ds) && n <= |ds|
    ensures AllDecided(job, files, ds[..n])
  {
  }

  lemma PlannedNext(job: Job, files: seq<AdoptFile>, rs: seq<Rename>, at: seq<nat>, r: Rename, n: nat)
    requires PlannedFor(job, files, rs, at) && Planned(job, files, r, n)
    requires forall k :: 0 <= k < |at| ==> at[k] < n
    ensures PlannedFor(job, files, rs + [r], at + [n])
  {
  }

  /** Works out what to adopt. A plan consists of the right decision about every file and never
      collides; it is refused when a file that is there, under its final name or as our own partial,
      is longer than expected. */
  method PlanAdoption(job: Job, files: seq<AdoptFile>)
    returns (r: Result<AdoptPlan, AdoptError>, ghost ds: seq<Decision>)
    requires FilesRight(files, job.allRel)
    ensures AllDecided(job, files, ds)
    ensures r.Ok? ==> |ds| == |files| && Collects(job, r.value, files, ds) && CollisionFree(job.t, r.value.renames)
    ensures r.Ok? ==> forall i :: 0 <= i < |ds| ==> !IsTooBig(ds[i])
    ensures r.Err? ==> if r.error.TooBig? then |ds| == |files| && exists i :: 0 <= i < |ds| && IsTooBig(ds[i])
                       else exists i :: 0 <= i < |files| && Blocked(job, files[i])
  {
    var plan := AdoptPlan({}, {}, [], [], {});
    var tooBig := 0;
    ds := [];
    for i := 0 to |files|
      invariant |ds| == i && AllDecided(job, files, ds) && Collects(job, plan, files, ds)
      invariant tooBig == 0 <==> forall k :: 0 <= k < |ds| ==> !IsTooBig(ds[k])
    {
      var d := DecideOne(job, files[i]);
      if d.Err? { return Err(d.error), ds; }
      CollectOne(job, plan, files, ds, d.value.0, d.value.1);
      DecidedNext(job, files, ds, d.value.0);
      plan, ds := PlanWith(plan, files[i], d.value.0, d.value.1), ds + [d.value.0];
      if IsTooBig(d.value.0) { tooBig := tooBig + 1; }
    }
    if tooBig > 0 { return Err(TooBig(tooBig)), ds; }
    ghost var at := TakesPlanned(job, files, ds);
    PlanIsCollisionFree(job, files, plan.renames, at);
    r := Ok(plan);
  }

  // ------------------------------------------------------------- carrying a plan out

  ghost function RenamedIds(rs: seq<Rename>): set<nat> {
    set r | r in rs :: r.fileId
  }

  /** All renames before the `k`-th were done, and nothing else happened. */
  ghost predicate DoneUpTo(t: Tree, rs: seq<Rename>, k: nat, now: Tree, ids: set<nat>)
    requires k <= |rs|
  {
    AllAtOnce(t, rs[..k], now) && ids == RenamedIds(rs[..k])
  }

  /** A rename is passed over: it goes nowhere, or something is seen to be in its place. */
  predicate PassedOver(t: Tree, unread: set<Path>, r: Rename) {
    r.from == r.to || Seen(t, unread, r.to)
  }

  /** What the renames do when nothing fails: those that are not passed over replace what they cannot
      see. */
  ghost function RenamesRun(t: Tree, unread: set<Path>, rs: seq<Rename>): Option<Tree> {
    if rs == [] then Some(t) else
    var u, r := RenamesRun(t, unread, rs[..|rs| - 1]), rs[|rs| - 1];
    if u.None? then None else OneRun(u.value, unread, r)
  }

  ghost function OneRun(t: Tree, unread: set<Path>, r: Rename): Option<Tree> {
    if PassedOver(t, unread, r) then Some(t)
    else if CanRename(t, r.from, r.to) then Some(RenameTree(t, r.from, r.to))
    else if Replaces(t, r.from, r.to) then Some(ReplaceTree(t, r.from, r.to))
    else None
  }

  /** What such a run replaces. */
  ghost function RenamesTears(t: Tree, unread: set<Path>, rs: seq<Rename>): seq<Path> {
    if rs == [] then [] else
    var u, r := RenamesRun(t, unread, rs[..|rs| - 1]), rs[|rs| - 1];
    RenamesTears(t, unread, rs[..|rs| - 1]) + if u.None? then [] else OneTears(u.value, unread, r)
  }

  ghost function OneTears(t: Tree, unread: set<Path>, r: Rename): seq<Path> {
    if PassedOver(t, unread, r) || CanRename(t, r.from, r.to) || !Replaces(t, r.from, r.to) then [] else [r.to]
  }

  /** The targets that cannot be read. */
  ghost function UnreadTargets(unread: set<Path>, rs: seq<Rename>): set<Path> {
    set k | 0 <= k < |rs| && rs[k].to in unread :: rs[k].to
  }

  /** Carries out the renames of any plan, never onto something that can be seen. Whatever fails,
      nothing is lost but what is at a target that cannot be read, and nothing at all when the plan is
      collision-free: then a first part of it is done, and all of it when nothing fails. */
  method ApplyAdoption(fs: FileSystem, plan: AdoptPlan, ext: Option<string>)
      returns (ok: bool, keepFinal: set<nat>, renamed: nat, skipped: seq<Path>)
    requires fs.Valid()
    modifies fs
    ensures fs.Valid() && Tears(old(fs.replaced), fs.replaced, UnreadTargets(fs.unread, plan.renames))
    ensures fs.calm ==>
              RunsAs(RenamesRun(old(fs.tree), fs.unread, plan.renames),
                RenamesTears(old(fs.tree), fs.unread, plan.renames), old(fs.replaced), fs.replaced, fs.tree, ok)
    ensures CollisionFree(old(fs.tree), plan.renames) ==>
              && fs.replaced == old(fs.replaced) && renamed <= |plan.renames| && skipped == []
              && AllAtOnce(old(fs.tree), plan.renames[..renamed], fs.tree) && (ok ==> renamed == |plan.renames|)
    ensures fs.calm && CollisionFree(old(fs.tree), plan.renames) ==> ok
    ensures ok && CollisionFree(old(fs.tree), plan.renames) ==>
              keepFinal == plan.keepFinal + (if ext.None? then RenamedIds(plan.renames) else {})
  {
    ghost var t, rs, free, was := fs.tree, plan.renames, CollisionFree(fs.tree, plan.renames), fs.replaced;
    var ids: set<nat> := {};
    renamed, skipped, ok, keepFinal := 0, [], true, plan.keepFinal;
    NothingDone(t, rs);
    if free { RunIsAll(t, fs.unread, rs); }
    for k := 0 to |plan.renames|
      invariant fs.Valid() && ok && Tears(was, fs.replaced, UnreadTargets(fs.unread, rs))
      invariant free ==>
                  DoneUpTo(t, rs, k, fs.tree, ids) && renamed == k && skipped == [] && fs.replaced == was
      invariant fs.calm ==> RunsTo(t, fs.unread, rs, k, Some(fs.tree), was, fs.replaced)
    {
      if fs.calm { RunNext(t, fs.unread, rs, k, fs.tree, was, fs.replaced); }
      var done := RenameOne(fs, plan.renames[k], t, rs, k, ids, free);
      match done {
        case Failed =>
          ok := false;
          if fs.calm { NoRunLater(t, fs.unread, rs, k + 1, was, fs.replaced); }
          return;
        case Same =>
        case TargetExists => skipped := skipped + [plan.renames[k].from];
        case Done => renamed, ids := renamed + 1, ids + {plan.renames[k].fileId};
      }
    }
    assert rs[..|rs|] == rs;
    if ext.None? { keepFinal := keepFinal + ids; }
  }

  datatype Renamed = Failed | Same | TargetExists | Done

  method RenameOne(fs: FileSystem, r: Rename, ghost t: Tree, ghost rs: seq<Rename>, ghost k: nat, ghost ids: set<nat>,
                   ghost free: bool) returns (o: Renamed)
    requires fs.Valid() && WellFormed(t) && k < |rs| && r == rs[k]
    requires free ==> CollisionFree(t, rs) && DoneUpTo(t, rs, k, fs.tree, ids)
    modifies fs
    ensures fs.Valid() && fs.replaced == old(fs.replaced) + if o == Done && r.to in old(fs.tree) then [r.to] else []
    ensures o == Done && r.to in old(fs.tree) ==>
              && r.to in fs.unread && Replaces(old(fs.tree), r.from, r.to)
              && fs.tree == ReplaceTree(old(fs.tree), r.from, r.to) && fs.loc == ReplaceLoc(old(fs.loc), r.from, r.to)
    ensures o == Done && r.to !in old(fs.tree) ==>
              && CanRename(old(fs.tree), r.from, r.to) && fs.tree == RenameTree(old(fs.tree), r.from, r.to)
              && fs.loc == ShiftAll(old(fs.loc), r.from, r.to)
    ensures o != Done ==> fs.tree == old(fs.tree) && fs.loc == old(fs.loc)
    ensures fs.calm ==> RunsAs(OneRun(old(fs.tree), fs.unread, r), OneTears(old(fs.tree), fs.unread, r),
                          old(fs.replaced), fs.replaced, fs.tree, !o.Failed?)
    ensures free ==> (o == Done || o == Failed) && fs.replaced == old(fs.replaced)
    ensures free && o == Done ==> DoneUpTo(t, rs, k + 1, fs.tree, ids + {r.fileId})
  {
    if free { NextFree(t, rs, k, fs.tree, ids); }
    if r.from == r.to { return Same; }
    if Seen(fs.tree, fs.unread, r.to) { return TargetExists; }
    ghost var before := fs.tree;
    var done := fs.Rename(r.from, r.to);
    if done.Err? { return Failed; }
    if free { DoneStep(t, rs, k, before, fs.tree, ids); }
    o := Done;
  }

  /** What a run in which nothing fails has come to after `k` renames. */
  ghost predicate RunsTo(t: Tree, unread: set<Path>, rs: seq<Rename>, k: nat, u: Option<Tree>, was: seq<Path>,
                         now: seq<Path>)
    requires k <= |rs|
  {
    RenamesRun(t, unread, rs[..k]) == u && now == was + RenamesTears(t, unread, rs[..k])
  }

  lemma RunNext(t: Tree, unread: set<Path>, rs: seq<Rename>, k: nat, u: Tree, was: seq<Path>, now: seq<Path>)
    requires k < |rs| && RunsTo(t, unread, rs, k, Some(u), was, now)
    ensures RunsTo(t, unread, rs, k + 1, OneRun(u, unread, rs[k]), was, now + OneTears(u, unread, rs[k]))
  {
    var first, tears := rs[..k + 1], RenamesTears(t, unread, rs[..k]);
    assert first[..k] == rs[..k];
    assert (was + tears) + OneTears(u, unread, rs[k]) == was + (tears + OneTears(u, unread, rs[k]));
  }

  lemma {:induction false} NoRunLater(t: Tree, unread: set<Path>, rs: seq<Rename>, k: nat, was: seq<Path>,
                                      now: seq<Path>)
    requires k <= |rs| && RunsTo(t, unread, rs, k, None, was, now)
    ensures RenamesRun(t, unread, rs).None? && now == was + RenamesTears(t, unread, rs)
  {
    if k < |rs| {
      assert rs[..|rs| - 1][..k] == rs[..k];
      NoRunLater(t, unread, rs[..|rs| - 1], k, was, now);
    } else {
      assert rs[..k] == rs;
    }
  }

  /** When nothing fails, a collision-free plan is carried out completely. */
  lemma {:induction false} RunIsAll(t: Tree, unread: set<Path>, rs: seq<Rename>)
    requires WellFormed(t) && CollisionFree(t, rs)
    ensures RenamesRun(t, unread, rs) == Some(ApplyAll(t, rs))
  {
    if rs != [] {
      var k := |rs| - 1;
      CollisionFreePrefix(t, rs, k);
      RunIsAll(t, unread, rs[..k]);
      ApplyAllAtOnce(t, rs[..k]);
      CanRenameNext(t, rs, ApplyAll(t, rs[..k]));
      assert MovesBeside(t, rs[k]);
    }
  }

  /** A target that has come to be there since the plan was made, and that cannot be read, is
      overwritten: its content is nowhere any more. */
  method UnseenTargetIsLost(fs: FileSystem, plan: AdoptPlan, ext: Option<string>, r: Rename)
      returns (ok: bool, keepFinal: set<nat>, renamed: nat, skipped: seq<Path>)
    requires fs.Valid() && fs.calm && plan.renames == [r] && DistinctContents(fs.tree)
    requires IsFile(fs.tree, r.from) && IsFile(fs.tree, r.to) && r.from != r.to && r.to in fs.unread
    modifies fs
    ensures ok && forall p :: p in fs.tree ==> fs.tree[p] != old(fs.tree)[r.to]
    ensures fs.Valid() && fs.replaced == old(fs.replaced) + [r.to]
  {
    ghost var t := fs.tree;
    OneRenameRuns(t, fs.unread, r);
    ok, keepFinal, renamed, skipped := ApplyAdoption(fs, plan, ext);
    forall p | p in fs.tree ensures fs.tree[p] != t[r.to] {
      ReplacedIsGone(t, r.from, r.to, p);
    }
  }

  lemma OneRenameRuns(t: Tree, unread: set<Path>, r: Rename)
    requires IsFile(t, r.from) && IsFile(t, r.to) && r.from != r.to && r.to in unread && r.from != []
    ensures RenamesRun(t, unread, [r]) == Some(ReplaceTree(t, r.from, r.to))
    ensures RenamesTears(t, unread, [r]) == [r.to]
  {
    var none: seq<Rename> := [];
    assert [r][..0] == none && RenamesRun(t, unread, none) == Some(t) && RenamesTears(t, unread, none) == [];
    assert OneRun(t, unread, r) == Some(ReplaceTree(t, r.from, r.to)) && OneTears(t, unread, r) == [r.to];
  }

  lemma NothingDone(t: Tree, rs: seq<Rename>)
    ensures DoneUpTo(t, rs, 0, t, {})
  {
    assert rs[..0] == [];
    forall p ensures RestSame(t, rs[..0], t, p) {
    }
  }

  lemma CollisionFreePrefix(t: Tree, rs: seq<Rename>, k: nat)
    requires CollisionFree(t, rs) && k <= |rs|
    ensures CollisionFree(t, rs[..k])
  {
  }

  lemma NextFree(t: Tree, rs: seq<Rename>, k: nat, now: Tree, ids: set<nat>)
    requires CollisionFree(t, rs) && k < |rs| && DoneUpTo(t, rs, k, now, ids)
    ensures rs[k].to !in now && rs[k].from != rs[k].to
  {
    assert !IsTarget(rs[..k], rs[k].to);
    assert RestSame(t, rs[..k], now, rs[k].to);
  }

  lemma DoneStep(t: Tree, rs: seq<Rename>, k: nat, now: Tree, after: Tree, ids: set<nat>)
    requires CollisionFree(t, rs) && k < |rs| && WellFormed(t) && WellFormed(now) && DoneUpTo(t, rs, k, now, ids)
    requires after == RenameTree(now, rs[k].from, rs[k].to)
    ensures DoneUpTo(t, rs, k + 1, after, ids + {rs[k].fileId})
  {
    CollisionFreePrefix(t, rs, k + 1);
    DoneLast(t, rs[..k + 1], now, after, k, rs[..k], ids);
  }

  lemma DoneLast(t: Tree, ss: seq<Rename>, now: Tree, after: Tree, k: nat, before: seq<Rename>, ids: set<nat>)
    requires |ss| == k + 1 && before == ss[..k] && CollisionFree(t, ss) && WellFormed(t) && WellFormed(now)
    requires AllAtOnce(t, before, now) && ids == RenamedIds(before) && after == RenameTree(now, ss[k].from, ss[k].to)
    ensures AllAtOnce(t, ss, after) && RenamedIds(ss) == ids + {ss[k].fileId}
  {
    CanRenameNext(t, ss, now);
    StepAtOnce(t, ss, now);
    IdsSnoc(before, ss[k]);
    assert ss == before + [ss[k]];
  }

  lemma IdsSnoc(rs: seq<Rename>, r: Rename)
    ensures RenamedIds(rs + [r]) == RenamedIds(rs) + {r.fileId}
  {
  }
}
