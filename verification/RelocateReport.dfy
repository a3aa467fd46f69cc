/** When the report of a relocation is right. */
module RelocationReports {
  import opened Prelude
  import opened FileTrees
  import opened FileSystems
  import opened Moving
  import opened MergePlaces
  import opened Merging
  import opened RelocationPlans
  import opened Relocation

  /** The turns take every file on disk to its own target. */
  ghost predicate PlanFits(t: Tree, pick: Order, unread: set<Path>, plan: Plan, c: Choice) {
    forall i :: 0 <= i < |plan.files| && OnDisk(t, plan, i) ==>
      FinalPlace(t, pick, unread, plan, c, plan.files[i].current) == Goals(plan, c)[i]
  }

  /** No planned file was replaced. */
  ghost predicate AllSurvive(t: Tree, l: map<Path, Path>, plan: Plan) {
    forall i :: 0 <= i < |plan.files| && OnDisk(t, plan, i) ==> plan.files[i].current in l
  }

  /** Without an error, every file is where it is reported exactly when the plan fits and none of them
      was replaced. */
  lemma FoundIff(t0: Tree, initial: map<Path, Content>, l0: map<Path, Path>, l: map<Path, Path>, pick: Order,
                 unread: set<Path>, plan: Plan, c: Choice, o: Outcome)
    requires AtHome(t0, initial, l0) && |o.paths| == |plan.files| && RunDone(t0, l, pick, unread, plan, c, o)
    ensures AllFound(t0, l, plan, o.paths) <==> PlanFits(t0, pick, unread, plan, c) && AllSurvive(t0, l, plan)
  {
    forall i | 0 <= i < |o.paths| && OnDisk(t0, plan, i) ensures o.paths[i].1 == Goals(plan, c)[i] {
    }
  }

  /** With nothing left behind and no two files alike, the contents are as reported exactly when
      the plan fits and no planned file was replaced. */
  lemma ReportedIff(t0: Tree, initial: map<Path, Content>, l0: map<Path, Path>, t: Tree, l: map<Path, Path>,
                    pick: Order, unread: set<Path>, plan: Plan, c: Choice, o: Outcome)
    requires AtHome(t0, initial, l0) && Held(initial, t, l) && |o.paths| == |plan.files|
             && RunDone(t0, l, pick, unread, plan, c, o)
    requires NoStray(t, l) && DistinctContents(t0)
    ensures AllReported(t0, t, plan, o.paths) <==> PlanFits(t0, pick, unread, plan, c) && AllSurvive(t0, l, plan)
  {
    FoundIff(t0, initial, l0, l, pick, unread, plan, c, o);
    HomeFacts(t0, initial, l0);
    FoundIsReported(t0, initial, l0, t, l, plan, o.paths);
  }

  lemma FoundIsReported(t0: Tree, initial: map<Path, Content>, l0: map<Path, Path>, t: Tree, l: map<Path, Path>,
                        plan: Plan, paths: seq<(nat, Path)>)
    requires AtHome(t0, initial, l0) && Held(initial, t, l) && |paths| == |plan.files|
    requires NoStray(t, l) && DistinctContents(t0)
    ensures AllReported(t0, t, plan, paths) <==> AllFound(t0, l, plan, paths)
  {
    forall i | 0 <= i < |paths| && OnDisk(t0, plan, i)
      ensures (paths[i].1 in t && t[paths[i].1] == t0[plan.files[i].current]) <==>
              plan.files[i].current in l && paths[i].1 == l[plan.files[i].current]
    {
      ContentTells(t0, initial, l0, t, l, plan.files[i].current, paths[i].1);
    }
  }

  lemma ContentTells(t0: Tree, initial: map<Path, Content>, l0: map<Path, Path>, t: Tree, l: map<Path, Path>,
                     cur: Path, p: Path)
    requires AtHome(t0, initial, l0) && Held(initial, t, l) && NoStray(t, l) && DistinctContents(t0)
             && IsFile(t0, cur)
    ensures (p in t && t[p] == t0[cur]) <==> cur in l && p == l[cur]
  {
    HomeFacts(t0, initial, l0);
    assert cur in l0;
    if cur in l { assert AtPlace(t, l[cur], initial[cur]); }
    if p in t && t[p] == t0[cur] {
      assert IsFile(t, p);
      var q :| q in l && l[q] == p;
      assert AtPlace(t, l[q], initial[q]) && IsFile(t0, q);
    }
  }

  /** A relocation on one device in which nothing fails but reading the metadata of some paths, of
      files that are all different: it is reported right exactly when the plan fits and no planned file
      was replaced. */
  method RelocateCalmly(fs: FileSystem, plan: Plan, pid: nat, b: Blind) returns (o: Outcome, ghost c: Choice)
    requires fs.Valid() && fs.Untouched() && fs.calm && !plan.copy && DistinctContents(fs.tree)
    modifies fs
    ensures fs.Valid() && Tears([], fs.replaced, MayReplace(fs, plan, c)) && |o.paths| == |plan.files|
    ensures ChoiceRight(old(fs.tree), fs.unread, plan, pid, b, c) && CalmRight(fs, old(fs.tree), plan, c, o)
    ensures o.error.None? ==>
              (AllReported(old(fs.tree), fs.tree, plan, o.paths) <==>
                 PlanFits(old(fs.tree), fs.pick, fs.unread, plan, c) && AllSurvive(old(fs.tree), fs.loc, plan))
    ensures WholeTears(old(fs.tree), fs.pick, fs.unread, fs.noReplace, plan, c) == [] ==>
              AllSurvive(old(fs.tree), fs.loc, plan)
  {
    ghost var t0, l0 := fs.tree, fs.loc;
    Untouched(fs);
    ghost var end: Option<nat>;
    o, c, end := Execute(fs, plan, pid, b);
    if o.error.None? { ReportedIff(t0, fs.initial, l0, fs.tree, fs.loc, fs.pick, fs.unread, plan, c, o); }
  }

  // ------------------------------------------------------------- plans that do not fit

  /** Files are moved one by one from `o` to `n`, and no target is taken. */
  ghost predicate FromTo(t: Tree, plan: Plan, o: Name, n: Name) {
    && o != n && plan.oldOutput == [o] && plan.newOutput == [n] && !plan.wholeFolder && !plan.copy
    && WellFormed(t) && IsDir(t, [o]) && IsDir(t, [n])
  }

  lemma ChoiceFromTo(t: Tree, unread: set<Path>, plan: Plan, o: Name, n: Name, pid: nat, b: Blind, c: Choice)
    requires FromTo(t, plan, o, n) && !AnyClash(t, unread, plan) && ChoiceRight(t, unread, plan, pid, b, c)
    ensures c == Each([n], None)
  {
  }

  /** File 0 goes from `o/x` to `n/x`, which is where file 1 is registered, which is missing and
      goes to `n/y`. */
  ghost predicate MissingExample(t: Tree, plan: Plan, o: Name, n: Name, x: Name, y: Name) {
    && FromTo(t, plan, o, n) && !AnyClash(t, {}, plan) && x != y && IsFile(t, [o, x]) && [n, x] !in t && [n, y] !in t
    && |plan.files| == 2
    && plan.files[0].current == [o, x] && plan.files[0].rel == [x]
    && plan.files[1].current == [n, x] && plan.files[1].rel == [y]
  }

  lemma UnderAt(p: Path, root: Path, i: nat)
    requires i < |root|
    ensures Under(p, root) ==> i < |p| && p[i] == root[i]
  {
  }

  lemma JoinOne(n: Name, x: Name)
    ensures Join([n], [x]) == [n, x] && Parent([n, x]) == [n]
  {
  }

  /** The tree after a file has gone from `o/x` to `n/x`. */
  lemma FileGone(t: Tree, o: Name, n: Name, x: Name, y: Name)
    requires WellFormed(t) && o != n && x != y && IsFile(t, [o, x]) && IsDir(t, [n]) && [n, x] !in t && [n, y] !in t
    ensures CanRename(t, [o, x], [n, x])
    ensures var u := RenameTree(t, [o, x], [n, x]);
            [o, x] !in u && IsFile(u, [n, x]) && CanRename(u, [n, x], [n, y])
  {
    JoinOne(n, x);
    JoinOne(n, y);
    var src, dst := [o, x], [n, x];
    UnderAt(dst, src, 0);
    UnderAt(src, dst, 0);
    UnderAt([n, y], dst, 1);
    UnderAt([n], src, 1);
    UnderAt([n], dst, 1);
    UnderAt([n, y], src, 0);
    RenameAt(t, src, dst, src);
    RenameAt(t, src, dst, dst);
    RenameAt(t, src, dst, [n, y]);
    RenameAt(t, src, dst, [n]);
    RenameWellFormed(t, src, dst);
    assert Rebase(dst, dst, src) == src;
  }

  lemma MissingRuns(t: Tree, pick: Order, noReplace: bool, plan: Plan, o: Name, n: Name, x: Name, y: Name)
    requires MissingExample(t, plan, o, n, x, y)
    ensures WholeRun(t, pick, {}, noReplace, plan, Each([n], None)).Some?
  {
    var w := CourseOf(plan, Each([n], None), {});
    JoinOne(n, x);
    JoinOne(n, y);
    assert w.to[0] == [n, x] && w.to[1] == [n, y];
    FileGone(t, o, n, x, y);
    var u := RenameTree(t, [o, x], [n, x]);
    var v := RenameTree(u, [n, x], [n, y]);
    MoveIsRename(t, {}, noReplace, [o, x], [n, x]);
    MoveIsRename(u, {}, noReplace, [n, x], [n, y]);
    TwoTurns(t, u, v, w, noReplace);
  }

  lemma TwoTurns(t: Tree, u: Tree, v: Tree, w: Course, noReplace: bool)
    requires |w.to| == |w.plan.files| == 2 && !Idle(t, w, 0) && !Idle(u, w, 1)
    requires MoveRun(t, w.unread, noReplace, w.plan.copy, w.plan.files[0].current, w.to[0]) == Some(u)
    requires MoveRun(u, w.unread, noReplace, w.plan.copy, w.plan.files[1].current, w.to[1]) == Some(v)
    ensures TurnsRun(t, w, noReplace, 0) == Some(v)
  {
    TurnThenRest(t, w, noReplace, 0);
    TurnThenRest(u, w, noReplace, 1);
  }

  lemma MissingDoesNotFit(t: Tree, pick: Order, plan: Plan, o: Name, n: Name, x: Name, y: Name)
    requires MissingExample(t, plan, o, n, x, y)
    ensures var c := Each([n], None); !PlanFits(t, pick, {}, plan, c) && !Safe(t, CourseOf(plan, c, {}))
  {
    var c := Each([n], None);
    var w, to := CourseOf(plan, c, {}), Goals(plan, c);
    JoinOne(n, x);
    JoinOne(n, y);
    assert to[0] == [n, x] && to[1] == [n, y];
    assert Track(w, 1, [o, x]) == [n, x];
    assert Track(w, 2, [o, x]) == [n, y];
    assert OnDisk(t, plan, 0) && !OnDisk(t, plan, 1)
           && Under(PlaceAtTurn(w, 0, 1), plan.files[1].current);
  }

  /** A missing file that is registered where another one is put takes that one away from its
      reported place. */
  method MissingFileTakesAnother(fs: FileSystem, plan: Plan, pid: nat, b: Blind, o: Name, n: Name, x: Name, y: Name)
    returns (r: Outcome)
    requires fs.Valid() && fs.Untouched() && fs.calm && fs.unread == {} && DistinctContents(fs.tree)
             && MissingExample(fs.tree, plan, o, n, x, y)
    modifies fs
    ensures r.error.None? && |r.paths| == |plan.files| && !AllReported(old(fs.tree), fs.tree, plan, r.paths)
  {
    ghost var t0 := fs.tree;
    ghost var c: Choice;
    r, c := RelocateCalmly(fs, plan, pid, b);
    ChoiceFromTo(t0, fs.unread, plan, o, n, pid, b, c);
    MissingRuns(t0, fs.pick, fs.noReplace, plan, o, n, x, y);
    MissingDoesNotFit(t0, fs.pick, plan, o, n, x, y);
  }

  /** Files 0 and 1 are both registered at `o/x`, and go to `n/x` and `n/y`. */
  ghost predicate SharedExample(t: Tree, plan: Plan, o: Name, n: Name, x: Name, y: Name) {
    && FromTo(t, plan, o, n) && !AnyClash(t, {}, plan) && x != y && IsFile(t, [o, x]) && [n, x] !in t && [n, y] !in t
    && |plan.files| == 2
    && plan.files[0].current == [o, x] && plan.files[0].rel == [x]
    && plan.files[1].current == [o, x] && plan.files[1].rel == [y]
  }

  lemma SharedDoesNotFit(t: Tree, pick: Order, noReplace: bool, plan: Plan, o: Name, n: Name, x: Name, y: Name)
    requires SharedExample(t, plan, o, n, x, y)
    ensures var c := Each([n], None);
            && WholeRun(t, pick, {}, noReplace, plan, c).Some? && !PlanFits(t, pick, {}, plan, c)
            && !Safe(t, CourseOf(plan, c, {}))
  {
    var c := Each([n], None);
    var w, to := CourseOf(plan, c, {}), Goals(plan, c);
    JoinOne(n, x);
    JoinOne(n, y);
    assert to[0] == [n, x] && to[1] == [n, y];
    FileGone(t, o, n, x, y);
    var u := RenameTree(t, [o, x], [n, x]);
    MoveIsRename(t, {}, noReplace, [o, x], [n, x]);
    assert TurnsRun(u, w, noReplace, 1) == Some(u);
    assert Track(w, 1, [o, x]) == [n, x];
    assert Track(w, 2, [o, x]) == [n, x];
    assert OnDisk(t, plan, 0) && OnDisk(t, plan, 1);
  }

  /** Of two files registered at one path, the second is reported where it is not. */
  method SharedPathMisreports(fs: FileSystem, plan: Plan, pid: nat, b: Blind, o: Name, n: Name, x: Name, y: Name)
    returns (r: Outcome)
    requires fs.Valid() && fs.Untouched() && fs.calm && fs.unread == {} && DistinctContents(fs.tree)
             && SharedExample(fs.tree, plan, o, n, x, y)
    modifies fs
    ensures r.error.None? && |r.paths| == |plan.files| && !AllReported(old(fs.tree), fs.tree, plan, r.paths)
  {
    ghost var t0 := fs.tree;
    ghost var c: Choice;
    r, c := RelocateCalmly(fs, plan, pid, b);
    ChoiceFromTo(t0, fs.unread, plan, o, n, pid, b, c);
    SharedDoesNotFit(t0, fs.pick, fs.noReplace, plan, o, n, x, y);
  }

  /** File 0 is registered at the directory `o/d` and goes to `n/e`; file 1 is `o/d/x` and goes to
      `n/x`. */
  ghost predicate DirExample(t: Tree, plan: Plan, o: Name, n: Name, d: Name, e: Name, x: Name) {
    && FromTo(t, plan, o, n) && !AnyClash(t, {}, plan) && IsDir(t, [o, d]) && IsFile(t, [o, d, x]) && [n, e] !in t
    && |plan.files| == 2
    && plan.files[0].current == [o, d] && plan.files[0].rel == [e]
    && plan.files[1].current == [o, d, x] && plan.files[1].rel == [x]
  }

  lemma DirDoesNotFit(t: Tree, pick: Order, noReplace: bool, plan: Plan, o: Name, n: Name, d: Name, e: Name, x: Name)
    requires DirExample(t, plan, o, n, d, e, x)
    ensures var c := Each([n], None);
            && WholeRun(t, pick, {}, noReplace, plan, c).Some? && !PlanFits(t, pick, {}, plan, c)
            && !Safe(t, CourseOf(plan, c, {}))
  {
    var c := Each([n], None);
    var w, to := CourseOf(plan, c, {}), Goals(plan, c);
    JoinOne(n, e);
    JoinOne(n, x);
    assert to[0] == [n, e] && to[1] == [n, x];
    UnderAt([n, e], [o, d], 0);
    UnderAt([o, d, x], [n, e], 0);
    UnderAt([n, e, x], [o, d, x], 0);
    assert CanRename(t, [o, d], [n, e]);
    var u := RenameTree(t, [o, d], [n, e]);
    RenameAt(t, [o, d], [n, e], [o, d, x]);
    MoveIsRename(t, {}, noReplace, [o, d], [n, e]);
    assert TurnsRun(u, w, noReplace, 1) == Some(u);
    assert Rebase([o, d, x], [o, d], [n, e]) == [n, e, x];
    assert Track(w, 1, [o, d, x]) == [n, e, x];
    assert Track(w, 2, [o, d, x]) == [n, e, x];
    assert OnDisk(t, plan, 1) && !OnDisk(t, plan, 0)
           && Under(PlaceAtTurn(w, 1, 0), plan.files[0].current);
  }

  /** A file registered at a directory takes along another one that is in it. */
  method DirectoryTakesAnother(fs: FileSystem, plan: Plan, pid: nat, b: Blind, o: Name, n: Name, d: Name, e: Name,
                               x: Name)
    returns (r: Outcome)
    requires fs.Valid() && fs.Untouched() && fs.calm && fs.unread == {} && DistinctContents(fs.tree)
             && DirExample(fs.tree, plan, o, n, d, e, x)
    modifies fs
    ensures r.error.None? && |r.paths| == |plan.files| && !AllReported(old(fs.tree), fs.tree, plan, r.paths)
  {
    ghost var t0 := fs.tree;
    ghost var c: Choice;
    r, c := RelocateCalmly(fs, plan, pid, b);
    ChoiceFromTo(t0, fs.unread, plan, o, n, pid, b, c);
    DirDoesNotFit(t0, fs.pick, fs.noReplace, plan, o, n, d, e, x);
  }

  // ------------------------------------------------------------- paths that cannot be read

  /** The only file goes from `o/x` to `n/x`. */
  ghost predicate SingleExample(t: Tree, plan: Plan, o: Name, n: Name, x: Name) {
    && FromTo(t, plan, o, n) && IsFile(t, [o, x]) && |plan.files| == 1
    && plan.files[0].current == [o, x] && plan.files[0].rel == [x]
  }

  lemma SingleIsSafe(t: Tree, unread: set<Path>, plan: Plan, o: Name, n: Name, x: Name)
    requires SingleExample(t, plan, o, n, x)
    ensures var c := Each([n], None);
            && Safe(t, CourseOf(plan, c, unread)) && Apart(t, plan, c) && NoneAtDirs(t, CourseOf(plan, c, unread))
            && Goals(plan, c) == [[n, x]]
  {
    JoinOne(n, x);
  }

  lemma NoClashSeen(t: Tree, unread: set<Path>, plan: Plan, o: Name, n: Name, x: Name)
    requires SingleExample(t, plan, o, n, x) && !Seen(t, unread, [n, x])
    ensures !AnyClash(t, unread, plan) && !IntoItself(plan)
  {
    JoinOne(n, x);
  }

  lemma SkippedDoesNotFit(t: Tree, pick: Order, unread: set<Path>, nr: bool, plan: Plan, o: Name, n: Name, x: Name)
    requires SingleExample(t, plan, o, n, x) && [o, x] in unread
    ensures var c := Each([n], None);
            WholeRun(t, pick, unread, nr, plan, c) == Some(t) && !PlanFits(t, pick, unread, plan, c)
  {
    var c := Each([n], None);
    var w := CourseOf(plan, c, unread);
    SingleIsSafe(t, unread, plan, o, n, x);
    assert TurnsRun(t, w, nr, 1) == Some(t);
    assert Track(w, 1, [o, x]) == [o, x];
    assert OnDisk(t, plan, 0);
  }

  /** A file whose metadata cannot be read is taken for missing: it stays, and is reported at its
      target, without an error, although the plan is safe. */
  method UnreadableFileIsMisreported(fs: FileSystem, plan: Plan, pid: nat, b: Blind, o: Name, n: Name, x: Name)
    returns (r: Outcome)
    requires fs.Valid() && fs.Untouched() && fs.calm && DistinctContents(fs.tree)
    requires SingleExample(fs.tree, plan, o, n, x) && [o, x] in fs.unread && [n, x] !in fs.tree
    modifies fs
    ensures Safe(old(fs.tree), CourseOf(plan, Each([n], None), fs.unread))
    ensures r.error.None? && |r.paths| == 1 && !AllReported(old(fs.tree), fs.tree, plan, r.paths)
  {
    ghost var t0 := fs.tree;
    ghost var c: Choice;
    NoClashSeen(t0, fs.unread, plan, o, n, x);
    SingleIsSafe(t0, fs.unread, plan, o, n, x);
    SkippedDoesNotFit(t0, fs.pick, fs.unread, fs.noReplace, plan, o, n, x);
    r, c := RelocateCalmly(fs, plan, pid, b);
    ChoiceFromTo(t0, fs.unread, plan, o, n, pid, b, c);
  }

  lemma TargetIsReplaced(t: Tree, pick: Order, unread: set<Path>, plan: Plan, o: Name, n: Name, x: Name)
    requires SingleExample(t, plan, o, n, x) && [o, x] !in unread && [n, x] in unread && IsFile(t, [n, x])
    ensures WholeRun(t, pick, unread, false, plan, Each([n], None)) == Some(ReplaceTree(t, [o, x], [n, x]))
    ensures WholeTears(t, pick, unread, false, plan, Each([n], None)) == [[n, x]]
  {
    var w := CourseOf(plan, Each([n], None), unread);
    SingleIsSafe(t, unread, plan, o, n, x);
    var u := ReplaceTree(t, [o, x], [n, x]);
    assert [o, x][0] != [n, x][0];
    JoinOne(n, x);
    MoveIsRename(t, unread, false, [o, x], [n, x]);
    assert TurnsRun(u, w, false, 1) == Some(u) && TurnsTears(u, w, false, 1) == [];
  }

  /** Where the system cannot be asked to replace nothing, a target whose metadata cannot be read is
      overwritten: its content is nowhere any more. Nothing else is replaced. */
  method UnseenTargetIsLost(fs: FileSystem, plan: Plan, pid: nat, b: Blind, o: Name, n: Name, x: Name)
    returns (r: Outcome)
    requires fs.Valid() && fs.Untouched() && fs.calm && !fs.noReplace && DistinctContents(fs.tree)
    requires SingleExample(fs.tree, plan, o, n, x) && [o, x] !in fs.unread
    requires [n, x] in fs.unread && IsFile(fs.tree, [n, x])
    modifies fs
    ensures r.error.None? && forall p :: p in fs.tree ==> fs.tree[p] != old(fs.tree)[[n, x]]
    ensures fs.Valid() && fs.replaced == [[n, x]]
  {
    ghost var t0 := fs.tree;
    ghost var c: Choice;
    NoClashSeen(t0, fs.unread, plan, o, n, x);
    r, c := RelocateCalmly(fs, plan, pid, b);
    ChoiceFromTo(t0, fs.unread, plan, o, n, pid, b, c);
    TargetIsReplaced(t0, fs.pick, fs.unread, plan, o, n, x);
    forall p | p in fs.tree ensures fs.tree[p] != t0[[n, x]] {
      ReplacedIsGone(t0, [o, x], [n, x], p);
    }
  }

  // ------------------------------------------------------------- a folder merged into its container

  /** A folder `a/q` that holds a file `a/q/q/z/y` and a directory `a/q/z`, while `a/z` is free. */
  ghost predicate Nested(t: Tree, a: Name, q: Name, z: Name, y: Name) {
    && WellFormed(t) && q != z && IsFile(t, [a, q, q, z, y]) && IsDir(t, [a, q, z]) && [a, q, z, y] !in t
    && [a, z] !in t
    && Children(t, [a, q]) == {q, z} && Children(t, [a, q, q]) == {z} && Children(t, [a, q, q, z]) == {y}
  }

  lemma NestedDirs(t: Tree, a: Name, q: Name, z: Name, y: Name)
    requires Nested(t, a, q, z, y)
    ensures IsDir(t, [a]) && IsDir(t, [a, q]) && IsDir(t, [a, q, q]) && IsDir(t, [a, q, q, z])
  {
    var x := [a, q, q, z, y];
    assert x[..1] == [a] && x[..2] == [a, q] && x[..3] == [a, q, q] && x[..4] == [a, q, q, z];
    AncestorsAreDirs(t, x, x[..1]);
    AncestorsAreDirs(t, x, x[..2]);
    AncestorsAreDirs(t, x, x[..3]);
    AncestorsAreDirs(t, x, x[..4]);
  }

  /** It is moved to `a`, where it is merged; `q` is listed before `z`. */
  ghost predicate MergeExample(t: Tree, pick: Order, plan: Plan, a: Name, q: Name, z: Name, y: Name) {
    && Nested(t, a, q, z, y) && Lists(pick) && pick([a, q], {q, z}) == q
    && plan.oldOutput == [a, q] && plan.newOutput == [a] && plan.wholeFolder && !plan.copy
    && |plan.files| == 1 && plan.files[0].current == [a, q, q, z, y]
  }

  /** The smallest such tree. */
  lemma SomeNested(a: Name, q: Name, z: Name, y: Name, c: Content) returns (t: Tree)
    requires q != z
    ensures Nested(t, a, q, z, y)
  {
    t := map[[] := Dir, [a] := Dir, [a, q] := Dir, [a, q, q] := Dir, [a, q, q, z] := Dir, [a, q, q, z, y] := File(c),
             [a, q, z] := Dir];
    assert Parent([a]) == [] && Parent([a, q]) == [a] && Parent([a, q, q]) == [a, q] && Parent([a, q, z]) == [a, q];
    assert Parent([a, q, q, z]) == [a, q, q] && Parent([a, q, q, z, y]) == [a, q, q, z];
    forall n ensures n in Children(t, [a, q]) <==>
      n in {q, z} { ChildIff(t, [a, q], n); assert [a, q] + [n] == [a, q, n]; }
    forall n ensures n in Children(t, [a, q, q]) <==>
      n == z { ChildIff(t, [a, q, q], n); assert [a, q, q] + [n] == [a, q, q, n]; }
    forall n ensures n in Children(t, [a, q, q, z]) <==> n == y {
      ChildIff(t, [a, q, q, z], n);
      assert [a, q, q, z] + [n] == [a, q, q, z, n];
    }
  }

  lemma ChildIff(t: Tree, p: Path, n: Name)
    ensures n in Children(t, p) <==> p + [n] in t
  {
    if n in Children(t, p) { ChildPath(t, p, n); }
    if p + [n] in t { assert Under(p + [n], p) && (p + [n])[|p|] == n; }
  }

  /** The tree without a directory, if that is empty. */
  function Dropped(t: Tree, p: Path): Tree {
    if CanRemove(t, p) then t - {p} else t
  }

  lemma DroppedFacts(t: Tree, p: Path)
    requires WellFormed(t)
    ensures WellFormed(Dropped(t, p)) && forall x :: x != p ==> (x in Dropped(t, p) <==> x in t)
    ensures forall x :: x in Dropped(t, p) ==> Dropped(t, p)[x] == t[x]
  {
    if CanRemove(t, p) { RemovedWellFormed(t, p); }
  }

  lemma NoEntries(t: Tree, pick: Order, nr: bool, src: Path, dst: Path)
    requires |src| < MAX_DEPTH
    ensures EntriesRun(t, pick, {}, nr, false, src, dst, {}) == Some(t)
  {
  }

  lemma OneMore(t: Tree, pick: Order, nr: bool, src: Path, dst: Path, left: set<Name>, e: Name, rest: set<Name>,
                u: Tree, w: Option<Tree>)
    requires |src| < MAX_DEPTH && e in left && pick(src, left) == e && rest == left - {e}
    requires EntryRun(t, pick, {}, nr, false, src, dst, e) == Some(u)
             && EntriesRun(u, pick, {}, nr, false, src, dst, rest) == w
    ensures EntriesRun(t, pick, {}, nr, false, src, dst, left) == w
  {
  }

  lemma AllEntries(t: Tree, pick: Order, nr: bool, src: Path, dst: Path, names: set<Name>, v: Tree)
    requires CanList(t, src) && Children(t, src) == names
             && EntriesRun(t, pick, {}, nr, false, src, dst, names) == Some(v)
    ensures MergeRun(t, pick, {}, nr, false, src, dst) == Some(Dropped(v, src))
  {
  }

  lemma LastEntry(t: Tree, pick: Order, nr: bool, src: Path, dst: Path, e: Name, u: Tree)
    requires Lists(pick) && |src| < MAX_DEPTH && EntryRun(t, pick, {}, nr, false, src, dst, e) == Some(u)
    ensures EntriesRun(t, pick, {}, nr, false, src, dst, {e}) == Some(u)
  {
    assert pick(src, {e}) in {e};
    NoEntries(u, pick, nr, src, dst);
    OneMore(t, pick, nr, src, dst, {e}, e, {}, u, Some(u));
  }

  /** A directory with a single entry. */
  lemma OneEntry(t: Tree, pick: Order, nr: bool, src: Path, dst: Path, e: Name, u: Tree)
    requires Lists(pick) && CanList(t, src) && Children(t, src) == {e}
             && EntryRun(t, pick, {}, nr, false, src, dst, e) == Some(u)
    ensures MergeRun(t, pick, {}, nr, false, src, dst) == Some(Dropped(u, src))
  {
    LastEntry(t, pick, nr, src, dst, e, u);
    AllEntries(t, pick, nr, src, dst, {e}, u);
  }

  /** An entry that is a directory on both sides. */
  lemma MergedEntry(t: Tree, pick: Order, nr: bool, src: Path, dst: Path, e: Name, from: Path, to: Path)
    requires |src| < MAX_DEPTH && from == src + [e] && to == dst + [e] && IsDir(t, from) && IsDir(t, to)
    ensures EntryRun(t, pick, {}, nr, false, src, dst, e) == MergeRun(t, pick, {}, nr, false, from, to)
  {
  }

  /** An entry that moves. */
  lemma MovedEntry(t: Tree, pick: Order, nr: bool, src: Path, dst: Path, e: Name, from: Path, to: Path)
    requires |src| < MAX_DEPTH && from == src + [e] && to == dst + [e] && CanRename(t, from, to)
    ensures EntryRun(t, pick, {}, nr, false, src, dst, e) == Some(RenameTree(t, from, to))
  {
    MoveIsRename(t, {}, nr, from, to);
  }

  /** A directory whose single entry moves. */
  lemma OneFile(t: Tree, pick: Order, nr: bool, src: Path, dst: Path, e: Name, from: Path, to: Path, u: Tree)
    requires Lists(pick) && CanList(t, src) && Children(t, src) == {e} && from == src + [e] && to == dst + [e]
    requires CanRename(t, from, to) && u == RenameTree(t, from, to)
    ensures MergeRun(t, pick, {}, nr, false, src, dst) == Some(Dropped(u, src))
  {
    MovedEntry(t, pick, nr, src, dst, e, from, to);
    OneEntry(t, pick, nr, src, dst, e, u);
  }

  /** A directory whose single entry is merged. */
  lemma OneMerged(t: Tree, pick: Order, nr: bool, src: Path, dst: Path, e: Name, from: Path, to: Path, v: Tree)
    requires Lists(pick) && CanList(t, src) && Children(t, src) == {e} && from == src + [e] && to == dst + [e]
    requires IsDir(t, from) && IsDir(t, to) && MergeRun(t, pick, {}, nr, false, from, to) == Some(v)
    ensures MergeRun(t, pick, {}, nr, false, src, dst) == Some(Dropped(v, src))
  {
    MergedEntry(t, pick, nr, src, dst, e, from, to);
    OneEntry(t, pick, nr, src, dst, e, v);
  }

  /** Two entries, one after the other. */
  lemma TwoEntries(t: Tree, pick: Order, nr: bool, src: Path, dst: Path, q: Name, z: Name, u: Tree, v: Tree)
    requires Lists(pick) && CanList(t, src) && q != z && Children(t, src) == {q, z} && pick(src, {q, z}) == q
    requires EntryRun(t, pick, {}, nr, false, src, dst, q) == Some(u)
             && EntryRun(u, pick, {}, nr, false, src, dst, z) == Some(v)
    ensures MergeRun(t, pick, {}, nr, false, src, dst) == Some(Dropped(v, src))
  {
    LastEntry(u, pick, nr, src, dst, z, v);
    assert {q, z} - {q} == {z};
    OneMore(t, pick, nr, src, dst, {q, z}, q, {z}, u, Some(v));
    AllEntries(t, pick, nr, src, dst, {q, z}, v);
  }

  /** The file goes to `a/q/z/y`. */
  lemma FileLands(t: Tree, a: Name, q: Name, z: Name, y: Name) returns (u: Tree)
    requires Nested(t, a, q, z, y)
    ensures CanRename(t, [a, q, q, z, y], [a, q, z, y]) && u == RenameTree(t, [a, q, q, z, y], [a, q, z, y])
    ensures WellFormed(u) && IsDir(u, [a]) && [a, q, z] in u && [a, z] !in u
  {
    var from, to := [a, q, q, z, y], [a, q, z, y];
    NestedDirs(t, a, q, z, y);
    UnderAt(to, from, 2);
    assert Parent(to) == [a, q, z];
    u := RenameTree(t, from, to);
    RenameWellFormed(t, from, to);
    Unmoved(t, from, to, [a], 1);
    Unmoved(t, from, to, [a, q, z], 3);
    Unmoved(t, from, to, [a, z], 1);
  }

  lemma Unmoved(t: Tree, from: Path, to: Path, p: Path, i: nat)
    requires CanRename(t, from, to) && i < |from| && i < |to|
    requires (i < |p| ==> p[i] != from[i] && p[i] != to[i])
    ensures p in RenameTree(t, from, to) <==> p in t
    ensures p in t ==> RenameTree(t, from, to)[p] == t[p]
  {
    UnderAt(p, from, i);
    UnderAt(p, to, i);
    RenameAt(t, from, to, p);
  }

  /** The entry `q` is merged, and the directories it leaves go. */
  lemma FirstEntry(t: Tree, pick: Order, nr: bool, a: Name, q: Name, z: Name, y: Name) returns (u: Tree)
    requires Nested(t, a, q, z, y) && Lists(pick)
    ensures EntryRun(t, pick, {}, nr, false, [a, q], [a], q) == Some(u)
    ensures WellFormed(u) && IsDir(u, [a]) && [a, q, z] in u && [a, z] !in u
  {
    var u1 := FileLands(t, a, q, z, y);
    var u2 := Dropped(u1, [a, q, q, z]);
    u := Dropped(u2, [a, q, q]);
    InnermostRuns(t, pick, nr, a, q, z, y, u1);
    InnerRuns(t, pick, nr, a, q, z, y, u2, u);
    OuterRuns(t, pick, nr, a, q, z, y, u);
    TwoDropped(u1, u2, u, a, q, z);
  }

  lemma OuterRuns(t: Tree, pick: Order, nr: bool, a: Name, q: Name, z: Name, y: Name, u: Tree)
    requires Nested(t, a, q, z, y) && MergeRun(t, pick, {}, nr, false, [a, q, q], [a, q]) == Some(u)
    ensures EntryRun(t, pick, {}, nr, false, [a, q], [a], q) == Some(u)
  {
    NestedDirs(t, a, q, z, y);
    MergedEntry(t, pick, nr, [a, q], [a], q, [a, q, q], [a, q]);
  }

  lemma TwoDropped(t: Tree, u: Tree, v: Tree, a: Name, q: Name, z: Name)
    requires q != z && WellFormed(t) && IsDir(t, [a]) && [a, q, z] in t && [a, z] !in t
    requires u == Dropped(t, [a, q, q, z]) && v == Dropped(u, [a, q, q])
    ensures WellFormed(v) && IsDir(v, [a]) && [a, q, z] in v && [a, z] !in v
  {
    DroppedFacts(t, [a, q, q, z]);
    DroppedFacts(u, [a, q, q]);
    assert [a, q, z][2] != [a, q, q][2];
  }

  lemma InnerRuns(t: Tree, pick: Order, nr: bool, a: Name, q: Name, z: Name, y: Name, v: Tree, u: Tree)
    requires Nested(t, a, q, z, y) && Lists(pick)
    requires MergeRun(t, pick, {}, nr, false, [a, q, q, z], [a, q, z]) == Some(v) && u == Dropped(v, [a, q, q])
    ensures MergeRun(t, pick, {}, nr, false, [a, q, q], [a, q]) == Some(u)
  {
    NestedDirs(t, a, q, z, y);
    OneMerged(t, pick, nr, [a, q, q], [a, q], z, [a, q, q, z], [a, q, z], v);
  }

  lemma InnermostRuns(t: Tree, pick: Order, nr: bool, a: Name, q: Name, z: Name, y: Name, u: Tree)
    requires Nested(t, a, q, z, y) && Lists(pick)
    requires CanRename(t, [a, q, q, z, y], [a, q, z, y]) && u == RenameTree(t, [a, q, q, z, y], [a, q, z, y])
    ensures MergeRun(t, pick, {}, nr, false, [a, q, q, z], [a, q, z]) == Some(Dropped(u, [a, q, q, z]))
  {
    NestedDirs(t, a, q, z, y);
    OneFile(t, pick, nr, [a, q, q, z], [a, q, z], y, [a, q, q, z, y], [a, q, z, y], u);
  }

  /** Then it is the turn of `a/q/z`, which moves on to `a/z` with the file in it. */
  lemma SecondEntry(u: Tree, pick: Order, nr: bool, a: Name, q: Name, z: Name)
    requires q != z && WellFormed(u) && IsDir(u, [a]) && [a, q, z] in u && [a, z] !in u
    ensures EntryRun(u, pick, {}, nr, false, [a, q], [a], z) == Some(RenameTree(u, [a, q, z], [a, z]))
  {
    UnderAt([a, z], [a, q, z], 1);
    assert Parent([a, z]) == [a];
    MovedEntry(u, pick, nr, [a, q], [a], z, [a, q, z], [a, z]);
  }

  lemma NestedRuns(t: Tree, pick: Order, nr: bool, a: Name, q: Name, z: Name, y: Name) returns (v: Tree)
    requires Nested(t, a, q, z, y) && Lists(pick) && pick([a, q], {q, z}) == q
    ensures MergeRun(t, pick, {}, nr, false, [a, q], [a]) == Some(v)
  {
    NestedDirs(t, a, q, z, y);
    var u := FirstEntry(t, pick, nr, a, q, z, y);
    SecondEntry(u, pick, nr, a, q, z);
    v := RenameTree(u, [a, q, z], [a, z]);
    TwoEntries(t, pick, nr, [a, q], [a], q, z, u, v);
    v := Dropped(v, [a, q]);
  }

  lemma MergeRuns(t: Tree, pick: Order, nr: bool, plan: Plan, a: Name, q: Name, z: Name, y: Name)
    requires MergeExample(t, pick, plan, a, q, z, y)
    ensures WholeRun(t, pick, {}, nr, plan, Folder([a], true)).Some?
  {
    var v := NestedRuns(t, pick, nr, a, q, z, y);
    AllTogether(v, CourseOf(plan, Folder([a], true), {}), nr);
  }

  lemma AllTogether(t: Tree, w: Course, nr: bool)
    requires |w.plan.files| == |w.to| == 1 && Together(w, 0)
    ensures TurnsRun(t, w, nr, 0) == Some(t)
  {
  }

  lemma MergeDoesNotFit(t: Tree, pick: Order, plan: Plan, a: Name, q: Name, z: Name, y: Name)
    requires MergeExample(t, pick, plan, a, q, z, y)
    ensures !PlanFits(t, pick, {}, plan, Folder([a], true)) && !Apart(t, plan, Folder([a], true))
  {
    var x, once, twice := [a, q, q, z, y], [a, q, z, y], [a, z, y];
    NestedDirs(t, a, q, z, y);
    assert [a, q] + [q] == [a, q, q] && [a] + [q] == [a, q];
    assert Under(x, [a, q]) && Under(x, [a, q, q]) && Under(once, [a, q]);
    assert Final(t, pick, [a, q, q], [a, q], x) == once;
    assert Rest(pick, [a, q], {q, z}, q) == {q, z} - {q};
    assert {q, z} - {q} == {z};
    assert Below(once, [a, q], {z});
    assert Final(t, pick, [a, q], [a], x) == twice;
    assert Rebase(x, [a, q], [a]) == once;
    assert Goals(plan, Folder([a], true))[0] == once;
    assert Track(CourseOf(plan, Folder([a], true), {}), 1, twice) == twice;
    assert OnDisk(t, plan, 0);
    assert Join([a, q], StripPrefix([a, q], [a])) == [a, q, q];
  }

  lemma NestedConflictFree(t: Tree, a: Name, q: Name, z: Name, y: Name, r: Path)
    requires Nested(t, a, q, z, y) && r != []
    ensures !Conflict(t, [a, q], [a], r)
  {
    NestedDirs(t, a, q, z, y);
    var x, w := Join([a, q], r), Join([a], r);
    if x in t && w in t {
      HasChild(t, [a, q], x);
      assert x[2] == r[0];
      if r[0] == z {
        assert w[..2] == [a, z];
        AncestorOrSelf(t, w, [a, z]);
      } else if |r| > 1 {
        DeepConflictFree(t, a, q, z, y, r);
      } else {
        assert x == [a, q, q] && w == [a, q];
      }
    }
  }

  lemma DeepConflictFree(t: Tree, a: Name, q: Name, z: Name, y: Name, r: Path)
    requires Nested(t, a, q, z, y) && |r| > 1 && r[0] == q && Join([a, q], r) in t && Join([a], r) in t
    ensures !Conflict(t, [a, q], [a], r)
  {
    NestedDirs(t, a, q, z, y);
    var x, w := Join([a, q], r), Join([a], r);
    assert x[..3] == [a, q, q];
    HasChild(t, [a, q, q], x);
    assert x[3] == r[1];
    if |r| > 2 {
      assert x[..4] == [a, q, q, z];
      HasChild(t, [a, q, q, z], x);
      assert x[4] == r[2];
      assert w[..4] == [a, q, z, y];
      AncestorOrSelf(t, w, [a, q, z, y]);
    } else {
      assert x == [a, q, q, z] && w == [a, q, z];
    }
  }

  lemma AncestorOrSelf(t: Tree, p: Path, a: Path)
    requires WellFormed(t) && p in t && Under(p, a)
    ensures a in t
  {
    if a != p { AncestorsAreDirs(t, p, a); }
  }

  lemma MergeChosen(t: Tree, pick: Order, plan: Plan, a: Name, q: Name, z: Name, y: Name, pid: nat, b: Blind,
                    ch: Choice)
    requires MergeExample(t, pick, plan, a, q, z, y) && ChoiceRight(t, {}, plan, pid, b, ch) && b.types == {}
    ensures ch == Folder([a], true) && !IntoItself(plan)
  {
    NestedDirs(t, a, q, z, y);
    forall r | Under(r, []) && r != [] ensures !Conflict(t, [a, q], [a], r) {
      NestedConflictFree(t, a, q, z, y, r);
    }
    UnderAt([a], [a, q], 1);
  }

  /** A folder that is merged into the one that contains it can take a file past the place where
      it is reported. No step fails. */
  method MergeIntoContainerMisreports(fs: FileSystem, plan: Plan, pid: nat, b: Blind, a: Name, q: Name, z: Name,
                                      y: Name)
    returns (r: Outcome)
    requires fs.Valid() && fs.Untouched() && fs.calm && fs.unread == {} && DistinctContents(fs.tree)
    requires MergeExample(fs.tree, fs.pick, plan, a, q, z, y) && b.types == {}
    modifies fs
    ensures r.error.None? && |r.paths| == |plan.files| && !AllReported(old(fs.tree), fs.tree, plan, r.paths)
  {
    ghost var t0 := fs.tree;
    ghost var ch: Choice;
    r, ch := RelocateCalmly(fs, plan, pid, b);
    MergeChosen(t0, fs.pick, plan, a, q, z, y, pid, b, ch);
    MergeRuns(t0, fs.pick, fs.noReplace, plan, a, q, z, y);
    MergeDoesNotFit(t0, fs.pick, plan, a, q, z, y);
  }
}
