/** Relocating a torrent: choosing the destination, moving, and reporting where everything is. */
module Relocation {
  import opened Prelude
  import opened FileTrees
  import opened FileSystems
  import opened Moving
  import opened MergePlaces
  import opened Merging
  import opened RelocationPlans

  datatype Failure = WithinItself | Io(e: IoError)

  datatype Outcome = Outcome(
    outputFolder: Path, paths: seq<(nat, Path)>, how: MoveMethod,
    wholeFolder: bool, movedFiles: nat, error: Option<Failure>)

  // ------------------------------------------------------------- free names

  function Digits(n: nat): string {
    if n < 10 then [('0' as int + n) as char] else Digits(n / 10) + [('0' as int + n % 10) as char]
  }

  /** Position of the last dot. */
  function LastDot(s: string): (r: Option<nat>)
    ensures r.Some? ==> r.value < |s| && s[r.value] == '.' && '.' !in s[r.value + 1..]
    ensures r.None? ==> '.' !in s
  {
    if s == [] then None
    else if s[|s| - 1] == '.' then Some(|s| - 1)
    else
      assert s == s[..|s| - 1] + [s[|s| - 1]];
      var r := LastDot(s[..|s| - 1]);
      assert r.Some? ==> s[r.value + 1..] == s[..|s| - 1][r.value + 1..] + [s[|s| - 1]];
      r
  }

  /** `Name (n)`, or `file (n).ext` for a file with an extension. */
  function SuffixedName(name: string, n: nat, isFile: bool): string {
    var dot := LastDot(name);
    if isFile && dot.Some? && dot.value > 0 then name[..dot.value] + " (" + Digits(n) + ")" + name[dot.value..]
    else name + " (" + Digits(n) + ")"
  }

  function Suffixed(p: Path, n: nat, isFile: bool): (r: Path)
    ensures r != [] && (p != [] ==> Parent(r) == Parent(p))
  {
    if p == [] then [Name(SuffixedName("", n, isFile))]
    else Parent(p) + [Name(SuffixedName(p[|p| - 1].text, n, isFile))]
  }

  const LAST_SUFFIX: nat := 10_000

  /** The candidates before the `n`-th are taken. */
  ghost predicate TakenUpTo(t: Tree, unread: set<Path>, p: Path, isFile: bool, n: nat) {
    Seen(t, unread, p) && forall k :: 2 <= k < n ==> Seen(t, unread, Suffixed(p, k, isFile))
  }

  ghost predicate FirstFree(t: Tree, unread: set<Path>, p: Path, isFile: bool, r: Path) {
    && !Seen(t, unread, r)
    && exists n :: 2 <= n < LAST_SUFFIX && r == Suffixed(p, n, isFile) && TakenUpTo(t, unread, p, isFile, n)
  }

  /** The first of `path`, `path (2)`, `path (3)`, … that seems free; failing that, one with the
      process id. */
  method FreePath(fs: FileSystem, p: Path, isFile: bool, pid: nat) returns (r: Path)
    ensures r == p || (r != [] && (p != [] ==> Parent(r) == Parent(p)))
    ensures Beside(fs.tree, fs.unread, p, isFile, pid, r) && (!Seen(fs.tree, fs.unread, p) ==> r == p)
    ensures Seen(fs.tree, fs.unread, p) ==>
              || FirstFree(fs.tree, fs.unread, p, isFile, r)
              || (r == Suffixed(p, pid, isFile) && TakenUpTo(fs.tree, fs.unread, p, isFile, LAST_SUFFIX))
  {
    if !Seen(fs.tree, fs.unread, p) { return p; }
    var n := 2;
    while n < LAST_SUFFIX
      invariant 2 <= n <= LAST_SUFFIX && TakenUpTo(fs.tree, fs.unread, p, isFile, n)
    {
      r := Suffixed(p, n, isFile);
      if !Seen(fs.tree, fs.unread, r) { return; }
      n := n + 1;
    }
    r := Suffixed(p, pid, isFile);
  }

  // ------------------------------------------------------------- emptied directories

  /** Only directories on the way from `dir` up to `stop` have gone. */
  ghost predicate OnlyBetween(a: Tree, b: Tree, dir: Path, stop: Path, includeStop: bool) {
    OnlyDirsGone(a, b) && forall p :: p in a && p !in b ==> Between(p, dir, stop, includeStop)
  }

  predicate Between(p: Path, dir: Path, stop: Path, includeStop: bool) {
    Under(dir, p) && Under(p, stop) && (p == stop ==> includeStop)
  }

  /** Removes `dir` and its parents while they are empty, not above `stop`. */
  method RemoveEmptyDirs(fs: FileSystem, dir: Path, stop: Path, includeStop: bool)
    requires fs.Valid()
    modifies fs`tree
    ensures fs.Valid() && OnlyBetween(old(fs.tree), fs.tree, dir, stop, includeStop)
  {
    var cur := dir;
    while true
      invariant fs.Valid() && OnlyBetween(old(fs.tree), fs.tree, dir, stop, includeStop) && Under(dir, cur)
      decreases |cur|
    {
      if !Under(cur, stop) || (cur == stop && !includeStop) { return; }
      var listFails := fs.Fails();
      var listing := fs.ReadDir(cur, listFails);
      if listing.Err? || listing.value != {} { return; }
      ghost var b := fs.tree;
      var r := fs.RemoveDir(cur);
      OneMoreGone(old(fs.tree), b, fs.tree, cur, dir, stop, includeStop);
      if r.Err? || cur == stop || cur == [] { return; }
      cur := Parent(cur);
    }
  }

  lemma OneMoreGone(a: Tree, b: Tree, c: Tree, cur: Path, dir: Path, stop: Path, includeStop: bool)
    requires OnlyBetween(a, b, dir, stop, includeStop) && Between(cur, dir, stop, includeStop)
    requires c == b || (IsDir(b, cur) && c == b - {cur})
    ensures OnlyBetween(a, c, dir, stop, includeStop)
  {
  }

  // ------------------------------------------------------------- what a run has to keep

  ghost predicate IdsRight(plan: Plan, paths: seq<(nat, Path)>)
    requires |paths| <= |plan.files|
  {
    forall i :: 0 <= i < |paths| ==> paths[i].0 == plan.files[i].fileId
  }

  /** What is reported of file `i` when the turns before `stop` were taken. */
  function Report(w: Course, t: Tree, stop: nat, i: nat): Path
    requires i < |w.plan.files| == |w.to|
  {
    var cur := w.plan.files[i].current;
    if Together(w, i) || i < stop || (w.whole && !Seen(t, w.unread, cur)) then w.to[i] else cur
  }

  ghost predicate ReportedTo(w: Course, t: Tree, stop: nat, paths: seq<(nat, Path)>)
    requires |paths| <= |w.plan.files| == |w.to|
  {
    IdsRight(w.plan, paths) && forall i :: 0 <= i < |paths| ==> paths[i].1 == Report(w, t, stop, i)
  }

  /** A copy leaves everything in its place, and has put a copy where it is reported. */
  ghost predicate CopyHeld(t0: Tree, t: Tree, w: Course, stop: nat)
    requires |w.plan.files| == |w.to|
  {
    && KeepsAll(t0, t)
    && forall i :: 0 <= i < |w.to| && OnDisk(t0, w.plan, i) && Readable(w, i) && (Together(w, i) || i < stop) ==>
         w.to[i] in t && t[w.to[i]] == t0[w.plan.files[i].current]
  }

  /** The state of a run after the turns before `stop`: `t0` is the tree at the start, `l0` where the
      files were before the first turn, `torn` where something was replaced since; `intact` is a copy
      that has replaced nothing. */
  ghost predicate Running(t0: Tree, l0: map<Path, Path>, t: Tree, l: map<Path, Path>, w: Course, stop: nat,
                          intact: bool, torn: set<Path>) {
    && stop <= |w.plan.files| == |w.to| && Follows(l, TrackAll(w, stop, l0)) && GoneOnTrack(w, stop, l0, l, torn)
    && (Safe(t0, w) && OnTrack(t0, w, l0, 0) ==> OnTrack(t0, w, l, stop))
    && (intact ==> CopyHeld(t0, t, w, stop))
  }

  lemma StartRunning(t0: Tree, t: Tree, l: map<Path, Path>, w: Course, intact: bool)
    requires |w.plan.files| == |w.to| && (intact ==> CopyHeld(t0, t, w, 0))
    ensures Running(t0, l, t, l, w, 0, intact, {})
  {
    NoTurns(w, l);
  }

  /** A turn in which nothing moves. */
  lemma TurnSkipped(t0: Tree, l0: map<Path, Path>, initial: map<Path, Content>, t: Tree, l: map<Path, Path>, w: Course,
                    j: nat, intact: bool, torn: set<Path>)
    requires WellFormed(t) && Held(initial, t, l) && Running(t0, l0, t, l, w, j, intact, torn) && j < |w.plan.files|
    requires Idle(t, w, j)
    ensures Running(t0, l0, t, l, w, j + 1, intact, torn)
  {
    TurnStays(w, j, l0, l, t, initial);
    GoneMore(w, j, l0, l, l, torn, {});
    assert torn + {} == torn;
    if Safe(t0, w) && OnTrack(t0, w, l0, 0) { SkippedOnTrack(t0, l0, initial, t, l, w, j); }
    if intact { CopySkipped(t0, t, w, j); }
  }

  lemma SkippedOnTrack(t0: Tree, l0: map<Path, Path>, initial: map<Path, Content>, t: Tree, l: map<Path, Path>,
                       w: Course, j: nat)
    requires WellFormed(t) && Held(initial, t, l) && j < |w.plan.files| == |w.to| && Follows(l, TrackAll(w, j, l0))
    requires Follows(l, TrackAll(w, j + 1, l0)) && Safe(t0, w) && OnTrack(t0, w, l, j)
    ensures OnTrack(t0, w, l, j + 1)
  {
    forall p | p in l ensures l[p] == Turn(w, j, l[p]) {
      assert l[p] == Track(w, j + 1, l0[p]);
    }
    StaysOnTrack(t0, w, initial, t, l, l, j);
  }

  lemma CopySkipped(t0: Tree, t: Tree, w: Course, j: nat)
    requires j < |w.plan.files| == |w.to| && CopyHeld(t0, t, w, j) && Idle(t, w, j)
    ensures CopyHeld(t0, t, w, j + 1)
  {
  }

  lemma TurnTaken(t0: Tree, l0: map<Path, Path>, initial: map<Path, Content>, b: Tree, l: map<Path, Path>, c: Tree,
                  l': map<Path, Path>, w: Course, j: nat, intact: bool, torn: set<Path>, more: set<Path>)
    requires Running(t0, l0, b, l, w, j, intact, torn) && j < |w.plan.files| && !Together(w, j) && !Unseen(w, j)
    requires WellFormed(b) && Held(initial, b, l) && (w.to[j] in b ==> w.to[j] in more && w.to[j] in w.unread)
    requires l' == ShiftAll(FreedLoc(b, l, w.to[j]), w.plan.files[j].current, w.to[j])
    requires intact ==> KeepsAll(b, c) && CopiedTo(b, c, w.plan.files[j].current, w.to[j])
    ensures Running(t0, l0, c, l', w, j + 1, intact, torn + more)
  {
    TurnMoves(w, j, l0, FreedLoc(b, l, w.to[j]));
    GoneMore(w, j, l0, l, l', torn, more);
    if Safe(t0, w) && OnTrack(t0, w, l0, 0) { StaysOnTrack(t0, w, initial, b, l, l', j); }
    if intact { CopyTaken(t0, b, c, w, j); }
  }

  lemma CopyTaken(t0: Tree, b: Tree, c: Tree, w: Course, j: nat)
    requires j < |w.plan.files| == |w.to| && CopyHeld(t0, b, w, j) && KeepsAll(b, c)
    requires CopiedTo(b, c, w.plan.files[j].current, w.to[j])
    ensures CopyHeld(t0, c, w, j + 1)
  {
    var cur := w.plan.files[j].current;
    assert Under(cur, cur) && Rebase(cur, cur, w.to[j]) == w.to[j];
  }

  lemma StillRunning(t0: Tree, l0: map<Path, Path>, b: Tree, c: Tree, l: map<Path, Path>, w: Course, stop: nat,
                     intact: bool, torn: set<Path>)
    requires Running(t0, l0, b, l, w, stop, intact, torn) && (intact ==> KeepsAll(b, c))
    ensures Running(t0, l0, c, l, w, stop, intact, torn)
  {
  }

  lemma LessIntact(t0: Tree, l0: map<Path, Path>, t: Tree, l: map<Path, Path>, w: Course, stop: nat, before: bool,
                   after: bool, torn: set<Path>)
    requires Running(t0, l0, t, l, w, stop, before, torn) && (after ==> before)
    ensures Running(t0, l0, t, l, w, stop, after, torn)
  {
  }

  /** The turns before `stop` of a run that began when something had been replaced at `was`. */
  ghost predicate Runs(fs: FileSystem, t0: Tree, l0: map<Path, Path>, w: Course, stop: nat, was: seq<Path>)
    reads fs
  {
    && was <= fs.replaced
    && Running(t0, l0, fs.tree, fs.loc, w, stop, w.plan.copy && !fs.Torn(), Since(was, fs.replaced))
  }

  /** The turn of a file that is there: it moves to its target, or everything stays. */
  method TakeTurn(fs: FileSystem, plan: Plan, j: nat, to: Path, ghost t0: Tree, ghost l0: map<Path, Path>,
                  ghost w: Course, ghost was: seq<Path>) returns (r: Result<MoveMethod, IoError>)
    requires fs.Valid() && j < |plan.files| == |w.to| && w.plan == plan && w.to[j] == to && w.unread == fs.unread
    requires Runs(fs, t0, l0, w, j, was) && !Together(w, j) && !Unseen(w, j)
    modifies fs
    ensures fs.Valid() && Tears(old(fs.replaced), fs.replaced, fs.Shaky({to}))
    ensures Runs(fs, t0, l0, w, if r.Ok? then j + 1 else j, was)
    ensures r.Err? ==> KeepsAll(old(fs.tree), fs.tree)
    ensures fs.calm && !plan.copy && NoStray(old(fs.tree), old(fs.loc)) ==> NoStray(fs.tree, fs.loc)
    ensures fs.calm ==>
              RunsAs(MoveRun(old(fs.tree), fs.unread, fs.noReplace, plan.copy, plan.files[j].current, to),
                MoveTears(old(fs.tree), fs.unread, fs.noReplace, plan.copy, plan.files[j].current, to),
                old(fs.replaced), fs.replaced, fs.tree, r.Ok?)
  {
    ghost var b, l, mid, cur := fs.tree, fs.loc, fs.replaced, plan.files[j].current;
    r := MovePath(fs, plan.files[j].current, to, plan.copy);
    ToreOnce(mid, fs.replaced, b, fs.unread, fs.noReplace, cur, to, r.Ok?);
    SinceNext(was, mid, fs.replaced);
    ghost var intact := plan.copy && fs.replaced == [];
    LessIntact(t0, l0, b, l, w, j, plan.copy && mid == [], intact, Since(was, mid));
    if r.Ok? {
      TurnTaken(t0, l0, fs.initial, b, l, fs.tree, fs.loc, w, j, intact, Since(was, mid), Since(mid, fs.replaced));
    } else {
      StillRunning(t0, l0, b, fs.tree, l, w, j, intact, Since(was, mid));
    }
  }

  /** Every report so far names the target. */
  ghost predicate AllAt(paths: seq<(nat, Path)>, to: seq<Path>)
    requires |paths| <= |to|
  {
    forall i :: 0 <= i < |paths| ==> paths[i].1 == to[i]
  }

  // ------------------------------------------------------------- a loop over the files

  /** A loop over the files of the plan, up to file `k`; `stop` is where it failed, if it did. */
  ghost predicate Looping(t0: Tree, l0: map<Path, Path>, t: Tree, l: map<Path, Path>, w: Course,
                          paths: seq<(nat, Path)>, failed: bool, stop: nat, intact: bool, torn: set<Path>) {
    && |paths| <= |w.plan.files| == |w.to| && Running(t0, l0, t, l, w, stop, intact, torn)
    && (if failed then stop < |paths| else stop == |paths|) && ReportedTo(w, t, stop, paths)
  }

  /** One more report. */
  lemma NextReport(t0: Tree, l0: map<Path, Path>, b: Tree, t: Tree, l: map<Path, Path>, w: Course,
                   paths: seq<(nat, Path)>, p: Path, failed: bool, stop: nat, intact: bool, torn: set<Path>)
    requires |paths| < |w.plan.files| == |w.to| && Running(t0, l0, t, l, w, stop, intact, torn)
    requires ReportedTo(w, b, if stop == |paths| + 1 then |paths| else stop, paths)
    requires p == Report(w, t, stop, |paths|)
    requires if failed then stop <= |paths| && KeepsAll(b, t) && (stop < |paths| ==> b == t) else stop == |paths| + 1
    ensures Looping(t0, l0, t, l, w, paths + [(w.plan.files[|paths|].fileId, p)], failed, stop, intact, torn)
  {
    var more, was := paths + [(w.plan.files[|paths|].fileId, p)], if stop == |paths| + 1 then |paths| else stop;
    forall i | 0 <= i < |more| ensures more[i].1 == Report(w, t, stop, i) {
      if i < |paths| { assert paths[i].1 == Report(w, b, was, i); }
    }
  }

  /** What became of a turn: nothing moved, the file moved, or it could not. */
  datatype Step = Skipped | Took(how: MoveMethod) | Broke(e: IoError)

  /** The state of a loop over the files that began at `b`, when something had been replaced at `was`:
      where everything is, and what it does when nothing fails. */
  ghost predicate Turning(fs: FileSystem, t0: Tree, l0: map<Path, Path>, w: Course, paths: seq<(nat, Path)>,
                          failed: bool, stop: nat, b: Tree, was: seq<Path>)
    reads fs
  {
    && fs.Valid() && Tears(was, fs.replaced, fs.Shaky(Aims(w))) && |paths| <= |w.plan.files| == |w.to|
    && w.unread == fs.unread
    && Looping(t0, l0, fs.tree, fs.loc, w, paths, failed, stop, w.plan.copy && !fs.Torn(), Since(was, fs.replaced))
    && (fs.calm && !w.plan.copy && NoStray(b, l0) ==> NoStray(fs.tree, fs.loc))
    && (fs.calm ==>
          TurnsTo(fs.tree, w, fs.noReplace, |paths|, TurnsRun(b, w, fs.noReplace, 0), fs.replaced,
            was + TurnsTears(b, w, fs.noReplace, 0), failed))
  }

  /** The targets of the files. */
  ghost function Aims(w: Course): set<Path> {
    set p | p in w.to
  }

  /** The turn of one file that does not stay. */
  method GoOn(fs: FileSystem, plan: Plan, to: Path, paths: seq<(nat, Path)>, ghost t0: Tree, ghost l0: map<Path, Path>,
              ghost w: Course, ghost b: Tree, ghost was: seq<Path>)
    returns (p: Path, step: Step, ghost stop: nat)
    requires |paths| < |plan.files| == |w.to| && w.plan == plan && w.to[|paths|] == to
    requires Turning(fs, t0, l0, w, paths, false, |paths|, b, was) && !Idle(fs.tree, w, |paths|)
    modifies fs
    ensures Turning(fs, t0, l0, w, paths + [(plan.files[|paths|].fileId, p)], step.Broke?, stop, b, was)
  {
    var j, cur := |paths|, plan.files[|paths|].current;
    ghost var now, mid := fs.tree, fs.replaced;
    var r := TakeTurn(fs, plan, j, to, t0, l0, w, was);
    if r.Err? { p, step, stop := cur, Broke(r.error), j; } else { p, step, stop := to, Took(r.value), j + 1; }
    NextReport(t0, l0, now, fs.tree, fs.loc, w, paths, p, r.Err?, stop, plan.copy && !fs.Torn(),
      Since(was, fs.replaced));
    AimsMore(fs, w, j, was, mid, fs.replaced);
    if fs.calm { CalmTurn(fs, w, j, b, was, now, mid, r.Ok?); }
  }

  lemma CalmTurn(fs: FileSystem, w: Course, j: nat, b: Tree, was: seq<Path>, now: Tree, mid: seq<Path>, ok: bool)
    requires j < |w.plan.files| == |w.to| && w.unread == fs.unread && !Idle(now, w, j)
    requires TurnsTo(now, w, fs.noReplace, j, TurnsRun(b, w, fs.noReplace, 0), mid,
               was + TurnsTears(b, w, fs.noReplace, 0), false)
    requires RunsAs(MoveRun(now, fs.unread, fs.noReplace, w.plan.copy, w.plan.files[j].current, w.to[j]),
               MoveTears(now, fs.unread, fs.noReplace, w.plan.copy, w.plan.files[j].current, w.to[j]), mid, fs.replaced,
               fs.tree, ok)
    ensures TurnsTo(fs.tree, w, fs.noReplace, j + 1, TurnsRun(b, w, fs.noReplace, 0), fs.replaced,
              was + TurnsTears(b, w, fs.noReplace, 0), !ok)
  {
    TurnsOn(now, w, fs.noReplace, j, TurnsRun(b, w, fs.noReplace, 0), mid, fs.replaced,
      was + TurnsTears(b, w, fs.noReplace, 0), fs.tree, ok);
  }

  lemma AimsMore(fs: FileSystem, w: Course, j: nat, was: seq<Path>, mid: seq<Path>, now: seq<Path>)
    requires j < |w.to| && Tears(was, mid, fs.Shaky(Aims(w))) && Tears(mid, now, fs.Shaky({w.to[j]}))
    ensures Tears(was, now, fs.Shaky(Aims(w)))
  {
    TearsMore(was, mid, now, fs.Shaky(Aims(w)), fs.Shaky({w.to[j]}));
    assert fs.Shaky(Aims(w)) + fs.Shaky({w.to[j]}) == fs.Shaky(Aims(w));
  }

  /** A turn in which nothing is done, because nothing has to be or an earlier one failed. */
  lemma PassOver(fs: FileSystem, t0: Tree, l0: map<Path, Path>, w: Course, paths: seq<(nat, Path)>, p: Path,
                 failed: bool, stop0: nat, stop: nat, b: Tree, was: seq<Path>)
    requires |paths| < |w.plan.files| && Turning(fs, t0, l0, w, paths, failed, stop0, b, was)
    requires if failed then stop == stop0 else Idle(fs.tree, w, |paths|) && stop == |paths| + 1
    requires p == Report(w, fs.tree, stop, |paths|)
    ensures Turning(fs, t0, l0, w, paths + [(w.plan.files[|paths|].fileId, p)], failed, stop, b, was)
  {
    var j, intact, torn := |paths|, w.plan.copy && !fs.Torn(), Since(was, fs.replaced);
    if !failed { TurnSkipped(t0, l0, fs.initial, fs.tree, fs.loc, w, j, intact, torn); }
    NextReport(t0, l0, fs.tree, fs.tree, fs.loc, w, paths, p, failed, stop, intact, torn);
    if fs.calm && !failed {
      TurnPassed(fs.tree, w, fs.noReplace, j, TurnsRun(b, w, fs.noReplace, 0), fs.replaced,
        was + TurnsTears(b, w, fs.noReplace, 0));
    }
  }

  /** The turn of one file: it stays when an earlier one failed, when it is in place, or when it
      seems not to be there. */
  method EachTurn(fs: FileSystem, plan: Plan, to: Path, paths: seq<(nat, Path)>, failed: bool, ghost t0: Tree,
                  ghost l0: map<Path, Path>, ghost w: Course, ghost stop0: nat, ghost b: Tree, ghost was: seq<Path>)
    returns (p: Path, step: Step, ghost stop: nat)
    requires |paths| < |plan.files| == |w.to| && w.plan == plan && w.to[|paths|] == to && !w.whole
    requires Turning(fs, t0, l0, w, paths, failed, stop0, b, was)
    modifies fs
    ensures Turning(fs, t0, l0, w, paths + [(plan.files[|paths|].fileId, p)], failed || step.Broke?, stop, b, was)
  {
    var cur := plan.files[|paths|].current;
    if failed || cur == to || !Seen(fs.tree, fs.unread, cur) {
      p, step, stop := if failed then cur else to, Skipped, if failed then stop0 else |paths| + 1;
      PassOver(fs, t0, l0, w, paths, p, failed, stop0, stop, b, was);
    } else {
      p, step, stop := GoOn(fs, plan, to, paths, t0, l0, w, b, was);
    }
  }

  // ------------------------------------------------------------- file by file

  function Target(plan: Plan, dest: Path, single: Option<Path>, i: nat): Path
    requires i < |plan.files|
  {
    if single.Some? then single.value else Join(dest, plan.files[i].rel)
  }

  ghost function Targets(plan: Plan, dest: Path, single: Option<Path>): (to: seq<Path>)
    ensures |to| == |plan.files| && forall i :: 0 <= i < |to| ==> to[i] == Target(plan, dest, single, i)
  {
    seq(|plan.files|, i requires 0 <= i < |plan.files| => Target(plan, dest, single, i))
  }

  /** Moves the files one by one until one fails. */
  method MoveEach(fs: FileSystem, plan: Plan, dest: Path, single: Option<Path>, ghost t0: Tree, ghost w: Course)
    returns (paths: seq<(nat, Path)>, how: MoveMethod, moved: nat, error: Option<Failure>, sources: seq<Path>,
      ghost stop: nat)
    requires fs.Valid() && w == Course(plan, Targets(plan, dest, single), false, fs.unread)
    requires plan.copy && !fs.Torn() ==> CopyHeld(t0, fs.tree, w, 0)
    modifies fs
    ensures |paths| == |plan.files|
    ensures Turning(fs, t0, old(fs.loc), w, paths, error.Some?, stop, old(fs.tree), old(fs.replaced))
  {
    ghost var b, l0, was := fs.tree, fs.loc, fs.replaced;
    paths, how, moved, error, sources, stop := [], Nothing, 0, None, [], 0;
    StartRunning(t0, b, l0, w, plan.copy && !fs.Torn());
    while |paths| < |plan.files|
      invariant Turning(fs, t0, l0, w, paths, error.Some?, stop, b, was)
      decreases |plan.files| - |paths|
    {
      var f, to := plan.files[|paths|], Target(plan, dest, single, |paths|);
      var p, step;
      p, step, stop := EachTurn(fs, plan, to, paths, error.Some?, t0, l0, w, stop, b, was);
      match step {
        case Broke(e) => error := Some(Io(e));
        case Took(m) => how, moved, sources := how.Merge(m), moved + 1, sources + [f.current];
        case Skipped =>
      }
      paths := paths + [(f.fileId, p)];
    }
  }

  // ------------------------------------------------------------- the whole folder

  ghost function FolderTargets(plan: Plan, dest: Path): (to: seq<Path>)
    ensures |to| == |plan.files| && forall i :: 0 <= i < |to| ==> to[i] == FolderTarget(plan, dest, i)
  {
    seq(|plan.files|, i requires 0 <= i < |plan.files| => FolderTarget(plan, dest, i))
  }

  function FolderTarget(plan: Plan, dest: Path, i: nat): Path
    requires i < |plan.files|
  {
    var f := plan.files[i];
    if Under(f.current, plan.oldOutput) then Rebase(f.current, plan.oldOutput, dest) else Join(dest, f.rel)
  }

  /** The turn of one file: it stays when it travelled with the folder, when an earlier one failed,
      when it is in place, or when it seems not to be there. */
  method JoinTurn(fs: FileSystem, plan: Plan, to: Path, paths: seq<(nat, Path)>, failed: bool, ghost t0: Tree,
                  ghost l0: map<Path, Path>, ghost w: Course, ghost stop0: nat, ghost b: Tree, ghost was: seq<Path>)
    returns (p: Path, step: Step, ghost stop: nat)
    requires |paths| < |plan.files| == |w.to| && w.plan == plan && w.to[|paths|] == to && w.whole
    requires Turning(fs, t0, l0, w, paths, failed, stop0, b, was)
    modifies fs
    ensures Turning(fs, t0, l0, w, paths + [(plan.files[|paths|].fileId, p)], failed || step.Broke?, stop, b, was)
  {
    var cur := plan.files[|paths|].current;
    var inside, seen := Under(cur, plan.oldOutput), Seen(fs.tree, fs.unread, cur);
    if inside || cur == to || failed || !seen {
      p, step, stop := if inside || !seen then to else cur, Skipped, if failed then stop0 else |paths| + 1;
      PassOver(fs, t0, l0, w, paths, p, failed, stop0, stop, b, was);
    } else {
      p, step, stop := GoOn(fs, plan, to, paths, t0, l0, w, b, was);
    }
  }

  /** Files that were elsewhere join the folder. */
  method JoinOthers(fs: FileSystem, plan: Plan, dest: Path, first: MoveMethod, ghost t0: Tree, ghost w: Course)
    returns (paths: seq<(nat, Path)>, how: MoveMethod, moved: nat, error: Option<Failure>, ghost stop: nat)
    requires fs.Valid() && w == Course(plan, FolderTargets(plan, dest), true, fs.unread)
    requires plan.copy && !fs.Torn() ==> CopyHeld(t0, fs.tree, w, 0)
    modifies fs
    ensures |paths| == |plan.files|
    ensures Turning(fs, t0, old(fs.loc), w, paths, error.Some?, stop, old(fs.tree), old(fs.replaced))
  {
    ghost var b, l0, was := fs.tree, fs.loc, fs.replaced;
    paths, how, moved, error, stop := [], first, 0, None, 0;
    StartRunning(t0, b, l0, w, plan.copy && !fs.Torn());
    while |paths| < |plan.files|
      invariant Turning(fs, t0, l0, w, paths, error.Some?, stop, b, was)
      decreases |plan.files| - |paths|
    {
      var f, to := plan.files[|paths|], FolderTarget(plan, dest, |paths|);
      var p, step;
      p, step, stop := JoinTurn(fs, plan, to, paths, error.Some?, t0, l0, w, stop, b, was);
      match step {
        case Broke(e) => error := Some(Io(e));
        case Took(m) => how, moved := how.Merge(m), moved + 1;
        case Skipped => if Under(f.current, plan.oldOutput) { moved := moved + 1; }
      }
      paths := paths + [(f.fileId, p)];
    }
  }

  /** After a merge that stopped halfway: a file that seems gone from its place, and there in the new
      one, is reported there. */
  method ReportHalfway(fs: FileSystem, plan: Plan, dest: Path, merge: bool) returns (paths: seq<(nat, Path)>)
    ensures |paths| == |plan.files| && IdsRight(plan, paths)
    ensures HalfwayPaths(fs.tree, fs.unread, plan, dest, merge, paths)
  {
    paths := [];
    for k := 0 to |plan.files|
      invariant |paths| == k && IdsRight(plan, paths) && HalfwayPaths(fs.tree, fs.unread, plan, dest, merge, paths)
    {
      paths := paths + [(plan.files[k].fileId, Halfway(fs.tree, fs.unread, plan, dest, merge, plan.files[k].current))];
    }
  }

  ghost predicate HalfwayPaths(t: Tree, unread: set<Path>, plan: Plan, dest: Path, merge: bool,
                               paths: seq<(nat, Path)>)
    requires |paths| <= |plan.files|
  {
    forall i :: 0 <= i < |paths| ==> paths[i].1 == Halfway(t, unread, plan, dest, merge, plan.files[i].current)
  }

  function Halfway(t: Tree, unread: set<Path>, plan: Plan, dest: Path, merge: bool, current: Path): Path {
    if merge && Under(current, plan.oldOutput) && Seen(t, unread, Rebase(current, plan.oldOutput, dest)) &&
       !Seen(t, unread, current)
    then Rebase(current, plan.oldOutput, dest) else current
  }

  predicate HalfwayShows(t: Tree, unread: set<Path>, plan: Plan, dest: Path, merge: bool, l: map<Path, Path>, cur: Path)
    requires cur in l
  {
    merge && Under(cur, plan.oldOutput) ==>
      var to := Rebase(cur, plan.oldOutput, dest);
      if to == cur then true
      else if l[cur] == to then to !in unread && !Seen(t, unread, cur)
      else cur !in unread || !Seen(t, unread, to)
  }

  /** After a move or merge that stopped halfway, a file is found where it is reported exactly when
      its new place can be seen, if it has moved, or when its old place or nothing in the new one can
      be seen, if it has not. */
  lemma HalfwayIff(t0: Tree, initial: map<Path, Content>, l0: map<Path, Path>, t: Tree, l: map<Path, Path>,
                   unread: set<Path>, plan: Plan, dest: Path, merge: bool, cur: Path)
    requires Held(initial, t0, l0) && Held(initial, t, l) && cur in l && cur in l0 && l0[cur] == cur
    requires if merge then QuietUnder(t0, t, plan.oldOutput) && PartlyAt(cur, l[cur], plan.oldOutput, dest) else l == l0
    ensures Halfway(t, unread, plan, dest, merge, cur) == l[cur] <==> HalfwayShows(t, unread, plan, dest, merge, l, cur)
  {
    assert AtPlace(t, l[cur], initial[cur]) && AtPlace(t0, l0[cur], initial[cur]);
  }

  /** When both its places can be read, its content is where it is reported. */
  lemma HalfwayRight(t0: Tree, initial: map<Path, Content>, l0: map<Path, Path>, t: Tree, l: map<Path, Path>,
                     unread: set<Path>, plan: Plan, dest: Path, merge: bool, cur: Path)
    requires Held(initial, t0, l0) && Held(initial, t, l) && cur in l && cur in l0 && l0[cur] == cur
    requires if merge then QuietUnder(t0, t, plan.oldOutput) && PartlyAt(cur, l[cur], plan.oldOutput, dest) else l == l0
    requires merge && Under(cur, plan.oldOutput) ==> BothRead(unread, plan.oldOutput, dest, cur)
    ensures AtPlace(t, Halfway(t, unread, plan, dest, merge, cur), initial[cur])
  {
    assert AtPlace(t, l[cur], initial[cur]) && AtPlace(t0, l0[cur], initial[cur]);
  }

  predicate BothRead(unread: set<Path>, src: Path, dst: Path, cur: Path)
    requires Under(cur, src)
  {
    cur !in unread && Rebase(cur, src, dst) !in unread
  }

  // ------------------------------------------------------------- a relocation

  /** Where a relocation decides to go, and whether it merges the folder into one that is there. */
  datatype Choice = Stay | Folder(dest: Path, merge: bool) | Each(dest: Path, single: Option<Path>)

  ghost function Goals(plan: Plan, c: Choice): (to: seq<Path>)
    ensures |to| == |plan.files|
  {
    match c
    case Stay => Currents(plan)
    case Folder(dest, _) => FolderTargets(plan, dest)
    case Each(dest, single) => Targets(plan, dest, single)
  }

  /** The course of a choice. */
  ghost function CourseOf(plan: Plan, c: Choice, unread: set<Path>): (w: Course)
    ensures |w.to| == |w.plan.files|
  {
    Course(plan, Goals(plan, c), c.Folder?, unread)
  }

  ghost function Currents(plan: Plan): (to: seq<Path>)
    ensures |to| == |plan.files| && forall i :: 0 <= i < |to| ==> to[i] == plan.files[i].current
  {
    seq(|plan.files|, i requires 0 <= i < |plan.files| => plan.files[i].current)
  }

  /** The place asked for or, when something seems to be in the way, a suffixed one beside it. */
  ghost predicate Beside(t: Tree, unread: set<Path>, p: Path, isFile: bool, pid: nat, r: Path) {
    || r == p || FirstFree(t, unread, p, isFile, r)
    || (r == Suffixed(p, pid, isFile) && TakenUpTo(t, unread, p, isFile, LAST_SUFFIX))
  }

  /** The folder is merged exactly into one that is there and that nothing incoming clashes with, as
      far as that can be seen. */
  ghost predicate FolderRight(t: Tree, unread: set<Path>, plan: Plan, pid: nat, b: Blind, dest: Path, merge: bool) {
    var target := plan.newOutput;
    && plan.wholeFolder && SeenDir(t, unread, plan.oldOutput) && !Under(target, plan.oldOutput)
    && Beside(t, unread, target, false, pid, dest)
    && (!Seen(t, unread, target) ==> dest == target && !merge)
    && (merge ==> dest == target && SeenDir(t, unread, dest))
    && (SeenDir(t, unread, target) && TypesKnown(t, plan.oldOutput, b) ==>
          ConflictFree(t, plan.oldOutput, target, []) ==> merge)
    && (merge && SeesAll(t, unread, plan.oldOutput, target, [], b) ==> ConflictFree(t, plan.oldOutput, target, []))
  }

  ghost predicate TypesKnown(t: Tree, src: Path, b: Blind) {
    forall p :: p in t && Under(p, src) ==> p !in b.types
  }

  ghost predicate EachRight(t: Tree, unread: set<Path>, plan: Plan, pid: nat, dest: Path, single: Option<Path>) {
    if AnyClash(t, unread, plan) then
      if plan.singleFile then
        && dest == plan.newOutput && single.Some?
        && Beside(t, unread, Join(dest, plan.files[0].rel), true, pid, single.value)
      else single.None? && Beside(t, unread, plan.newOutput, false, pid, dest)
    else dest == plan.newOutput && single.None?
  }

  ghost predicate ChoiceRight(t: Tree, unread: set<Path>, plan: Plan, pid: nat, b: Blind, c: Choice) {
    match c
    case Stay => plan.newOutput == plan.oldOutput || (plan.wholeFolder && Under(plan.newOutput, plan.oldOutput))
    case Folder(dest, merge) => FolderRight(t, unread, plan, pid, b, dest, merge)
    case Each(dest, single) =>
      && plan.newOutput != plan.oldOutput && !(plan.wholeFolder && SeenDir(t, unread, plan.oldOutput))
      && EachRight(t, unread, plan, pid, dest, single)
  }

  /** Some file's target seems to be taken. */
  ghost predicate AnyClash(t: Tree, unread: set<Path>, plan: Plan)
    ensures AnyClash(t, unread, plan) ==> |plan.files| > 0
  {
    exists i :: 0 <= i < |plan.files| && Clashes(t, unread, plan.files[i], plan.newOutput)
  }

  /** Each planned file that was on disk has its content at the reported path. */
  ghost predicate AllReported(t0: Tree, t: Tree, plan: Plan, paths: seq<(nat, Path)>)
    requires |paths| == |plan.files|
  {
    forall i :: 0 <= i < |paths| && OnDisk(t0, plan, i) ==>
      paths[i].1 in t && t[paths[i].1] == t0[plan.files[i].current]
  }

  /** The same for those that have not been replaced. */
  ghost predicate SurvivorsReported(t0: Tree, t: Tree, l: map<Path, Path>, plan: Plan, paths: seq<(nat, Path)>)
    requires |paths| == |plan.files|
  {
    forall i :: 0 <= i < |paths| && OnDisk(t0, plan, i) && plan.files[i].current in l ==>
      paths[i].1 in t && t[paths[i].1] == t0[plan.files[i].current]
  }

  /** Each planned file that was on disk is itself at the reported path. */
  ghost predicate AllFound(t0: Tree, l: map<Path, Path>, plan: Plan, paths: seq<(nat, Path)>)
    requires |paths| == |plan.files|
  {
    forall i :: 0 <= i < |paths| && OnDisk(t0, plan, i) ==>
      plan.files[i].current in l && paths[i].1 == l[plan.files[i].current]
  }

  // ------------------------------------------------------------- where everything ends up

  /** `dst` contains `src`, and something is where the contents of `src` come by: with `src` being
      `dst/k`, at `src/k`. */
  predicate ComesBack(t: Tree, src: Path, dst: Path) {
    Under(src, dst) && Join(src, StripPrefix(src, dst)) in t
  }

  predicate Apart(t: Tree, plan: Plan, c: Choice) {
    c.Folder? && c.merge ==> !ComesBack(t, plan.oldOutput, c.dest)
  }

  ghost function FolderPlace(t: Tree, pick: Order, plan: Plan, dest: Path, merge: bool, x: Path): Path {
    if merge then Place(t, pick, plan.oldOutput, dest, x) else Shift(x, plan.oldOutput, dest)
  }

  /** Where a run without an error takes what is at `x`: with the folder first, and then with the
      turn of each file that is registered at or above the place where it is by then. */
  ghost function FinalPlace(t: Tree, pick: Order, unread: set<Path>, plan: Plan, c: Choice, x: Path): Path {
    var w := CourseOf(plan, c, unread);
    match c
    case Stay => x
    case Folder(dest, merge) => Track(w, |plan.files|, FolderPlace(t, pick, plan, dest, merge, x))
    case Each(_, _) => Track(w, |plan.files|, x)
  }

  /** A run in which every move works. */
  ghost function WholeRun(t: Tree, pick: Order, unread: set<Path>, noReplace: bool, plan: Plan,
                          c: Choice): Option<Tree> {
    match c
    case Stay => Some(t)
    case Folder(dest, merge) =>
      var u := FolderRun(t, pick, unread, noReplace, plan, dest, merge);
      if u.None? then None else TurnsRun(u.value, CourseOf(plan, c, unread), noReplace, 0)
    case Each(_, _) => TurnsRun(t, CourseOf(plan, c, unread), noReplace, 0)
  }

  /** What such a run replaces. */
  ghost function WholeTears(t: Tree, pick: Order, unread: set<Path>, noReplace: bool, plan: Plan,
                            c: Choice): seq<Path> {
    match c
    case Stay => []
    case Folder(dest, merge) =>
      var u := FolderRun(t, pick, unread, noReplace, plan, dest, merge);
      FolderTears(t, pick, unread, noReplace, plan, dest, merge) +
      if u.None? then [] else TurnsTears(u.value, CourseOf(plan, c, unread), noReplace, 0)
    case Each(_, _) => TurnsTears(t, CourseOf(plan, c, unread), noReplace, 0)
  }

  /** Where a relocation may replace something: at a target that cannot be read, or in the folder that
      it merges into. */
  ghost function MayReplace(fs: FileSystem, plan: Plan, c: Choice): set<Path> {
    match c
    case Stay => {}
    case Folder(dest, merge) =>
      FolderMayReplace(fs, dest, merge) + fs.Shaky(Aims(CourseOf(plan, c, fs.unread)))
    case Each(_, _) => fs.Shaky(Aims(CourseOf(plan, c, fs.unread)))
  }

  function FolderMayReplace(fs: FileSystem, dest: Path, merge: bool): set<Path> {
    if merge then fs.ShakyUnder(dest) else fs.Shaky({dest})
  }

  method Unchanged(plan: Plan, error: Option<Failure>) returns (o: Outcome)
    ensures o.outputFolder == plan.oldOutput && o.how == Nothing && !o.wholeFolder && o.movedFiles == 0
            && o.error == error
    ensures |o.paths| == |plan.files| && IdsRight(plan, o.paths) && AllAt(o.paths, Currents(plan))
  {
    var paths := [];
    for k := 0 to |plan.files|
      invariant |paths| == k && IdsRight(plan, paths) && forall i :: 0 <= i < k ==> paths[i].1 == plan.files[i].current
    {
      paths := paths + [(plan.files[k].fileId, plan.files[k].current)];
    }
    o := Outcome(plan.oldOutput, paths, Nothing, false, 0, error);
  }

  /** A target that is taken by something other than the file itself or a file already moved there. */
  predicate Clashes(t: Tree, unread: set<Path>, f: FileLoc, target: Path) {
    !Under(f.current, target) && Join(target, f.rel) != f.current && Seen(t, unread, Join(target, f.rel))
  }

  method HasClash(fs: FileSystem, plan: Plan) returns (clash: bool)
    ensures clash <==> AnyClash(fs.tree, fs.unread, plan)
  {
    clash := false;
    for k := 0 to |plan.files|
      invariant clash <==> exists i :: 0 <= i < k && Clashes(fs.tree, fs.unread, plan.files[i], plan.newOutput)
    {
      clash := clash || Clashes(fs.tree, fs.unread, plan.files[k], plan.newOutput);
    }
  }

  /** At the start every file is where it was, and the initial files are all there are. */
  ghost predicate AtHome(t: Tree, initial: map<Path, Content>, l: map<Path, Path>) {
    && WellFormed(t) && Located(initial, t, l) && (forall p :: p in l ==> l[p] == p) && forall p :: IsFile(t, p) ==>
      p in l
  }

  lemma HomeFacts(t: Tree, initial: map<Path, Content>, l: map<Path, Path>)
    requires AtHome(t, initial, l)
    ensures NoStray(t, l) && forall p :: p in l ==> IsFile(t, p) && t[p].content == initial[p]
  {
    forall p | p in l ensures IsFile(t, p) && t[p].content == initial[p] {
      assert AtPlace(t, l[p], initial[p]);
    }
    forall p | IsFile(t, p) ensures exists q :: q in l && l[q] == p {
      assert p in l && l[p] == p;
    }
  }

  lemma StartsOnTrack(t: Tree, initial: map<Path, Content>, l: map<Path, Path>, w: Course)
    requires AtHome(t, initial, l) && |w.to| == |w.plan.files| && !w.whole
    ensures OnTrack(t, w, l, 0)
  {
    forall i | 0 <= i < |w.to| && OnDisk(t, w.plan, i) ensures InPlace(w, l, 0, i) {
    }
  }

  /** On track, every file that was not passed over or replaced is where it is reported. */
  lemma OnTrackReported(t0: Tree, initial: map<Path, Content>, l0: map<Path, Path>, t: Tree, l: map<Path, Path>,
                        w: Course, u: Tree, stop: nat, paths: seq<(nat, Path)>)
    requires AtHome(t0, initial, l0) && Held(initial, t, l) && |paths| == |w.plan.files| == |w.to|
    requires OnTrack(t0, w, l, stop) && AllReadable(t0, w) && ReportedTo(w, u, stop, paths) && (w.whole ==> u == t)
    ensures SurvivorsReported(t0, t, l, w.plan, paths)
  {
    HomeFacts(t0, initial, l0);
    forall i | 0 <= i < |paths| && OnDisk(t0, w.plan, i) && w.plan.files[i].current in l
      ensures paths[i].1 in t && t[paths[i].1] == t0[w.plan.files[i].current]
    {
      assert InPlace(w, l, stop, i) && Readable(w, i);
      var cur := w.plan.files[i].current;
      assert AtPlace(t, l[cur], initial[cur]);
    }
  }

  lemma CopyReported(t0: Tree, t: Tree, w: Course, stop: nat, paths: seq<(nat, Path)>)
    requires |paths| == |w.plan.files| == |w.to| && CopyHeld(t0, t, w, stop) && AllReadable(t0, w)
    requires ReportedTo(w, t, stop, paths)
    ensures AllReported(t0, t, w.plan, paths)
  {
    forall i | 0 <= i < |paths| && OnDisk(t0, w.plan, i)
      ensures paths[i].1 in t && t[paths[i].1] == t0[w.plan.files[i].current]
    {
      assert Readable(w, i);
    }
  }

  /** No file on disk is passed over, and of those in a folder that is merged both places can be
      read. */
  ghost predicate Legible(t: Tree, w: Course, c: Choice)
    requires |w.to| == |w.plan.files|
  {
    && AllReadable(t, w)
    && (c.Folder? && c.merge ==>
          forall i :: 0 <= i < |w.to| && OnDisk(t, w.plan, i) && Under(w.plan.files[i].current, w.plan.oldOutput) ==>
            BothRead(w.unread, w.plan.oldOutput, c.dest, w.plan.files[i].current))
  }

  /** What every run keeps, whatever fails. */
  ghost predicate RunKeeps(t0: Tree, t: Tree, l: map<Path, Path>, unread: set<Path>, plan: Plan, c: Choice,
                           paths: seq<(nat, Path)>, intact: bool, torn: set<Path>)
    requires |paths| == |plan.files|
  {
    var w := CourseOf(plan, c, unread);
    && IdsRight(plan, paths)
    && (Legible(t0, w, c) && (intact || (Safe(t0, w) && Apart(t0, plan, c))) ==>
          SurvivorsReported(t0, t, l, plan, paths))
    && (NoneAtDirs(t0, w) && Apart(t0, plan, c) ==> BystandersStay(t0, w.whole, plan, l, torn))
  }

  /** A file is gone only if it came by a place at which something was replaced: in the folder, or on
      the way that the turns before `stop` take it. */
  ghost predicate RunLoses(t0: Tree, l: map<Path, Path>, pick: Order, unread: set<Path>, plan: Plan, c: Choice,
                           stop: Option<nat>, torn: set<Path>) {
    Apart(t0, plan, c) && (stop.Some? ==> stop.value <= |plan.files|) ==>
      forall p :: IsFile(t0, p) && p !in l ==> GoneOnTheWay(t0, pick, unread, plan, c, stop, p, torn)
  }

  ghost predicate GoneOnTheWay(t0: Tree, pick: Order, unread: set<Path>, plan: Plan, c: Choice, stop: Option<nat>,
                               p: Path, torn: set<Path>)
    requires stop.Some? ==> stop.value <= |plan.files|
  {
    var w := CourseOf(plan, c, unread);
    match c
    case Stay => false
    case Each(_, _) => stop.Some? && CameBy(w, stop.value, p, torn)
    case Folder(dest, merge) =>
      || PartlyGone(p, plan.oldOutput, dest, torn)
      || (stop.Some? && CameBy(w, stop.value, FolderPlace(t0, pick, plan, dest, merge, p), torn))
  }

  /** What a run without an error does. */
  ghost predicate RunDone(t0: Tree, l: map<Path, Path>, pick: Order, unread: set<Path>, plan: Plan, c: Choice,
                          o: Outcome)
    requires |o.paths| == |plan.files|
  {
    && AllAt(o.paths, Goals(plan, c)) && o.outputFolder == (if c.Stay? then plan.oldOutput else c.dest)
    && forall p :: p in l ==> l[p] == FinalPlace(t0, pick, unread, plan, c, p)
  }

  /** When file `i` is found where it is reported. `stop` is the turn at which the files stopped
      moving one by one, if it came to that: a file that seems missing is taken to be at its target,
      unless it was not its turn yet. */
  ghost predicate Shows(t: Tree, l: map<Path, Path>, w: Course, c: Choice, stop: Option<nat>, i: nat)
    requires i < |w.plan.files| == |w.to| && w.plan.files[i].current in l
  {
    match c
    case Stay => true
    case Each(_, _) => Readable(w, i) || (stop.Some? && stop.value <= i)
    case Folder(dest, merge) =>
      if stop.Some? then Readable(w, i) else HalfwayShows(t, w.unread, w.plan, dest, merge, l, w.plan.files[i].current)
  }

  /** In every run of a safe plan, of the files that were not replaced exactly these are found where
      they are reported. */
  ghost predicate RunExact(t0: Tree, t: Tree, l: map<Path, Path>, unread: set<Path>, plan: Plan, c: Choice,
                           stop: Option<nat>, paths: seq<(nat, Path)>)
    requires |paths| == |plan.files|
  {
    var w := CourseOf(plan, c, unread);
    Safe(t0, w) && Apart(t0, plan, c) ==>
      forall i :: 0 <= i < |paths| && OnDisk(t0, plan, i) && plan.files[i].current in l ==>
        (paths[i].1 == l[plan.files[i].current] <==> Shows(t, l, w, c, stop, i))
  }

  lemma TurnsExact(t0: Tree, initial: map<Path, Content>, l0: map<Path, Path>, t: Tree, l: map<Path, Path>, plan: Plan,
                   c: Choice, w: Course, u: Tree, stop: nat, paths: seq<(nat, Path)>)
    requires AtHome(t0, initial, l0) && Held(initial, t, l) && !c.Stay? && w == CourseOf(plan, c, w.unread)
    requires |paths| == |plan.files| && ReportedTo(w, u, stop, paths) && (w.whole ==> u == t)
    requires Safe(t0, w) && Apart(t0, plan, c) ==> OnTrack(t0, w, l, stop)
    ensures RunExact(t0, t, l, w.unread, plan, c, Some(stop), paths)
  {
    if Safe(t0, w) && Apart(t0, plan, c) {
      forall i | 0 <= i < |paths| && OnDisk(t0, plan, i) && plan.files[i].current in l
        ensures paths[i].1 == l[plan.files[i].current] <==> Shows(t, l, w, c, Some(stop), i)
      {
        assert InPlace(w, l, stop, i);
        var cur := plan.files[i].current;
        assert AtPlace(t, l[cur], initial[cur]);
      }
    }
  }

  // ------------------------------------------------------------- carrying it out

  /** Everything that is said of a run. */
  ghost predicate RunRight(fs: FileSystem, t0: Tree, plan: Plan, c: Choice, end: Option<nat>, o: Outcome)
    reads fs
  {
    var intact, torn := plan.copy && !fs.Torn(), Since([], fs.replaced);
    && |o.paths| == |plan.files|
    && RunKeeps(t0, fs.tree, fs.loc, fs.unread, plan, c, o.paths, intact, torn)
    && RunExact(t0, fs.tree, fs.loc, fs.unread, plan, c, end, o.paths)
    && RunLoses(t0, fs.loc, fs.pick, fs.unread, plan, c, end, torn)
    && (o.error.None? ==> RunDone(t0, fs.loc, fs.pick, fs.unread, plan, c, o))
    && (o.error.None? && !c.Stay? ==> end == Some(|plan.files|))
  }

  lemma NoneMoved(w: Course, l: map<Path, Path>, l0: map<Path, Path>, t: Tree, stop: nat, torn: set<Path>,
                  more: set<Path>)
    requires WellFormed(t) && stop <= |w.to| == |w.plan.files| && Follows(l, TrackAll(w, stop, l0))
    requires NoneAtDirs(t, w) && GoneOnTrack(w, stop, l0, l, more)
    requires forall p :: IsFile(t, p) && !(w.whole && Under(p, w.plan.oldOutput)) ==> StaysOrGone(l0, p, torn)
    ensures BystandersStay(t, w.whole, w.plan, l, torn + more)
  {
    forall p | IsFile(t, p) && !Planned(w.plan, p) && !(w.whole && Under(p, w.plan.oldOutput))
      ensures StaysOrGone(l, p, torn + more)
    {
      assert StaysOrGone(l0, p, torn);
      BystanderTrack(t, w, stop, p);
      if p in l0 && p !in l {
        var i :| 0 <= i <= stop && Track(w, i, l0[p]) in more;
        BystanderTrack(t, w, i, p);
      }
    }
  }

  lemma EachKeeps(t0: Tree, initial: map<Path, Content>, l0: map<Path, Path>, t: Tree, l: map<Path, Path>, pick: Order,
                  plan: Plan, c: Choice, w: Course, u: Tree, stop: nat, paths: seq<(nat, Path)>, intact: bool,
                  torn: set<Path>)
    requires AtHome(t0, initial, l0) && Held(initial, t, l) && c.Each? && w == CourseOf(plan, c, w.unread)
    requires |paths| == |plan.files| && (intact ==> t == u)
    requires Running(t0, l0, u, l, w, stop, intact, torn) && ReportedTo(w, u, stop, paths)
    ensures RunKeeps(t0, t, l, w.unread, plan, c, paths, intact, torn)
    ensures RunExact(t0, t, l, w.unread, plan, c, Some(stop), paths)
    ensures RunLoses(t0, l, pick, w.unread, plan, c, Some(stop), torn)
  {
    HomeFacts(t0, initial, l0);
    if Safe(t0, w) { StartsOnTrack(t0, initial, l0, w); }
    TurnsExact(t0, initial, l0, t, l, plan, c, w, u, stop, paths);
    if Legible(t0, w, c) {
      if intact {
        CopyReported(t0, u, w, stop, paths);
      } else if Safe(t0, w) {
        OnTrackReported(t0, initial, l0, t, l, w, u, stop, paths);
      }
    }
    if NoneAtDirs(t0, w) {
      NoneMoved(w, l, l0, t0, stop, {}, torn);
      assert {} + torn == torn;
    }
  }

  lemma EachDone(t0: Tree, initial: map<Path, Content>, l0: map<Path, Path>, l: map<Path, Path>, pick: Order,
                 plan: Plan, c: Choice, w: Course, u: Tree, o: Outcome)
    requires AtHome(t0, initial, l0) && c.Each? && |o.paths| == |plan.files| && o.outputFolder == c.dest
    requires w == CourseOf(plan, c, w.unread) && Follows(l, TrackAll(w, |plan.files|, l0))
    requires ReportedTo(w, u, |plan.files|, o.paths)
    ensures RunDone(t0, l, pick, w.unread, plan, c, o)
  {
  }

  lemma Untouched(fs: FileSystem)
    requires fs.Valid() && fs.Untouched()
    ensures AtHome(fs.tree, fs.initial, fs.loc) && NoStray(fs.tree, fs.loc)
  {
    HomeFacts(fs.tree, fs.initial, fs.loc);
  }

  lemma CopyStarts(t: Tree, w: Course)
    requires |w.plan.files| == |w.to| && !w.whole
    ensures CopyHeld(t, t, w, 0)
  {
  }

  /** Where the files go, one by one: a clash renames the single file, or the folder. */
  method ChooseEach(fs: FileSystem, plan: Plan, pid: nat) returns (dest: Path, single: Option<Path>)
    ensures EachRight(fs.tree, fs.unread, plan, pid, dest, single)
  {
    var target := plan.newOutput;
    var clash := HasClash(fs, plan);
    dest, single := target, None;
    if clash {
      if plan.singleFile {
        var p := FreePath(fs, Join(target, plan.files[0].rel), true, pid);
        single := Some(p);
      } else {
        dest := FreePath(fs, target, false, pid);
      }
    }
  }

  /** Files are moved one by one. */
  method ExecuteEach(fs: FileSystem, plan: Plan, pid: nat) returns (o: Outcome, ghost c: Choice, ghost end: Option<nat>)
    requires fs.Valid() && fs.Untouched() && !IntoItself(plan)
    modifies fs
    ensures fs.Valid() && Tears([], fs.replaced, MayReplace(fs, plan, c)) && c.Each?
    ensures EachRight(old(fs.tree), fs.unread, plan, pid, c.dest, c.single)
    ensures RunRight(fs, old(fs.tree), plan, c, end, o)
    ensures fs.calm && !plan.copy ==> NoStray(fs.tree, fs.loc)
    ensures fs.calm ==> CalmRight(fs, old(fs.tree), plan, c, o)
  {
    ghost var t0, l0 := fs.tree, fs.loc;
    Untouched(fs);
    var dest, single := ChooseEach(fs, plan, pid);
    c := Each(dest, single);
    ghost var w := CourseOf(plan, c, fs.unread);
    CopyStarts(t0, w);
    var paths, how, moved, error, sources, stop := MoveEach(fs, plan, dest, single, t0, w);
    end := Some(stop);
    ghost var u := fs.tree;
    if !plan.copy { RemoveEmptied(fs, plan, sources); }
    o := Outcome(if error.Some? && moved == 0 then plan.oldOutput else dest, paths, how, false, moved, error);
    EachRunRight(fs, t0, l0, u, plan, c, w, stop, o);
    if fs.calm { EachCalm(fs, t0, u, plan, c, w, o); }
  }

  lemma EachRunRight(fs: FileSystem, t0: Tree, l0: map<Path, Path>, u: Tree, plan: Plan, c: Choice, w: Course,
                     stop: nat, o: Outcome)
    requires fs.Valid() && AtHome(t0, fs.initial, l0) && c.Each? && w == CourseOf(plan, c, fs.unread)
    requires |o.paths| == |plan.files| && (plan.copy ==> fs.tree == u) && (o.error.None? ==> o.outputFolder == c.dest)
    requires Looping(t0, l0, u, fs.loc, w, o.paths, o.error.Some?, stop, plan.copy && !fs.Torn(),
               Since([], fs.replaced))
    ensures RunRight(fs, t0, plan, c, Some(stop), o)
  {
    EachKeeps(t0, fs.initial, l0, fs.tree, fs.loc, fs.pick, plan, c, w, u, stop, o.paths, plan.copy && !fs.Torn(),
      Since([], fs.replaced));
    if o.error.None? { EachDone(t0, fs.initial, l0, fs.loc, fs.pick, plan, c, w, u, o); }
  }

  lemma EachCalm(fs: FileSystem, t0: Tree, u: Tree, plan: Plan, c: Choice, w: Course, o: Outcome)
    requires c.Each? && w == CourseOf(plan, c, fs.unread) && !IntoItself(plan) && OnlyDirsGone(u, fs.tree)
    requires TurnsTo(u, w, fs.noReplace, |w.to|, TurnsRun(t0, w, fs.noReplace, 0), fs.replaced,
               [] + TurnsTears(t0, w, fs.noReplace, 0), o.error.Some?)
    ensures CalmRight(fs, t0, plan, c, o)
  {
    TurnsEnd(u, w, fs.noReplace, TurnsRun(t0, w, fs.noReplace, 0), fs.replaced, [] + TurnsTears(t0, w, fs.noReplace, 0),
      o.error.Some?);
  }

  lemma TurnsEnd(t: Tree, w: Course, noReplace: bool, run: Option<Tree>, now: seq<Path>, total: seq<Path>, failed: bool)
    requires |w.plan.files| == |w.to| && TurnsTo(t, w, noReplace, |w.to|, run, now, total, failed)
    ensures now == total && (failed <==> run.None?) && (!failed ==> run == Some(t))
  {
  }

  /** When nothing fails but for what is in its way or cannot be read, there is an error exactly when a
      move cannot be made, and exactly what is in the way unseen is replaced. */
  ghost predicate CalmRight(fs: FileSystem, t0: Tree, plan: Plan, c: Choice, o: Outcome)
    reads fs
  {
    var run := WholeRun(t0, fs.pick, fs.unread, fs.noReplace, plan, c);
    && (o.error.None? <==> run.Some? && !IntoItself(plan)) && (o.error.None? ==> OnlyDirsGone(run.value, fs.tree))
    && fs.replaced == WholeTears(t0, fs.pick, fs.unread, fs.noReplace, plan, c)
  }

  method RemoveEmptied(fs: FileSystem, plan: Plan, sources: seq<Path>)
    requires fs.Valid()
    modifies fs`tree
    ensures fs.Valid() && OnlyDirsGone(old(fs.tree), fs.tree)
    ensures NoStray(old(fs.tree), fs.loc) ==> NoStray(fs.tree, fs.loc)
  {
    for k := 0 to |sources|
      invariant fs.Valid() && OnlyDirsGone(old(fs.tree), fs.tree)
    {
      if sources[k] != [] { RemoveEmptyDirs(fs, Parent(sources[k]), plan.oldOutput, plan.ownFolder); }
    }
    if NoStray(old(fs.tree), fs.loc) {
      forall p | IsFile(fs.tree, p) ensures exists q :: q in fs.loc && fs.loc[q] == p {
        assert IsFile(old(fs.tree), p);
      }
    }
  }

  /** The requested folder when it seems free, or when it is a folder that nothing incoming is seen
      to clash with; otherwise a name beside it that seems free. */
  method ChooseFolder(fs: FileSystem, plan: Plan, pid: nat, b: Blind) returns (dest: Path, merge: bool)
    requires WellFormed(fs.tree) && Lists(fs.pick) && plan.wholeFolder && SeenDir(fs.tree, fs.unread, plan.oldOutput)
    requires !Under(plan.newOutput, plan.oldOutput)
    ensures FolderRight(fs.tree, fs.unread, plan, pid, b, dest, merge)
  {
    var target := plan.newOutput;
    if !Seen(fs.tree, fs.unread, target) { return target, false; }
    if IsDir(fs.tree, target) {
      var out := FindConflicts(fs, plan.oldOutput, target, [], b);
      if out == [] { return target, true; }
      SomeConflict(fs.tree, plan.oldOutput, target, b, out);
    }
    var free := FreePath(fs, target, false, pid);
    return free, false;
  }

  lemma SomeConflict(t: Tree, src: Path, dst: Path, b: Blind, out: seq<Path>)
    requires AllConflict(t, src, dst, b, out) && out != [] && IsDir(t, src) && IsDir(t, dst)
    ensures TypesKnown(t, src, b) ==> !ConflictFree(t, src, dst, [])
  {
    assert out[0] in out;
    assert Join(src, []) == src && Join(dst, []) == dst;
    assert Under(out[0], []) && Under(Join(src, out[0]), src);
  }

  /** Unless the folder comes back into itself, no file does, and nothing is put in it. */
  lemma ApartMeans(t: Tree, l: map<Path, Path>, src: Path, dst: Path)
    requires WellFormed(t) && IsDir(t, src) && !Under(dst, src) && !ComesBack(t, src, dst)
    requires forall p :: p in l ==> l[p] in t
    ensures NoneReturn(l, src, dst) && NoEntry(t, src, dst, src)
  {
    forall p | p in l ensures StaysOut(l[p], src, dst) {
      if Under(l[p], src) { ReturnPath(t, src, dst, l[p]); }
    }
  }

  lemma ReturnPath(t: Tree, src: Path, dst: Path, x: Path)
    requires WellFormed(t) && x in t && Under(x, src) && !Under(dst, src) && !ComesBack(t, src, dst)
    ensures !Under(Rebase(x, src, dst), src)
  {
    var y := Rebase(x, src, dst);
    RebaseIsUnder(x, src, dst);
    if Under(y, src) {
      PrefixesCompare(y, src, dst);
      var back := Join(src, StripPrefix(src, dst));
      assert x[..|back|] == back;
      if back != x { AncestorsAreDirs(t, x, back); }
    }
  }

  ghost function FolderPlaces(t: Tree, pick: Order, plan: Plan, dest: Path, merge: bool,
                              l: map<Path, Path>): (r: map<Path, Path>)
    ensures r.Keys == l.Keys && forall p :: p in r ==> r[p] == FolderPlace(t, pick, plan, dest, merge, l[p])
  {
    map p | p in l :: FolderPlace(t, pick, plan, dest, merge, l[p])
  }

  /** What moving the folder does, whether or not it works. */
  ghost predicate FolderKept(a: Tree, l0: map<Path, Path>, b: Tree, l: map<Path, Path>, pick: Order, plan: Plan,
                             dest: Path, merge: bool, ok: bool, intact: bool, torn: set<Path>) {
    && (if merge then MergeKeeps(a, l0, b, l, torn, plan.oldOutput, dest, intact)
        else (!ok ==> l == l0) && forall p :: p in l0 && p !in l ==> l0[p] in torn)
    && (intact ==> KeepsAll(a, b) && (ok ==> FilesCopied(a, b, plan.oldOutput, dest)))
    && (ok ==> Follows(l, FolderPlaces(a, pick, plan, dest, merge, l0)))
  }

  /** Moves the folder as a unit, or merges it into a folder that is already there. */
  method MoveFolder(fs: FileSystem, plan: Plan, dest: Path, merge: bool) returns (r: Result<MoveMethod, IoError>)
    requires fs.Valid() && (merge ==> !Under(dest, plan.oldOutput))
    modifies fs
    ensures fs.Valid()
    ensures Tears(old(fs.replaced), fs.replaced, FolderMayReplace(fs, dest, merge))
    ensures FolderKept(old(fs.tree), old(fs.loc), fs.tree, fs.loc, fs.pick, plan, dest, merge, r.Ok?,
              plan.copy && fs.replaced == old(fs.replaced), Since(old(fs.replaced), fs.replaced))
    ensures fs.calm && !plan.copy && NoStray(old(fs.tree), old(fs.loc)) ==> NoStray(fs.tree, fs.loc)
    ensures fs.calm ==>
              RunsAs(FolderRun(old(fs.tree), fs.pick, fs.unread, fs.noReplace, plan, dest, merge),
                FolderTears(old(fs.tree), fs.pick, fs.unread, fs.noReplace, plan, dest, merge), old(fs.replaced),
                fs.replaced, fs.tree, r.Ok?)
  {
    ghost var t, l, was := fs.tree, fs.loc, fs.replaced;
    FolderPlacesAre(t, fs.pick, plan, dest, merge, l);
    if merge {
      r := MergeDir(fs, plan.oldOutput, dest, plan.copy);
    } else {
      r := MovePath(fs, plan.oldOutput, dest, plan.copy);
      ToreOnce(was, fs.replaced, t, fs.unread, fs.noReplace, plan.oldOutput, dest, r.Ok?);
      FolderMoved(t, l, fs.tree, fs.loc, fs.pick, plan, dest, r.Ok?, Since(was, fs.replaced));
    }
  }

  lemma FolderMoved(a: Tree, l0: map<Path, Path>, b: Tree, l: map<Path, Path>, pick: Order, plan: Plan, dest: Path,
                    ok: bool, torn: set<Path>)
    requires Moves(a, l0, b, l, plan.oldOutput, dest, plan.copy, ok) && (ok && dest in a ==> dest in torn)
    ensures FolderKept(a, l0, b, l, pick, plan, dest, false, ok, plan.copy && !(ok && dest in a), torn)
  {
    FolderPlacesAre(a, pick, plan, dest, false, l0);
    if plan.copy && ok && dest !in a { CopiedFiles(a, b, plan.oldOutput, dest); }
  }

  lemma FolderPlacesAre(t: Tree, pick: Order, plan: Plan, dest: Path, merge: bool, l: map<Path, Path>)
    ensures FolderPlaces(t, pick, plan, dest, merge, l) ==
            if merge then FinalMap(t, pick, plan.oldOutput, dest, l) else ShiftAll(l, plan.oldOutput, dest)
  {
  }

  lemma CopiedFiles(a: Tree, b: Tree, src: Path, dst: Path)
    requires CopiedTo(a, b, src, dst)
    ensures FilesCopied(a, b, src, dst)
  {
  }

  ghost function FolderRun(t: Tree, pick: Order, unread: set<Path>, noReplace: bool, plan: Plan, dest: Path,
                           merge: bool): Option<Tree> {
    if merge then MergeRun(t, pick, unread, noReplace, plan.copy, plan.oldOutput, dest)
    else MoveRun(t, unread, noReplace, plan.copy, plan.oldOutput, dest)
  }

  ghost function FolderTears(t: Tree, pick: Order, unread: set<Path>, noReplace: bool, plan: Plan, dest: Path,
                             merge: bool): seq<Path> {
    if merge then MergeTears(t, pick, unread, noReplace, plan.copy, plan.oldOutput, dest)
    else MoveTears(t, unread, noReplace, plan.copy, plan.oldOutput, dest)
  }

  /** After the folder has moved, its files are on track. */
  lemma FolderOnTrack(t0: Tree, initial: map<Path, Content>, l0: map<Path, Path>, l: map<Path, Path>, pick: Order,
                      plan: Plan, c: Choice, w: Course)
    requires AtHome(t0, initial, l0) && c.Folder? && Apart(t0, plan, c) && IsDir(t0, plan.oldOutput)
    requires w == CourseOf(plan, c, w.unread) && (c.merge ==> !Under(c.dest, plan.oldOutput))
    requires Follows(l, FolderPlaces(t0, pick, plan, c.dest, c.merge, l0)) && LostAt(l0, l, plan.oldOutput, w.unread)
    ensures OnTrack(t0, w, l, 0)
  {
    HomeFacts(t0, initial, l0);
    forall i | 0 <= i < |plan.files| && OnDisk(t0, plan, i) ensures InPlace(w, l, 0, i) {
      var cur := plan.files[i].current;
      if cur in l && c.merge && Under(cur, plan.oldOutput) {
        ReturnPath(t0, plan.oldOutput, c.dest, cur);
        FinalNoReturn(t0, pick, plan.oldOutput, c.dest, cur);
      }
    }
  }

  lemma FolderCopied(t0: Tree, t: Tree, plan: Plan, dest: Path, w: Course)
    requires KeepsAll(t0, t) && FilesCopied(t0, t, plan.oldOutput, dest)
    requires w.plan == plan && w.to == FolderTargets(plan, dest)
    ensures CopyHeld(t0, t, w, 0)
  {
  }

  /** While nothing comes back, what the folder has lost was replaced in the old or the new place. */
  lemma FolderLoses(t0: Tree, initial: map<Path, Content>, l0: map<Path, Path>, t: Tree, l: map<Path, Path>,
                    pick: Order, plan: Plan, c: Choice, ok: bool, intact: bool, torn: set<Path>)
    requires AtHome(t0, initial, l0) && c.Folder? && IsDir(t0, plan.oldOutput)
             && (c.merge ==> !Under(c.dest, plan.oldOutput))
    requires FolderKept(t0, l0, t, l, pick, plan, c.dest, c.merge, ok, intact, torn)
    ensures LostAt(l0, l, plan.oldOutput, torn)
    ensures Apart(t0, plan, c) ==>
              forall p :: IsFile(t0, p) && p !in l ==> PartlyGone(p, plan.oldOutput, c.dest, torn)
    ensures Apart(t0, plan, c) && c.merge ==>
              PartlyMoved(l0, l, plan.oldOutput, c.dest, torn) && QuietUnder(t0, t, plan.oldOutput)
  {
    HomeFacts(t0, initial, l0);
    if c.merge {
      if Apart(t0, plan, c) { ApartMeans(t0, l0, plan.oldOutput, c.dest); }
    } else {
      forall p | IsFile(t0, p) && p !in l ensures PartlyGone(p, plan.oldOutput, c.dest, torn) {
        assert p in l0 && PartlyAt(p, l0[p], plan.oldOutput, c.dest);
      }
    }
  }

  lemma HalfwayKeeps(t0: Tree, initial: map<Path, Content>, l0: map<Path, Path>, t: Tree, l: map<Path, Path>,
                     pick: Order, plan: Plan, c: Choice, w: Course, paths: seq<(nat, Path)>, intact: bool,
                     torn: set<Path>)
    requires AtHome(t0, initial, l0) && Held(initial, t, l) && c.Folder? && w == CourseOf(plan, c, w.unread)
    requires |paths| == |plan.files| && IdsRight(plan, paths) && IsDir(t0, plan.oldOutput)
    requires HalfwayPaths(t, w.unread, plan, c.dest, c.merge, paths)
    requires FolderKept(t0, l0, t, l, pick, plan, c.dest, c.merge, false, intact, torn)
             && (c.merge ==> !Under(c.dest, plan.oldOutput))
    ensures RunKeeps(t0, t, l, w.unread, plan, c, paths, intact, torn)
    ensures RunExact(t0, t, l, w.unread, plan, c, None, paths)
    ensures RunLoses(t0, l, pick, w.unread, plan, c, None, torn)
  {
    HomeFacts(t0, initial, l0);
    FolderLoses(t0, initial, l0, t, l, pick, plan, c, false, intact, torn);
    if Apart(t0, plan, c) { HalfwayExact(t0, initial, l0, t, l, pick, plan, c, w, paths, intact, torn); }
    if Legible(t0, w, c) && (intact || Apart(t0, plan, c)) {
      HalfwayReported(t0, initial, l0, t, l, pick, plan, c, w, paths, intact, torn);
    }
    if Apart(t0, plan, c) {
      forall p | IsFile(t0, p) && !Under(p, plan.oldOutput) ensures StaysOrGone(l, p, torn) {
        if c.merge && p in l { assert PartlyAt(l0[p], l[p], plan.oldOutput, c.dest); }
      }
    }
  }

  lemma HalfwayExact(t0: Tree, initial: map<Path, Content>, l0: map<Path, Path>, t: Tree, l: map<Path, Path>,
                     pick: Order, plan: Plan, c: Choice, w: Course, paths: seq<(nat, Path)>, intact: bool,
                     torn: set<Path>)
    requires AtHome(t0, initial, l0) && Held(initial, t, l) && c.Folder? && w == CourseOf(plan, c, w.unread)
    requires |paths| == |plan.files| && IsDir(t0, plan.oldOutput) && Apart(t0, plan, c)
    requires HalfwayPaths(t, w.unread, plan, c.dest, c.merge, paths)
    requires FolderKept(t0, l0, t, l, pick, plan, c.dest, c.merge, false, intact, torn)
             && (c.merge ==> !Under(c.dest, plan.oldOutput))
    ensures RunExact(t0, t, l, w.unread, plan, c, None, paths)
  {
    HomeFacts(t0, initial, l0);
    FolderLoses(t0, initial, l0, t, l, pick, plan, c, false, intact, torn);
    forall i | 0 <= i < |paths| && OnDisk(t0, plan, i) && plan.files[i].current in l
      ensures paths[i].1 == l[plan.files[i].current] <==> Shows(t, l, w, c, None, i)
    {
      var cur := plan.files[i].current;
      if c.merge { assert PartlyAt(l0[cur], l[cur], plan.oldOutput, c.dest); }
      HalfwayIff(t0, initial, l0, t, l, w.unread, plan, c.dest, c.merge, cur);
    }
  }

  lemma HalfwayReported(t0: Tree, initial: map<Path, Content>, l0: map<Path, Path>, t: Tree, l: map<Path, Path>,
                        pick: Order, plan: Plan, c: Choice, w: Course, paths: seq<(nat, Path)>, intact: bool,
                        torn: set<Path>)
    requires AtHome(t0, initial, l0) && Held(initial, t, l) && c.Folder? && w == CourseOf(plan, c, w.unread)
    requires |paths| == |plan.files| && IsDir(t0, plan.oldOutput)
    requires HalfwayPaths(t, w.unread, plan, c.dest, c.merge, paths)
    requires FolderKept(t0, l0, t, l, pick, plan, c.dest, c.merge, false, intact, torn)
             && (c.merge ==> !Under(c.dest, plan.oldOutput))
    requires Legible(t0, w, c) && (intact || Apart(t0, plan, c))
    ensures SurvivorsReported(t0, t, l, plan, paths)
  {
    HomeFacts(t0, initial, l0);
    FolderLoses(t0, initial, l0, t, l, pick, plan, c, false, intact, torn);
    forall i | 0 <= i < |paths| && OnDisk(t0, plan, i) && plan.files[i].current in l
      ensures paths[i].1 in t && t[paths[i].1] == t0[plan.files[i].current]
    {
      var cur := plan.files[i].current;
      if !intact {
        if c.merge { assert PartlyAt(l0[cur], l[cur], plan.oldOutput, c.dest); }
        HalfwayRight(t0, initial, l0, t, l, w.unread, plan, c.dest, c.merge, cur);
      }
    }
  }

  /** The folder has moved, and the turns before `stop` were taken. */
  ghost predicate FolderThenTurns(t0: Tree, initial: map<Path, Content>, l0: map<Path, Path>, l1: map<Path, Path>,
                                  t: Tree, l: map<Path, Path>, pick: Order, plan: Plan, c: Choice, w: Course,
                                  stop: nat, intact: bool, torn: set<Path>, more: set<Path>) {
    && AtHome(t0, initial, l0) && Held(initial, t, l) && c.Folder? && w == CourseOf(plan, c, w.unread)
    && IsDir(t0, plan.oldOutput) && (c.merge ==> !Under(c.dest, plan.oldOutput)) && torn <= w.unread
    && Follows(l1, FolderPlaces(t0, pick, plan, c.dest, c.merge, l0)) && LostAt(l0, l1, plan.oldOutput, torn)
    && (Apart(t0, plan, c) ==>
          forall p :: IsFile(t0, p) && p !in l1 ==> PartlyGone(p, plan.oldOutput, c.dest, torn))
    && Running(t0, l1, t, l, w, stop, intact, more)
  }

  lemma FolderKeeps(t0: Tree, initial: map<Path, Content>, l0: map<Path, Path>, l1: map<Path, Path>, t: Tree,
                    l: map<Path, Path>, pick: Order, plan: Plan, c: Choice, w: Course, stop: nat,
                    paths: seq<(nat, Path)>, intact: bool, torn: set<Path>, more: set<Path>)
    requires FolderThenTurns(t0, initial, l0, l1, t, l, pick, plan, c, w, stop, intact, torn, more)
    requires |paths| == |plan.files| && ReportedTo(w, t, stop, paths)
    ensures RunKeeps(t0, t, l, w.unread, plan, c, paths, intact, torn + more)
    ensures RunExact(t0, t, l, w.unread, plan, c, Some(stop), paths)
  {
    HomeFacts(t0, initial, l0);
    if Safe(t0, w) && Apart(t0, plan, c) { FolderOnTrack(t0, initial, l0, l1, pick, plan, c, w); }
    TurnsExact(t0, initial, l0, t, l, plan, c, w, t, stop, paths);
    if Legible(t0, w, c) {
      if intact {
        CopyReported(t0, t, w, stop, paths);
      } else if Safe(t0, w) && Apart(t0, plan, c) {
        OnTrackReported(t0, initial, l0, t, l, w, t, stop, paths);
      }
    }
    if NoneAtDirs(t0, w) { NoneMoved(w, l, l1, t0, stop, torn, more); }
  }

  lemma FolderRunLoses(t0: Tree, initial: map<Path, Content>, l0: map<Path, Path>, l1: map<Path, Path>, t: Tree,
                       l: map<Path, Path>, pick: Order, plan: Plan, c: Choice, w: Course, stop: nat, intact: bool,
                       torn: set<Path>, more: set<Path>)
    requires FolderThenTurns(t0, initial, l0, l1, t, l, pick, plan, c, w, stop, intact, torn, more)
    ensures RunLoses(t0, l, pick, w.unread, plan, c, Some(stop), torn + more)
  {
    if Apart(t0, plan, c) {
      forall p | IsFile(t0, p) && p !in l
        ensures GoneOnTheWay(t0, pick, w.unread, plan, c, Some(stop), p, torn + more)
      {
        if p in l1 {
          assert CameBy(w, stop, l1[p], more);
          var i :| 0 <= i <= stop && Track(w, i, l1[p]) in more;
          assert Track(w, i, l1[p]) in torn + more;
        } else {
          var y :| y in torn && PartlyAt(p, y, plan.oldOutput, c.dest);
          assert y in torn + more;
        }
      }
    }
  }

  lemma FolderDone(t0: Tree, initial: map<Path, Content>, l0: map<Path, Path>, l1: map<Path, Path>, l: map<Path, Path>,
                   t: Tree, pick: Order, plan: Plan, c: Choice, w: Course, o: Outcome)
    requires AtHome(t0, initial, l0) && c.Folder? && |o.paths| == |plan.files| && o.outputFolder == c.dest
    requires w == CourseOf(plan, c, w.unread) && Follows(l1, FolderPlaces(t0, pick, plan, c.dest, c.merge, l0))
    requires Follows(l, TrackAll(w, |plan.files|, l1)) && ReportedTo(w, t, |plan.files|, o.paths)
    ensures RunDone(t0, l, pick, w.unread, plan, c, o)
  {
  }

  /** The folder goes first, then the files that were elsewhere. */
  method ExecuteWhole(fs: FileSystem, plan: Plan, pid: nat, b: Blind)
    returns (o: Outcome, ghost c: Choice, ghost end: Option<nat>)
    requires fs.Valid() && fs.Untouched() && plan.wholeFolder && SeenDir(fs.tree, fs.unread, plan.oldOutput)
    requires !Under(plan.newOutput, plan.oldOutput)
    modifies fs
    ensures fs.Valid() && Tears([], fs.replaced, MayReplace(fs, plan, c)) && c.Folder?
    ensures FolderRight(old(fs.tree), fs.unread, plan, pid, b, c.dest, c.merge)
    ensures RunRight(fs, old(fs.tree), plan, c, end, o)
    ensures fs.calm && !plan.copy ==> NoStray(fs.tree, fs.loc)
    ensures fs.calm ==> CalmRight(fs, old(fs.tree), plan, c, o)
  {
    ghost var t0, l0 := fs.tree, fs.loc;
    Untouched(fs);
    var dest, merge := ChooseFolder(fs, plan, pid, b);
    c := Folder(dest, merge);
    ghost var w := CourseOf(plan, c, fs.unread);
    var r := MoveFolder(fs, plan, dest, merge);
    ghost var t1, l1, mid := fs.tree, fs.loc, fs.replaced;
    if r.Err? {
      var paths := ReportHalfway(fs, plan, dest, merge);
      o, end := Outcome(plan.oldOutput, paths, Nothing, true, 0, Some(Io(r.error))), None;
      StoppedRight(fs, t0, l0, plan, c, w, o);
      return;
    }
    if plan.copy && !fs.Torn() { FolderCopied(t0, fs.tree, plan, dest, w); }
    var paths, how, moved, error, stop := JoinOthers(fs, plan, dest, r.value, t0, w);
    o, end := Outcome(dest, paths, how, true, moved, error), Some(stop);
    FolderTearsRight(fs, t0, l0, t1, l1, plan, c, w, stop, mid, o);
    FolderRunRight(fs, t0, l0, t1, l1, plan, c, w, stop, mid, o);
    if fs.calm { FolderCalm(fs, t0, t1, l1, plan, c, w, stop, mid, o); }
  }

  /** The folder has not moved, or only in part. */
  lemma StoppedRight(fs: FileSystem, t0: Tree, l0: map<Path, Path>, plan: Plan, c: Choice, w: Course, o: Outcome)
    requires fs.Valid() && AtHome(t0, fs.initial, l0) && c.Folder? && w == CourseOf(plan, c, fs.unread)
    requires |o.paths| == |plan.files| && IdsRight(plan, o.paths) && IsDir(t0, plan.oldOutput) && o.error.Some?
    requires HalfwayPaths(fs.tree, fs.unread, plan, c.dest, c.merge, o.paths)
    requires FolderKept(t0, l0, fs.tree, fs.loc, fs.pick, plan, c.dest, c.merge, false, plan.copy && !fs.Torn(),
               Since([], fs.replaced))
    requires c.merge ==> !Under(c.dest, plan.oldOutput)
    requires Tears([], fs.replaced, FolderMayReplace(fs, c.dest, c.merge))
    requires fs.calm ==>
               RunsAs(FolderRun(t0, fs.pick, fs.unread, fs.noReplace, plan, c.dest, c.merge),
                 FolderTears(t0, fs.pick, fs.unread, fs.noReplace, plan, c.dest, c.merge), [], fs.replaced, fs.tree,
                 false)
    ensures RunRight(fs, t0, plan, c, None, o) && Tears([], fs.replaced, MayReplace(fs, plan, c))
    ensures fs.calm ==> CalmRight(fs, t0, plan, c, o)
  {
    HalfwayKeeps(t0, fs.initial, l0, fs.tree, fs.loc, fs.pick, plan, c, w, o.paths, plan.copy && !fs.Torn(),
      Since([], fs.replaced));
    if fs.calm { FolderStopped(t0, fs.pick, fs.unread, fs.noReplace, plan, c); }
  }

  /** The folder has moved, and the loop over the files is through. */
  ghost predicate FolderAndTurns(fs: FileSystem, t0: Tree, l0: map<Path, Path>, t1: Tree, l1: map<Path, Path>,
                                 plan: Plan, c: Choice, w: Course, stop: nat, mid: seq<Path>, o: Outcome)
    reads fs
  {
    && AtHome(t0, fs.initial, l0) && c.Folder? && IsDir(t0, plan.oldOutput) && w == CourseOf(plan, c, fs.unread)
    && (c.merge ==> !Under(c.dest, plan.oldOutput)) && |o.paths| == |plan.files| && o.outputFolder == c.dest
    && Tears([], mid, FolderMayReplace(fs, c.dest, c.merge))
    && FolderKept(t0, l0, t1, l1, fs.pick, plan, c.dest, c.merge, true, plan.copy && mid == [], Since([], mid))
    && Turning(fs, t0, l1, w, o.paths, o.error.Some?, stop, t1, mid)
  }

  lemma FolderTearsRight(fs: FileSystem, t0: Tree, l0: map<Path, Path>, t1: Tree, l1: map<Path, Path>, plan: Plan,
                         c: Choice, w: Course, stop: nat, mid: seq<Path>, o: Outcome)
    requires FolderAndTurns(fs, t0, l0, t1, l1, plan, c, w, stop, mid, o)
    ensures Tears([], fs.replaced, MayReplace(fs, plan, c)) && Since([], mid) <= fs.unread
  {
    TearsMore([], mid, fs.replaced, FolderMayReplace(fs, c.dest, c.merge), fs.Shaky(Aims(w)));
  }

  lemma FolderRunRight(fs: FileSystem, t0: Tree, l0: map<Path, Path>, t1: Tree, l1: map<Path, Path>, plan: Plan,
                       c: Choice, w: Course, stop: nat, mid: seq<Path>, o: Outcome)
    requires FolderAndTurns(fs, t0, l0, t1, l1, plan, c, w, stop, mid, o)
    ensures RunRight(fs, t0, plan, c, Some(stop), o)
  {
    var torn, more, intact := Since([], mid), Since(mid, fs.replaced), plan.copy && !fs.Torn();
    FolderTearsRight(fs, t0, l0, t1, l1, plan, c, w, stop, mid, o);
    SinceNext([], mid, fs.replaced);
    FolderLoses(t0, fs.initial, l0, t1, l1, fs.pick, plan, c, true, plan.copy && mid == [], torn);
    assert FolderThenTurns(t0, fs.initial, l0, l1, fs.tree, fs.loc, fs.pick, plan, c, w, stop, intact, torn, more);
    FolderKeeps(t0, fs.initial, l0, l1, fs.tree, fs.loc, fs.pick, plan, c, w, stop, o.paths, intact, torn, more);
    FolderRunLoses(t0, fs.initial, l0, l1, fs.tree, fs.loc, fs.pick, plan, c, w, stop, intact, torn, more);
    if o.error.None? { FolderDone(t0, fs.initial, l0, l1, fs.loc, fs.tree, fs.pick, plan, c, w, o); }
  }

  /** The folder and then the turns, when nothing fails. */
  lemma FolderCalm(fs: FileSystem, t0: Tree, t1: Tree, l1: map<Path, Path>, plan: Plan, c: Choice, w: Course,
                   stop: nat, mid: seq<Path>, o: Outcome)
    requires fs.calm && c.Folder? && w == CourseOf(plan, c, fs.unread) && !IntoItself(plan)
    requires |o.paths| == |plan.files| && Turning(fs, t0, l1, w, o.paths, o.error.Some?, stop, t1, mid)
    requires RunsAs(FolderRun(t0, fs.pick, fs.unread, fs.noReplace, plan, c.dest, c.merge),
               FolderTears(t0, fs.pick, fs.unread, fs.noReplace, plan, c.dest, c.merge), [], mid, t1, true)
    ensures CalmRight(fs, t0, plan, c, o)
  {
    var run, tears := TurnsRun(t1, w, fs.noReplace, 0), TurnsTears(t1, w, fs.noReplace, 0);
    TurnsEnd(fs.tree, w, fs.noReplace, run, fs.replaced, mid + tears, o.error.Some?);
    WholeOfFolder(t0, fs.pick, fs.unread, fs.noReplace, plan, c, t1, mid);
  }

  lemma WholeOfFolder(t: Tree, pick: Order, unread: set<Path>, noReplace: bool, plan: Plan, c: Choice, t1: Tree,
                      mid: seq<Path>)
    requires c.Folder? && FolderRun(t, pick, unread, noReplace, plan, c.dest, c.merge) == Some(t1)
    requires FolderTears(t, pick, unread, noReplace, plan, c.dest, c.merge) == mid
    ensures var w := CourseOf(plan, c, unread);
            && WholeRun(t, pick, unread, noReplace, plan, c) == TurnsRun(t1, w, noReplace, 0)
            && WholeTears(t, pick, unread, noReplace, plan, c) == mid + TurnsTears(t1, w, noReplace, 0)
  {
  }

  lemma FolderStopped(t: Tree, pick: Order, unread: set<Path>, noReplace: bool, plan: Plan, c: Choice)
    requires c.Folder? && FolderRun(t, pick, unread, noReplace, plan, c.dest, c.merge).None?
    ensures WholeRun(t, pick, unread, noReplace, plan, c).None?
    ensures WholeTears(t, pick, unread, noReplace, plan, c) ==
            FolderTears(t, pick, unread, noReplace, plan, c.dest, c.merge)
  {
  }

  lemma StayKeeps(t: Tree, initial: map<Path, Content>, l: map<Path, Path>, unread: set<Path>, plan: Plan,
                  paths: seq<(nat, Path)>)
    requires AtHome(t, initial, l) && |paths| == |plan.files| && IdsRight(plan, paths) && AllAt(paths, Currents(plan))
    ensures RunKeeps(t, t, l, unread, plan, Stay, paths, plan.copy, {})
    ensures RunExact(t, t, l, unread, plan, Stay, None, paths)
  {
    HomeFacts(t, initial, l);
  }

  /** Carries out a relocation. Whatever fails on the way, no file's content is lost or overwritten,
      unless it was in the way of a rename at a target that cannot be read and the system could not be
      asked to replace nothing; and then only that one is. */
  method Execute(fs: FileSystem, plan: Plan, pid: nat, b: Blind)
    returns (o: Outcome, ghost c: Choice, ghost end: Option<nat>)
    requires fs.Valid() && fs.Untouched()
    modifies fs
    ensures fs.Valid() && Tears([], fs.replaced, MayReplace(fs, plan, c))
    ensures ChoiceRight(old(fs.tree), fs.unread, plan, pid, b, c)
    ensures RunRight(fs, old(fs.tree), plan, c, end, o)
    ensures c.Stay? ==> fs.tree == old(fs.tree)
    ensures fs.calm && !plan.copy ==> NoStray(fs.tree, fs.loc)
    ensures fs.calm ==> CalmRight(fs, old(fs.tree), plan, c, o)
  {
    Untouched(fs);
    c, end := Stay, None;
    if plan.newOutput == plan.oldOutput {
      o := Unchanged(plan, None);
      StayKeeps(fs.tree, fs.initial, fs.loc, fs.unread, plan, o.paths);
    } else if plan.wholeFolder && Under(plan.newOutput, plan.oldOutput) {
      o := Unchanged(plan, Some(WithinItself));
      StayKeeps(fs.tree, fs.initial, fs.loc, fs.unread, plan, o.paths);
    } else if plan.wholeFolder && SeenDir(fs.tree, fs.unread, plan.oldOutput) {
      o, c, end := ExecuteWhole(fs, plan, pid, b);
    } else {
      o, c, end := ExecuteEach(fs, plan, pid);
    }
  }

  /** A folder that would have to go inside itself. */
  predicate IntoItself(plan: Plan) {
    plan.newOutput != plan.oldOutput && plan.wholeFolder && Under(plan.newOutput, plan.oldOutput)
  }
}
