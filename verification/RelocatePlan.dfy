/** What a relocation has to do, and where the turns of its files take every path. */
module RelocationPlans {
  import opened Prelude
  import opened FileTrees
  import opened FileSystems
  import opened Moving

  /** One torrent file: where it is, and its path inside the torrent folder. */
  datatype FileLoc = FileLoc(fileId: nat, current: Path, rel: Path)

  datatype Plan = Plan(
    oldOutput: Path, newOutput: Path, files: seq<FileLoc>,
    wholeFolder: bool, ownFolder: bool, singleFile: bool, copy: bool)

  predicate OnDisk(t: Tree, plan: Plan, i: nat)
    requires i < |plan.files|
  {
    IsFile(t, plan.files[i].current)
  }

  /** The way a relocation goes: where each file is put, whether the folder moves first, and which
      paths seem free because they cannot be read. */
  datatype Course = Course(plan: Plan, to: seq<Path>, whole: bool, unread: set<Path>)

  /** File `i` travels with the folder. */
  predicate Together(w: Course, i: nat)
    requires i < |w.plan.files|
  {
    w.whole && Under(w.plan.files[i].current, w.plan.oldOutput)
  }

  /** File `i` seems to be missing. */
  predicate Unseen(w: Course, i: nat)
    requires i < |w.plan.files|
  {
    w.plan.files[i].current in w.unread
  }

  // ------------------------------------------------------------- turns

  /** The turn of file `j` takes along everything at or below the place where it is registered, if
      that can be seen. */
  function Turn(w: Course, j: nat, x: Path): Path
    requires j < |w.plan.files| == |w.to|
  {
    if Together(w, j) || Unseen(w, j) then x else Shift(x, w.plan.files[j].current, w.to[j])
  }

  /** Where the first `k` turns take a path. */
  function Track(w: Course, k: nat, x: Path): Path
    requires k <= |w.plan.files| == |w.to|
  {
    if k == 0 then x else Turn(w, k - 1, Track(w, k - 1, x))
  }

  ghost function TrackAll(w: Course, k: nat, l: map<Path, Path>): (r: map<Path, Path>)
    requires k <= |w.plan.files| == |w.to|
    ensures r.Keys == l.Keys && forall p :: p in r ==> r[p] == Track(w, k, l[p])
  {
    map p | p in l :: Track(w, k, l[p])
  }

  lemma NoTurns(w: Course, l: map<Path, Path>)
    requires |w.plan.files| == |w.to|
    ensures TrackAll(w, 0, l) == l
  {
  }

  /** The turn of a file that moves. */
  lemma TurnMoves(w: Course, j: nat, l0: map<Path, Path>, l: map<Path, Path>)
    requires j < |w.plan.files| == |w.to| && Follows(l, TrackAll(w, j, l0)) && !Together(w, j) && !Unseen(w, j)
    ensures Follows(ShiftAll(l, w.plan.files[j].current, w.to[j]), TrackAll(w, j + 1, l0))
  {
  }

  /** By turn `k` a file from `x` has come by a place at which something was replaced. */
  ghost predicate CameBy(w: Course, k: nat, x: Path, torn: set<Path>)
    requires k <= |w.plan.files| == |w.to|
  {
    exists i :: 0 <= i <= k && Track(w, i, x) in torn
  }

  /** Only such files are gone. */
  ghost predicate GoneOnTrack(w: Course, k: nat, l0: map<Path, Path>, l: map<Path, Path>, torn: set<Path>)
    requires k <= |w.plan.files| == |w.to|
  {
    forall p :: p in l0 && p !in l ==> CameBy(w, k, l0[p], torn)
  }

  lemma GoneMore(w: Course, j: nat, l0: map<Path, Path>, l: map<Path, Path>, l': map<Path, Path>, torn: set<Path>,
                 more: set<Path>)
    requires j < |w.plan.files| == |w.to| && GoneOnTrack(w, j, l0, l, torn) && Follows(l, TrackAll(w, j, l0))
    requires forall p :: p in l && p !in l' ==> l[p] in more
    ensures GoneOnTrack(w, j + 1, l0, l', torn + more)
  {
    forall p | p in l0 && p !in l' ensures CameBy(w, j + 1, l0[p], torn + more) {
      if p in l {
        assert Track(w, j, l0[p]) in torn + more;
      } else {
        var i :| 0 <= i <= j && Track(w, i, l0[p]) in torn;
        assert Track(w, i, l0[p]) in torn + more;
      }
    }
  }

  /** Nothing moves in the turn of file `j`: it is in place, seems missing, or travels with the folder. */
  predicate Idle(t: Tree, w: Course, j: nat)
    requires j < |w.plan.files| == |w.to|
  {
    Together(w, j) || w.plan.files[j].current == w.to[j] || !Seen(t, w.unread, w.plan.files[j].current)
  }

  lemma TurnStays(w: Course, j: nat, l0: map<Path, Path>, l: map<Path, Path>, t: Tree, initial: map<Path, Content>)
    requires j < |w.plan.files| == |w.to| && Follows(l, TrackAll(w, j, l0)) && WellFormed(t) && Held(initial, t, l)
    requires Idle(t, w, j)
    ensures Follows(l, TrackAll(w, j + 1, l0))
  {
    var cur := w.plan.files[j].current;
    forall p | p in l ensures l[p] == Turn(w, j, l[p]) {
      assert AtPlace(t, l[p], initial[p]);
      if !Together(w, j) && Under(l[p], cur) && cur !in t { NothingBelow(t, cur, l[p]); }
    }
  }

  // ------------------------------------------------------------- plans that are always reported right

  /** Where file `i` is, in a run without surprises, when the turn of `j` comes. */
  function PlaceAtTurn(w: Course, i: nat, j: nat): Path
    requires i < |w.plan.files| == |w.to|
  {
    if Together(w, i) || (i < j && !Unseen(w, i)) then w.to[i] else w.plan.files[i].current
  }

  /** File `i` is not passed over although it should move. */
  predicate Readable(w: Course, i: nat)
    requires i < |w.plan.files| == |w.to|
  {
    Together(w, i) || !Unseen(w, i) || w.plan.files[i].current == w.to[i]
  }

  ghost predicate AllReadable(t: Tree, w: Course)
    requires |w.to| == |w.plan.files|
  {
    forall i :: 0 <= i < |w.to| && OnDisk(t, w.plan, i) ==> Readable(w, i)
  }

  /** Files on disk that move on their own have places of their own, and no turn of a file that is
      missing, or registered at a directory, takes one of them along. */
  ghost predicate Safe(t: Tree, w: Course) {
    && |w.to| == |w.plan.files|
    && (forall i, j :: 0 <= i < j < |w.to| && OnDisk(t, w.plan, i) && OnDisk(t, w.plan, j) && !Together(w, i) ==>
          w.plan.files[i].current != w.plan.files[j].current)
    && (forall i, j :: 0 <= i < |w.to| && 0 <= j < |w.to| &&
                       OnDisk(t, w.plan, i) && !OnDisk(t, w.plan, j) && !Together(w, j) && !Unseen(w, j) ==>
          !Under(PlaceAtTurn(w, i, j), w.plan.files[j].current))
  }

  /** Files whose turn was taken, or that travel with the folder, are at their destination or gone,
      the others are where they were. */
  ghost predicate OnTrack(t0: Tree, w: Course, l: map<Path, Path>, k: nat)
    requires |w.to| == |w.plan.files|
  {
    forall i :: 0 <= i < |w.to| && OnDisk(t0, w.plan, i) ==> InPlace(w, l, k, i)
  }

  ghost predicate InPlace(w: Course, l: map<Path, Path>, k: nat, i: nat)
    requires i < |w.to| == |w.plan.files|
  {
    if w.plan.files[i].current in l then l[w.plan.files[i].current] == PlaceAtTurn(w, i, k)
    else Together(w, i) || Unseen(w, i) || i < k
  }

  /** The turn of a file takes no other one along. */
  lemma TakesNoOther(t0: Tree, w: Course, initial: map<Path, Content>, t: Tree, l: map<Path, Path>, j: nat, i: nat)
    requires Safe(t0, w) && WellFormed(t) && Held(initial, t, l) && OnTrack(t0, w, l, j)
    requires i < |w.to| && j < |w.to| && i != j && OnDisk(t0, w.plan, i) && !Together(w, j) && !Unseen(w, j)
    requires w.plan.files[i].current in l
    ensures !Under(l[w.plan.files[i].current], w.plan.files[j].current)
  {
    var x, cur := w.plan.files[i].current, w.plan.files[j].current;
    assert InPlace(w, l, j, i);
    if OnDisk(t0, w.plan, j) {
      assert InPlace(w, l, j, j);
      assert AtPlace(t, l[x], initial[x]) && AtPlace(t, l[cur], initial[cur]);
      if Under(l[x], cur) { NothingBelow(t, cur, l[x]); }
    }
  }

  /** One turn further, whatever it takes the place of without seeing it. */
  lemma StaysOnTrack(t0: Tree, w: Course, initial: map<Path, Content>, t: Tree, l: map<Path, Path>,
                     l': map<Path, Path>, j: nat)
    requires Safe(t0, w) && WellFormed(t) && Held(initial, t, l) && OnTrack(t0, w, l, j) && j < |w.to|
    requires l'.Keys <= l.Keys && forall p :: p in l ==> if p in l' then l'[p] == Turn(w, j, l[p]) else l[p] in w.unread
    ensures OnTrack(t0, w, l', j + 1)
  {
    var cur := w.plan.files[j].current;
    forall i | 0 <= i < |w.to| && OnDisk(t0, w.plan, i) ensures InPlace(w, l', j + 1, i) {
      assert InPlace(w, l, j, i);
      if i == j {
        assert Rebase(cur, cur, w.to[j]) == w.to[j];
      } else if !Together(w, j) && !Unseen(w, j) && w.plan.files[i].current in l {
        TakesNoOther(t0, w, initial, t, l, j, i);
      }
    }
  }

  // ------------------------------------------------------------- files outside the plan

  ghost predicate Planned(plan: Plan, p: Path) {
    exists i :: 0 <= i < |plan.files| && plan.files[i].current == p
  }

  /** No file that moves on its own is registered at a directory. */
  ghost predicate NoneAtDirs(t: Tree, w: Course) {
    forall j :: 0 <= j < |w.plan.files| && !Together(w, j) && !Unseen(w, j) ==> !IsDir(t, w.plan.files[j].current)
  }

  /** Files that are not part of the plan, nor of a folder moved as a whole, stay, unless they were
      replaced where they are. */
  ghost predicate BystandersStay(t0: Tree, whole: bool, plan: Plan, l: map<Path, Path>, torn: set<Path>) {
    forall p :: IsFile(t0, p) && !Planned(plan, p) && !(whole && Under(p, plan.oldOutput)) ==> StaysOrGone(l, p, torn)
  }

  ghost predicate StaysOrGone(l: map<Path, Path>, p: Path, torn: set<Path>) {
    if p in l then l[p] == p else p in torn
  }

  lemma {:induction false} BystanderTrack(t: Tree, w: Course, k: nat, p: Path)
    requires WellFormed(t) && p in t && !Planned(w.plan, p) && NoneAtDirs(t, w) && k <= |w.to| == |w.plan.files|
    ensures Track(w, k, p) == p
  {
    if k > 0 {
      BystanderTrack(t, w, k - 1, p);
      var cur := w.plan.files[k - 1].current;
      if Under(p, cur) && cur != p { AncestorsAreDirs(t, p, cur); }
    }
  }

  // ------------------------------------------------------------- a run in which nothing fails

  /** The tree after the turns from `k` on, when every move works. */
  ghost function TurnsRun(t: Tree, w: Course, noReplace: bool, k: nat): Option<Tree>
    requires k <= |w.plan.files| == |w.to|
    decreases |w.to| - k
  {
    if k == |w.to| then Some(t) else
    var cur := w.plan.files[k].current;
    if Idle(t, w, k) then TurnsRun(t, w, noReplace, k + 1)
    else
      var u := MoveRun(t, w.unread, noReplace, w.plan.copy, cur, w.to[k]);
      if u.None? then None else TurnsRun(u.value, w, noReplace, k + 1)
  }

  /** What these turns replace. */
  ghost function TurnsTears(t: Tree, w: Course, noReplace: bool, k: nat): seq<Path>
    requires k <= |w.plan.files| == |w.to|
    decreases |w.to| - k
  {
    if k == |w.to| then [] else
    var cur := w.plan.files[k].current;
    if Idle(t, w, k) then TurnsTears(t, w, noReplace, k + 1)
    else
      var u := MoveRun(t, w.unread, noReplace, w.plan.copy, cur, w.to[k]);
      MoveTears(t, w.unread, noReplace, w.plan.copy, cur, w.to[k]) +
      if u.None? then [] else TurnsTears(u.value, w, noReplace, k + 1)
  }

  /** With turn `k` to come, or stopped there, a run in which nothing else fails ends at `run`, and has
      replaced something at the places `total` then. */
  ghost predicate TurnsTo(t: Tree, w: Course, noReplace: bool, k: nat, run: Option<Tree>, now: seq<Path>,
                          total: seq<Path>, failed: bool)
    requires k <= |w.plan.files| == |w.to|
  {
    if failed then run.None? && now == total
    else TurnsRun(t, w, noReplace, k) == run && now + TurnsTears(t, w, noReplace, k) == total
  }

  lemma TurnsOn(t: Tree, w: Course, noReplace: bool, k: nat, run: Option<Tree>, was: seq<Path>, now: seq<Path>,
                total: seq<Path>, u: Tree, ok: bool)
    requires k < |w.plan.files| == |w.to| && TurnsTo(t, w, noReplace, k, run, was, total, false) && !Idle(t, w, k)
    requires var cur := w.plan.files[k].current;
             RunsAs(MoveRun(t, w.unread, noReplace, w.plan.copy, cur, w.to[k]),
               MoveTears(t, w.unread, noReplace, w.plan.copy, cur, w.to[k]), was, now, u, ok)
    ensures TurnsTo(u, w, noReplace, k + 1, run, now, total, !ok)
  {
    TurnThenRest(t, w, noReplace, k);
    var cur := w.plan.files[k].current;
    StepThenRest(MoveRun(t, w.unread, noReplace, w.plan.copy, cur, w.to[k]),
      MoveTears(t, w.unread, noReplace, w.plan.copy, cur, w.to[k]), TurnsRun(u, w, noReplace, k + 1),
      TurnsTears(u, w, noReplace, k + 1), run, was, now, total, u, ok);
  }

  lemma TurnThenRest(t: Tree, w: Course, noReplace: bool, k: nat)
    requires k < |w.plan.files| == |w.to| && !Idle(t, w, k)
    ensures var cur := w.plan.files[k].current;
            var u := MoveRun(t, w.unread, noReplace, w.plan.copy, cur, w.to[k]);
            var tears := MoveTears(t, w.unread, noReplace, w.plan.copy, cur, w.to[k]);
            && TurnsRun(t, w, noReplace, k) == (if u.None? then None else TurnsRun(u.value, w, noReplace, k + 1))
            && TurnsTears(t, w, noReplace, k) ==
                 (if u.None? then tears else tears + TurnsTears(u.value, w, noReplace, k + 1))
  {
  }

  lemma TurnPassed(t: Tree, w: Course, noReplace: bool, k: nat, run: Option<Tree>, now: seq<Path>, total: seq<Path>)
    requires k < |w.plan.files| == |w.to| && TurnsTo(t, w, noReplace, k, run, now, total, false) && Idle(t, w, k)
    ensures TurnsTo(t, w, noReplace, k + 1, run, now, total, false)
  {
  }
}
