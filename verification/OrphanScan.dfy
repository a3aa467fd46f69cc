/** Finding files and folders that no torrent uses. */
module OrphanScans {
  import opened Prelude
  import opened FileTrees
  import opened FileSystems
  import opened OwnedSets
  import opened DirScans
  import opened DirSummaries

  const MAX_ITEMS: nat := 5000
  const MAX_ENTRIES: nat := 2_000_000
  const MAX_ERRORS: nat := 20

  datatype Item = Item(path: Path, root: Path, isDir: bool, size: nat, mtime: Option<nat>, files: nat)

  /** `errors` is the number of messages kept. */
  datatype Skipped = Skipped(recent: nat, symlinks: nat, hidden: nat, errors: nat, truncated: bool)

  /** What is scanned: the tree, the steps that fail, the roots, and what counts as recent. */
  datatype Job = Job(t: Listing, f: Faults, roots: seq<Path>, cutoff: nat)

  // ------------------------------------------------------------- roots

  /** Roots that are not inside another root. */
  function DedupeRoots(roots: set<Path>): set<Path> {
    set r | r in roots && !exists o :: o in roots && o != r && Under(r, o)
  }

  /** The remaining roots are apart, and every root is inside one of them. */
  lemma DedupedRoots(roots: set<Path>)
    ensures PairwiseApart(DedupeRoots(roots))
    ensures forall r :: r in roots ==> InPart(DedupeRoots(roots), r)
  {
    forall r | r in roots ensures InPart(DedupeRoots(roots), r) {
      Outermost(roots, r);
    }
  }

  lemma {:induction false} Outermost(roots: set<Path>, r: Path)
    requires r in roots
    ensures InPart(DedupeRoots(roots), r)
    decreases |r|
  {
    if r !in DedupeRoots(roots) {
      var o :| o in roots && o != r && Under(r, o);
      Outermost(roots, o);
      var x :| x in DedupeRoots(roots) && Under(o, x);
      UnderTwice(r, o, x);
    } else {
      assert Under(r, r);
    }
  }

  // ------------------------------------------------------------- names

  function LowerChar(c: char): char {
    if 'A' <= c <= 'Z' then c + ('a' - 'A') else c
  }

  function Lower(s: string): string {
    if s == [] then [] else [LowerChar(s[0])] + Lower(s[1..])
  }

  predicate IsHiddenOrSystem(n: Name) {
    (n.text != [] && n.text[0] == '.') ||
    Lower(n.text) in {"thumbs.db", "desktop.ini", "$recycle.bin", "system volume information",
                      "@eadir", "#recycle", "#snapshot", "lost+found", "icon\r"}
  }

  // ------------------------------------------------------------- judging one entry

  /** Nothing at or below `x` is used by a torrent. */
  ghost predicate Clear(t: Listing, owned: OwnedSet, x: Path)
    reads owned
  {
    forall q :: q in t && Under(q, x) ==> q !in owned.files && !owned.IsProtected(q)
  }

  /** At or below something a torrent uses. */
  ghost predicate Guarded(owned: OwnedSet, q: Path)
    reads owned
  {
    owned.IsProtected(q) || exists f :: f in owned.files && Under(q, f)
  }

  predicate Old(m: Option<nat>, cutoff: nat) {
    m.Some? ==> m.value <= cutoff
  }

  predicate Hides(x: Path) {
    x != [] && IsHiddenOrSystem(x[|x| - 1])
  }

  datatype Reason = Recent | Symlinks(count: nat) | Hidden | Failed

  datatype Verdict = Push | Report(item: Item) | Skip(reason: Reason) | Leave

  /** What can be said without looking inside a folder. */
  function Glance(j: Job, owned: OwnedSet, x: Path, root: Path): Option<Verdict>
    requires x in j.t
    reads owned
  {
    if Hides(x) then Some(Skip(Hidden))
    else if x in j.f.stats then Some(Skip(Failed))
    else if j.t[x].Link? then Some(Skip(Symlinks(1)))
    else if owned.IsProtected(x) || x in owned.files then Some(Leave)
    else if j.t[x].Folder? then (if x in owned.ancestors then Some(Push) else None)
    else if j.t[x].Plain? then
      Some(if Old(j.t[x].mtime, j.cutoff) then Report(Item(x, root, false, j.t[x].size, j.t[x].mtime, 1))
        else Skip(Recent))
    else Some(Leave)
  }

  /** What becomes of a folder that nothing uses. */
  function FolderVerdict(x: Path, root: Path, s: Result<Summary, ()>, cutoff: nat): Verdict {
    if s.Err? then Skip(Failed)
    else if !Old(s.value.newest, cutoff) then Skip(Recent)
    else if s.value.symlinks > 0 then Skip(Symlinks(s.value.symlinks))
    else Report(Item(x, root, true, s.value.size, s.value.newest, s.value.files))
  }

  ghost predicate Judged(j: Job, owned: OwnedSet, x: Path, root: Path, limit: nat, v: Verdict, budget: nat,
                         met: set<Path>)
    requires x in j.t
    reads owned
  {
    var g := Glance(j, owned, x, root);
    if g.Some? then v == g.value && budget == limit && met == {}
    else exists s :: Summarized(j.t, j.f, x, limit, s, budget, met) && v == FolderVerdict(x, root, s, j.cutoff)
  }

  /** What happens to one entry of a folder. */
  method Judge(j: Job, owned: OwnedSet, x: Path, root: Path, limit: nat)
    returns (v: Verdict, budget: nat, ghost met: set<Path>)
    requires Sound(j.t) && x in j.t
    ensures Judged(j, owned, x, root, limit, v, budget, met)
  {
    var g := Glance(j, owned, x, root);
    if g.Some? { return g.value, limit, {}; }
    var s: Result<Summary, ()>;
    s, budget, met := SummarizeDir(j.t, j.f, x, limit);
    v := FolderVerdict(x, root, s, j.cutoff);
  }

  // ------------------------------------------------------------- fates

  /** What became of an entry that was looked at. For a folder that was looked into, `met` are the
      entries that were met in it. */
  datatype Fate = Reported(met: set<Path>) | Passed(why: Reason, met: set<Path>) | Left | Unlisted

  /** A folder that nothing uses, of which `met` was looked at. */
  ghost predicate LookedInto(j: Job, owned: OwnedSet, e: Path, met: set<Path>)
    reads owned
  {
    IsFolder(j.t, e) && e !in j.f.stats && !owned.Touches(e) && met <= Reach(j.t, j.f, e)
  }

  /** Nothing recent and no symlink. */
  ghost predicate Quiet(t: Listing, seen: set<Path>, cutoff: nat) {
    forall p :: p in seen && p in t ==> Old(Mtime(t[p]), cutoff) && !t[p].Link?
  }

  ghost predicate HasRecent(t: Listing, seen: set<Path>, cutoff: nat) {
    exists p :: p in seen && p in t && !Old(Mtime(t[p]), cutoff)
  }

  /** The reason for passing over an entry is a fact. */
  ghost predicate PassedFor(j: Job, owned: OwnedSet, e: Path, why: Reason, met: set<Path>, big: bool)
    requires e in j.t
    reads owned
  {
    var seen := SeenOf(j.f, e, met);
    match why
    case Hidden => Hides(e)
    case Failed => !Hides(e) && (e in j.f.stats || (LookedInto(j, owned, e, met) && !Unbroken(j.t, j.f, e, met)))
    case Recent =>
      !Hides(e) && if j.t[e].Plain? then !Old(j.t[e].mtime, j.cutoff) else
      LookedInto(j, owned, e, met) && HasRecent(j.t, seen, j.cutoff) && (met == Reach(j.t, j.f, e) || big)
    case Symlinks(n) =>
      !Hides(e) && n > 0 && if j.t[e].Link? then n == 1 else
      LookedInto(j, owned, e, met) && n == |LinksOf(j.t, seen)| && (met == Reach(j.t, j.f, e) || big)
  }

  /** A reported entry is visible and unused, and what was seen of it is old and no symlink. */
  ghost predicate ReportedFor(j: Job, owned: OwnedSet, e: Path, met: set<Path>, big: bool)
    requires e in j.t
    reads owned
  {
    && !Hides(e) && e !in j.f.stats && Clear(j.t, owned, e)
    && if j.t[e].Plain? then Old(j.t[e].mtime, j.cutoff) else
       && LookedInto(j, owned, e, met) && (met == Reach(j.t, j.f, e) || big)
       && Unbroken(j.t, j.f, e, met) && Quiet(j.t, SeenOf(j.f, e, met), j.cutoff)
  }

  ghost predicate FateRight(j: Job, owned: OwnedSet, e: Path, fate: Fate, big: bool)
    reads owned
  {
    match fate
    case Unlisted => if IsFolder(j.t, e) then e in j.f.lists else e in j.roots
    case Left => e in j.t && (Guarded(owned, e) || j.t[e].Special?)
    case Passed(why, met) => e in j.t && PassedFor(j, owned, e, why, met, big)
    case Reported(met) => e in j.t && ReportedFor(j, owned, e, met, big)
  }

  /** The figures of an item are those of what was seen of it, and it is inside the root it names. */
  ghost predicate ItemRight(j: Job, item: Item, met: set<Path>) {
    item.path in j.t && InRoot(j, item.root, item.path) &&
    if item.isDir then
      && j.t[item.path].Folder?
      && Counted(j.t, Summary(item.size, item.files, item.mtime, 0), SeenOf(j.f, item.path, met))
    else j.t[item.path] == Plain(item.size, item.mtime) && item.files == 1
  }

  ghost predicate InRoot(j: Job, root: Path, x: Path) {
    root in j.roots && Under(x, root) && x != root
  }

  /** A folder was judged by a part of what can be reached in it. */
  ghost predicate Partial(j: Job, e: Path, v: Fate) {
    && IsFolder(j.t, e) && (v.Reported? || (v.Passed? && (v.why.Recent? || v.why.Symlinks?)))
    && v.met != Reach(j.t, j.f, e)
  }

  lemma UntouchedIsClear(t: Listing, owned: OwnedSet, x: Path)
    requires owned.Valid() && !owned.Touches(x)
    ensures Clear(t, owned, x)
  {
    TouchesMeans(owned, x);
    forall q | q in t && Under(q, x) ensures q !in owned.files && !owned.IsProtected(q) {
      if owned.IsProtected(q) {
        var i :| 0 <= i < |owned.protectedDirs| && Under(q, owned.protectedDirs[i]);
        PrefixesCompare(q, x, owned.protectedDirs[i]);
      }
    }
  }

  function FateOf(v: Verdict, met: set<Path>): Fate {
    match v
    case Report(_) => Reported(met)
    case Skip(r) => Passed(r, met)
    case _ => Left
  }

  /** With budget for everything within reach, or in an overfull tree, every verdict is right. */
  lemma JudgedRight(j: Job, owned: OwnedSet, x: Path, root: Path, limit: nat, v: Verdict, budget: nat, met: set<Path>,
                    big: bool)
    requires Sound(j.t) && owned.Valid() && x in j.t && Judged(j, owned, x, root, limit, v, budget, met)
    requires (|Reach(j.t, j.f, x)| <= limit || big) && InRoot(j, root, x)
    ensures !v.Push? && Partial(j, x, FateOf(v, met)) ==> budget == 0
    ensures v.Push? ==> IsFolder(j.t, x) && x in owned.ancestors
    ensures !v.Push? ==> FateRight(j, owned, x, FateOf(v, met), big)
    ensures v.Report? ==> v.item.path == x && ItemRight(j, v.item, met)
    ensures met <= Reach(j.t, j.f, x) && budget <= limit && |met| == limit - budget
            && (met != {} ==> v.Report? || v.Skip?)
  {
    var g := Glance(j, owned, x, root);
    if g.Some? {
      GlanceRight(j, owned, x, root, big);
    } else {
      var s :| Summarized(j.t, j.f, x, limit, s, budget, met) && v == FolderVerdict(x, root, s, j.cutoff);
      FolderRight(j, owned, x, root, limit, s, budget, met, big);
    }
  }

  lemma GlanceRight(j: Job, owned: OwnedSet, x: Path, root: Path, big: bool)
    requires Sound(j.t) && x in j.t && Glance(j, owned, x, root).Some? && InRoot(j, root, x)
    ensures var v := Glance(j, owned, x, root).value;
            && (!v.Push? ==> !Partial(j, x, FateOf(v, {})))
            && (v.Push? ==> IsFolder(j.t, x) && x in owned.ancestors)
            && (!v.Push? ==> FateRight(j, owned, x, FateOf(v, {}), big))
            && (v.Report? ==> v.item.path == x && ItemRight(j, v.item, {}))
  {
    assert Under(x, x);
    if j.t[x].Plain? {
      forall q | q in j.t && Under(q, x) ensures q == x {
        NothingBelowEntry(j.t, x, q);
      }
    }
  }

  lemma FolderRight(j: Job, owned: OwnedSet, x: Path, root: Path, limit: nat, s: Result<Summary, ()>, budget: nat,
                    met: set<Path>, big: bool)
    requires Sound(j.t) && owned.Valid() && x in j.t && Glance(j, owned, x, root).None?
    requires Summarized(j.t, j.f, x, limit, s, budget, met) && (|Reach(j.t, j.f, x)| <= limit || big)
    requires InRoot(j, root, x)
    ensures var v := FolderVerdict(x, root, s, j.cutoff);
            && (Partial(j, x, FateOf(v, met)) ==> budget == 0)
            && FateRight(j, owned, x, FateOf(v, met), big) && !v.Push? && !v.Leave?
            && (v.Report? ==> v.item.path == x && ItemRight(j, v.item, met))
  {
    UntouchedIsClear(j.t, owned, x);
    if s.Ok? {
      if |Reach(j.t, j.f, x)| <= limit { EnoughBudget(j.t, j.f, x, limit, s, budget, met); }
      SeenQuiet(j.t, s.value, SeenOf(j.f, x, met), j.cutoff);
    }
  }

  lemma SeenQuiet(t: Listing, s: Summary, seen: set<Path>, cutoff: nat)
    requires Counted(t, s, seen)
    ensures !Old(s.newest, cutoff) <==> HasRecent(t, seen, cutoff)
    ensures s.symlinks == |LinksOf(t, seen)|
    ensures Old(s.newest, cutoff) && s.symlinks == 0 ==> Quiet(t, seen, cutoff)
  {
    if !Old(s.newest, cutoff) {
      var p :| p in seen && p in t && Mtime(t[p]) == s.newest;
    }
    forall p | p in seen && p in t && t[p].Link? ensures s.symlinks > 0 {
      assert p in LinksOf(t, seen);
    }
  }

  // ------------------------------------------------------------- counting

  ghost function Total(fate: map<Path, Fate>, w: Fate -> nat): nat
    decreases |fate|
  {
    if fate == map[] then 0 else
    var e :| e in fate;
    Smaller(fate, e);
    w(fate[e]) + Total(fate - {e}, w)
  }

  lemma Smaller(fate: map<Path, Fate>, e: Path)
    requires e in fate
    ensures |fate - {e}| < |fate|
  {
    assert fate.Keys == (fate - {e}).Keys + {e};
  }

  lemma {:induction false} TotalAdd(fate: map<Path, Fate>, x: Path, v: Fate, w: Fate -> nat)
    requires x !in fate
    ensures Total(fate[x := v], w) == Total(fate, w) + w(v)
    decreases |fate|
  {
    var all := fate[x := v];
    assert all != map[];
    var e :| e in all && Total(all, w) == w(all[e]) + Total(all - {e}, w);
    if e == x {
      assert all - {e} == fate;
    } else {
      Smaller(fate, e);
      TotalAdd(fate - {e}, x, v, w);
      assert all - {e} == (fate - {e})[x := v];
      TotalAdd(fate - {e}, e, fate[e], w);
      assert (fate - {e})[e := fate[e]] == fate;
    }
  }

  function RecentWeight(v: Fate): nat {
    if v.Passed? && v.why.Recent? then 1 else 0
  }

  function LinkWeight(v: Fate): nat {
    if v.Passed? && v.why.Symlinks? then v.why.count else 0
  }

  function HiddenWeight(v: Fate): nat {
    if v.Passed? && v.why.Hidden? then 1 else 0
  }

  function ErrorWeight(v: Fate): nat {
    if v.Unlisted? || (v.Passed? && v.why.Failed?) then 1 else 0
  }

  /** The counters say how many entries were passed over, and for which reason. */
  ghost predicate Tallied(sk: Skipped, fate: map<Path, Fate>) {
    && sk.recent == Total(fate, RecentWeight) && sk.symlinks == Total(fate, LinkWeight)
    && sk.hidden == Total(fate, HiddenWeight) && sk.errors == Min(MAX_ERRORS, Total(fate, ErrorWeight))
  }

  function OneError(sk: Skipped): Skipped {
    sk.(errors := if sk.errors < MAX_ERRORS then sk.errors + 1 else sk.errors)
  }

  function Note(sk: Skipped, r: Reason): Skipped {
    match r
    case Recent => sk.(recent := sk.recent + 1)
    case Symlinks(n) => sk.(symlinks := sk.symlinks + n)
    case Hidden => sk.(hidden := sk.hidden + 1)
    case Failed => OneError(sk)
  }

  function NoteFate(sk: Skipped, v: Fate): Skipped {
    if v.Passed? then Note(sk, v.why) else if v.Unlisted? then OneError(sk) else sk
  }

  lemma TallyOne(sk: Skipped, fate: map<Path, Fate>, x: Path, v: Fate)
    requires Tallied(sk, fate) && x !in fate
    ensures Tallied(NoteFate(sk, v), fate[x := v])
  {
    TotalAdd(fate, x, v, RecentWeight);
    TotalAdd(fate, x, v, LinkWeight);
    TotalAdd(fate, x, v, HiddenWeight);
    TotalAdd(fate, x, v, ErrorWeight);
  }

  // ------------------------------------------------------------- the books

  ghost predicate ItemsApart(items: seq<Item>) {
    forall i, k :: 0 <= i < k < |items| ==> Disjoint(items[i].path, items[k].path)
  }

  ghost predicate ReportedAt(items: seq<Item>, p: Path) {
    exists i :: 0 <= i < |items| && items[i].path == p
  }

  ghost predicate ItemsRight(j: Job, items: seq<Item>, fate: map<Path, Fate>) {
    forall i :: 0 <= i < |items| ==> ItemBooked(j, items[i], fate)
  }

  ghost predicate ItemBooked(j: Job, item: Item, fate: map<Path, Fate>) {
    item.path in fate && fate[item.path].Reported? && ItemRight(j, item, fate[item.path].met)
  }

  /** Entries are looked at in the roots and in folders that contain something used. */
  ghost predicate PlacedAt(owned: OwnedSet, root: Path, e: Path, v: Fate)
    reads owned
  {
    && Under(e, root)
    && if e == root then v.Unlisted? else
       (Parent(e) == root || Parent(e) in owned.ancestors) && (v.Unlisted? ==> e in owned.ancestors)
  }

  ghost predicate Placed(owned: OwnedSet, roots: seq<Path>, e: Path, v: Fate)
    reads owned
  {
    exists k :: 0 <= k < |roots| && PlacedAt(owned, roots[k], e, v)
  }

  ghost predicate FatesRight(j: Job, owned: OwnedSet, items: seq<Item>, fate: map<Path, Fate>, big: bool)
    reads owned
  {
    forall e :: e in fate ==>
      FateRight(j, owned, e, fate[e], big) && Placed(owned, j.roots, e, fate[e])
        && (fate[e].Reported? ==> ReportedAt(items, e))
  }

  ghost predicate BelowOne(p: Path, roots: seq<Path>) {
    exists k :: 0 <= k < |roots| && Under(p, roots[k]) && p != roots[k]
  }

  /** What a scan leaves behind: every item is right, every entry that was looked at has a fate that
      is a fact, the counters count them, and an entry that was not looked at was not yielded by its
      listing, or the scan says that it was cut short. */
  ghost predicate Booked(j: Job, owned: OwnedSet, items: seq<Item>, sk: Skipped, fate: map<Path, Fate>,
                         unseen: set<Path>, big: bool)
    reads owned
  {
    && ItemsApart(items) && ItemsRight(j, items, fate) && FatesRight(j, owned, items, fate, big) && Tallied(sk, fate)
    && (forall e :: e in unseen ==> BelowOne(e, j.roots) && (e in j.f.entries || sk.truncated))
    && (sk.truncated ==> big || |items| >= MAX_ITEMS)
  }

  lemma BookItem(j: Job, owned: OwnedSet, items: seq<Item>, sk: Skipped, fate: map<Path, Fate>, unseen: set<Path>,
                 big: bool, item: Item, met: set<Path>)
    requires Booked(j, owned, items, sk, fate, unseen, big) && item.path !in fate && ItemRight(j, item, met)
    requires FateRight(j, owned, item.path, Reported(met), big) && Placed(owned, j.roots, item.path, Reported(met))
    requires forall i :: 0 <= i < |items| ==> Disjoint(items[i].path, item.path)
    ensures Booked(j, owned, items + [item], sk, fate[item.path := Reported(met)], unseen, big)
  {
    var more, next := items + [item], fate[item.path := Reported(met)];
    TallyOne(sk, fate, item.path, Reported(met));
    forall i | 0 <= i < |more| ensures ItemBooked(j, more[i], next) {
      if i < |items| { assert ItemBooked(j, items[i], fate); }
    }
    forall e | e in next && next[e].Reported? ensures ReportedAt(more, e) {
      if e == item.path { assert more[|items|].path == e; } else { StillReported(items, item, e); }
    }
  }

  lemma StillReported(items: seq<Item>, item: Item, e: Path)
    requires ReportedAt(items, e)
    ensures ReportedAt(items + [item], e)
  {
    var i :| 0 <= i < |items| && items[i].path == e;
    assert (items + [item])[i].path == e;
  }

  lemma BookOther(j: Job, owned: OwnedSet, items: seq<Item>, sk: Skipped, fate: map<Path, Fate>, unseen: set<Path>,
                  big: bool, x: Path, v: Fate)
    requires Booked(j, owned, items, sk, fate, unseen, big) && x !in fate && !v.Reported?
    requires FateRight(j, owned, x, v, big) && Placed(owned, j.roots, x, v)
    ensures Booked(j, owned, items, NoteFate(sk, v), fate[x := v], unseen, big)
  {
    TallyOne(sk, fate, x, v);
    forall i | 0 <= i < |items| ensures ItemBooked(j, items[i], fate[x := v]) {
      assert ItemBooked(j, items[i], fate);
    }
  }

  lemma BookUnseen(j: Job, owned: OwnedSet, items: seq<Item>, sk: Skipped, fate: map<Path, Fate>, unseen: set<Path>,
                   big: bool, more: set<Path>, truncated: bool)
    requires Booked(j, owned, items, sk, fate, unseen, big)
    requires forall e :: e in more ==> BelowOne(e, j.roots) && (e in j.f.entries || truncated)
    requires truncated ==> big || |items| >= MAX_ITEMS
    ensures Booked(j, owned, items, sk.(truncated := sk.truncated || truncated), fate, unseen + more, big)
  {
  }

  // ------------------------------------------------------------- the scan

  datatype State = State(items: seq<Item>, sk: Skipped, stack: seq<Path>, budget: nat)

  /** What the proof keeps of a scan: the parts of the root that are settled, the folders that were
      opened, the fates, the entries that were not looked at, and those that were. */
  datatype Ledger = Ledger(settled: set<Path>, done: set<Path>, fate: map<Path, Fate>, unseen: set<Path>,
    looked: set<Path>)

  /** Everything below the roots. */
  ghost function Entries(j: Job): set<Path> {
    set p | p in j.t && BelowOne(p, j.roots)
  }

  /** There is more below the roots than one scan looks at. */
  ghost predicate Overfull(j: Job) {
    |Entries(j)| > MAX_ENTRIES
  }

  ghost predicate OpenedWay(owned: OwnedSet, root: Path, stack: seq<Path>, done: set<Path>)
    reads owned
  {
    forall p :: p in stack || p in done ==> Under(p, root) && (p == root || p in owned.ancestors)
  }

  ghost predicate OfRoot(root: Path, g: Ledger) {
    (forall e :: e in g.fate ==> e in g.settled || Disjoint(e, root)) && g.settled <= g.fate.Keys + g.unseen
  }

  /** Looking at an entry costs one, and no entry is looked at twice. */
  ghost predicate LookedAt(j: Job, root: Path, st: State, g: Ledger) {
    && |g.looked| + st.budget == MAX_ENTRIES && g.looked <= Entries(j)
    && forall y :: y in g.looked ==> Behind(root, st.stack, g, y)
  }

  ghost predicate Behind(root: Path, stack: seq<Path>, g: Ledger, y: Path) {
    y in g.done || y in stack || InPart(g.settled, y) || !Under(y, root)
  }

  ghost predicate UnderOne(p: Path, roots: seq<Path>, k: nat)
    requires k <= |roots|
  {
    exists i :: 0 <= i < k && Under(p, roots[i])
  }

  ghost predicate AllUnder(s: set<Path>, roots: seq<Path>, k: nat)
    requires k <= |roots|
  {
    forall p :: p in s ==> UnderOne(p, roots, k)
  }

  /** Everything below a root that is not protected as a whole was looked at, is above something
      used, or was not yielded. */
  ghost predicate Covers(j: Job, owned: OwnedSet, root: Path, keys: set<Path>, unseen: set<Path>)
    reads owned
  {
    owned.IsProtected(root) || forall q :: q in j.t && Under(q, root) ==> Fated(j.t, owned, root, keys, unseen, q)
  }

  ghost predicate Fated(t: Listing, owned: OwnedSet, root: Path, keys: set<Path>, unseen: set<Path>, q: Path)
    reads owned
  {
    q == root || (IsFolder(t, q) && q in owned.ancestors) || InPart(keys, q) || InPart(unseen, q)
  }

  ghost predicate AllCovered(j: Job, owned: OwnedSet, k: nat, keys: set<Path>, unseen: set<Path>)
    requires k <= |j.roots|
    reads owned
  {
    forall i :: 0 <= i < k ==> Covers(j, owned, j.roots[i], keys, unseen)
  }

  lemma CoveredKept(j: Job, owned: OwnedSet, k: nat, keys: set<Path>, unseen: set<Path>, keys': set<Path>,
                    unseen': set<Path>)
    requires k <= |j.roots| && AllCovered(j, owned, k, keys, unseen) && keys <= keys' && unseen <= unseen'
    ensures AllCovered(j, owned, k, keys', unseen')
  {
    forall i | 0 <= i < k ensures Covers(j, owned, j.roots[i], keys', unseen') {
      assert Covers(j, owned, j.roots[i], keys, unseen);
      if !owned.IsProtected(j.roots[i]) {
        forall q | q in j.t && Under(q, j.roots[i]) ensures Fated(j.t, owned, j.roots[i], keys', unseen', q) {
          PartsKept(keys, keys', q);
          PartsKept(unseen, unseen', q);
        }
      }
    }
  }

  lemma PartsKept(parts: set<Path>, parts': set<Path>, q: Path)
    requires parts <= parts'
    ensures InPart(parts, q) ==> InPart(parts', q)
  {
  }

  /** The roots before this one are done, and nothing beyond this one was looked at. */
  ghost predicate SoFar(j: Job, owned: OwnedSet, root: Path, g: Ledger)
    reads owned
  {
    exists k :: 0 <= k < |j.roots| && j.roots[k] == root && SoFarAt(j, owned, k, g)
  }

  ghost predicate SoFarAt(j: Job, owned: OwnedSet, k: nat, g: Ledger)
    requires k < |j.roots|
    reads owned
  {
    AllUnder(g.fate.Keys, j.roots, k + 1) && AllUnder(g.looked, j.roots, k + 1)
      && AllCovered(j, owned, k, g.fate.Keys, g.unseen)
  }

  lemma SoFarKept(j: Job, owned: OwnedSet, root: Path, g: Ledger, g': Ledger)
    requires SoFar(j, owned, root, g) && g.fate.Keys <= g'.fate.Keys && g.unseen <= g'.unseen
    requires forall p :: p in g'.fate.Keys && p !in g.fate.Keys ==> Under(p, root)
    requires forall p :: p in g'.looked && p !in g.looked ==> Under(p, root)
    ensures SoFar(j, owned, root, g')
  {
    var k :| 0 <= k < |j.roots| && j.roots[k] == root && SoFarAt(j, owned, k, g);
    CoveredKept(j, owned, k, g.fate.Keys, g.unseen, g'.fate.Keys, g'.unseen);
    assert SoFarAt(j, owned, k, g');
  }

  ghost function MetOf(v: Fate): set<Path> {
    if v.Reported? || v.Passed? then v.met else {}
  }

  ghost predicate InMet(fate: map<Path, Fate>, y: Path) {
    exists e :: e in fate && y in MetOf(fate[e])
  }

  /** What was looked at has a fate, was met in something that has one, or is a folder above
      something used. */
  ghost predicate Spent(t: Listing, owned: OwnedSet, fate: map<Path, Fate>, looked: set<Path>)
    reads owned
  {
    forall y :: y in looked ==> y in fate || (IsFolder(t, y) && y in owned.ancestors) || InMet(fate, y)
  }

  lemma SpentMore(t: Listing, owned: OwnedSet, fate: map<Path, Fate>, looked: set<Path>, x: Path, v: Fate,
                  met: set<Path>)
    requires Spent(t, owned, fate, looked) && x !in fate && (met != {} ==> met == MetOf(v))
    ensures Spent(t, owned, fate[x := v], looked + {x} + met)
  {
    var next := fate[x := v];
    forall y | y in looked + {x} + met ensures y in next || (IsFolder(t, y) && y in owned.ancestors) || InMet(next, y) {
      if y in met {
        assert x in next && y in MetOf(next[x]);
      } else if y in looked && InMet(fate, y) {
        var e :| e in fate && y in MetOf(fate[e]);
        assert e in next && next[e] == fate[e];
      }
    }
  }

  /** The scan stops early only when the budget is used up or the list of items is full. */
  ghost predicate StopsLate(st: State) {
    st.sk.truncated ==> st.budget == 0 || |st.items| >= MAX_ITEMS
  }

  ghost predicate Scanning(j: Job, owned: OwnedSet, root: Path, st: State, g: Ledger, d: Path, left: set<Name>)
    reads owned
  {
    && root in j.roots && SoFar(j, owned, root, g) && Walking(j.t, root, st.stack, g.settled, g.done, d, left)
    && OpenedWay(owned, root, st.stack, g.done) && OfRoot(root, g) && LookedAt(j, root, st, g)
    && InOrder(j, owned, st, g)
  }

  ghost predicate InOrder(j: Job, owned: OwnedSet, st: State, g: Ledger)
    reads owned
  {
    && Booked(j, owned, st.items, st.sk, g.fate, g.unseen, Overfull(j))
    && Spent(j.t, owned, g.fate, g.looked) && StopsLate(st) && PartialLast(j, g.fate, st.budget)
  }

  /** At most one folder was judged by a part of it, and only when the budget is gone. */
  ghost predicate PartialLast(j: Job, fate: map<Path, Fate>, budget: nat) {
    OnePartial(j, fate) && (budget > 0 ==> forall e :: e in fate ==> !Partial(j, e, fate[e]))
  }

  ghost predicate OnePartial(j: Job, fate: map<Path, Fate>) {
    forall e, e' :: e in fate && e' in fate && Partial(j, e, fate[e]) && Partial(j, e', fate[e']) ==> e == e'
  }

  lemma PartialMore(j: Job, fate: map<Path, Fate>, budget: nat, x: Path, v: Fate, budget': nat)
    requires PartialLast(j, fate, budget) && x !in fate
    requires Partial(j, x, v) ==> budget' == 0 < budget
    requires budget == 0 ==> budget' == 0
    ensures PartialLast(j, fate[x := v], budget')
  {
  }

  /** An entry that is still to be looked at. */
  lemma NextEntry(j: Job, owned: OwnedSet, root: Path, st: State, g: Ledger, d: Path, left: set<Name>, n: Name)
    requires Scanning(j, owned, root, st, g, d, left) && n in left && d in g.done
    ensures var x := d + [n];
            && x in j.t && x in Entries(j) && x !in g.fate && x !in g.settled && x !in st.stack && x !in g.done
            && x != root && Under(x, root)
            && (forall i :: 0 <= i < |st.items| ==> Disjoint(st.items[i].path, x))
            && forall y :: y in g.looked ==> !Under(y, x)
  {
    var x := d + [n];
    var parts := Elems(st.stack) + g.settled + ChildPaths(d, left);
    assert x in ChildPaths(d, left) && x in parts;
    assert x != root by { assert Under(d, root); }
    assert Under(x, x);
    forall i | 0 <= i < |st.items| ensures Disjoint(st.items[i].path, x) {
      assert ItemBooked(j, st.items[i], g.fate);
      if st.items[i].path !in g.settled { StaysDisjoint(x, root, st.items[i].path); }
    }
    forall y | y in g.looked ensures !Under(y, x) {
      StillBehind(root, st.stack, g, parts, x, y);
    }
    assert BelowOne(x, j.roots) by {
      var k :| 0 <= k < |j.roots| && j.roots[k] == root;
    }
  }

  lemma StillBehind(root: Path, stack: seq<Path>, g: Ledger, parts: set<Path>, x: Path, y: Path)
    requires Behind(root, stack, g, y) && x in parts && Under(x, root) && PairwiseApart(parts)
             && NoneBelow(g.done, parts)
    requires Elems(stack) + g.settled <= parts && x !in stack && x !in g.settled
    ensures !Under(y, x)
  {
    if y in stack {
      assert y in Elems(stack) && y in parts;
    } else if e :| e in g.settled && Under(y, e) {
      assert Disjoint(x, e);
      if Under(y, x) { PrefixesCompare(y, x, e); }
    } else if Under(y, x) {
      UnderTwice(y, x, root);
    }
  }

  /** There is budget for what is inside the entry, unless there is more than one scan looks at. */
  lemma BudgetLasts(j: Job, owned: OwnedSet, root: Path, st: State, g: Ledger, d: Path, left: set<Name>, n: Name)
    requires Scanning(j, owned, root, st, g, d, left) && n in left && d in g.done
    ensures |Reach(j.t, j.f, d + [n])| < st.budget || Overfull(j)
  {
    var x := d + [n];
    var inner := Reach(j.t, j.f, x);
    NextEntry(j, owned, root, st, g, d, left, n);
    forall p | p in inner ensures p in Entries(j) {
      UnderTwice(p, x, root);
      var k :| 0 <= k < |j.roots| && j.roots[k] == root;
      assert BelowOne(p, j.roots);
    }
    assert Under(x, x);
    Fits(g.looked, inner, x, Entries(j));
  }

  lemma Fits(a: set<Path>, b: set<Path>, x: Path, all: set<Path>)
    requires a <= all && b <= all && x in all && a !! b && x !in a && x !in b
    ensures |a| + |b| + 1 <= |all|
  {
    var used := a + b + {x};
    assert |used| == |a| + |b| + 1;
    SubsetSize(used, all);
  }

  lemma SubsetSize(a: set<Path>, b: set<Path>)
    requires a <= b
    ensures |a| <= |b|
  {
    assert b == a + (b - a);
  }

  function After(st: State, x: Path, v: Verdict, budget: nat): State {
    State(if v.Report? then st.items + [v.item] else st.items,
          if v.Skip? then Note(st.sk, v.reason) else st.sk,
          if v.Push? then st.stack + [x] else st.stack,
          budget)
  }

  ghost function LedgerAfter(g: Ledger, x: Path, v: Verdict, met: set<Path>): Ledger {
    if v.Push? then g.(looked := g.looked + {x} + met)
    else g.(settled := g.settled + {x}, fate := g.fate[x := FateOf(v, met)], looked := g.looked + {x} + met)
  }

  lemma BookVerdict(j: Job, owned: OwnedSet, st: State, g: Ledger, x: Path, v: Verdict, met: set<Path>, budget: nat,
                    big: bool)
    requires Booked(j, owned, st.items, st.sk, g.fate, g.unseen, big) && x !in g.fate && !v.Push?
    requires FateRight(j, owned, x, FateOf(v, met), big) && Placed(owned, j.roots, x, FateOf(v, met))
    requires v.Report? ==> v.item.path == x && ItemRight(j, v.item, met)
    requires forall i :: 0 <= i < |st.items| ==> Disjoint(st.items[i].path, x)
    ensures var a, b := After(st, x, v, budget), LedgerAfter(g, x, v, met);
            Booked(j, owned, a.items, a.sk, b.fate, b.unseen, big)
  {
    if v.Report? {
      BookItem(j, owned, st.items, st.sk, g.fate, g.unseen, big, v.item, met);
    } else {
      BookOther(j, owned, st.items, st.sk, g.fate, g.unseen, big, x, FateOf(v, met));
    }
  }

  lemma LookedMore(j: Job, root: Path, st: State, g: Ledger, x: Path, v: Verdict, met: set<Path>, budget: nat)
    requires LookedAt(j, root, st, g) && st.budget > 0 && budget < st.budget && |met| == st.budget - 1 - budget
    requires x in Entries(j) && met <= Reach(j.t, j.f, x) && Under(x, root) && root in j.roots && x != root
    requires forall y :: y in g.looked ==> !Under(y, x)
    requires v.Push? ==> met == {}
    ensures LookedAt(j, root, After(st, x, v, budget), LedgerAfter(g, x, v, met))
  {
    var a, b := After(st, x, v, budget), LedgerAfter(g, x, v, met);
    assert Under(x, x);
    assert |g.looked + {x} + met| == |g.looked| + 1 + |met|;
    forall y | y in b.looked ensures y in Entries(j) && Behind(root, a.stack, b, y) {
      if y in g.looked {
        BehindKept(root, st.stack, a.stack, g, b, y);
      } else if y in met {
        UnderTwice(y, x, root);
        var k :| 0 <= k < |j.roots| && j.roots[k] == root;
        assert BelowOne(y, j.roots);
        assert x in b.settled && Under(y, x);
      } else {
        assert v.Push? ==> a.stack[|st.stack|] == x;
      }
    }
  }

  lemma BehindKept(root: Path, stack: seq<Path>, stack': seq<Path>, g: Ledger, g': Ledger, y: Path)
    requires Behind(root, stack, g, y) && Elems(stack) <= Elems(stack') + g'.settled + g'.done
    requires g.settled <= g'.settled && g.done <= g'.done
    ensures Behind(root, stack', g', y)
  {
    if y in stack {
      assert y in Elems(stack);
      assert Under(y, y);
    } else if InPart(g.settled, y) {
      var e :| e in g.settled && Under(y, e);
      assert e in g'.settled;
    }
  }

  /** The state after one entry. */
  lemma NextIsThere(j: Job, owned: OwnedSet, root: Path, st: State, g: Ledger, d: Path, left: set<Name>, n: Name)
    requires Scanning(j, owned, root, st, g, d, left) && n in left && d in g.done
    ensures d + [n] in j.t
  {
    NextEntry(j, owned, root, st, g, d, left, n);
  }

  lemma EntryDone(j: Job, owned: OwnedSet, root: Path, st: State, g: Ledger, d: Path, left: set<Name>, n: Name, x: Path,
                  v: Verdict, met: set<Path>, budget: nat)
    requires Sound(j.t) && owned.Valid() && Scanning(j, owned, root, st, g, d, left) && n in left && d in g.done
    requires x == d + [n] && x in j.t && st.budget > 0 && Judged(j, owned, x, root, st.budget - 1, v, budget, met)
    ensures Scanning(j, owned, root, After(st, x, v, budget), LedgerAfter(g, x, v, met), d, left - {n})
  {
    NextEntry(j, owned, root, st, g, d, left, n);
    BudgetLasts(j, owned, root, st, g, d, left, n);
    JudgedRight(j, owned, x, root, st.budget - 1, v, budget, met, Overfull(j));
    if v.Push? {
      PushedEmpty(j, owned, x, root, st.budget - 1, v, budget, met);
      EntryPushed(j, owned, root, st, g, d, left, n, x, v, budget);
    } else {
      EntrySettled(j, owned, root, st, g, d, left, n, x, v, met, budget);
    }
  }

  lemma PushedEmpty(j: Job, owned: OwnedSet, x: Path, root: Path, limit: nat, v: Verdict, budget: nat, met: set<Path>)
    requires x in j.t && Judged(j, owned, x, root, limit, v, budget, met) && v.Push?
    ensures met == {}
  {
  }

  lemma EntryPushed(j: Job, owned: OwnedSet, root: Path, st: State, g: Ledger, d: Path, left: set<Name>, n: Name,
                    x: Path, v: Verdict, budget: nat)
    requires Scanning(j, owned, root, st, g, d, left) && n in left && d in g.done && x == d + [n] && v.Push?
    requires IsFolder(j.t, x) && x in owned.ancestors && st.budget > 0 && budget == st.budget - 1
    ensures Scanning(j, owned, root, After(st, x, v, budget), LedgerAfter(g, x, v, {}), d, left - {n})
  {
    NextEntry(j, owned, root, st, g, d, left, n);
    LookedMore(j, root, st, g, x, v, {}, budget);
    SoFarAfter(j, owned, root, g, x, v, {});
    WalkPush(j.t, root, st.stack, g.settled, g.done, d, left, n);
    OpenedMore(owned, root, st.stack, g.done, x);
  }

  lemma EntrySettled(j: Job, owned: OwnedSet, root: Path, st: State, g: Ledger, d: Path, left: set<Name>, n: Name,
                     x: Path, v: Verdict, met: set<Path>, budget: nat)
    requires Scanning(j, owned, root, st, g, d, left) && n in left && d in g.done && x == d + [n] && !v.Push?
    requires st.budget > 0 && met <= Reach(j.t, j.f, x) && budget < st.budget && |met| == st.budget - 1 - budget
    requires FateRight(j, owned, x, FateOf(v, met), Overfull(j)) && (met != {} ==> met == MetOf(FateOf(v, met)))
    requires v.Report? ==> v.item.path == x && ItemRight(j, v.item, met)
    requires Partial(j, x, FateOf(v, met)) ==> budget == 0
    ensures Scanning(j, owned, root, After(st, x, v, budget), LedgerAfter(g, x, v, met), d, left - {n})
  {
    NextEntry(j, owned, root, st, g, d, left, n);
    LookedMore(j, root, st, g, x, v, met, budget);
    OfRootAfter(root, g, x, v, met);
    SoFarAfter(j, owned, root, g, x, v, met);
    WalkSettle(j.t, root, st.stack, g.settled, g.done, d, left, n);
    SpentMore(j.t, owned, g.fate, g.looked, x, FateOf(v, met), met);
    IsPlaced(j, owned, root, st.stack, g.done, d, n, FateOf(v, met));
    BookVerdict(j, owned, st, g, x, v, met, budget, Overfull(j));
    PartialMore(j, g.fate, st.budget, x, FateOf(v, met), budget);
  }

  lemma OfRootAfter(root: Path, g: Ledger, x: Path, v: Verdict, met: set<Path>)
    requires OfRoot(root, g)
    ensures OfRoot(root, LedgerAfter(g, x, v, met))
  {
  }

  lemma SoFarAfter(j: Job, owned: OwnedSet, root: Path, g: Ledger, x: Path, v: Verdict, met: set<Path>)
    requires SoFar(j, owned, root, g) && Under(x, root) && met <= Reach(j.t, j.f, x)
    ensures SoFar(j, owned, root, LedgerAfter(g, x, v, met))
  {
    forall p | p in met ensures Under(p, root) { UnderTwice(p, x, root); }
    SoFarKept(j, owned, root, g, LedgerAfter(g, x, v, met));
  }

  lemma OpenedMore(owned: OwnedSet, root: Path, stack: seq<Path>, done: set<Path>, x: Path)
    requires OpenedWay(owned, root, stack, done) && Under(x, root) && x in owned.ancestors
    ensures OpenedWay(owned, root, stack + [x], done)
  {
  }

  lemma IsPlaced(j: Job, owned: OwnedSet, root: Path, stack: seq<Path>, done: set<Path>, d: Path, n: Name, v: Fate)
    requires root in j.roots && OpenedWay(owned, root, stack, done) && d in done && !v.Unlisted?
    ensures Placed(owned, j.roots, d + [n], v)
  {
    var k :| 0 <= k < |j.roots| && j.roots[k] == root;
    var x := d + [n];
    assert Parent(x) == d;
    UnderTwice(x, d, root);
    assert PlacedAt(owned, j.roots[k], x, v);
  }

  /** Reports an entry, opens it later, passes over it, or leaves it to its torrent. */
  method ScanEntry(j: Job, owned: OwnedSet, root: Path, d: Path, n: Name, st0: State, ghost left: set<Name>,
                   ghost g0: Ledger)
    returns (st: State, ghost g: Ledger)
    requires Sound(j.t) && owned.Valid() && Scanning(j, owned, root, st0, g0, d, left) && n in left && d in g0.done
    requires st0.budget > 0
    ensures Scanning(j, owned, root, st, g, d, left - {n}) && g.done == g0.done
  {
    var x := d + [n];
    NextIsThere(j, owned, root, st0, g0, d, left, n);
    var v: Verdict, budget: nat;
    ghost var met: set<Path>;
    v, budget, met := Judge(j, owned, x, root, st0.budget - 1);
    EntryDone(j, owned, root, st0, g0, d, left, n, x, v, met, budget);
    st, g := After(st0, x, v, budget), LedgerAfter(g0, x, v, met);
  }

  ghost function Abandoned(g: Ledger, some: set<Path>): Ledger {
    g.(settled := g.settled + some, unseen := g.unseen + some)
  }

  /** Some of the entries of a folder are not looked at. */
  lemma NotLookedAt(j: Job, owned: OwnedSet, root: Path, st: State, g: Ledger, d: Path, left: set<Name>,
                    some: set<Name>, truncated: bool)
    requires Scanning(j, owned, root, st, g, d, left) && some <= left && d in g.done
    requires forall n :: n in some ==> d + [n] in j.f.entries || truncated
    requires truncated ==> (Overfull(j) && st.budget == 0) || |st.items| >= MAX_ITEMS
    ensures Scanning(j, owned, root, st.(sk := st.sk.(truncated := st.sk.truncated || truncated)),
                     Abandoned(g, ChildPaths(d, some)), d, left - some)
  {
    var more := ChildPaths(d, some);
    forall e | e in more ensures BelowOne(e, j.roots) && (e in j.f.entries || truncated) {
      var n :| n in some && e == d + [n];
      NextEntry(j, owned, root, st, g, d, left, n);
    }
    WalkAbandon(j.t, root, st.stack, g.settled, g.done, d, left, some);
    SoFarKept(j, owned, root, g, Abandoned(g, more));
    BookUnseen(j, owned, st.items, st.sk, g.fate, g.unseen, Overfull(j), more, truncated);
    forall y | y in g.looked ensures Behind(root, st.stack, Abandoned(g, more), y) {
      BehindKept(root, st.stack, st.stack, g, Abandoned(g, more), y);
    }
  }

  lemma OutOfBudget(j: Job, owned: OwnedSet, root: Path, st: State, g: Ledger, d: Path, left: set<Name>, n: Name)
    requires Scanning(j, owned, root, st, g, d, left) && n in left && d in g.done && st.budget == 0
    ensures Overfull(j)
  {
    BudgetLasts(j, owned, root, st, g, d, left, n);
  }

  /** Looks at the entries of one folder that its listing yields. */
  method ScanEntries(j: Job, owned: OwnedSet, root: Path, d: Path, visible: set<Name>, st0: State, ghost g0: Ledger)
    returns (st: State, ghost g: Ledger)
    requires Sound(j.t) && owned.Valid() && Scanning(j, owned, root, st0, g0, d, visible) && d in g0.done
    ensures Scanning(j, owned, root, st, g, d, {}) && g.done == g0.done
  {
    st, g := st0, g0;
    var left := visible;
    while left != {}
      invariant Scanning(j, owned, root, st, g, d, left) && g.done == g0.done
      decreases |left|
    {
      var n :| n in left;
      if st.budget == 0 || |st.items| >= MAX_ITEMS {
        if st.budget == 0 { OutOfBudget(j, owned, root, st, g, d, left, n); }
        NotLookedAt(j, owned, root, st, g, d, left, left, true);
        assert left - left == {};
        st, g := st.(sk := st.sk.(truncated := true)), Abandoned(g, ChildPaths(d, left));
        return;
      }
      st, g := ScanEntry(j, owned, root, d, n, st, left, g);
      left := left - {n};
    }
  }

  /** Nothing is left of a folder's entries to look at, whichever folder it was. */
  lemma WalkRest(t: Listing, root: Path, stack: seq<Path>, settled: set<Path>, done: set<Path>, d: Path, e: Path)
    requires Walking(t, root, stack, settled, done, d, {})
    ensures Walking(t, root, stack, settled, done, e, {})
  {
    assert ChildPaths(d, {}) == ChildPaths(e, {}) == {};
  }

  ghost function GivenUp(g: Ledger, d: Path): Ledger {
    g.(settled := g.settled + {d}, fate := g.fate[d := Unlisted])
  }

  /** The folder on top of the stack cannot be listed. */
  lemma CannotList(j: Job, owned: OwnedSet, root: Path, st: State, g: Ledger, at: Path, d: Path)
    requires owned.Valid() && Scanning(j, owned, root, st, g, at, {}) && st.stack != []
    requires d == st.stack[|st.stack| - 1] && d in j.f.lists
    ensures Scanning(j, owned, root, st.(sk := OneError(st.sk), stack := st.stack[..|st.stack| - 1]), GivenUp(g, d),
              root, {})
  {
    var rest := st.stack[..|st.stack| - 1];
    WalkGiveUp(j.t, root, st.stack, g.settled, g.done, at);
    WalkRest(j.t, root, rest, g.settled + {d}, g.done, at, root);
    ListPlaced(j, owned, root, st.stack, g.done, d);
    NoFateYet(owned, root, st.stack, g, d);
    UnlistedInOrder(j, owned, st, g, d, rest, g.settled + {d});
    GivenUpLooked(j, root, st, g, d);
    GivenUpSoFar(j, owned, root, g, d);
    OpenedLess(owned, root, st.stack, g.done);
  }

  /** One more folder or root that could not be listed. */
  lemma UnlistedInOrder(j: Job, owned: OwnedSet, st: State, g: Ledger, d: Path, stack: seq<Path>, settled: set<Path>)
    requires InOrder(j, owned, st, g) && d !in g.fate && Placed(owned, j.roots, d, Unlisted)
    requires if IsFolder(j.t, d) then d in j.f.lists else d in j.roots
    ensures InOrder(j, owned, st.(sk := OneError(st.sk), stack := stack),
                    g.(settled := settled, fate := g.fate[d := Unlisted]))
  {
    BookOther(j, owned, st.items, st.sk, g.fate, g.unseen, Overfull(j), d, Unlisted);
    SpentKept(j.t, owned, g.fate, g.looked, d, Unlisted);
    PartialMore(j, g.fate, st.budget, d, Unlisted, st.budget);
  }

  lemma SpentKept(t: Listing, owned: OwnedSet, fate: map<Path, Fate>, looked: set<Path>, x: Path, v: Fate)
    requires Spent(t, owned, fate, looked) && x !in fate
    ensures Spent(t, owned, fate[x := v], looked)
  {
    SpentMore(t, owned, fate, looked, x, v, {});
  }

  lemma GivenUpSoFar(j: Job, owned: OwnedSet, root: Path, g: Ledger, d: Path)
    requires SoFar(j, owned, root, g) && Under(d, root)
    ensures SoFar(j, owned, root, GivenUp(g, d))
  {
    SoFarKept(j, owned, root, g, GivenUp(g, d));
  }

  lemma OpenedLess(owned: OwnedSet, root: Path, stack: seq<Path>, done: set<Path>)
    requires OpenedWay(owned, root, stack, done) && stack != []
    ensures OpenedWay(owned, root, stack[..|stack| - 1], done)
  {
  }

  lemma NoFateYet(owned: OwnedSet, root: Path, stack: seq<Path>, g: Ledger, d: Path)
    requires OpenedWay(owned, root, stack, g.done) && OfRoot(root, g) && d in stack && d !in g.settled
    ensures d !in g.fate && OfRoot(root, GivenUp(g, d))
  {
  }

  lemma GivenUpLooked(j: Job, root: Path, st: State, g: Ledger, d: Path)
    requires LookedAt(j, root, st, g) && st.stack != [] && d == st.stack[|st.stack| - 1] && Distinct(st.stack)
    ensures LookedAt(j, root, st.(sk := OneError(st.sk), stack := st.stack[..|st.stack| - 1]), GivenUp(g, d))
  {
    var rest := st.stack[..|st.stack| - 1];
    TopApart(st.stack);
    forall y | y in g.looked ensures Behind(root, rest, GivenUp(g, d), y) {
      BehindKept(root, st.stack, rest, g, GivenUp(g, d), y);
    }
  }

  lemma ListPlaced(j: Job, owned: OwnedSet, root: Path, stack: seq<Path>, done: set<Path>, d: Path)
    requires owned.Valid() && root in j.roots && OpenedWay(owned, root, stack, done) && d in stack
    ensures Placed(owned, j.roots, d, Unlisted)
  {
    var k :| 0 <= k < |j.roots| && j.roots[k] == root;
    if d != root {
      UpwardClosed(owned.ancestors, owned.files, owned.protectedDirs);
    }
    assert PlacedAt(owned, j.roots[k], d, Unlisted);
  }

  /** The folder on top of the stack is opened. */
  lemma OpenFolder(j: Job, owned: OwnedSet, root: Path, st: State, g: Ledger, at: Path, d: Path)
    requires Sound(j.t) && Scanning(j, owned, root, st, g, at, {}) && st.stack != [] && d == st.stack[|st.stack| - 1]
    ensures Scanning(j, owned, root, st.(stack := st.stack[..|st.stack| - 1]), OpenedLedger(g, d), d, Names(j.t, d))
    ensures |j.t.Keys - (g.done + {d})| < |j.t.Keys - g.done|
  {
    WalkPop(j.t, root, st.stack, g.settled, g.done, at);
    OneMoreDone(j.t, g.done, d);
    SoFarKept(j, owned, root, g, OpenedLedger(g, d));
    OpenedLooked(j, root, st, g, d);
    OpenedTop(owned, root, st.stack, g.done);
  }

  ghost function OpenedLedger(g: Ledger, d: Path): Ledger {
    g.(done := g.done + {d})
  }

  lemma OpenedTop(owned: OwnedSet, root: Path, stack: seq<Path>, done: set<Path>)
    requires OpenedWay(owned, root, stack, done) && stack != []
    ensures OpenedWay(owned, root, stack[..|stack| - 1], done + {stack[|stack| - 1]})
  {
  }

  lemma OpenedLooked(j: Job, root: Path, st: State, g: Ledger, d: Path)
    requires LookedAt(j, root, st, g) && st.stack != [] && d == st.stack[|st.stack| - 1] && Distinct(st.stack)
    ensures LookedAt(j, root, st.(stack := st.stack[..|st.stack| - 1]), OpenedLedger(g, d))
  {
    var rest := st.stack[..|st.stack| - 1];
    TopApart(st.stack);
    forall y | y in g.looked ensures Behind(root, rest, OpenedLedger(g, d), y) {
      BehindKept(root, st.stack, rest, g, OpenedLedger(g, d), y);
    }
  }

  function Yielded(j: Job, d: Path): set<Name> {
    set n | n in Names(j.t, d) && d + [n] !in j.f.entries
  }

  lemma NotYielded(j: Job, owned: OwnedSet, root: Path, st: State, g: Ledger, d: Path)
    requires Scanning(j, owned, root, st, g, d, Names(j.t, d)) && d in g.done
    ensures Scanning(j, owned, root, st, Abandoned(g, ChildPaths(d, Names(j.t, d) - Yielded(j, d))), d, Yielded(j, d))
  {
    var some := Names(j.t, d) - Yielded(j, d);
    NotLookedAt(j, owned, root, st, g, d, Names(j.t, d), some, false);
    assert Names(j.t, d) - some == Yielded(j, d);
    assert st.(sk := st.sk.(truncated := st.sk.truncated || false)) == st;
  }

  /** Opens the folder on top of the stack, if it can be listed. */
  method ScanFolder(j: Job, owned: OwnedSet, root: Path, st0: State, ghost g0: Ledger, ghost at: Path)
    returns (st: State, ghost g: Ledger)
    requires Sound(j.t) && owned.Valid() && Scanning(j, owned, root, st0, g0, at, {}) && st0.stack != []
    ensures Scanning(j, owned, root, st, g, root, {})
    ensures |j.t.Keys - g.done| < |j.t.Keys - g0.done| || (g.done == g0.done && |st.stack| < |st0.stack|)
  {
    var d := st0.stack[|st0.stack| - 1];
    var rest := st0.stack[..|st0.stack| - 1];
    if d in j.f.lists {
      CannotList(j, owned, root, st0, g0, at, d);
      st, g := st0.(sk := OneError(st0.sk), stack := rest), GivenUp(g0, d);
      return;
    }
    OpenFolder(j, owned, root, st0, g0, at, d);
    st, g := st0.(stack := rest), OpenedLedger(g0, d);
    NotYielded(j, owned, root, st, g, d);
    g := Abandoned(g, ChildPaths(d, Names(j.t, d) - Yielded(j, d)));
    st, g := ScanEntries(j, owned, root, d, Yielded(j, d), st, g);
    WalkRest(j.t, root, st.stack, g.settled, g.done, d, root);
  }

  /** Between two roots. */
  ghost predicate Between(j: Job, owned: OwnedSet, st: State, g: Ledger, k: nat)
    reads owned
  {
    && k <= |j.roots| && st.stack == [] && InOrder(j, owned, st, g)
    && |g.looked| + st.budget == MAX_ENTRIES && g.looked <= Entries(j)
    && AllUnder(g.fate.Keys, j.roots, k) && AllUnder(g.looked, j.roots, k)
    && AllCovered(j, owned, k, g.fate.Keys, g.unseen)
  }

  /** As `DedupedRoots` has it. */
  ghost predicate RootsApart(roots: seq<Path>) {
    forall i, k :: 0 <= i < k < |roots| ==> Disjoint(roots[i], roots[k])
  }

  lemma ApartFromRoot(roots: seq<Path>, k: nat, p: Path)
    requires k < |roots| && RootsApart(roots) && UnderOne(p, roots, k)
    ensures Disjoint(p, roots[k])
  {
    var i :| 0 <= i < k && Under(p, roots[i]);
    StaysDisjoint(p, roots[i], roots[k]);
  }

  lemma UnderMore(s: set<Path>, roots: seq<Path>, k: nat)
    requires k < |roots| && AllUnder(s, roots, k)
    ensures AllUnder(s, roots, k + 1)
  {
    forall p | p in s ensures UnderOne(p, roots, k + 1) {
      assert UnderOne(p, roots, k);
    }
  }

  lemma StartRoot(j: Job, owned: OwnedSet, st: State, g: Ledger, k: nat)
    requires Between(j, owned, st, g, k) && k < |j.roots| && RootsApart(j.roots) && IsFolder(j.t, j.roots[k])
    ensures Scanning(j, owned, j.roots[k], st.(stack := [j.roots[k]]), g.(settled := {}, done := {}), j.roots[k], {})
  {
    var root, g' := j.roots[k], g.(settled := {}, done := {});
    WalkStart(j.t, root);
    UnderMore(g.fate.Keys, j.roots, k);
    UnderMore(g.looked, j.roots, k);
    assert SoFarAt(j, owned, k, g');
    forall e | e in g.fate ensures Disjoint(e, root) {
      assert e in g.fate.Keys;
      ApartFromRoot(j.roots, k, e);
    }
    forall y | y in g.looked ensures !Under(y, root) {
      ApartFromRoot(j.roots, k, y);
    }
  }

  /** With nothing left to open, everything below the root is covered. */
  lemma EndRoot(j: Job, owned: OwnedSet, st: State, g: Ledger, k: nat)
    requires k < |j.roots| && RootsApart(j.roots) && Scanning(j, owned, j.roots[k], st, g, j.roots[k], {})
             && st.stack == []
    ensures Between(j, owned, st, g, k + 1)
  {
    var root := j.roots[k];
    assert Elems([]) + g.settled + ChildPaths(root, {}) == g.settled;
    var i :| 0 <= i < |j.roots| && j.roots[i] == root && SoFarAt(j, owned, i, g);
    assert i == k by {
      assert Under(root, root);
      assert i < k ==> Disjoint(j.roots[i], j.roots[k]);
      assert k < i ==> Disjoint(j.roots[k], j.roots[i]);
    }
    forall q | q in j.t && Under(q, root) ensures Fated(j.t, owned, root, g.fate.Keys, g.unseen, q) {
      if q !in g.done {
        var e :| e in g.settled && Under(q, e);
        if e in g.fate { assert e in g.fate.Keys; }
      }
    }
    OneMoreCovered(j, owned, k, g.fate.Keys, g.unseen);
  }

  lemma OneMoreCovered(j: Job, owned: OwnedSet, k: nat, keys: set<Path>, unseen: set<Path>)
    requires k < |j.roots| && AllCovered(j, owned, k, keys, unseen) && Covers(j, owned, j.roots[k], keys, unseen)
    ensures AllCovered(j, owned, k + 1, keys, unseen)
  {
  }

  /** A root that is no folder. */
  lemma NoFolder(j: Job, owned: OwnedSet, st: State, g: Ledger, k: nat)
    requires Sound(j.t) && Between(j, owned, st, g, k) && k < |j.roots| && RootsApart(j.roots)
             && !IsFolder(j.t, j.roots[k])
    ensures Between(j, owned, st.(sk := OneError(st.sk)), g.(fate := g.fate[j.roots[k] := Unlisted]), k + 1)
  {
    var root, fate := j.roots[k], g.fate[j.roots[k] := Unlisted];
    assert Under(root, root);
    if root in g.fate.Keys { ApartFromRoot(j.roots, k, root); }
    assert PlacedAt(owned, j.roots[k], root, Unlisted);
    UnlistedInOrder(j, owned, st, g, root, st.stack, g.settled);
    UnderMore(g.fate.Keys, j.roots, k);
    UnderMore(g.looked, j.roots, k);
    CoveredKept(j, owned, k, g.fate.Keys, g.unseen, fate.Keys, g.unseen);
    forall q | q in j.t && Under(q, root) ensures Fated(j.t, owned, root, fate.Keys, g.unseen, q) {
      NothingBelowEntry(j.t, root, q);
    }
    OneMoreCovered(j, owned, k, fate.Keys, g.unseen);
  }

  /** Scans below one root. */
  method ScanRoot(j: Job, owned: OwnedSet, k: nat, st0: State, ghost g0: Ledger) returns (st: State, ghost g: Ledger)
    requires Sound(j.t) && owned.Valid() && RootsApart(j.roots) && k < |j.roots| && Between(j, owned, st0, g0, k)
    ensures Between(j, owned, st, g, k + 1)
  {
    var root := j.roots[k];
    if !IsFolder(j.t, root) {
      NoFolder(j, owned, st0, g0, k);
      st, g := st0.(sk := OneError(st0.sk)), g0.(fate := g0.fate[root := Unlisted]);
      return;
    }
    StartRoot(j, owned, st0, g0, k);
    st, g := st0.(stack := [root]), g0.(settled := {}, done := {});
    while st.stack != []
      invariant Scanning(j, owned, root, st, g, root, {})
      decreases |j.t.Keys - g.done|, |st.stack|
    {
      st, g := ScanFolder(j, owned, root, st, g, root);
    }
    EndRoot(j, owned, st, g, k);
  }

  lemma ProtectedRoot(j: Job, owned: OwnedSet, st: State, g: Ledger, k: nat)
    requires Between(j, owned, st, g, k) && k < |j.roots| && owned.IsProtected(j.roots[k])
    ensures Between(j, owned, st, g, k + 1)
  {
    UnderMore(g.fate.Keys, j.roots, k);
    UnderMore(g.looked, j.roots, k);
    OneMoreCovered(j, owned, k, g.fate.Keys, g.unseen);
  }

  lemma StartScan(j: Job, owned: OwnedSet)
    ensures Between(j, owned, State([], Skipped(0, 0, 0, 0, false), [], MAX_ENTRIES), Ledger({}, {}, map[], {}, {}), 0)
  {
  }

  /** What a scan promises: right books, every root covered, that it was not cut short before the
      budget was used up or the list of items was full, and that it judged at most one folder by a
      part of it. */
  ghost predicate ScanRight(j: Job, owned: OwnedSet, items: seq<Item>, sk: Skipped, fate: map<Path, Fate>,
                            unseen: set<Path>)
    reads owned
  {
    && Booked(j, owned, items, sk, fate, unseen, Overfull(j)) && AllCovered(j, owned, |j.roots|, fate.Keys, unseen)
    && (sk.truncated ==> |items| >= MAX_ITEMS || UsedUp(j, owned, fate)) && OnePartial(j, fate)
  }

  /** As many entries were looked at as a scan may look at. */
  ghost predicate UsedUp(j: Job, owned: OwnedSet, fate: map<Path, Fate>)
    reads owned
  {
    exists looked :: |looked| == MAX_ENTRIES && looked <= Entries(j) && Spent(j.t, owned, fate, looked)
  }

  /** Scans below the given roots, which must be apart. */
  method Scan(j: Job, owned: OwnedSet) returns (items: seq<Item>, sk: Skipped, ghost fate: map<Path, Fate>,
                                                ghost unseen: set<Path>)
    requires Sound(j.t) && owned.Valid() && RootsApart(j.roots)
    ensures ScanRight(j, owned, items, sk, fate, unseen)
  {
    var st := State([], Skipped(0, 0, 0, 0, false), [], MAX_ENTRIES);
    ghost var g := Ledger({}, {}, map[], {}, {});
    StartScan(j, owned);
    for k := 0 to |j.roots|
      invariant Between(j, owned, st, g, k)
    {
      if owned.IsProtected(j.roots[k]) {
        ProtectedRoot(j, owned, st, g, k);
      } else {
        st, g := ScanRoot(j, owned, k, st, g);
      }
    }
    items, sk, fate, unseen := st.items, st.sk, g.fate, g.unseen;
  }
}
