/** The nodes of the DHT routing table and the vector of buckets that holds them,
    seen as an inductive tree. */
module Buckets {
  import opened Prelude
  import opened NodeId

  const BUCKET_SIZE: nat := 8
  /** Fifteen minutes, in seconds. */
  const INACTIVITY_TIMEOUT: nat := 900
  /** A block with fewer bits than this cannot hold nine distinct ids. */
  const MIN_SPLIT_BITS: nat := 4

  datatype NodeStatus = Good | Questionable | Bad | Unknown

  datatype SocketAddr = SocketAddr(ip: nat, port: nat)

  datatype RoutingTableNode = RoutingTableNode(
    id: nat,
    addr: SocketAddr,
    lastRequest: Option<nat>,
    lastResponse: Option<nat>,
    lastQuery: Option<nat>,
    errorsInARow: nat)
  {
    /** True if `t` happened strictly less than the timeout ago. */
    static predicate Recent(t: Option<nat>, now: nat) {
      t.Some? && SaturatingSub(now, t.value) < INACTIVITY_TIMEOUT
    }

    /** True if `t` happened strictly more than the timeout ago. */
    static predicate Stale(t: Option<nat>, now: nat) {
      t.Some? && SaturatingSub(now, t.value) > INACTIVITY_TIMEOUT
    }

    function Status(now: nat): NodeStatus {
      if lastRequest.Some? && errorsInARow >= 2 then Bad
      else if lastRequest.Some? && lastResponse.Some? && (Recent(lastResponse, now) || Recent(lastQuery, now)) then Good
      else if (Stale(lastQuery, now) || Stale(lastResponse, now)) && (lastRequest.None? || Stale(lastRequest, now)) then
        Questionable
      else Unknown
    }

    function MarkOutgoingRequest(now: nat): RoutingTableNode {
      this.(lastRequest := Some(now))
    }

    function MarkLastQuery(now: nat): RoutingTableNode {
      this.(lastQuery := Some(now))
    }

    function MarkResponse(now: nat): RoutingTableNode {
      this.(lastResponse := Some(now),
            lastRequest := if lastRequest.None? then Some(now) else lastRequest,
            errorsInARow := 0)
    }

    function MarkError(): RoutingTableNode {
      this.(errorsInARow := errorsInARow + 1)
    }
  }

  function NewNode(id: nat, addr: SocketAddr): RoutingTableNode {
    RoutingTableNode(id, addr, None, None, None, 0)
  }

  datatype BucketTreeNodeData =
    | Leaf(nodes: seq<RoutingTableNode>, lastRefreshed: nat)
    | LeftRight(left: nat, right: nat)

  datatype BucketTreeNode = BucketTreeNode(bits: nat, start: nat, endInclusive: nat, data: BucketTreeNodeData)
  {
    predicate Covers(id: nat) {
      Within(id, start, endInclusive)
    }

    function Nodes(): seq<RoutingTableNode> {
      if data.Leaf? then data.nodes else []
    }
  }

  // ------------------------------------------------------------- sorted buckets

  /** Strictly ascending ids, hence no id twice. */
  predicate SortedById(s: seq<RoutingTableNode>) {
    forall i, j :: 0 <= i < j < |s| ==> s[i].id < s[j].id
  }

  predicate HasId(s: seq<RoutingTableNode>, id: nat) {
    exists i :: 0 <= i < |s| && s[i].id == id
  }

  function InsertById(s: seq<RoutingTableNode>, n: RoutingTableNode): (r: seq<RoutingTableNode>) {
    if s == [] || s[|s| - 1].id <= n.id then s + [n]
    else InsertById(s[..|s| - 1], n) + [s[|s| - 1]]
  }

  /** `sort_by_key(|n| n.id)`: a stable sort. */
  function SortById(s: seq<RoutingTableNode>): (r: seq<RoutingTableNode>) {
    if s == [] then [] else InsertById(SortById(s[..|s| - 1]), s[|s| - 1])
  }

  lemma {:induction false} InsertByIdSorts(s: seq<RoutingTableNode>, n: RoutingTableNode)
    requires SortedById(s) && !HasId(s, n.id)
    ensures var r := InsertById(s, n);
            && SortedById(r) && |r| == |s| + 1 && multiset(r) == multiset(s) + multiset{n}
  {
    if s == [] || s[|s| - 1].id <= n.id {
    } else {
      var init := s[..|s| - 1];
      assert s == init + [s[|s| - 1]];
      InsertByIdSorts(init, n);
      var r := InsertById(init, n);
      forall i | 0 <= i < |r| ensures r[i].id < s[|s| - 1].id {
        assert r[i] in multiset(r);
        assert r[i] in multiset(init) || r[i] == n;
        assert r[i] in init || r[i] == n;
      }
    }
  }

  ghost predicate DistinctIds(s: seq<RoutingTableNode>) {
    forall i, j :: 0 <= i < j < |s| ==> s[i].id != s[j].id
  }

  lemma {:induction false} SortByIdSorts(s: seq<RoutingTableNode>)
    requires DistinctIds(s)
    ensures var r := SortById(s); SortedById(r) && |r| == |s| && multiset(r) == multiset(s)
  {
    if s != [] {
      var init := s[..|s| - 1];
      assert s == init + [s[|s| - 1]];
      SortByIdSorts(init);
      var r := SortById(init);
      forall i | 0 <= i < |r| ensures r[i].id != s[|s| - 1].id {
        assert r[i] in multiset(init);
        assert r[i] in init;
      }
      InsertByIdSorts(r, s[|s| - 1]);
    }
  }

  // ------------------------------------------------------------- the tree behind the vector

  type Vec = seq<BucketTreeNode>

  datatype Tree =
    | Tip(idx: nat, node: BucketTreeNode)
    | Fork(idx: nat, node: BucketTreeNode, left: Tree, right: Tree)

  /** Child links point forward, so following them terminates. */
  ghost predicate Linked(d: Vec) {
    forall i :: 0 <= i < |d| && d[i].data.LeftRight? ==>
      i < d[i].data.left < |d| && i < d[i].data.right < |d|
  }

  ghost function Abs(d: Vec, i: nat): Tree
    requires Linked(d) && i < |d|
    decreases |d| - i
  {
    match d[i].data
    case Leaf(_, _) => Tip(i, d[i])
    case LeftRight(l, r) => Fork(i, d[i], Abs(d, l), Abs(d, r))
  }

  ghost predicate RangeOk(n: BucketTreeNode) {
    n.bits <= ID_BITS && Aligned(n.start, n.endInclusive, n.bits)
  }

  ghost predicate BucketOk(n: BucketTreeNode)
    requires n.data.Leaf?
  {
    var nodes := n.data.nodes;
    && |nodes| <= BUCKET_SIZE
    && SortedById(nodes)
    && forall i :: 0 <= i < |nodes| ==> n.Covers(nodes[i].id)
  }

  /** An inner node was split around our own id and its children are its two halves. */
  ghost predicate ForkOk(n: BucketTreeNode, l: BucketTreeNode, r: BucketTreeNode, self: nat) {
    && n.bits >= MIN_SPLIT_BITS
    && n.Covers(self)
    && l.bits == r.bits == n.bits - 1
    && l.start == n.start
    && r.start == n.start + Pow2(n.bits - 1)
  }

  ghost predicate TreeOk(t: Tree, self: nat) {
    && RangeOk(t.node)
    && match t
       case Tip(_, n) => n.data.Leaf? && BucketOk(n)
       case Fork(_, n, l, r) => ForkOk(n, l.node, r.node, self) && TreeOk(l, self) && TreeOk(r, self)
  }

  ghost predicate NodeOk(d: Vec, i: nat, self: nat)
    requires Linked(d) && i < |d|
  {
    && RangeOk(d[i])
    && match d[i].data
       case Leaf(_, _) => BucketOk(d[i])
       case LeftRight(l, r) => ForkOk(d[i], d[l], d[r], self)
  }

  ghost predicate VecOk(d: Vec, self: nat) {
    && |d| > 0
    && Linked(d)
    && d[0].bits == ID_BITS && d[0].start == 0
    && forall i :: 0 <= i < |d| ==> NodeOk(d, i, self)
  }

  lemma {:induction false} AbsOk(d: Vec, i: nat, self: nat)
    requires VecOk(d, self) && i < |d|
    ensures TreeOk(Abs(d, i), self) && Abs(d, i).node == d[i] && Abs(d, i).idx == i
    decreases |d| - i
  {
    assert NodeOk(d, i, self);
    if d[i].data.LeftRight? {
      AbsOk(d, d[i].data.left, self);
      AbsOk(d, d[i].data.right, self);
    }
  }

  /** All stored nodes, left to right. */
  ghost function Contents(t: Tree): seq<RoutingTableNode>
  {
    match t
    case Tip(_, n) => n.Nodes()
    case Fork(_, _, l, r) => Contents(l) + Contents(r)
  }

  /** The vector indices of the leaves, left to right. */
  ghost function Leaves(t: Tree): seq<nat> {
    match t
    case Tip(i, _) => [i]
    case Fork(_, _, l, r) => Leaves(l) + Leaves(r)
  }

  ghost function Splits(t: Tree): nat {
    match t
    case Tip(_, _) => 0
    case Fork(_, _, l, r) => 1 + Splits(l) + Splits(r)
  }

  /** The leaf `get_leaf` descends to. */
  ghost function FindTip(t: Tree, id: nat): (r: Tree)
    ensures r.Tip?
  {
    match t
    case Tip(_, _) => t
    case Fork(_, _, l, r) => if l.node.Covers(id) then FindTip(l, id) else FindTip(r, id)
  }

  ghost predicate HasTip(t: Tree, tip: Tree) {
    match t
    case Tip(_, _) => t == tip
    case Fork(_, _, l, r) => HasTip(l, tip) || HasTip(r, tip)
  }

  /** The two halves are disjoint and cover the whole. */
  lemma ForkCovers(n: BucketTreeNode, l: BucketTreeNode, r: BucketTreeNode, self: nat, x: nat)
    requires RangeOk(n) && RangeOk(l) && RangeOk(r) && ForkOk(n, l, r, self)
    ensures n.Covers(x) <==> l.Covers(x) || r.Covers(x)
    ensures !(l.Covers(x) && r.Covers(x))
    ensures l.endInclusive + 1 == r.start
  {
  }

  lemma {:induction false} FindTipCovers(t: Tree, self: nat, x: nat)
    requires TreeOk(t, self) && t.node.Covers(x)
    ensures FindTip(t, x).node.Covers(x)
    ensures TreeOk(FindTip(t, x), self)
    ensures HasTip(t, FindTip(t, x))
    ensures FindTip(t, x).node.bits <= t.node.bits
  {
    match t
    case Tip(_, _) =>
    case Fork(_, n, l, r) =>
      ForkCovers(n, l.node, r.node, self, x);
      if l.node.Covers(x) { FindTipCovers(l, self, x); } else { FindTipCovers(r, self, x); }
  }

  lemma {:induction false} HasTipInside(t: Tree, self: nat, tip: Tree, x: nat)
    requires TreeOk(t, self) && HasTip(t, tip) && tip.node.Covers(x)
    ensures t.node.Covers(x)
  {
    match t
    case Tip(_, _) =>
    case Fork(_, n, l, r) =>
      ForkCovers(n, l.node, r.node, self, x);
      if HasTip(l, tip) { HasTipInside(l, self, tip, x); } else { HasTipInside(r, self, tip, x); }
  }

  /** The leaves partition the id space: each id is covered by exactly one leaf,
      the one `get_leaf` finds. */
  lemma {:induction false} LeavesPartition(t: Tree, self: nat, tip: Tree, x: nat)
    requires TreeOk(t, self) && HasTip(t, tip) && tip.node.Covers(x)
    ensures tip == FindTip(t, x)
  {
    match t
    case Tip(_, _) =>
    case Fork(_, n, l, r) =>
      ForkCovers(n, l.node, r.node, self, x);
      if HasTip(l, tip) {
        HasTipInside(l, self, tip, x);
        LeavesPartition(l, self, tip, x);
      } else {
        HasTipInside(r, self, tip, x);
        LeavesPartition(r, self, tip, x);
      }
  }

  /** A node is stored exactly when it sits in the leaf its own id leads to. */
  lemma {:induction false} StoredWhereFound(t: Tree, self: nat, n: RoutingTableNode)
    requires TreeOk(t, self)
    ensures n in Contents(t) <==> t.node.Covers(n.id) && n in FindTip(t, n.id).node.Nodes()
  {
    match t
    case Tip(_, _) =>
    case Fork(_, b, l, r) =>
      ForkCovers(b, l.node, r.node, self, n.id);
      StoredWhereFound(l, self, n);
      StoredWhereFound(r, self, n);
      if b.Covers(n.id) { FindTipCovers(t, self, n.id); }
  }

  /** Stored nodes come out in strictly ascending id order, all inside the tree's range. */
  lemma {:induction false} ContentsSorted(t: Tree, self: nat)
    requires TreeOk(t, self)
    ensures SortedById(Contents(t))
    ensures forall i :: 0 <= i < |Contents(t)| ==> t.node.Covers(Contents(t)[i].id)
  {
    match t
    case Tip(_, _) =>
    case Fork(_, n, l, r) =>
      ContentsSorted(l, self);
      ContentsSorted(r, self);
      ForkCovers(n, l.node, r.node, self, self);
      var a, b := Contents(l), Contents(r);
      var c: seq<RoutingTableNode> := a + b;
      forall i | 0 <= i < |c| ensures n.Covers(c[i].id) {
        if i < |a| { ForkCovers(n, l.node, r.node, self, a[i].id); } else {
          ForkCovers(n, l.node, r.node, self, b[i - |a|].id); }
      }
  }

  /** Only the leaf holding our own id is ever split, so the splits form one path and
      there are at most `bits - 3` of them below a node. */
  lemma {:induction false} SplitsBound(t: Tree, self: nat)
    requires TreeOk(t, self)
    ensures Splits(t) <= Max(0, t.node.bits - (MIN_SPLIT_BITS - 1))
    ensures !t.node.Covers(self) ==> t.Tip?
  {
    match t
    case Tip(_, _) =>
    case Fork(_, n, l, r) =>
      ForkCovers(n, l.node, r.node, self, self);
      SplitsBound(l, self);
      SplitsBound(r, self);
  }

  // ------------------------------------------------------------- replacing one leaf

  ghost function Replace(t: Tree, idx: nat, s: Tree): Tree {
    match t
    case Tip(i, _) => if i == idx then s else t
    case Fork(i, n, l, r) => Fork(i, n, Replace(l, idx, s), Replace(r, idx, s))
  }

  /** `e` is `d` with leaf `idx` changed and possibly new entries at the end. */
  ghost predicate LeafChanged(d: Vec, e: Vec, idx: nat) {
    && idx < |d| <= |e|
    && d[idx].data.Leaf?
    && forall i :: 0 <= i < |d| && i != idx ==> e[i] == d[i]
  }

  lemma {:induction false} AbsAfterChange(d: Vec, e: Vec, idx: nat, i: nat)
    requires Linked(d) && Linked(e) && LeafChanged(d, e, idx) && i < |d|
    ensures Abs(e, i) == Replace(Abs(d, i), idx, Abs(e, idx))
    decreases |d| - i
  {
    if i != idx && d[i].data.LeftRight? {
      AbsAfterChange(d, e, idx, d[i].data.left);
      AbsAfterChange(d, e, idx, d[i].data.right);
    }
  }

  /** Swapping a leaf for a tree with the same contents changes nothing that is stored. */
  lemma {:induction false} ReplaceKeepsContents(d: Vec, i: nat, idx: nat, s: Tree)
    requires Linked(d) && i < |d| && idx < |d| && d[idx].data.Leaf? && Contents(s) == d[idx].Nodes()
    ensures Contents(Replace(Abs(d, i), idx, s)) == Contents(Abs(d, i))
    decreases |d| - i
  {
    if d[i].data.LeftRight? {
      ReplaceKeepsContents(d, d[i].data.left, idx, s);
      ReplaceKeepsContents(d, d[i].data.right, idx, s);
    }
  }

  /** Replacing a leaf that lies outside a subtree leaves the subtree alone. */
  lemma {:induction false} ReplaceMisses(d: Vec, i: nat, idx: nat, s: Tree, self: nat, x: nat)
    requires VecOk(d, self) && i < |d| && idx < |d|
    requires d[idx].Covers(x) && !d[i].Covers(x)
    ensures Replace(Abs(d, i), idx, s) == Abs(d, i)
    decreases |d| - i
  {
    assert NodeOk(d, i, self);
    if d[i].data.LeftRight? {
      var l, r := d[i].data.left, d[i].data.right;
      assert NodeOk(d, l, self) && NodeOk(d, r, self);
      ForkCovers(d[i], d[l], d[r], self, x);
      ReplaceMisses(d, l, idx, s, self, x);
      ReplaceMisses(d, r, idx, s, self, x);
    }
  }

  /** A leaf occurs once, so replacing it adds the new subtree's splits once. */
  lemma {:induction false} SplitsAfterReplace(d: Vec, i: nat, idx: nat, s: Tree, self: nat, x: nat)
    requires VecOk(d, self) && i < |d| && idx < |d|
    requires d[i].Covers(x) && FindTip(Abs(d, i), x).idx == idx && d[idx].Covers(x)
    ensures Splits(Replace(Abs(d, i), idx, s)) == Splits(Abs(d, i)) + Splits(s)
    decreases |d| - i
  {
    assert NodeOk(d, i, self);
    AbsOk(d, i, self);
    if d[i].data.LeftRight? {
      var l, r := d[i].data.left, d[i].data.right;
      AbsOk(d, l, self);
      AbsOk(d, r, self);
      ForkCovers(d[i], d[l], d[r], self, x);
      if d[l].Covers(x) {
        SplitsAfterReplace(d, l, idx, s, self, x);
        ReplaceMisses(d, r, idx, s, self, x);
      } else {
        SplitsAfterReplace(d, r, idx, s, self, x);
        ReplaceMisses(d, l, idx, s, self, x);
      }
    }
  }

  /** The descent in the changed tree: the same leaf, or on into the replacement. */
  lemma {:induction false} FindAfterReplace(t: Tree, idx: nat, s: Tree, x: nat)
    requires forall tip :: HasTip(t, tip) && tip.idx == idx ==>
             tip.node.bits == s.node.bits && tip.node.start == s.node.start
               && tip.node.endInclusive == s.node.endInclusive
    ensures FindTip(Replace(t, idx, s), x) == if FindTip(t, x).idx == idx then FindTip(s, x) else FindTip(t, x)
  {
    match t
    case Tip(_, _) =>
    case Fork(_, n, l, r) =>
      FindAfterReplace(l, idx, s, x);
      FindAfterReplace(r, idx, s, x);
      ReplaceKeepsRange(l, idx, s);
  }

  lemma ReplaceKeepsRange(t: Tree, idx: nat, s: Tree)
    requires forall tip :: HasTip(t, tip) && tip.idx == idx ==>
             tip.node.bits == s.node.bits && tip.node.start == s.node.start
               && tip.node.endInclusive == s.node.endInclusive
    ensures var u := Replace(t, idx, s);
            u.node.bits == t.node.bits && u.node.start == t.node.start && u.node.endInclusive == t.node.endInclusive
  {
    if t.Tip? { assert HasTip(t, t); }
  }
}
