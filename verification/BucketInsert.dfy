/** What inserting into the bucket vector does to the set of stored nodes. */
module BucketInsert {
  import opened Prelude
  import opened NodeId
  import opened Buckets

  datatype InsertResult = WasExisting | ReplacedBad(node: RoutingTableNode) | Added | Ignored

  // ------------------------------------------------------------- vectors of buckets

  ghost function Stored(d: Vec): seq<RoutingTableNode>
    requires Linked(d) && |d| > 0
  {
    Contents(Abs(d, 0))
  }

  ghost function StoredSet(d: Vec): set<RoutingTableNode>
    requires Linked(d) && |d| > 0
  {
    set n | n in Stored(d)
  }

  /** The leaf that covers `id`. */
  ghost function LeafFor(d: Vec, id: nat): Tree
    requires Linked(d) && |d| > 0
  {
    FindTip(Abs(d, 0), id)
  }

  lemma RootCovers(d: Vec, self: nat, id: nat)
    requires VecOk(d, self) && id < Pow2(ID_BITS)
    ensures d[0].Covers(id)
  {
    assert NodeOk(d, 0, self);
  }

  lemma {:induction false} TipIsVectorEntry(d: Vec, i: nat, self: nat, tip: Tree)
    requires VecOk(d, self) && i < |d| && HasTip(Abs(d, i), tip)
    ensures tip.Tip? && tip.idx < |d| && tip.node == d[tip.idx] && d[tip.idx].data.Leaf?
    decreases |d| - i
  {
    if d[i].data.LeftRight? {
      var l, r := d[i].data.left, d[i].data.right;
      if HasTip(Abs(d, l), tip) { TipIsVectorEntry(d, l, self, tip); } else { TipIsVectorEntry(d, r, self, tip); }
    }
  }

  /** Everything known about the leaf an id leads to. */
  lemma LeafForProps(d: Vec, self: nat, id: nat)
    requires VecOk(d, self) && id < Pow2(ID_BITS)
    ensures var t := LeafFor(d, id);
            && t.Tip? && t.idx < |d| && t.node == d[t.idx] && t.node.data.Leaf?
            && t.node.Covers(id) && BucketOk(t.node) && RangeOk(t.node)
            && HasTip(Abs(d, 0), t)
  {
    RootCovers(d, self, id);
    AbsOk(d, 0, self);
    FindTipCovers(Abs(d, 0), self, id);
    TipIsVectorEntry(d, 0, self, LeafFor(d, id));
  }

  lemma {:induction false} SortedCardinality(s: seq<RoutingTableNode>)
    requires SortedById(s)
    ensures |set n | n in s| == |s|
  {
    if s == [] {
      assert (set n | n in s) == {};
    } else {
      var init := s[..|s| - 1];
      SortedCardinality(init);
      assert (set n | n in s) == (set n | n in init) + {s[|s| - 1]};
    }
  }

  // ------------------------------------------------------------- changing one bucket

  function WithNodes(d: Vec, idx: nat, nodes: seq<RoutingTableNode>, now: nat): Vec
    requires idx < |d|
  {
    d[idx := d[idx].(data := Leaf(nodes, now))]
  }

  lemma WithNodesOk(d: Vec, self: nat, idx: nat, nodes: seq<RoutingTableNode>, now: nat)
    requires VecOk(d, self) && idx < |d| && d[idx].data.Leaf?
    requires BucketOk(d[idx].(data := Leaf(nodes, now)))
    ensures VecOk(WithNodes(d, idx, nodes, now), self)
  {
    var e := WithNodes(d, idx, nodes, now);
    assert Linked(e);
    forall i | 0 <= i < |e| ensures NodeOk(e, i, self) {
      assert NodeOk(d, i, self);
    }
  }

  /** Storing other nodes in one bucket: nothing outside that bucket's range changes. */
  lemma WithNodesStored(d: Vec, self: nat, id: nat, nodes: seq<RoutingTableNode>, now: nat)
    requires VecOk(d, self) && id < Pow2(ID_BITS)
    requires LeafFor(d, id).idx < |d| && LeafFor(d, id).node == d[LeafFor(d, id).idx] && LeafFor(d, id).node.data.Leaf?
    requires BucketOk(LeafFor(d, id).node.(data := Leaf(nodes, now)))
    ensures var idx := LeafFor(d, id).idx; var e := WithNodes(d, idx, nodes, now);
            && VecOk(e, self)
            && Splits(Abs(e, 0)) == Splits(Abs(d, 0))
            && LeafFor(e, id) == Tip(idx, e[idx])
            && forall n :: n in Stored(e) <==> if d[idx].Covers(n.id) then n in nodes else n in Stored(d)
  {
    var idx := LeafFor(d, id).idx;
    var e := WithNodes(d, idx, nodes, now);
    WithNodesOk(d, self, idx, nodes, now);
    AbsOk(d, 0, self);
    AbsOk(e, 0, self);
    LeafForProps(d, self, id);
    RootCovers(d, self, id);
    AbsAfterChange(d, e, idx, 0);
    SplitsAfterReplace(d, 0, idx, Abs(e, idx), self, id);
    forall tip | HasTip(Abs(d, 0), tip) && tip.idx == idx
      ensures tip.node == d[idx]
    {
      TipIsVectorEntry(d, 0, self, tip);
    }
    FindAfterReplace(Abs(d, 0), idx, Abs(e, idx), id);
    forall n ensures n in Stored(e) <==> if d[idx].Covers(n.id) then n in nodes else n in Stored(d) {
      StoredAfterChange(d, e, self, idx, id, n);
    }
  }

  lemma StoredAfterChange(d: Vec, e: Vec, self: nat, idx: nat, id: nat, n: RoutingTableNode)
    requires VecOk(d, self) && VecOk(e, self) && id < Pow2(ID_BITS)
    requires idx < |d| == |e| && LeafFor(d, id) == Tip(idx, d[idx]) && LeafChanged(d, e, idx)
    requires e[idx].data.Leaf? && e[idx].(data := d[idx].data) == d[idx]
    ensures n in Stored(e) <==> if d[idx].Covers(n.id) then n in e[idx].Nodes() else n in Stored(d)
  {
    AbsOk(d, 0, self);
    AbsOk(e, 0, self);
    LeafForProps(d, self, id);
    AbsAfterChange(d, e, idx, 0);
    StoredWhereFound(Abs(d, 0), self, n);
    StoredWhereFound(Abs(e, 0), self, n);
    forall tip | HasTip(Abs(d, 0), tip) && tip.idx == idx
      ensures tip.node == d[idx]
    {
      TipIsVectorEntry(d, 0, self, tip);
    }
    FindAfterReplace(Abs(d, 0), idx, Abs(e, idx), n.id);
    if d[idx].Covers(n.id) {
      LeavesPartition(Abs(d, 0), self, Tip(idx, d[idx]), n.id);
      HasTipInside(Abs(d, 0), self, Tip(idx, d[idx]), n.id);
    } else if d[0].Covers(n.id) {
      FindTipCovers(Abs(d, 0), self, n.id);
      TipIsVectorEntry(d, 0, self, FindTip(Abs(d, 0), n.id));
    }
  }

  // ------------------------------------------------------------- adding and replacing

  /** The bucket `id` belongs to, as `add_node` finds it. */
  ghost predicate AtLeaf(d: Vec, self: nat, id: nat, idx: nat) {
    && VecOk(d, self) && id < Pow2(ID_BITS) && idx < |d|
    && LeafFor(d, id) == Tip(idx, d[idx])
    && d[idx].data.Leaf?
  }

  /** No node is stored twice. */
  lemma StoredCount(d: Vec, self: nat)
    requires VecOk(d, self)
    ensures |StoredSet(d)| == |Stored(d)| && SortedById(Stored(d))
  {
    AbsOk(d, 0, self);
    ContentsSorted(Abs(d, 0), self);
    SortedCardinality(Stored(d));
  }

  /** What is stored inside a bucket's range is what the bucket holds. */
  lemma StoredInLeaf(d: Vec, self: nat, id: nat, idx: nat)
    requires AtLeaf(d, self, id, idx)
    ensures forall x: RoutingTableNode :: d[idx].Covers(x.id) ==> (x in Stored(d) <==> x in d[idx].Nodes())
    ensures forall x :: x in d[idx].Nodes() ==> x in Stored(d)
  {
    LeafForProps(d, self, id);
    forall x: RoutingTableNode | d[idx].Covers(x.id) ensures x in Stored(d) <==> x in d[idx].Nodes() {
      StoredAfterChange(d, d, self, idx, id, x);
    }
  }

  /** `after` holds what `before` held, less `gone`, plus `come`. */
  ghost predicate Exchanged(before: seq<RoutingTableNode>, after: seq<RoutingTableNode>,
                            gone: set<RoutingTableNode>, come: set<RoutingTableNode>)
  {
    && (forall x :: x in gone ==> x in before)
    && (forall x :: x in after <==> (x in before && x !in gone) || x in come)
  }

  /** Exchanging nodes in one bucket exchanges the same nodes in the whole table. */
  lemma BucketExchanged(d: Vec, self: nat, id: nat, idx: nat, nodes: seq<RoutingTableNode>, now: nat,
                        gone: set<RoutingTableNode>, come: set<RoutingTableNode>)
    requires AtLeaf(d, self, id, idx) && BucketOk(d[idx].(data := Leaf(nodes, now)))
    requires Exchanged(d[idx].Nodes(), nodes, gone, come)
    ensures var e := WithNodes(d, idx, nodes, now);
            && AtLeaf(e, self, id, idx)
            && gone <= StoredSet(d)
            && StoredSet(e) == StoredSet(d) - gone + come
            && Splits(Abs(e, 0)) == Splits(Abs(d, 0))
    ensures forall x :: x in come ==> (x in StoredSet(d) <==> x in d[idx].Nodes())
  {
    LeafForProps(d, self, id);
    WithNodesStored(d, self, id, nodes, now);
    StoredInLeaf(d, self, id, idx);
    forall x | x in come ensures d[idx].Covers(x.id) { assert x in nodes; }
  }

  lemma SameElements(r: seq<RoutingTableNode>, s: seq<RoutingTableNode>)
    requires multiset(r) == multiset(s)
    ensures forall x :: x in r <==> x in s
  {
    forall x ensures x in r <==> x in s {
      assert x in r <==> x in multiset(r);
      assert x in s <==> x in multiset(s);
    }
  }

  /** Sorting `s`, whose ids are distinct and covered, gives a well-formed bucket. */
  lemma BucketSorted(b: BucketTreeNode, s: seq<RoutingTableNode>, now: nat)
    requires |s| <= BUCKET_SIZE && DistinctIds(s) && forall i :: 0 <= i < |s| ==> b.Covers(s[i].id)
    ensures BucketOk(b.(data := Leaf(SortById(s), now)))
    ensures forall x :: x in SortById(s) <==> x in s
  {
    SortByIdSorts(s);
    var r := SortById(s);
    SameElements(r, s);
    forall i | 0 <= i < |r| ensures b.Covers(r[i].id) { assert r[i] in s; }
  }

  lemma AddedOk(d: Vec, self: nat, id: nat, idx: nat, n: RoutingTableNode, now: nat)
    requires AtLeaf(d, self, id, idx) && n.id == id
    requires !HasId(d[idx].Nodes(), id) && |d[idx].Nodes()| < BUCKET_SIZE
    ensures var e := WithNodes(d, idx, SortById(d[idx].Nodes() + [n]), now);
            && AtLeaf(e, self, id, idx)
            && StoredSet(e) == StoredSet(d) + {n} && n !in StoredSet(d)
            && |Stored(e)| == |Stored(d)| + 1
            && Splits(Abs(e, 0)) == Splits(Abs(d, 0))
  {
    LeafForProps(d, self, id);
    var s := d[idx].Nodes() + [n];
    BucketSorted(d[idx], s, now);
    BucketExchanged(d, self, id, idx, SortById(s), now, {}, {n});
    StoredCount(d, self);
    StoredCount(WithNodes(d, idx, SortById(s), now), self);
  }

  /** Overwriting one element of a sequence without repeated ids. */
  lemma UpdateExchanges(s: seq<RoutingTableNode>, k: nat, n: RoutingTableNode)
    requires DistinctIds(s) && k < |s| && (n.id == s[k].id || !HasId(s, n.id))
    ensures Exchanged(s, s[k := n], {s[k]}, {n})
    ensures DistinctIds(s[k := n])
    ensures n in s ==> n == s[k]
  {
    var r := s[k := n];
    forall x ensures x in r <==> (x in s && x != s[k]) || x == n {
      if x in s && x != s[k] {
        var j :| 0 <= j < |s| && s[j] == x;
        assert r[j] == x;
      }
      if x == n { assert r[k] == x; }
    }
  }

  lemma ExchangedCount(s: set<RoutingTableNode>, was: RoutingTableNode, n: RoutingTableNode)
    requires was in s && (n == was || n !in s)
    ensures |s - {was} + {n}| == |s|
  {
  }

  /** Putting `n` in place of the `k`-th node of a bucket, before or after sorting. */
  lemma ReplacedOk(d: Vec, self: nat, id: nat, idx: nat, k: nat, n: RoutingTableNode, nodes: seq<RoutingTableNode>,
                   now: nat)
    requires AtLeaf(d, self, id, idx) && BucketOk(d[idx].(data := Leaf(nodes, now)))
    requires k < |d[idx].Nodes()| && Exchanged(d[idx].Nodes(), nodes, {d[idx].Nodes()[k]}, {n})
    requires n in d[idx].Nodes() ==> n == d[idx].Nodes()[k]
    ensures var was := d[idx].Nodes()[k];
            var e := WithNodes(d, idx, nodes, now);
            && AtLeaf(e, self, id, idx)
            && was in StoredSet(d) && (n == was || n !in StoredSet(d))
            && StoredSet(e) == StoredSet(d) - {was} + {n}
            && |Stored(e)| == |Stored(d)|
            && Splits(Abs(e, 0)) == Splits(Abs(d, 0))
  {
    var was := d[idx].Nodes()[k];
    BucketExchanged(d, self, id, idx, nodes, now, {was}, {n});
    StoredCount(d, self);
    ExchangedCount(StoredSet(d), was, n);
    StoredCount(WithNodes(d, idx, nodes, now), self);
  }

  lemma BadReplacedOk(d: Vec, self: nat, id: nat, idx: nat, k: nat, n: RoutingTableNode, now: nat)
    requires AtLeaf(d, self, id, idx) && n.id == id
    requires !HasId(d[idx].Nodes(), id) && k < |d[idx].Nodes()|
    ensures var bad := d[idx].Nodes()[k];
            var e := WithNodes(d, idx, SortById(d[idx].Nodes()[k := n]), now);
            && AtLeaf(e, self, id, idx)
            && bad in StoredSet(d) && n !in StoredSet(d)
            && StoredSet(e) == StoredSet(d) - {bad} + {n}
            && |Stored(e)| == |Stored(d)|
            && Splits(Abs(e, 0)) == Splits(Abs(d, 0))
  {
    LeafForProps(d, self, id);
    var s := d[idx].Nodes()[k := n];
    UpdateExchanges(d[idx].Nodes(), k, n);
    BucketSorted(d[idx], s, now);
    ReplacedOk(d, self, id, idx, k, n, SortById(s), now);
  }

  lemma ChangedOk(d: Vec, self: nat, id: nat, idx: nat, k: nat, n: RoutingTableNode, now: nat)
    requires AtLeaf(d, self, id, idx) && k < |d[idx].Nodes()| && d[idx].Nodes()[k].id == n.id == id
    ensures var was := d[idx].Nodes()[k];
            var e := WithNodes(d, idx, d[idx].Nodes()[k := n], now);
            && AtLeaf(e, self, id, idx)
            && was in StoredSet(d)
            && StoredSet(e) == StoredSet(d) - {was} + {n}
            && |Stored(e)| == |Stored(d)|
            && Splits(Abs(e, 0)) == Splits(Abs(d, 0))
  {
    LeafForProps(d, self, id);
    UpdateExchanges(d[idx].Nodes(), k, n);
    ReplacedOk(d, self, id, idx, k, n, d[idx].Nodes()[k := n], now);
  }

  // ------------------------------------------------------------- splitting

  /** Eight distinct ids and a ninth do not fit a block of eight. */
  lemma NineIdsNeedFourBits(n: BucketTreeNode, id: nat)
    requires n.data.Leaf? && RangeOk(n) && BucketOk(n) && n.Covers(id)
    requires |n.Nodes()| == BUCKET_SIZE && !HasId(n.Nodes(), id)
    ensures n.bits >= MIN_SPLIT_BITS
  {
    var s := n.Nodes();
    assert s[0].id < s[1].id < s[2].id < s[3].id < s[4].id < s[5].id < s[6].id < s[7].id;
    if n.bits < MIN_SPLIT_BITS {
      assert Pow2(n.bits) <= 8 by { assert Pow2(3) == 8; assert Pow2(2) == 4; }
    }
  }

  function LeafNode(bits: nat, start: nat, endInclusive: nat, nodes: seq<RoutingTableNode>, now: nat): BucketTreeNode {
    BucketTreeNode(bits, start, endInclusive, Leaf(nodes, now))
  }

  /** The vector after leaf `idx` was split into leaves holding `ld` and `rd`. */
  function SplitInto(d: Vec, idx: nat, ld: seq<RoutingTableNode>, rd: seq<RoutingTableNode>, now: nat): Vec
    requires idx < |d| && 1 <= d[idx].bits <= ID_BITS
  {
    var n := d[idx];
    var ((ls, le), (rs, re)) := ComputeSplitStartEnd(n.start, n.endInclusive, n.bits);
    var left := LeafNode(n.bits - 1, ls, le, ld, now);
    var right := LeafNode(n.bits - 1, rs, re, rd, now);
    d[idx := n.(data := LeftRight(|d|, |d| + 1))] + [left, right]
  }

  function SplitVec(d: Vec, idx: nat, k: nat, now: nat): Vec
    requires idx < |d| && 1 <= d[idx].bits <= ID_BITS && k <= |d[idx].Nodes()|
  {
    SplitInto(d, idx, d[idx].Nodes()[..k], d[idx].Nodes()[k..], now)
  }

  /** `k` is where the bucket's nodes cross into the right half. */
  ghost predicate CrossesAt(n: BucketTreeNode, k: nat)
    requires 1 <= n.bits <= ID_BITS
  {
    var rs := ComputeSplitStartEnd(n.start, n.endInclusive, n.bits).1.0;
    && k <= |n.Nodes()|
    && (forall i :: 0 <= i < k ==> n.Nodes()[i].id < rs)
    && (forall i :: k <= i < |n.Nodes()| ==> n.Nodes()[i].id >= rs)
  }

  /** The leaf `idx` is full, contains our own id and is asked to hold one more. */
  ghost predicate MustSplit(d: Vec, self: nat, id: nat, idx: nat) {
    && AtLeaf(d, self, id, idx)
    && |d[idx].Nodes()| == BUCKET_SIZE && !HasId(d[idx].Nodes(), id)
    && d[idx].Covers(self)
  }

  /** Every split is safe: the block has at least four bits, so `bits - 1` never underflows
      and the halves are proper blocks. */
  lemma SplitIsSafe(d: Vec, self: nat, id: nat, idx: nat)
    requires MustSplit(d, self, id, idx)
    ensures MIN_SPLIT_BITS <= d[idx].bits <= ID_BITS && SortedById(d[idx].Nodes())
    ensures var ((ls, le), (rs, re)) := ComputeSplitStartEnd(d[idx].start, d[idx].endInclusive, d[idx].bits);
            ls < le < rs < re
  {
    LeafForProps(d, self, id);
    NineIdsNeedFourBits(d[idx], id);
  }

  /** The two new buckets are well-formed halves of the old one. */
  lemma SplitBucketsOk(n: BucketTreeNode, self: nat, id: nat, k: nat, now: nat)
    requires n.data.Leaf? && RangeOk(n) && BucketOk(n) && n.Covers(id) && n.Covers(self)
    requires |n.Nodes()| == BUCKET_SIZE && !HasId(n.Nodes(), id)
    requires n.bits >= 1 && CrossesAt(n, k)
    ensures var ((ls, le), (rs, re)) := ComputeSplitStartEnd(n.start, n.endInclusive, n.bits);
            var l := LeafNode(n.bits - 1, ls, le, n.Nodes()[..k], now);
            var r := LeafNode(n.bits - 1, rs, re, n.Nodes()[k..], now);
            && RangeOk(l) && BucketOk(l) && RangeOk(r) && BucketOk(r) && ForkOk(n, l, r, self)
  {
    NineIdsNeedFourBits(n, id);
  }

  lemma TwoLeavesAppended(d: Vec, self: nat, idx: nat, l: BucketTreeNode, r: BucketTreeNode)
    requires VecOk(d, self) && idx < |d| && d[idx].data.Leaf?
    requires l.data.Leaf? && r.data.Leaf? && RangeOk(l) && BucketOk(l) && RangeOk(r) && BucketOk(r)
    requires ForkOk(d[idx], l, r, self)
    ensures VecOk(d[idx := d[idx].(data := LeftRight(|d|, |d| + 1))] + [l, r], self)
  {
    var e := d[idx := d[idx].(data := LeftRight(|d|, |d| + 1))] + [l, r];
    assert Linked(e);
    forall i | 0 <= i < |e| ensures NodeOk(e, i, self) {
      if i < |d| {
        assert NodeOk(d, i, self);
        assert i != idx ==> e[i] == d[i];
      } else {
        assert e[i] == l || e[i] == r;
      }
    }
  }

  lemma SplitVecOk(d: Vec, self: nat, id: nat, idx: nat, k: nat, now: nat)
    requires MustSplit(d, self, id, idx) && 1 <= d[idx].bits <= ID_BITS && CrossesAt(d[idx], k)
    ensures VecOk(SplitVec(d, idx, k, now), self)
  {
    var n := d[idx];
    var ((ls, le), (rs, re)) := ComputeSplitStartEnd(n.start, n.endInclusive, n.bits);
    var l, r := LeafNode(n.bits - 1, ls, le, n.Nodes()[..k], now), LeafNode(n.bits - 1, rs, re, n.Nodes()[k..], now);
    SplitHalves(d, self, id, idx, k, now, l, r);
    TwoLeavesAppended(d, self, idx, l, r);
  }

  lemma SplitHalves(d: Vec, self: nat, id: nat, idx: nat, k: nat, now: nat, l: BucketTreeNode, r: BucketTreeNode)
    requires MustSplit(d, self, id, idx) && 1 <= d[idx].bits <= ID_BITS && CrossesAt(d[idx], k)
    requires var n := d[idx]; var ((ls, le), (rs, re)) := ComputeSplitStartEnd(n.start, n.endInclusive, n.bits);
             l == LeafNode(n.bits - 1, ls, le, n.Nodes()[..k], now)
               && r == LeafNode(n.bits - 1, rs, re, n.Nodes()[k..], now)
    ensures VecOk(d, self) && d[idx].data.Leaf? && RangeOk(l) && BucketOk(l) && RangeOk(r) && BucketOk(r)
            && ForkOk(d[idx], l, r, self)
  {
    LeafForProps(d, self, id);
    SplitBucketsOk(d[idx], self, id, k, now);
  }

  lemma SplitSubtree(d: Vec, self: nat, id: nat, idx: nat, k: nat, now: nat)
    requires MustSplit(d, self, id, idx) && 1 <= d[idx].bits <= ID_BITS && CrossesAt(d[idx], k)
    ensures var e := SplitVec(d, idx, k, now);
            && VecOk(e, self) && LeafChanged(d, e, idx)
            && Abs(e, idx) == Fork(idx, e[idx], Tip(|d|, e[|d|]), Tip(|d| + 1, e[|d| + 1]))
            && Contents(Abs(e, idx)) == d[idx].Nodes()
            && Abs(e, 0) == Replace(Abs(d, 0), idx, Abs(e, idx))
  {
    var e := SplitVec(d, idx, k, now);
    SplitVecOk(d, self, id, idx, k, now);
    AbsAfterChange(d, e, idx, 0);
    assert d[idx].Nodes()[..k] + d[idx].Nodes()[k..] == d[idx].Nodes();
  }

  /** A split moves nothing: the stored nodes and their order stay, one split is added,
      and the descent for `id` goes on into the half the code steps to. */
  lemma SplitVecKeeps(d: Vec, self: nat, id: nat, idx: nat, k: nat, now: nat)
    requires MustSplit(d, self, id, idx) && 1 <= d[idx].bits <= ID_BITS && CrossesAt(d[idx], k)
    ensures var e := SplitVec(d, idx, k, now);
            var rs := ComputeSplitStartEnd(d[idx].start, d[idx].endInclusive, d[idx].bits).1.0;
            && VecOk(e, self)
            && Stored(e) == Stored(d)
            && Splits(Abs(e, 0)) == Splits(Abs(d, 0)) + 1
            && AtLeaf(e, self, id, if id < rs then |d| else |d| + 1)
  {
    var e := SplitVec(d, idx, k, now);
    SplitSubtree(d, self, id, idx, k, now);
    LeafForProps(d, self, id);
    RootCovers(d, self, id);
    ReplaceKeepsContents(d, 0, idx, Abs(e, idx));
    SplitsAfterReplace(d, 0, idx, Abs(e, idx), self, id);
    forall tip | HasTip(Abs(d, 0), tip) && tip.idx == idx ensures tip.node == d[idx] {
      TipIsVectorEntry(d, 0, self, tip);
    }
    FindAfterReplace(Abs(d, 0), idx, Abs(e, idx), id);
  }

  // ------------------------------------------------------------- what add_node decides

  predicate HasBad(s: seq<RoutingTableNode>, now: nat) {
    exists i :: 0 <= i < |s| && s[i].Status(now).Bad?
  }

  /** A full bucket for which splitting around our own id never separates the new id
      from the eight it holds: some block contains all nine but not our id. */
  ghost predicate Crowded(s: seq<RoutingTableNode>, self: nat, id: nat) {
    && |s| == BUCKET_SIZE
    && exists b: nat :: !SamePrefix(self, id, b) && AllShare(s, id, b)
  }

  ghost predicate AllShare(s: seq<RoutingTableNode>, id: nat, b: nat) {
    forall i :: 0 <= i < |s| ==> SamePrefix(s[i].id, id, b)
  }

  /** The whole effect of `add_node` on the stored set, and exactly when each case happens. */
  ghost predicate InsertSpec(d: Vec, e: Vec, self: nat, n: RoutingTableNode, now: nat, full: bool, r: InsertResult)
    requires Linked(d) && |d| > 0 && Linked(e) && |e| > 0
  {
    var bucket := LeafFor(d, n.id).node.Nodes();
    match r
    case WasExisting => HasId(bucket, n.id) && e == d
    case ReplacedBad(bad) =>
      && !HasId(bucket, n.id)
      && bad in bucket && bad.Status(now).Bad?
      && StoredSet(e) == StoredSet(d) - {bad} + {n} && n !in StoredSet(d)
    case Added =>
      && !HasId(bucket, n.id) && !HasBad(bucket, now) && !full && !Crowded(bucket, self, n.id)
      && StoredSet(e) == StoredSet(d) + {n} && n !in StoredSet(d)
    case Ignored =>
      && !HasId(bucket, n.id) && !HasBad(bucket, now) && (full || Crowded(bucket, self, n.id))
      && Stored(e) == Stored(d)
  }

  /** State of the insert loop: `first` while nothing was split yet; afterwards our own id
      is still in the parent block and the bucket either kept all eight nodes or lost some. */
  ghost predicate Narrowed(init: seq<RoutingTableNode>, n: BucketTreeNode, self: nat, id: nat, first: bool) {
    if first then n.Nodes() == init
    else
      && |init| == BUCKET_SIZE
      && SamePrefix(self, id, n.bits + 1)
      && (forall i :: 0 <= i < |n.Nodes()| ==> n.Nodes()[i] in init)
      && (n.Nodes() == init || (|n.Nodes()| < BUCKET_SIZE && !AllShare(init, id, n.bits)))
  }

  /** Our id left the block while all eight nodes are still in it. */
  lemma CrowdedWhenSelfLeaves(d: Vec, self: nat, id: nat, idx: nat)
    requires AtLeaf(d, self, id, idx) && |d[idx].Nodes()| >= BUCKET_SIZE
    ensures |d[idx].Nodes()| == BUCKET_SIZE
    ensures !d[idx].Covers(self) ==> Crowded(d[idx].Nodes(), self, id)
  {
    LeafForProps(d, self, id);
    var n := d[idx];
    WithinIsSamePrefix(id, n.start, n.endInclusive, n.bits);
    WithinIsSamePrefix(self, n.start, n.endInclusive, n.bits);
    forall i | 0 <= i < |n.Nodes()| ensures SamePrefix(n.Nodes()[i].id, id, n.bits) {
      WithinIsSamePrefix(n.Nodes()[i].id, n.start, n.endInclusive, n.bits);
    }
    assert AllShare(n.Nodes(), id, n.bits);
  }

  /** Once splitting made room, no block separates our id from all nine. */
  lemma NotCrowdedWhenRoom(init: seq<RoutingTableNode>, n: BucketTreeNode, self: nat, id: nat, first: bool)
    requires Narrowed(init, n, self, id, first) && |n.Nodes()| < BUCKET_SIZE
    ensures !Crowded(init, self, id)
  {
    if !first {
      forall b: nat | !SamePrefix(self, id, b) ensures !AllShare(init, id, b) {
        if b > n.bits {
          SamePrefixMonotone(self, id, n.bits + 1, b);
        } else {
          forall i | 0 <= i < |init| && SamePrefix(init[i].id, id, b) ensures SamePrefix(init[i].id, id, n.bits) {
            SamePrefixMonotone(init[i].id, id, b, n.bits);
          }
        }
      }
    }
  }

  /** One split keeps the loop state: the half `c` of block `n` that covers `id` took
      all eight nodes, or left some of them to the other half. */
  lemma NarrowedHalf(n: BucketTreeNode, c: BucketTreeNode, self: nat, id: nat)
    requires RangeOk(n) && RangeOk(c) && n.bits == c.bits + 1
    requires n.Covers(self) && n.Covers(id) && c.Covers(id)
    requires |n.Nodes()| == BUCKET_SIZE
    requires forall i :: 0 <= i < |c.Nodes()| ==> c.Nodes()[i] in n.Nodes()
    requires c.Nodes() == n.Nodes() ||
             (|c.Nodes()| < BUCKET_SIZE && exists i :: 0 <= i < |n.Nodes()| && !c.Covers(n.Nodes()[i].id))
    ensures Narrowed(n.Nodes(), c, self, id, false)
  {
    WithinIsSamePrefix(id, n.start, n.endInclusive, n.bits);
    WithinIsSamePrefix(self, n.start, n.endInclusive, n.bits);
    if c.Nodes() != n.Nodes() {
      var i :| 0 <= i < |n.Nodes()| && !c.Covers(n.Nodes()[i].id);
      WithinIsSamePrefix(id, c.start, c.endInclusive, c.bits);
      WithinIsSamePrefix(n.Nodes()[i].id, c.start, c.endInclusive, c.bits);
      assert !SamePrefix(n.Nodes()[i].id, id, c.bits);
    }
  }

  lemma NarrowedAfterSplit(n: BucketTreeNode, self: nat, id: nat, k: nat, now: nat)
    requires n.data.Leaf? && RangeOk(n) && BucketOk(n) && n.Covers(self) && n.Covers(id)
    requires |n.Nodes()| == BUCKET_SIZE && n.bits >= 1 && CrossesAt(n, k)
    ensures var ((ls, le), (rs, re)) := ComputeSplitStartEnd(n.start, n.endInclusive, n.bits);
            Narrowed(n.Nodes(), if id < rs then LeafNode(n.bits - 1, ls, le, n.Nodes()[..k], now)
                                else LeafNode(n.bits - 1, rs, re, n.Nodes()[k..], now), self, id, false)
  {
    var ((ls, le), (rs, re)) := ComputeSplitStartEnd(n.start, n.endInclusive, n.bits);
    if id < rs {
      var c := LeafNode(n.bits - 1, ls, le, n.Nodes()[..k], now);
      assert k < |n.Nodes()| ==> !c.Covers(n.Nodes()[k].id);
      NarrowedHalf(n, c, self, id);
    } else {
      var c := LeafNode(n.bits - 1, rs, re, n.Nodes()[k..], now);
      assert k > 0 ==> !c.Covers(n.Nodes()[0].id);
      NarrowedHalf(n, c, self, id);
    }
  }

  /** One round of the loop: leaf `idx` becomes an inner node over two new leaves. */
  lemma SplitStep(d: Vec, self: nat, id: nat, idx: nat, ld: seq<RoutingTableNode>, rd: seq<RoutingTableNode>, now: nat)
    requires MustSplit(d, self, id, idx) && 1 <= d[idx].bits <= ID_BITS
    requires ld + rd == d[idx].Nodes()
    requires var rs := ComputeSplitStartEnd(d[idx].start, d[idx].endInclusive, d[idx].bits).1.0;
             (forall i :: 0 <= i < |ld| ==> ld[i].id < rs) && (forall i :: 0 <= i < |rd| ==> rd[i].id >= rs)
    ensures var rs := ComputeSplitStartEnd(d[idx].start, d[idx].endInclusive, d[idx].bits).1.0;
            var e := SplitInto(d, idx, ld, rd, now);
            var next := if id < rs then |d| else |d| + 1;
            && AtLeaf(e, self, id, next) && |e| == |d| + 2
            && e[next].bits == d[idx].bits - 1
            && Stored(e) == Stored(d)
            && Splits(Abs(e, 0)) == Splits(Abs(d, 0)) + 1
            && Narrowed(d[idx].Nodes(), e[next], self, id, false)
  {
    var k := |ld|;
    CrossesBetween(d[idx], ld, rd);
    LeafForProps(d, self, id);
    SplitVecKeeps(d, self, id, idx, k, now);
    NarrowedAfterSplit(d[idx], self, id, k, now);
  }

  lemma CrossesBetween(n: BucketTreeNode, ld: seq<RoutingTableNode>, rd: seq<RoutingTableNode>)
    requires 1 <= n.bits <= ID_BITS && ld + rd == n.Nodes()
    requires var rs := ComputeSplitStartEnd(n.start, n.endInclusive, n.bits).1.0;
             (forall i :: 0 <= i < |ld| ==> ld[i].id < rs) && (forall i :: 0 <= i < |rd| ==> rd[i].id >= rs)
    ensures CrossesAt(n, |ld|) && n.Nodes()[..|ld|] == ld && n.Nodes()[|ld|..] == rd
  {
    assert n.Nodes()[..|ld|] == ld && n.Nodes()[|ld|..] == rd;
  }
}
