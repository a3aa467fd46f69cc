/** The Kademlia routing table: buckets in a growing vector, split only around our own id. */
module RoutingTables {
  import opened Prelude
  import opened NodeId
  import opened Buckets
  import opened BucketInsert

  /** 157 splits, each adding two entries to the first one. */
  const MAX_VECTOR_LENGTH: nat := 315

  /** Sends each node below `rs` left and the others right, keeping their order. */
  method PartitionNodes(n: BucketTreeNode, rs: nat) returns (ld: seq<RoutingTableNode>, rd: seq<RoutingTableNode>)
    requires SortedById(n.Nodes())
    ensures ld + rd == n.Nodes()
    ensures forall i :: 0 <= i < |ld| ==> ld[i].id < rs
    ensures forall i :: 0 <= i < |rd| ==> rd[i].id >= rs
  {
    var nodes := n.Nodes();
    ld, rd := [], [];
    for i := 0 to |nodes|
      invariant ld + rd == nodes[..i]
      invariant forall j :: 0 <= j < |ld| ==> ld[j].id < rs
      invariant forall j :: 0 <= j < |rd| ==> rd[j].id >= rs
    {
      assert rd != [] ==> rd[0] == nodes[..i][|ld|];
      if nodes[i].id < rs {
        ld := ld + [nodes[i]];
      } else {
        rd := rd + [nodes[i]];
      }
    }
  }

  /** Index of the first bad node, or the bucket's length. */
  method FindBad(nodes: seq<RoutingTableNode>, now: nat) returns (k: nat)
    ensures k <= |nodes|
    ensures k < |nodes| ==> nodes[k].Status(now).Bad?
    ensures k == |nodes| ==> !HasBad(nodes, now)
    ensures forall i :: 0 <= i < k ==> !nodes[i].Status(now).Bad?
  {
    k := 0;
    while k < |nodes| && !nodes[k].Status(now).Bad?
      invariant k <= |nodes|
      invariant forall i :: 0 <= i < k ==> !nodes[i].Status(now).Bad?
    {
      k := k + 1;
    }
  }

  /** The node with this id was changed by `f`; every other node is as before. */
  ghost predicate OneChanged(before: set<RoutingTableNode>, after: set<RoutingTableNode>, id: nat,
                             f: RoutingTableNode -> RoutingTableNode)
  {
    exists n :: n in before && n.id == id && after == before - {n} + {f(n)}
  }

  class BucketTree {
    var data: Vec
    var size: nat
    const maxSize: nat

    ghost predicate Valid(self: nat)
      reads this
    {
      && VecOk(data, self)
      && size == |Stored(data)| <= maxSize
      && |data| == 1 + 2 * Splits(Abs(data, 0))
    }

    constructor (maxSize: nat)
      ensures forall self :: Valid(self)
      ensures Stored(data) == [] && size == 0 && this.maxSize == maxSize
    {
      this.data := [BucketTreeNode(ID_BITS, 0, Pow2(ID_BITS) - 1, Leaf([], 0))];
      this.size := 0;
      this.maxSize := maxSize;
    }

    method GetLeaf(id: nat, ghost self: nat) returns (idx: nat)
      requires Valid(self) && id < Pow2(ID_BITS)
      ensures AtLeaf(data, self, id, idx)
    {
      idx := 0;
      while data[idx].data.LeftRight?
        invariant idx < |data| && LeafFor(data, id) == FindTip(Abs(data, idx), id)
        decreases |data| - idx
      {
        var LeftRight(l, r) := data[idx].data;
        AbsOk(data, l, self);
        idx := if data[l].start <= id <= data[l].endInclusive then l else r;
      }
    }

    method AddNode(self: nat, id: nat, addr: SocketAddr, now: nat) returns (r: InsertResult)
      requires Valid(self) && self < Pow2(ID_BITS) && id < Pow2(ID_BITS)
      modifies this
      ensures Valid(self)
      ensures InsertSpec(old(data), data, self, NewNode(id, addr), now, old(size) == maxSize, r)
      ensures size == old(size) + (if r.Added? then 1 else 0)
    {
      var idx := GetLeaf(id, self);
      r := InsertIntoLeaf(idx, self, id, addr, now);
    }

    /** Splits leaf `idx` and steps to the half that covers `id`. */
    method SplitLeaf(idx: nat, self: nat, id: nat, now: nat) returns (next: nat)
      requires Valid(self) && MustSplit(data, self, id, idx)
      modifies this`data
      ensures Valid(self) && AtLeaf(data, self, id, next)
      ensures Stored(data) == old(Stored(data))
      ensures data[next].bits == old(data[idx].bits) - 1
      ensures Narrowed(old(data[idx].Nodes()), data[next], self, id, false)
    {
      SplitIsSafe(data, self, id, idx);
      var n := data[idx];
      var rs := ComputeSplitStartEnd(n.start, n.endInclusive, n.bits).1.0;
      var ld, rd := PartitionNodes(n, rs);
      SplitStep(data, self, id, idx, ld, rd, now);
      next := if id < rs then |data| else |data| + 1;
      data := SplitInto(data, idx, ld, rd, now);
    }

    /** Swaps the `k`-th node of leaf `idx` for `n` and sorts the bucket again. */
    method ReplaceInLeaf(idx: nat, ghost self: nat, k: nat, n: RoutingTableNode, now: nat)
      requires Valid(self) && AtLeaf(data, self, n.id, idx)
      requires !HasId(data[idx].Nodes(), n.id) && k < |data[idx].Nodes()|
      modifies this`data
      ensures Valid(self)
      ensures StoredSet(data) == old(StoredSet(data)) - {old(data[idx].Nodes()[k])} + {n}
      ensures n !in old(StoredSet(data))
    {
      BadReplacedOk(data, self, n.id, idx, k, n, now);
      data := WithNodes(data, idx, SortById(data[idx].Nodes()[k := n]), now);
    }

    /** Adds `n` to leaf `idx`, which has room, and sorts the bucket again. */
    method PushIntoLeaf(idx: nat, ghost self: nat, n: RoutingTableNode, now: nat)
      requires Valid(self) && AtLeaf(data, self, n.id, idx) && size < maxSize
      requires !HasId(data[idx].Nodes(), n.id) && |data[idx].Nodes()| < BUCKET_SIZE
      modifies this
      ensures Valid(self) && size == old(size) + 1
      ensures StoredSet(data) == old(StoredSet(data)) + {n} && n !in old(StoredSet(data))
    {
      AddedOk(data, self, n.id, idx, n, now);
      data := WithNodes(data, idx, SortById(data[idx].Nodes() + [n]), now);
      size := size + 1;
    }

    method InsertIntoLeaf(start: nat, self: nat, id: nat, addr: SocketAddr, now: nat) returns (r: InsertResult)
      requires Valid(self) && self < Pow2(ID_BITS) && AtLeaf(data, self, id, start)
      modifies this
      ensures Valid(self)
      ensures InsertSpec(old(data), data, self, NewNode(id, addr), now, old(size) == maxSize, r)
      ensures size == old(size) + (if r.Added? then 1 else 0)
    {
      var idx := start;
      ghost var init := data[start].Nodes();
      ghost var first := true;
      while true
        invariant Valid(self) && AtLeaf(data, self, id, idx)
        invariant Stored(data) == old(Stored(data)) && size == old(size)
        invariant first ==> data == old(data)
        invariant !first ==> size != maxSize && !HasId(init, id) && !HasBad(init, now)
        invariant Narrowed(init, data[idx], self, id, first)
        decreases data[idx].bits
      {
        var nodes := data[idx].Nodes();
        if HasId(nodes, id) {
          return WasExisting;
        }
        var newNode := NewNode(id, addr);
        var k := FindBad(nodes, now);
        if k < |nodes| {
          ReplaceInLeaf(idx, self, k, newNode, now);
          return ReplacedBad(nodes[k]);
        }
        if size == maxSize {
          return Ignored;
        }
        if |nodes| < BUCKET_SIZE {
          NotCrowdedWhenRoom(init, data[idx], self, id, first);
          PushIntoLeaf(idx, self, newNode, now);
          return Added;
        }
        CrowdedWhenSelfLeaves(data, self, id, idx);
        if self < data[idx].start || self > data[idx].endInclusive {
          return Ignored;
        }
        idx := SplitLeaf(idx, self, id, now);
        first := false;
      }
    }

    /** `get_mut` followed by an in-place change `f` of the node it found. */
    method UpdateNode(ghost self: nat, id: nat, refresh: Option<nat>, f: RoutingTableNode -> RoutingTableNode)
      returns (found: bool)
      requires Valid(self) && id < Pow2(ID_BITS)
      requires forall n :: f(n).id == n.id
      modifies this`data
      ensures Valid(self)
      ensures found <==> old(HasId(Stored(data), id))
      ensures !found ==> data == old(data)
      ensures found ==> OneChanged(old(StoredSet(data)), StoredSet(data), id, f)
    {
      var idx := GetLeaf(id, self);
      StoredInLeaf(data, self, id, idx);
      HasIdInLeaf(data, self, id, idx);
      LeafForProps(data, self, id);
      var nodes := data[idx].Nodes();
      var k := 0;
      while k < |nodes| && nodes[k].id != id
        invariant k <= |nodes|
        invariant forall i :: 0 <= i < k ==> nodes[i].id != id
      {
        k := k + 1;
      }
      found := k < |nodes|;
      if found {
        var stamp := if refresh.Some? then refresh.value else data[idx].data.lastRefreshed;
        ChangedOk(data, self, id, idx, k, f(nodes[k]), stamp);
        data := WithNodes(data, idx, nodes[k := f(nodes[k])], stamp);
      }
    }
  }

  /** An id is stored exactly when its own bucket holds it. */
  lemma HasIdInLeaf(d: Vec, self: nat, id: nat, idx: nat)
    requires AtLeaf(d, self, id, idx)
    ensures HasId(Stored(d), id) <==> HasId(d[idx].Nodes(), id)
  {
    LeafForProps(d, self, id);
    StoredInLeaf(d, self, id, idx);
    if HasId(Stored(d), id) {
      var i :| 0 <= i < |Stored(d)| && Stored(d)[i].id == id;
      assert Stored(d)[i] in d[idx].Nodes();
    }
    if HasId(d[idx].Nodes(), id) {
      var i :| 0 <= i < |d[idx].Nodes()| && d[idx].Nodes()[i].id == id;
      assert d[idx].Nodes()[i] in Stored(d);
    }
  }

  // ------------------------------------------------------------- iteration

  /** The leaves still to be visited, with the top of the stack first. */
  ghost function Pending(d: Vec, queue: seq<nat>): seq<nat>
    requires Linked(d)
  {
    if queue == [] then []
    else
      var top := queue[|queue| - 1];
      (if top < |d| then Leaves(Abs(d, top)) else []) + Pending(d, queue[..|queue| - 1])
  }

  ghost function TreeSize(t: Tree): nat {
    match t
    case Tip(_, _) => 1
    case Fork(_, _, l, r) => 1 + TreeSize(l) + TreeSize(r)
  }

  ghost function Work(d: Vec, queue: seq<nat>): nat
    requires Linked(d)
  {
    if queue == [] then 0
    else
      var top := queue[|queue| - 1];
      1 + (if top < |d| then 2 * TreeSize(Abs(d, top)) else 0) + Work(d, queue[..|queue| - 1])
  }

  lemma PendingPush(d: Vec, rest: seq<nat>, i: nat)
    requires Linked(d) && i < |d|
    ensures Pending(d, rest + [i]) == Leaves(Abs(d, i)) + Pending(d, rest)
    ensures Work(d, rest + [i]) == 1 + 2 * TreeSize(Abs(d, i)) + Work(d, rest)
  {
    assert (rest + [i])[..|rest|] == rest;
  }

  /** Pushing the right child, then the left one, leaves the visiting order alone. */
  lemma PushChildren(d: Vec, rest: seq<nat>, i: nat)
    requires Linked(d) && i < |d| && d[i].data.LeftRight?
    ensures var q := rest + [d[i].data.right] + [d[i].data.left];
            Pending(d, q) == Pending(d, rest + [i]) && Work(d, q) < Work(d, rest + [i])
  {
    var r, l := d[i].data.right, d[i].data.left;
    PendingPush(d, rest, i);
    PendingPush(d, rest, r);
    PendingPush(d, rest + [r], l);
    ForkLeaves(d, i);
  }

  lemma ForkLeaves(d: Vec, i: nat)
    requires Linked(d) && i < |d| && d[i].data.LeftRight?
    ensures var l, r := d[i].data.left, d[i].data.right;
            Leaves(Abs(d, i)) == Leaves(Abs(d, l)) + Leaves(Abs(d, r))
              && TreeSize(Abs(d, i)) == 1 + TreeSize(Abs(d, l)) + TreeSize(Abs(d, r))
  {
  }

  class BucketTreeIterator {
    const tree: Vec
    var queue: seq<nat>

    constructor (tree: Vec)
      requires Linked(tree) && |tree| > 0
      ensures this.tree == tree && queue == [0]
    {
      this.tree := tree;
      this.queue := [0];
    }

    /** The next leaf in left-to-right order, or None when all were visited. */
    method Next() returns (r: Option<nat>)
      requires Linked(tree)
      modifies this
      ensures r.Some? <==> old(Pending(tree, queue)) != []
      ensures r.Some? ==> r.value < |tree| && tree[r.value].data.Leaf?
                          && old(Pending(tree, queue)) == [r.value] + Pending(tree, queue)
      ensures r.Some? ==> |Pending(tree, queue)| < |old(Pending(tree, queue))|
    {
      while queue != []
        invariant Pending(tree, queue) == old(Pending(tree, queue))
        decreases Work(tree, queue)
      {
        var idx := queue[|queue| - 1];
        var rest := queue[..|queue| - 1];
        assert queue == rest + [idx];
        queue := rest;
        if idx < |tree| {
          match tree[idx].data
          case Leaf(_, _) =>
            return Some(idx);
          case LeftRight(left, right) =>
            PushChildren(tree, rest, idx);
            queue := rest + [right] + [left];
        }
      }
      return None;
    }
  }

  ghost function Flatten(d: Vec, leaves: seq<nat>): seq<RoutingTableNode> {
    if leaves == [] then []
    else (if leaves[0] < |d| then d[leaves[0]].Nodes() else []) + Flatten(d, leaves[1..])
  }

  lemma {:induction false} FlattenAppend(d: Vec, a: seq<nat>, b: seq<nat>)
    ensures Flatten(d, a + b) == Flatten(d, a) + Flatten(d, b)
  {
    if a == [] {
      assert a + b == b;
    } else {
      assert (a + b)[1..] == a[1..] + b;
      FlattenAppend(d, a[1..], b);
    }
  }

  lemma {:induction false} FlattenLeaves(d: Vec, i: nat)
    requires Linked(d) && i < |d|
    ensures Flatten(d, Leaves(Abs(d, i))) == Contents(Abs(d, i))
    decreases |d| - i
  {
    match d[i].data
    case Leaf(_, _) =>
      assert Leaves(Abs(d, i))[1..] == [];
    case LeftRight(l, r) =>
      FlattenLeaves(d, l);
      FlattenLeaves(d, r);
      FlattenAppend(d, Leaves(Abs(d, l)), Leaves(Abs(d, r)));
  }

  /** `iter()`: every stored node exactly once, in strictly ascending id order. */
  method IterNodes(tree: Vec, ghost self: nat) returns (out: seq<RoutingTableNode>)
    requires VecOk(tree, self)
    ensures out == Stored(tree)
    ensures SortedById(out)
  {
    var it := new BucketTreeIterator(tree);
    assert Pending(tree, it.queue) == Leaves(Abs(tree, 0)) by {
      assert it.queue[..0] == [];
      assert Leaves(Abs(tree, 0)) + [] == Leaves(Abs(tree, 0));
    }
    out := [];
    FlattenLeaves(tree, 0);
    StoredCount(tree, self);
    while true
      invariant it.tree == tree
      invariant out + Flatten(tree, Pending(tree, it.queue)) == Stored(tree)
      decreases |Pending(tree, it.queue)|
    {
      ghost var before := Pending(tree, it.queue);
      var leaf := it.Next();
      match leaf
      case None =>
        return;
      case Some(idx) =>
        assert before[1..] == Pending(tree, it.queue);
        out := out + tree[idx].Nodes();
    }
  }

  // ------------------------------------------------------------- the routing table

  /** However many nodes were inserted, the vector never outgrows 315 entries. */
  lemma VectorBound(d: Vec, self: nat)
    requires VecOk(d, self) && |d| == 1 + 2 * Splits(Abs(d, 0))
    ensures |d| <= MAX_VECTOR_LENGTH
  {
    AbsOk(d, 0, self);
    SplitsBound(Abs(d, 0), self);
  }

  class RoutingTable {
    const id: nat
    var size: nat
    const buckets: BucketTree
    /** How many bad nodes were replaced so far. */
    ghost var replacements: nat

    ghost predicate Valid()
      reads this, buckets
    {
      && id < Pow2(ID_BITS)
      && buckets.Valid(id)
      && size == |Stored(buckets.data)| + replacements
    }

    constructor (id: nat, maxSize: Option<nat>)
      requires id < Pow2(ID_BITS)
      ensures Valid() && fresh(buckets) && this.id == id && replacements == 0
      ensures Stored(buckets.data) == [] && buckets.maxSize == (if maxSize.Some? then maxSize.value else 512)
    {
      this.id := id;
      this.size := 0;
      this.buckets := new BucketTree(if maxSize.Some? then maxSize.value else 512);
      this.replacements := 0;
    }

    method AddNode(nodeId: nat, addr: SocketAddr, now: nat) returns (r: InsertResult)
      requires Valid() && nodeId < Pow2(ID_BITS)
      modifies this, buckets
      ensures Valid()
      ensures InsertSpec(old(buckets.data), buckets.data, id, NewNode(nodeId, addr), now,
                         old(|Stored(buckets.data)|) == buckets.maxSize, r)
      ensures replacements == old(replacements) + (if r.ReplacedBad? then 1 else 0)
      ensures |buckets.data| <= MAX_VECTOR_LENGTH
    {
      StoredCount(buckets.data, id);
      r := buckets.AddNode(id, nodeId, addr, now);
      VectorBound(buckets.data, id);
      StoredCount(buckets.data, id);
      if r.ReplacedBad? || r.Added? {
        size := size + 1;
        replacements := replacements + (if r.ReplacedBad? then 1 else 0);
      }
    }

    method MarkOutgoingRequest(nodeId: nat, now: nat) returns (found: bool)
      requires Valid() && nodeId < Pow2(ID_BITS)
      modifies buckets`data
      ensures Valid() && (found <==> old(HasId(Stored(buckets.data), nodeId)))
      ensures !found ==> buckets.data == old(buckets.data)
      ensures found ==> OneChanged(old(StoredSet(buckets.data)), StoredSet(buckets.data), nodeId,
                                   (n: RoutingTableNode) => n.MarkOutgoingRequest(now))
    {
      found := buckets.UpdateNode(id, nodeId, None, (n: RoutingTableNode) => n.MarkOutgoingRequest(now));
    }

    method MarkResponse(nodeId: nat, now: nat) returns (found: bool)
      requires Valid() && nodeId < Pow2(ID_BITS)
      modifies buckets`data
      ensures Valid() && (found <==> old(HasId(Stored(buckets.data), nodeId)))
      ensures !found ==> buckets.data == old(buckets.data)
      ensures found ==> OneChanged(old(StoredSet(buckets.data)), StoredSet(buckets.data), nodeId,
                                   (n: RoutingTableNode) => n.MarkResponse(now))
    {
      found := buckets.UpdateNode(id, nodeId, Some(now), (n: RoutingTableNode) => n.MarkResponse(now));
    }

    method MarkError(nodeId: nat) returns (found: bool)
      requires Valid() && nodeId < Pow2(ID_BITS)
      modifies buckets`data
      ensures Valid() && (found <==> old(HasId(Stored(buckets.data), nodeId)))
      ensures !found ==> buckets.data == old(buckets.data)
      ensures found ==> OneChanged(old(StoredSet(buckets.data)), StoredSet(buckets.data), nodeId,
                                   (n: RoutingTableNode) => n.MarkError())
    {
      found := buckets.UpdateNode(id, nodeId, None, (n: RoutingTableNode) => n.MarkError());
    }

    method MarkLastQuery(nodeId: nat, now: nat) returns (found: bool)
      requires Valid() && nodeId < Pow2(ID_BITS)
      modifies buckets`data
      ensures Valid() && (found <==> old(HasId(Stored(buckets.data), nodeId)))
      ensures !found ==> buckets.data == old(buckets.data)
      ensures found ==> OneChanged(old(StoredSet(buckets.data)), StoredSet(buckets.data), nodeId,
                                   (n: RoutingTableNode) => n.MarkLastQuery(now))
    {
      found := buckets.UpdateNode(id, nodeId, None, (n: RoutingTableNode) => n.MarkLastQuery(now));
    }
  }
}
