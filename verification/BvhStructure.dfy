/** What the builder's output is: an exact, well-formed tree. */
module BvhStructure {
  import opened Basics
  import opened Boxes
  import opened Sah
  import opened BvhSplits
  import opened BvhTrees
  import opened BvhBuilder

  /** The node array seen as a shape. */
  function ShapeOfBuilt(nodes: seq<BuiltNode>): (k: Shape)
    ensures |k| == |nodes| && forall i :: 0 <= i < |k| ==> k[i] == if nodes[i].leaf then None else Some(nodes[i].leftOrFirst)
  {
    seq(|nodes|, (i: nat) requires i < |nodes| => if nodes[i].leaf then None else Some(nodes[i].leftOrFirst))
  }

  /** The finished build: the whole array is one tree over all items. */
  ghost predicate Finished(nodes: seq<BuiltNode>, items: seq<Item>, t: Tree) {
    items != [] && Emitted([BLANK], nodes, 0, t) && Optimal(t)
    && Spans(t, 0) && |t.items| == |items| && Holds(items, t)
  }

  lemma EveryPlace(nodes: seq<BuiltNode>, t: Tree, i: nat)
    requires Emitted([BLANK], nodes, 0, t)
    ensures i in Places(t) <==> i < |nodes|
    ensures Distinct(Places(t))
  {
    assert multiset(Places(t))[i] == if i < |nodes| then 1 else 0;
    assert i in Places(t) <==> multiset(Places(t))[i] > 0;
    forall x ensures multiset(Places(t))[x] <= 1 {
      assert multiset(Places(t))[x] == if x == 0 || 1 <= x < |nodes| then 1 else 0;
    }
  }

  // ---- counting nodes -----------------------------------------------------------------

  lemma {:induction false} PlacesCount(t: Tree)
    ensures |Places(t)| == 2 * Leaves(t) - 1
  {
    if t.Fork? {
      PlacesCount(t.left);
      PlacesCount(t.right);
    }
  }

  /** Every leaf holds an item, so there are at most as many leaves. */
  lemma {:induction false} LeavesHoldItems(t: Tree, begin: nat)
    requires Spans(t, begin)
    ensures Leaves(t) <= |t.items|
  {
    if t.Fork? {
      LeavesHoldItems(t.left, begin);
      LeavesHoldItems(t.right, begin + |t.left.items|);
    }
  }

  /** The array is full: one node per place, two per leaf but one. */
  lemma NodesPerLeaf(nodes: seq<BuiltNode>, items: seq<Item>, t: Tree)
    requires Finished(nodes, items, t)
    ensures |nodes| == 2 * Leaves(t) - 1 && Leaves(t) <= |items|
  {
    hide Leaves, Places;
    PlacesCount(t);
    LeavesHoldItems(t, 0);
    assert multiset(Places(t)) == Numbers(|nodes|);
    assert |multiset(Places(t))| == |Places(t)|;
  }

  // ---- every node is in order -----------------------------------------------------------

  ghost predicate InOrder(nodes: seq<BuiltNode>, i: nat, n: nat)
    requires i < |nodes|
  {
    if nodes[i].leaf then nodes[i].count > 0 && nodes[i].leftOrFirst + nodes[i].count <= n
    else nodes[i].count == 0 && i < nodes[i].leftOrFirst && nodes[i].leftOrFirst + 1 < |nodes|
  }

  lemma {:induction false} PlacesInOrder(nodes: seq<BuiltNode>, t: Tree, begin: nat, n: nat, i: nat)
    requires Encodes(nodes, t) && Spans(t, begin) && begin + |t.items| <= n && i in Places(t)
    ensures i < |nodes| && InOrder(nodes, i, n)
  {
    if t.Fork? && i != t.at {
      if i in Places(t.left) {
        PlacesInOrder(nodes, t.left, begin, n, i);
      } else {
        PlacesInOrder(nodes, t.right, begin + |t.left.items|, n, i);
      }
    }
  }

  // ---- one parent each ------------------------------------------------------------------

  lemma RootInPlaces(t: Tree)
    ensures t.at in Places(t)
  {
  }

  lemma {:induction false} ParentIn(nodes: seq<BuiltNode>, t: Tree, c: nat)
    requires Encodes(nodes, t) && c in Places(t) && c != t.at
    ensures HasParent(ShapeOfBuilt(nodes), c)
  {
    var k := ShapeOfBuilt(nodes);
    if c == t.left.at || c == t.right.at {
      assert IsChild(k, t.at, c);
    } else if c in Places(t.left) {
      ParentIn(nodes, t.left, c);
    } else {
      ParentIn(nodes, t.right, c);
    }
  }

  lemma DistinctParts(t: Tree)
    requires t.Fork? && Distinct(Places(t))
    ensures Distinct(Places(t.left)) && Distinct(Places(t.right))
    ensures t.at !in Places(t.left) && t.at !in Places(t.right)
    ensures forall x :: x in Places(t.left) ==> x !in Places(t.right)
  {
    var l, r := Places(t.left), Places(t.right);
    forall x ensures multiset([t.at])[x] + multiset(l)[x] + multiset(r)[x] <= 1 {
      assert multiset(Places(t))[x] <= 1;
      assert multiset([t.at] + l + r)[x] == multiset([t.at])[x] + multiset(l)[x] + multiset(r)[x];
    }
    forall x ensures multiset(l)[x] <= 1 && multiset(r)[x] <= 1 && !(x in l && x in r) && !(x == t.at && (x in l || x in r)) {
      assert x in l <==> multiset(l)[x] > 0;
      assert x in r <==> multiset(r)[x] > 0;
      assert multiset([t.at])[x] + multiset(l)[x] + multiset(r)[x] <= 1;
    }
  }

  /** A node's child is in the same subtree, and is not its root. */
  lemma {:induction false} ChildInside(nodes: seq<BuiltNode>, t: Tree, p: nat, c: nat)
    requires Encodes(nodes, t) && Distinct(Places(t)) && p in Places(t) && IsChild(ShapeOfBuilt(nodes), p, c)
    ensures c in Places(t) && c != t.at
  {
    if t.Fork? {
      DistinctParts(t);
      RootInPlaces(t.left);
      RootInPlaces(t.right);
      if p in Places(t.left) {
        ChildInside(nodes, t.left, p, c);
      } else if p in Places(t.right) {
        ChildInside(nodes, t.right, p, c);
      }
    }
  }

  lemma {:induction false} OneParentIn(nodes: seq<BuiltNode>, t: Tree, p: nat, q: nat, c: nat)
    requires Encodes(nodes, t) && Distinct(Places(t)) && p in Places(t) && q in Places(t)
    requires IsChild(ShapeOfBuilt(nodes), p, c) && IsChild(ShapeOfBuilt(nodes), q, c)
    ensures p == q
  {
    if t.Fork? {
      DistinctParts(t);
      RootInPlaces(t.left);
      RootInPlaces(t.right);
      ChildSide(nodes, t, p, c);
      ChildSide(nodes, t, q, c);
      if p in Places(t.left) && q in Places(t.left) {
        OneParentIn(nodes, t.left, p, q, c);
      } else if p in Places(t.right) && q in Places(t.right) {
        OneParentIn(nodes, t.right, p, q, c);
      }
    }
  }

  /** Where the child of a node of a fork is. */
  lemma ChildSide(nodes: seq<BuiltNode>, t: Tree, p: nat, c: nat)
    requires t.Fork? && Encodes(nodes, t) && Distinct(Places(t)) && p in Places(t) && IsChild(ShapeOfBuilt(nodes), p, c)
    ensures p == t.at ==> c == t.left.at || c == t.right.at
    ensures p in Places(t.left) ==> c in Places(t.left) && c != t.left.at
    ensures p in Places(t.right) ==> c in Places(t.right) && c != t.right.at
  {
    DistinctParts(t);
    if p in Places(t.left) {
      ChildInside(nodes, t.left, p, c);
    } else if p in Places(t.right) {
      ChildInside(nodes, t.right, p, c);
    }
  }

  /** The builder's array encodes a tree in the loader's sense. */
  lemma BuiltIsTree(nodes: seq<BuiltNode>, items: seq<Item>, t: Tree)
    requires Finished(nodes, items, t)
    ensures IsTree(ShapeOfBuilt(nodes))
    ensures forall i :: 0 <= i < |nodes| ==> InOrder(nodes, i, |items|)
  {
    var k := ShapeOfBuilt(nodes);
    forall i: nat | i < |nodes| ensures InOrder(nodes, i, |items|) {
      EveryPlace(nodes, t, i);
      PlacesInOrder(nodes, t, 0, |items|, i);
    }
    forall p, q, c | IsChild(k, p, c) && IsChild(k, q, c) ensures p == q {
      EveryPlace(nodes, t, p);
      EveryPlace(nodes, t, q);
      OneParentIn(nodes, t, p, q, c);
    }
    forall c: nat | 0 < c < |k| ensures HasParent(k, c) {
      EveryPlace(nodes, t, c);
      ParentIn(nodes, t, c);
    }
    assert Increasing(k) by {
      forall i | 0 <= i < |k| && k[i].Some? ensures i < k[i].value && k[i].value + 1 < |k| {
        assert InOrder(nodes, i, |items|);
      }
    }
  }

  // ---- boxes -----------------------------------------------------------------------------

  /** Every box contains its primitives' boxes and its children's boxes. */
  ghost predicate Nested(nodes: seq<BuiltNode>, t: Tree)
    requires Encodes(nodes, t)
  {
    (forall i :: 0 <= i < |t.items| ==> Contains(nodes[t.at].box, t.items[i].box))
    && (t.Fork? ==>
          Encodes(nodes, t.left) && Encodes(nodes, t.right)
          && Contains(nodes[t.at].box, nodes[t.left.at].box) && Contains(nodes[t.at].box, nodes[t.right.at].box)
          && Nested(nodes, t.left) && Nested(nodes, t.right))
  }

  lemma {:induction false} BoxesAreNested(nodes: seq<BuiltNode>, t: Tree)
    requires Encodes(nodes, t) && Optimal(t)
    ensures Nested(nodes, t)
  {
    forall i | 0 <= i < |t.items| ensures Contains(nodes[t.at].box, t.items[i].box) {
      BoundsHold(t.items, i);
    }
    if t.Fork? {
      BoxesAreNested(nodes, t.left);
      BoxesAreNested(nodes, t.right);
      SidesAreFewer(t.items, t.plane, t.left.items, t.right.items);
      BoundsMonotone(t.left.items, t.items);
      BoundsMonotone(t.right.items, t.items);
    }
  }

  lemma SidesAreFewer(q: seq<Item>, plane: nat, l: seq<Item>, r: seq<Item>)
    requires SplitInto(q, plane, l, r)
    ensures multiset(l) <= multiset(q) && multiset(r) <= multiset(q)
  {
    var cut := CutOf(q);
    forall x ensures multiset(l)[x] <= multiset(q)[x] && multiset(r)[x] <= multiset(q)[x] {
      WithinCount(q, cut, 0, plane, x);
      WithinCount(q, cut, plane, BINS, x);
    }
  }

  // ---- leaves partition the items -----------------------------------------------------------

  /** Position `i` of the item array is in the range of the leaf at place `at`. */
  predicate InLeaf(nodes: seq<BuiltNode>, at: nat, i: nat) {
    at < |nodes| && nodes[at].leaf && nodes[at].leftOrFirst <= i < nodes[at].leftOrFirst + nodes[at].count
  }

  lemma {:induction false} LeafExists(nodes: seq<BuiltNode>, t: Tree, begin: nat, i: nat)
    requires Encodes(nodes, t) && Spans(t, begin) && begin <= i < begin + |t.items|
    ensures exists at :: at in Places(t) && InLeaf(nodes, at, i)
  {
    if t.Leaf? {
      assert t.at in Places(t) && InLeaf(nodes, t.at, i);
    } else if i < begin + |t.left.items| {
      LeafExists(nodes, t.left, begin, i);
      var at :| at in Places(t.left) && InLeaf(nodes, at, i);
      assert at in Places(t);
    } else {
      LeafExists(nodes, t.right, begin + |t.left.items|, i);
      var at :| at in Places(t.right) && InLeaf(nodes, at, i);
      assert at in Places(t);
    }
  }

  /** A leaf of the tree covers positions of the tree's own range only. */
  lemma {:induction false} LeafWithin(nodes: seq<BuiltNode>, t: Tree, begin: nat, at: nat, i: nat)
    requires Encodes(nodes, t) && Spans(t, begin) && at in Places(t) && InLeaf(nodes, at, i)
    ensures begin <= i < begin + |t.items|
  {
    if t.Fork? && at != t.at {
      if at in Places(t.left) {
        LeafWithin(nodes, t.left, begin, at, i);
      } else {
        LeafWithin(nodes, t.right, begin + |t.left.items|, at, i);
      }
    }
  }

  lemma {:induction false} LeafUnique(nodes: seq<BuiltNode>, t: Tree, begin: nat, a: nat, b: nat, i: nat)
    requires Encodes(nodes, t) && Spans(t, begin) && a in Places(t) && b in Places(t)
    requires InLeaf(nodes, a, i) && InLeaf(nodes, b, i)
    ensures a == b
  {
    if t.Fork? {
      var mid := begin + |t.left.items|;
      if a in Places(t.left) {
        LeafWithin(nodes, t.left, begin, a, i);
      } else {
        LeafWithin(nodes, t.right, mid, a, i);
      }
      if b in Places(t.left) {
        LeafWithin(nodes, t.left, begin, b, i);
      } else {
        LeafWithin(nodes, t.right, mid, b, i);
      }
      if i < mid {
        LeafUnique(nodes, t.left, begin, a, b, i);
      } else {
        LeafUnique(nodes, t.right, mid, a, b, i);
      }
    }
  }

  /** Every item lies in the range of exactly one leaf. */
  lemma LeavesPartition(nodes: seq<BuiltNode>, items: seq<Item>, t: Tree, i: nat)
    requires Finished(nodes, items, t) && i < |items|
    ensures exists at :: InLeaf(nodes, at, i) && forall b :: InLeaf(nodes, b, i) ==> b == at
  {
    LeafExists(nodes, t, 0, i);
    var at :| at in Places(t) && InLeaf(nodes, at, i);
    forall b | InLeaf(nodes, b, i) ensures b == at {
      EveryPlace(nodes, t, b);
      LeafUnique(nodes, t, 0, at, b, i);
    }
  }

  // ---- the statistics are the truth -------------------------------------------------------------

  /** Below a subtree's root at depth `d`, no path is longer than its height allows. */
  lemma {:induction false} DepthAtMost(nodes: seq<BuiltNode>, t: Tree, i: nat)
    requires Encodes(nodes, t) && IsTree(ShapeOfBuilt(nodes)) && i in Places(t) && i < |nodes|
    ensures Depth(ShapeOfBuilt(nodes), i) < Depth(ShapeOfBuilt(nodes), t.at) + Height(t)
  {
    var k := ShapeOfBuilt(nodes);
    if t.Fork? && i != t.at {
      ChildDepth(k, t.at, t.left.at);
      ChildDepth(k, t.at, t.right.at);
      if i in Places(t.left) {
        DepthAtMost(nodes, t.left, i);
      } else {
        DepthAtMost(nodes, t.right, i);
      }
    }
  }

  lemma {:induction false} DepthReached(nodes: seq<BuiltNode>, t: Tree) returns (i: nat)
    requires Encodes(nodes, t) && IsTree(ShapeOfBuilt(nodes))
    ensures i < |nodes| && Depth(ShapeOfBuilt(nodes), i) + 1 == Depth(ShapeOfBuilt(nodes), t.at) + Height(t)
  {
    var k := ShapeOfBuilt(nodes);
    if t.Leaf? {
      i := t.at;
    } else {
      ChildDepth(k, t.at, t.left.at);
      ChildDepth(k, t.at, t.right.at);
      if Height(t.left) >= Height(t.right) {
        i := DepthReached(nodes, t.left);
      } else {
        i := DepthReached(nodes, t.right);
      }
    }
  }

  /** The depth tracked while recursing is the length of the longest path. */
  lemma HeightIsMaxDepth(nodes: seq<BuiltNode>, items: seq<Item>, t: Tree)
    requires Finished(nodes, items, t)
    ensures IsTree(ShapeOfBuilt(nodes)) && IsMaxDepth(ShapeOfBuilt(nodes), Height(t))
  {
    var k := ShapeOfBuilt(nodes);
    BuiltIsTree(nodes, items, t);
    RootDepth(k);
    forall i | 0 <= i < |k| ensures Depth(k, i) <= Height(t) {
      EveryPlace(nodes, t, i);
      DepthAtMost(nodes, t, i);
    }
    var deepest := DepthReached(nodes, t);
  }

  /** The largest count among the leaves, and some leaf has it. */
  lemma {:induction false} LargestIsAttained(nodes: seq<BuiltNode>, t: Tree) returns (at: nat)
    requires Encodes(nodes, t)
    ensures at < |nodes| && nodes[at].leaf && nodes[at].count == LargestLeaf(t)
    ensures forall i <- Places(t) :: i < |nodes| && (nodes[i].leaf ==> nodes[i].count <= LargestLeaf(t))
  {
    if t.Leaf? {
      at := t.at;
    } else {
      var a := LargestIsAttained(nodes, t.left);
      var b := LargestIsAttained(nodes, t.right);
      at := if LargestLeaf(t.left) < LargestLeaf(t.right) then b else a;
    }
  }
}
