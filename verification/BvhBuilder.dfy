/** The recursion that emits the flat node array (`Builder::Build` in
    src/scene/bvh.cpp): both children are appended before either subtree. */
module BvhBuilder {
  import opened Basics
  import opened Boxes
  import opened Sah
  import opened BvhSplits

  /** A node before serialization: a leaf's first item and count, or an inner
      node's left child. */
  datatype BuiltNode = BuiltNode(box: Aabb, leaf: bool, leftOrFirst: nat, count: nat)

  const BLANK := BuiltNode(Empty, false, 0, 0)

  /** What a call of `Build` built, for reasoning: each node's place in the
      array, and the items of its range when it was decided. */
  datatype Tree =
    | Leaf(at: nat, first: nat, items: seq<Item>)
    | Fork(at: nat, plane: nat, items: seq<Item>, left: Tree, right: Tree)

  /** The places of all nodes. */
  function Places(t: Tree): seq<nat> {
    match t
    case Leaf(at, _, _) => [at]
    case Fork(at, _, _, l, r) => [at] + Places(l) + Places(r)
  }

  function Leaves(t: Tree): nat {
    match t
    case Leaf(_, _, _) => 1
    case Fork(_, _, _, l, r) => Leaves(l) + Leaves(r)
  }

  function Height(t: Tree): nat {
    match t
    case Leaf(_, _, _) => 1
    case Fork(_, _, _, l, r) => 1 + Most(Height(l), Height(r))
  }

  function LargestLeaf(t: Tree): nat {
    match t
    case Leaf(_, _, items) => |items|
    case Fork(_, _, _, l, r) => Most(LargestLeaf(l), LargestLeaf(r))
  }

  function Most(a: nat, b: nat): nat { if a < b then b else a }

  /** The leaves' ranges follow one another from `begin`. */
  predicate Spans(t: Tree, begin: nat) {
    match t
    case Leaf(_, first, items) => first == begin && items != []
    case Fork(_, _, items, l, r) =>
      |items| == |l.items| + |r.items| && Spans(l, begin) && Spans(r, begin + |l.items|)
  }

  /** The node array encodes the tree: boxes are exact, children are adjacent
      and after their parent. */
  predicate Encodes(nodes: seq<BuiltNode>, t: Tree) {
    t.at < |nodes|
    && match t
       case Leaf(at, first, items) => nodes[at] == BuiltNode(Bounds(items), true, first, |items|)
       case Fork(at, _, items, l, r) =>
         nodes[at] == BuiltNode(Bounds(items), false, l.at, 0) && at < l.at && r.at == l.at + 1
         && Encodes(nodes, l) && Encodes(nodes, r)
  }

  /** Each leaf's items lie where it says. */
  predicate Holds(items: seq<Item>, t: Tree) {
    match t
    case Leaf(_, first, own) => first + |own| <= |items| && items[first..first + |own|] == own
    case Fork(_, _, _, l, r) => Holds(items, l) && Holds(items, r)
  }

  /** Every range stayed whole, or was split, as the heuristic says. */
  ghost predicate Optimal(t: Tree) {
    match t
    case Leaf(_, _, items) => StaysWhole(items)
    case Fork(_, plane, items, l, r) => SplitsAt(items, plane) && SplitInto(items, plane, l.items, r.items) && Optimal(l) && Optimal(r)
  }

  /** The tree's places are `at` and the new ones, each once. */
  ghost predicate Occupies(t: Tree, at: nat, from: nat, to: nat) {
    forall i: nat :: multiset(Places(t))[i] == if i == at || from <= i < to then 1 else 0
  }

  // ---- frames ------------------------------------------------------------------------

  lemma {:induction false} EncodesFrame(a: seq<BuiltNode>, b: seq<BuiltNode>, t: Tree)
    requires Encodes(a, t) && |a| <= |b| && forall i <- Places(t) :: i < |a| ==> b[i] == a[i]
    ensures Encodes(b, t)
  {
    match t
    case Leaf(at, _, _) => assert at in Places(t);
    case Fork(at, _, _, l, r) =>
      assert at in Places(t);
      EncodesFrame(a, b, l);
      EncodesFrame(a, b, r);
  }

  lemma {:induction false} HoldsFrame(a: seq<Item>, b: seq<Item>, t: Tree, begin: nat)
    requires Holds(a, t) && Spans(t, begin) && begin + |t.items| <= |a| == |b|
    requires forall i :: begin <= i < begin + |t.items| ==> a[i] == b[i]
    ensures Holds(b, t)
  {
    match t
    case Leaf(_, _, _) =>
    case Fork(_, _, _, l, r) =>
      HoldsFrame(a, b, l, begin);
      HoldsFrame(a, b, r, begin + |l.items|);
  }

  // ---- joining two subtrees --------------------------------------------------------------

  /** A call at `at` turned `a` into `b`: it built `t`, on its own place and on new ones only. */
  ghost predicate Emitted(a: seq<BuiltNode>, b: seq<BuiltNode>, at: nat, t: Tree) {
    t.at == at < |a| <= |b| && Encodes(b, t) && Occupies(t, at, |a|, |b|)
    && forall i :: 0 <= i < |a| && i != at ==> b[i] == a[i]
  }

  /** The places of a fork are its own, and those of its children. */
  lemma ForkOccupies(t: Tree, from: nat, mid: nat, to: nat)
    requires t.Fork? && t.at < from && from + 2 <= mid <= to
    requires Occupies(t.left, from, from + 2, mid) && Occupies(t.right, from + 1, mid, to)
    ensures Occupies(t, t.at, from, to)
  {
    forall i: nat ensures multiset(Places(t))[i] == if i == t.at || from <= i < to then 1 else 0 {
      assert multiset(Places(t))[i] == multiset([t.at])[i] + multiset(Places(t.left))[i] + multiset(Places(t.right))[i];
    }
  }

  /** Building the right subtree leaves the left one as it was. */
  lemma LeftStays(n2: seq<BuiltNode>, n3: seq<BuiltNode>, l: Tree, from: nat, at: nat)
    requires Encodes(n2, l) && Occupies(l, from, from + 2, |n2|) && from + 2 <= |n2| <= |n3|
    requires at == from + 1 && forall i :: 0 <= i < |n2| && i != at ==> n3[i] == n2[i]
    ensures Encodes(n3, l)
  {
    forall i <- Places(l) ensures i < |n2| ==> n3[i] == n2[i] {
      assert multiset(Places(l))[i] > 0;
    }
    EncodesFrame(n2, n3, l);
  }

  /** Two places more, and `node` at `at`. */
  ghost predicate Grown(n0: seq<BuiltNode>, n1: seq<BuiltNode>, at: nat, node: BuiltNode) {
    at < |n0| && |n1| == |n0| + 2 && n1[at] == node && forall i :: 0 <= i < |n0| && i != at ==> n1[i] == n0[i]
  }

  lemma OldPlacesStay(n0: seq<BuiltNode>, n1: seq<BuiltNode>, n2: seq<BuiltNode>, n3: seq<BuiltNode>, at: nat,
                      node: BuiltNode, l: Tree, r: Tree)
    requires Grown(n0, n1, at, node) && Emitted(n1, n2, |n0|, l) && Emitted(n2, n3, |n0| + 1, r)
    ensures |n0| + 2 <= |n2| <= |n3| && n3[at] == node && forall i :: 0 <= i < |n0| && i != at ==> n3[i] == n0[i]
  {
    forall i | 0 <= i < |n0| ensures n3[i] == n1[i] {
      assert n2[i] == n1[i];
    }
  }

  lemma ForkEmitted(n0: seq<BuiltNode>, n1: seq<BuiltNode>, n2: seq<BuiltNode>, n3: seq<BuiltNode>, at: nat,
                    plane: nat, q: seq<Item>, l: Tree, r: Tree)
    requires Grown(n0, n1, at, BuiltNode(Bounds(q), false, |n0|, 0))
    requires Emitted(n1, n2, |n0|, l) && Emitted(n2, n3, |n0| + 1, r)
    ensures Emitted(n0, n3, at, Fork(at, plane, q, l, r))
  {
    hide Occupies, Bounds, Encodes;
    OldPlacesStay(n0, n1, n2, n3, at, BuiltNode(Bounds(q), false, |n0|, 0), l, r);
    LeftStays(n2, n3, l, |n0|, |n0| + 1);
    ForkOccupies(Fork(at, plane, q, l, r), |n0|, |n2|, |n3|);
    ForkEncodes(n3, at, plane, q, l, r);
  }

  lemma ForkEncodes(nodes: seq<BuiltNode>, at: nat, plane: nat, q: seq<Item>, l: Tree, r: Tree)
    requires at < |nodes| && nodes[at] == BuiltNode(Bounds(q), false, l.at, 0) && at < l.at && r.at == l.at + 1
    requires Encodes(nodes, l) && Encodes(nodes, r)
    ensures Encodes(nodes, Fork(at, plane, q, l, r))
  {
  }

  /** A call permuted `[begin, end)` of `a` into `b` and nothing else. */
  ghost predicate Permuted(a: seq<Item>, b: seq<Item>, begin: nat, end: nat) {
    begin <= end <= |a| == |b| && multiset(b[begin..end]) == multiset(a[begin..end])
    && forall i :: 0 <= i < begin || end <= i < |a| ==> a[i] == b[i]
  }

  ghost predicate Placed(a: seq<Item>, b: seq<Item>, begin: nat, end: nat, t: Tree) {
    Permuted(a, b, begin, end) && t.items == a[begin..end] && Spans(t, begin) && Holds(b, t)
  }

  lemma ForkPlaced(i0: seq<Item>, i1: seq<Item>, i2: seq<Item>, i3: seq<Item>, begin: nat, mid: nat, end: nat,
                   at: nat, plane: nat, l: Tree, r: Tree)
    requires begin <= mid <= end && Permuted(i0, i1, begin, end) && Placed(i1, i2, begin, mid, l) && Placed(i2, i3, mid, end, r)
    ensures Placed(i0, i3, begin, end, Fork(at, plane, i0[begin..end], l, r))
  {
    HoldsFrame(i2, i3, l, begin);
    ForkPermuted(i0, i1, i2, i3, begin, mid, end);
  }

  lemma ForkPermuted(i0: seq<Item>, i1: seq<Item>, i2: seq<Item>, i3: seq<Item>, begin: nat, mid: nat, end: nat)
    requires begin <= mid <= end && Permuted(i0, i1, begin, end) && Permuted(i1, i2, begin, mid) && Permuted(i2, i3, mid, end)
    ensures Permuted(i0, i3, begin, end)
  {
    assert i1[begin..end] == i1[begin..mid] + i1[mid..end];
    assert i3[begin..end] == i3[begin..mid] + i3[mid..end];
    assert i3[begin..mid] == i2[begin..mid] && i2[mid..end] == i1[mid..end];
  }

  lemma SplitSeparates(q: seq<Item>, plane: nat)
    requires SplitsAt(q, plane)
    ensures CutOf(q).hi > CutOf(q).lo && Separates(q, CutOf(q), plane)
  {
  }

  /** Two calls for the two sides of a split make a call for the whole range. */
  lemma Joined(n0: seq<BuiltNode>, n1: seq<BuiltNode>, n2: seq<BuiltNode>, n3: seq<BuiltNode>,
               i0: seq<Item>, i1: seq<Item>, i2: seq<Item>, i3: seq<Item>,
               at: nat, plane: nat, begin: nat, mid: nat, end: nat, l: Tree, r: Tree) returns (t: Tree)
    requires at < |n0| && begin <= mid <= end && Permuted(i0, i1, begin, end)
    requires Grown(n0, n1, at, BuiltNode(Bounds(i0[begin..end]), false, |n0|, 0))
    requires SplitsAt(i0[begin..end], plane) && SplitInto(i0[begin..end], plane, i1[begin..mid], i1[mid..end])
    requires Emitted(n1, n2, |n0|, l) && Emitted(n2, n3, |n0| + 1, r) && Optimal(l) && Optimal(r)
    requires Placed(i1, i2, begin, mid, l) && Placed(i2, i3, mid, end, r)
    ensures t == Fork(at, plane, i0[begin..end], l, r)
    ensures Emitted(n0, n3, at, t) && Placed(i0, i3, begin, end, t) && Optimal(t)
  {
    t := Fork(at, plane, i0[begin..end], l, r);
    hide Grown;
    ForkEmitted(n0, n1, n2, n3, at, plane, i0[begin..end], l, r);
    hide Emitted, Bounds, SplitsAt, SplitInto;
    ForkPlaced(i0, i1, i2, i3, begin, mid, end, at, plane, l, r);
    RightUntouched(i1, i2, begin, mid, end, l);
    hide Placed, Permuted, Spans;
  }

  /** The left call leaves the right half of the range alone. */
  lemma RightUntouched(i1: seq<Item>, i2: seq<Item>, begin: nat, mid: nat, end: nat, l: Tree)
    requires Placed(i1, i2, begin, mid, l) && begin <= mid <= end <= |i1|
    ensures i2[mid..end] == i1[mid..end] && l.items == i1[begin..mid]
  {
  }

  /** The statistics went from `d`, `m` to `d'`, `m'` by building `t` below depth `depth`. */
  ghost predicate Tracked(d: nat, m: nat, d': nat, m': nat, depth: nat, t: Tree) {
    d' == Most(d, depth + Height(t)) && m' == Most(m, LargestLeaf(t))
  }

  lemma JoinedTracked(d: nat, m: nat, d1: nat, m1: nat, d2: nat, m2: nat, depth: nat, t: Tree)
    requires t.Fork? && Tracked(Most(d, depth + 1), m, d1, m1, depth + 1, t.left) && Tracked(d1, m1, d2, m2, depth + 1, t.right)
    ensures Tracked(d, m, d2, m2, depth, t)
  {
  }

  lemma LeafTracked(d: nat, m: nat, m': nat, depth: nat, t: Tree)
    requires t.Leaf? && m' == Most(m, LargestLeaf(t))
    ensures Tracked(d, m, Most(d, depth + 1), m', depth, t)
  {
  }

  class Builder {
    const items: array<Item>
    var nodes: seq<BuiltNode>
    var maxDepth: nat
    var maxLeafPrims: nat

    /** The root is allocated before the recursion starts. */
    constructor (items: array<Item>)
      ensures this.items == items && nodes == [BLANK] && maxDepth == 0 && maxLeafPrims == 0
    {
      this.items, nodes, maxDepth, maxLeafPrims := items, [BLANK], 0, 0;
    }

    method MakeLeaf(at: nat, begin: nat, bounds: Aabb, count: nat)
      requires at < |nodes|
      modifies `nodes, `maxLeafPrims
      ensures nodes == old(nodes)[at := BuiltNode(bounds, true, begin, count)]
      ensures maxLeafPrims == Most(old(maxLeafPrims), count)
    {
      nodes := nodes[at := BuiltNode(bounds, true, begin, count)];
      if count > maxLeafPrims { maxLeafPrims := count; }
    }

    /** A range that stays whole becomes a leaf. */
    method BuildLeaf(at: nat, begin: nat, end: nat, bounds: Aabb) returns (ghost t: Tree)
      requires at < |nodes| && begin < end <= items.Length
      requires bounds == Bounds(items[..][begin..end]) && StaysWhole(items[..][begin..end])
      modifies `nodes, `maxLeafPrims
      ensures Emitted(old(nodes), nodes, at, t) && Placed(items[..], items[..], begin, end, t) && Optimal(t)
      ensures t.Leaf? && maxLeafPrims == Most(old(maxLeafPrims), LargestLeaf(t))
    {
      MakeLeaf(at, begin, bounds, end - begin);
      t := Leaf(at, begin, items[..][begin..end]);
    }

    /** Decide about the range and, if it splits, partition it. */
    method SplitOrNot(begin: nat, end: nat) returns (bounds: Aabb, split: nat, plane: Option<nat>)
      requires begin < end <= items.Length
      modifies items
      ensures bounds == Bounds(old(items[..])[begin..end])
      ensures plane.None? ==> items[..] == old(items[..]) && StaysWhole(items[..][begin..end])
      ensures plane.Some? ==> begin < split < end && Permuted(old(items[..]), items[..], begin, end)
      ensures plane.Some? ==> SplitsAt(old(items[..])[begin..end], plane.value)
      ensures plane.Some? ==> SplitInto(old(items[..])[begin..end], plane.value, items[..][begin..split], items[..][split..end])
    {
      var centroids;
      ghost var i0 := items[..];
      assert items[begin..end] == i0[begin..end];
      bounds, centroids := Measure(items, begin, end);
      plane := Decide(items[begin..end], bounds, centroids);
      split := end;
      if plane.Some? {
        SplitSeparates(i0[begin..end], plane.value);
        split := Split(items, begin, end, centroids, plane.value);
        assert items[..][begin..split] == items[begin..split] && items[..][split..end] == items[split..end];
        assert items[..][begin..end] == items[begin..end];
      }
    }

    method Build(at: nat, begin: nat, end: nat, depth: nat) returns (ghost t: Tree)
      requires at < |nodes| && begin < end <= items.Length
      modifies `nodes, `maxDepth, `maxLeafPrims, items
      ensures Emitted(old(nodes), nodes, at, t)
      ensures Placed(old(items[..]), items[..], begin, end, t)
      ensures Optimal(t) && Tracked(old(maxDepth), old(maxLeafPrims), maxDepth, maxLeafPrims, depth, t)
      decreases end - begin, 1
    {
      hide Emitted, Placed, Permuted, Optimal, Bounds, StaysWhole, SplitsAt, SplitInto, Tracked;
      ghost var n0, i0, d0, m0 := nodes, items[..], maxDepth, maxLeafPrims;
      maxDepth := Most(maxDepth, depth + 1);
      var bounds, split, plane := SplitOrNot(begin, end);
      ghost var i1 := items[..];
      if plane.None? {
        t := BuildLeaf(at, begin, end, bounds);
        LeafTracked(d0, m0, maxLeafPrims, depth, t);
        return;
      }
      var left := |nodes|;
      nodes := nodes + [BLANK, BLANK];
      nodes := nodes[at := BuiltNode(bounds, false, left, 0)];
      ghost var n1 := nodes;
      assert Grown(n0, n1, at, BuiltNode(bounds, false, |n0|, 0));
      hide Grown;
      ghost var l, r, n2, i2, d1, m1 := Children(left, begin, split, end, depth + 1);
      t := Joined(n0, n1, n2, nodes, i0, i1, i2, items[..], at, plane.value, begin, split, end, l, r);
      JoinedTracked(d0, m0, d1, m1, maxDepth, maxLeafPrims, depth, t);
    }

    /** The left subtree, then the right one; the ghost results are the state in between. */
    method Children(left: nat, begin: nat, mid: nat, end: nat, depth: nat)
      returns (ghost l: Tree, ghost r: Tree, ghost n: seq<BuiltNode>, ghost i: seq<Item>, ghost d: nat, ghost m: nat)
      requires left + 1 < |nodes| && begin < mid < end <= items.Length
      modifies `nodes, `maxDepth, `maxLeafPrims, items
      ensures Emitted(old(nodes), n, left, l) && Emitted(n, nodes, left + 1, r)
      ensures Placed(old(items[..]), i, begin, mid, l) && Placed(i, items[..], mid, end, r)
      ensures Optimal(l) && Optimal(r)
      ensures Tracked(old(maxDepth), old(maxLeafPrims), d, m, depth, l) && Tracked(d, m, maxDepth, maxLeafPrims, depth, r)
      decreases end - begin, 0
    {
      l := Build(left, begin, mid, depth);
      n, i, d, m := nodes, items[..], maxDepth, maxLeafPrims;
      r := Build(left + 1, mid, end, depth);
    }
  }
}
