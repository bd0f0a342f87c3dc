/** The stored hierarchy and the scene: which points a node's bounds hold, and
    what each stored primitive says (`BuildBvh` of src/scene/bvh.cpp). */
module BvhGeometry {
  import opened Boxes
  import opened Sah
  import opened Surfaces
  import opened BvhSplits
  import opened BvhFormat
  import opened BvhLoader
  import opened BvhBuilder
  import opened BvhStructure
  import opened BvhScene

  // ---- one primitive ------------------------------------------------------------------------

  /** A point of the ball. */
  ghost predicate InBall(s: Sphere, p: Point) {
    var dx, dy, dz := p.x - s.center.x, p.y - s.center.y, p.z - s.center.z;
    dx * dx + dy * dy + dz * dz <= s.radius * s.radius
  }

  lemma SquareGrows(a: real, b: real)
    requires 0.0 <= a < b
    ensures a * a < b * b
  {
    assert b * b - a * a == (b - a) * (b + a);
    Positive(b - a, b + a);
  }

  lemma Positive(a: real, b: real)
    requires a > 0.0 && b > 0.0
    ensures a * b > 0.0
  {
  }

  lemma SquareIsPositive(a: real)
    ensures a * a >= 0.0
  {
  }

  /** No coordinate of a point of the ball is further from the centre's than a radius. */
  lemma SquareBounds(d: real, rest: real, r: real)
    requires d * d + rest <= r * r && rest >= 0.0
    ensures if r >= 0.0 then -r <= d <= r else r <= d <= -r
  {
    var a, b := if r < 0.0 then -r else r, if d < 0.0 then -d else d;
    assert a * a == r * r && b * b == d * d;
    if a < b {
      SquareGrows(a, b);
    }
  }

  /** One radius away from the centre along an axis. */
  function Pole(s: Sphere, axis: nat, d: real): Point {
    if axis == 0 then s.center.(x := s.center.x + d)
    else if axis == 1 then s.center.(y := s.center.y + d)
    else s.center.(z := s.center.z + d)
  }

  lemma PolesInBall(s: Sphere, axis: nat)
    requires axis < 3
    ensures InBall(s, Pole(s, axis, s.radius)) && InBall(s, Pole(s, axis, -s.radius))
  {
    assert s.radius * s.radius == (-s.radius) * (-s.radius);
  }

  lemma BoxHasBall(s: Sphere, tag: nat, p: Point)
    requires InBall(s, p)
    ensures Has(SphereItem(s, tag).box, p)
  {
    var dx, dy, dz := p.x - s.center.x, p.y - s.center.y, p.z - s.center.z;
    SquareIsPositive(dx);
    SquareIsPositive(dy);
    SquareIsPositive(dz);
    SquareBounds(dx, dy * dy + dz * dz, s.radius);
    SquareBounds(dy, dx * dx + dz * dz, s.radius);
    SquareBounds(dz, dx * dx + dy * dy, s.radius);
    hide InBall;
  }

  /** A box contains a sphere's box exactly when it has the six points one
      radius from the centre along the axes, and exactly when it has the ball. */
  lemma SphereBoxIff(s: Sphere, tag: nat, c: Aabb)
    ensures Contains(c, SphereItem(s, tag).box)
            <==> forall axis: nat | axis < 3 :: Has(c, Pole(s, axis, s.radius)) && Has(c, Pole(s, axis, -s.radius))
    ensures Contains(c, SphereItem(s, tag).box) <==> forall p | InBall(s, p) :: Has(c, p)
  {
    var box := SphereItem(s, tag).box;
    if forall axis: nat | axis < 3 :: Has(c, Pole(s, axis, s.radius)) && Has(c, Pole(s, axis, -s.radius)) {
      assert Has(c, Pole(s, 0, s.radius)) && Has(c, Pole(s, 0, -s.radius));
      assert Has(c, Pole(s, 1, s.radius)) && Has(c, Pole(s, 1, -s.radius));
      assert Has(c, Pole(s, 2, s.radius)) && Has(c, Pole(s, 2, -s.radius));
      assert Contains(c, box);
    }
    if Contains(c, box) {
      forall p | InBall(s, p) ensures Has(c, p) {
        BoxHasBall(s, tag, p);
        BoxInBox(c, box, p);
      }
    }
    forall axis: nat | axis < 3 ensures InBall(s, Pole(s, axis, s.radius)) && InBall(s, Pole(s, axis, -s.radius)) {
      PolesInBall(s, axis);
    }
  }

  lemma BoxInBox(c: Aabb, b: Aabb, p: Point)
    requires Contains(c, b) && Has(b, p)
    ensures Has(c, p)
  {
  }

  /** A box contains a triangle's box exactly when it has the three vertices. */
  lemma TriangleBoxIff(t: Triangle, tag: nat, c: Aabb)
    ensures Contains(c, TriangleItem(t, tag).box) <==> Has(c, t.a) && Has(c, t.b) && Has(c, t.c)
  {
    UnionLeast(Spot(t.a), Spot(t.b), c);
    UnionLeast(Union(Spot(t.a), Spot(t.b)), Spot(t.c), c);
  }

  function Part(u: real, x: real): real { u * x }

  /** `p` is a mixture of the three vertices: a point of the triangle. */
  ghost predicate InTriangle(t: Triangle, p: Point, u: real, v: real, w: real) {
    u >= 0.0 && v >= 0.0 && w >= 0.0 && u + v + w == 1.0
    && forall i: nat | i < 3 :: p.On(i) == Part(u, t.a.On(i)) + Part(v, t.b.On(i)) + Part(w, t.c.On(i))
  }

  lemma Mixture(lo: real, hi: real, a: real, b: real, c: real, u: real, v: real, w: real)
    requires u >= 0.0 && v >= 0.0 && w >= 0.0 && u + v + w == 1.0 && lo <= a <= hi && lo <= b <= hi && lo <= c <= hi
    ensures lo <= Part(u, a) + Part(v, b) + Part(w, c) <= hi
  {
    hide Part;
    PartGrows(lo, a, hi, u);
    PartGrows(lo, b, hi, v);
    PartGrows(lo, c, hi, w);
    PartsSum(lo, u, v, w);
    PartsSum(hi, u, v, w);
  }

  lemma PartsSum(x: real, u: real, v: real, w: real)
    requires u + v + w == 1.0
    ensures Part(u, x) + Part(v, x) + Part(w, x) == x
  {
    assert w == 1.0 - u - v;
    assert (1.0 - u - v) * x == x - u * x - v * x;
  }

  lemma PartGrows(lo: real, a: real, hi: real, u: real)
    requires lo <= a <= hi && u >= 0.0
    ensures Part(u, lo) <= Part(u, a) <= Part(u, hi)
  {
  }

  /** And with the vertices it has the whole triangle. */
  lemma BoxHasTriangle(t: Triangle, c: Aabb, p: Point, u: real, v: real, w: real)
    requires Has(c, t.a) && Has(c, t.b) && Has(c, t.c) && InTriangle(t, p, u, v, w)
    ensures Has(c, p)
  {
    hide Part;
    assert p.On(0) == p.x && p.On(1) == p.y && p.On(2) == p.z;
    Mixture(c.mn.x, c.mx.x, t.a.x, t.b.x, t.c.x, u, v, w);
    Mixture(c.mn.y, c.mx.y, t.a.y, t.b.y, t.c.y, u, v, w);
    Mixture(c.mn.z, c.mx.z, t.a.z, t.b.z, t.c.z, u, v, w);
  }

  /** The centroid is the sphere's centre, and the middle of the triangle's box. */
  lemma CentroidIs(s: Sphere, t: Triangle, tag: nat)
    ensures SphereItem(s, tag).centroid == s.center
    ensures var item := TriangleItem(t, tag);
            item.box.Box? && forall i: nat | i < 3 :: item.centroid.On(i) - item.box.mn.On(i) == item.box.mx.On(i) - item.centroid.On(i)
  {
  }

  // ---- the primitives below a node ----------------------------------------------------------

  /** Stored primitive `p` lies in a leaf at or below node `i`. */
  ghost predicate Below(ns: seq<Node>, i: nat, p: nat)
    requires i < |ns|
    decreases |ns| - i
  {
    var n := ns[i];
    if n.countAndLeaf >= 0x8000_0000 then n.leftOrFirst <= p < n.leftOrFirst + n.countAndLeaf - 0x8000_0000
    else i < n.leftOrFirst && n.leftOrFirst + 1 < |ns| && (Below(ns, n.leftOrFirst, p) || Below(ns, n.leftOrFirst + 1, p))
  }

  lemma SidesBounds(q: seq<Item>, plane: nat, l: seq<Item>, r: seq<Item>, c: Aabb)
    requires SplitInto(q, plane, l, r)
    ensures Contains(c, Bounds(q)) <==> Contains(c, Bounds(l)) && Contains(c, Bounds(r))
  {
    SidesAreFewer(q, plane, l, r);
    BoundsMonotone(l, q);
    BoundsMonotone(r, q);
    BoundsLeast(q, c);
    BoundsLeast(l, c);
    BoundsLeast(r, c);
    forall i | 0 <= i < |q| ensures q[i] in l || q[i] in r {
      WithinCount(q, CutOf(q), 0, plane, q[i]);
      WithinCount(q, CutOf(q), plane, BINS, q[i]);
      assert q[i] in multiset(q);
      assert q[i] in multiset(l) || q[i] in multiset(r);
    }
  }

  /** The boxes of the items below a node are those its own box holds. */
  ghost predicate BoundsBelow(nodes: seq<BuiltNode>, ns: seq<Node>, q: seq<Item>, i: nat, c: Aabb)
    requires i < |nodes| == |ns|
  {
    Contains(c, nodes[i].box) <==> forall p: nat | Below(ns, i, p) :: p < |q| && Contains(c, q[p].box)
  }

  ghost predicate Recorded(nodes: seq<BuiltNode>, bits: Bits, ns: seq<Node>) {
    |ns| == |nodes| && forall i :: 0 <= i < |ns| ==> Packable(nodes[i]) && ns[i] == NodeRecord(bits, nodes[i])
  }

  lemma LeafBounds(nodes: seq<BuiltNode>, bits: Bits, ns: seq<Node>, q: seq<Item>, t: Tree, c: Aabb)
    requires Encodes(nodes, t) && Holds(q, t) && t.Leaf? && Recorded(nodes, bits, ns)
    ensures BoundsBelow(nodes, ns, q, t.at, c)
  {
    var own := t.items;
    BoundsLeast(own, c);
    assert ns[t.at] == NodeRecord(bits, nodes[t.at]);
    forall p: nat ensures Below(ns, t.at, p) <==> t.first <= p < t.first + |own| {}
    forall p: nat | t.first <= p < t.first + |own| ensures q[p] == own[p - t.first] {
      assert q[t.first..t.first + |own|][p - t.first] == q[p];
    }
    if Contains(c, nodes[t.at].box) {
      forall p: nat | Below(ns, t.at, p) ensures p < |q| && Contains(c, q[p].box) {
        assert q[p] == own[p - t.first];
      }
    }
    if forall p: nat | Below(ns, t.at, p) :: p < |q| && Contains(c, q[p].box) {
      forall i | 0 <= i < |own| ensures Contains(c, own[i].box) {
        assert Below(ns, t.at, t.first + i);
      }
    }
  }

  lemma {:induction false} TreeBounds(nodes: seq<BuiltNode>, bits: Bits, ns: seq<Node>, q: seq<Item>, t: Tree, c: Aabb)
    requires Encodes(nodes, t) && Optimal(t) && Holds(q, t) && Recorded(nodes, bits, ns)
    ensures BoundsBelow(nodes, ns, q, t.at, c)
  {
    if t.Leaf? {
      LeafBounds(nodes, bits, ns, q, t, c);
    } else {
      TreeBounds(nodes, bits, ns, q, t.left, c);
      TreeBounds(nodes, bits, ns, q, t.right, c);
      SidesBounds(t.items, t.plane, t.left.items, t.right.items, c);
      ForkBelow(nodes, bits, ns, t);
      assert nodes[t.left.at].box == Bounds(t.left.items) && nodes[t.right.at].box == Bounds(t.right.items);
      hide Below, Recorded, Holds, Optimal, Bounds;
    }
  }

  lemma ForkBelow(nodes: seq<BuiltNode>, bits: Bits, ns: seq<Node>, t: Tree)
    requires Encodes(nodes, t) && t.Fork? && Recorded(nodes, bits, ns)
    ensures t.left.at < |ns| && t.right.at < |ns|
    ensures forall p: nat :: Below(ns, t.at, p) <==> Below(ns, t.left.at, p) || Below(ns, t.right.at, p)
  {
    assert ns[t.at] == NodeRecord(bits, nodes[t.at]);
  }

  lemma {:induction false} PlaceBounds(nodes: seq<BuiltNode>, bits: Bits, ns: seq<Node>, q: seq<Item>, t: Tree, c: Aabb, i: nat)
    requires Encodes(nodes, t) && Optimal(t) && Holds(q, t) && Recorded(nodes, bits, ns) && i in Places(t) && i < |nodes|
    ensures BoundsBelow(nodes, ns, q, i, c)
  {
    if i == t.at {
      TreeBounds(nodes, bits, ns, q, t, c);
    } else if i in Places(t.left) {
      PlaceBounds(nodes, bits, ns, q, t.left, c, i);
    } else {
      PlaceBounds(nodes, bits, ns, q, t.right, c, i);
    }
  }

  lemma LeafHasBox(q: seq<Item>, t: Tree)
    requires t.Leaf? && Holds(q, t) && t.items != [] && forall x <- q :: x.box.Box?
    ensures Bounds(t.items).Box?
  {
    assert t.items[0] == q[t.first..t.first + |t.items|][0] == q[t.first];
    BoundsHold(t.items, 0);
  }

  lemma ForkHasBox(q: seq<Item>, plane: nat, l: seq<Item>, r: seq<Item>)
    requires SplitInto(q, plane, l, r) && Bounds(l).Box?
    ensures Bounds(q).Box?
  {
    UnionLeast(Bounds(q), Empty, Bounds(q));
    SidesBounds(q, plane, l, r, Bounds(q));
  }

  lemma {:induction false} TreeHasBox(q: seq<Item>, t: Tree, begin: nat)
    requires Optimal(t) && Holds(q, t) && Spans(t, begin) && forall x <- q :: x.box.Box?
    ensures Bounds(t.items).Box?
  {
    hide Bounds, SplitInto, SplitsAt, StaysWhole;
    if t.Leaf? {
      LeafHasBox(q, t);
    } else {
      TreeHasBox(q, t.left, begin);
      ForkHasBox(t.items, t.plane, t.left.items, t.right.items);
    }
  }

  /** No node is without a box. */
  lemma {:induction false} PlaceHasBox(nodes: seq<BuiltNode>, q: seq<Item>, t: Tree, begin: nat, i: nat)
    requires Encodes(nodes, t) && Optimal(t) && Holds(q, t) && Spans(t, begin) && i in Places(t) && i < |nodes|
    requires forall x <- q :: x.box.Box?
    ensures nodes[i].box.Box?
  {
    hide Bounds, SplitInto, SplitsAt, StaysWhole;
    if i == t.at {
      TreeHasBox(q, t, begin);
    } else if i in Places(t.left) {
      PlaceHasBox(nodes, q, t.left, begin, i);
    } else {
      PlaceHasBox(nodes, q, t.right, begin + |t.left.items|, i);
    }
  }

  // ---- what is stored ------------------------------------------------------------------------

  /** The box has the whole of primitive `k` of the scene: spheres first, then triangles. */
  ghost predicate HasPrimitive(s: Scene, k: nat, c: Aabb)
    requires k < Primitives(s)
  {
    if k < |s.spheres| then forall p | InBall(s.spheres[k], p) :: Has(c, p)
    else var t := s.triangles[k - |s.spheres|]; Has(c, t.a) && Has(c, t.b) && Has(c, t.c)
  }

  lemma ItemBoxIff(s: Scene, k: nat, c: Aabb)
    requires k < Primitives(s)
    ensures ItemAt(s, k).box.Box? && (Contains(c, ItemAt(s, k).box) <==> HasPrimitive(s, k, c))
  {
    if k < |s.spheres| {
      SphereBoxIff(s.spheres[k], k, c);
    } else {
      TriangleBoxIff(s.triangles[k - |s.spheres|], k, c);
    }
  }

  lemma StoredItem(s: Scene, q: seq<Item>, p: nat)
    requires multiset(q) == multiset(Items(s)) && p < |q|
    ensures q[p].tag < Primitives(s) && q[p] == ItemAt(s, q[p].tag)
  {
    assert q[p] in multiset(Items(s));
    var k :| 0 <= k < |Items(s)| && Items(s)[k] == q[p];
  }

  lemma StoredHasBox(s: Scene, bits: Bits, nodes: seq<BuiltNode>, q: seq<Item>, t: Tree, r: Bvh, i: nat)
    requires Stores(s, bits, nodes, q, t, r) && i < |nodes|
    ensures nodes[i].box.Box?
  {
    EveryPlace(nodes, t, i);
    forall x <- q ensures x.box.Box? {
      var p :| 0 <= p < |q| && q[p] == x;
      StoredItem(s, q, p);
      ItemBoxIff(s, x.tag, Empty);
    }
    hide Items, Height, LargestLeaf;
    PlaceHasBox(nodes, q, t, 0, i);
  }

  /** Box `c` has every primitive stored below node `i`. */
  ghost predicate HasAllBelow(s: Scene, ns: seq<Node>, q: seq<Item>, i: nat, c: Aabb)
    requires i < |ns|
  {
    forall p: nat | Below(ns, i, p) :: p < |q| && q[p].tag < Primitives(s) && HasPrimitive(s, q[p].tag, c)
  }

  lemma StoredBounds(s: Scene, bits: Bits, nodes: seq<BuiltNode>, q: seq<Item>, t: Tree, r: Bvh, i: nat, c: Aabb)
    requires Stores(s, bits, nodes, q, t, r) && i < |nodes|
    ensures |r.parts.nodes| == |nodes|
    ensures Contains(c, nodes[i].box) <==> HasAllBelow(s, r.parts.nodes, q, i, c)
  {
    assert Recorded(nodes, bits, r.parts.nodes);
    EveryPlace(nodes, t, i);
    PlaceBounds(nodes, bits, r.parts.nodes, q, t, c, i);
    forall p: nat | p < |q| ensures q[p].tag < Primitives(s) && (Contains(c, q[p].box) <==> HasPrimitive(s, q[p].tag, c)) {
      StoredItem(s, q, p);
      ItemBoxIff(s, q[p].tag, c);
    }
    hide Stores, HasPrimitive, Contains, Below, Recorded;
  }

  /** A node's bounds are the corners of the least box that has every primitive
      stored below it. */
  lemma NodeIs(s: Scene, bits: Bits, nodes: seq<BuiltNode>, q: seq<Item>, t: Tree, r: Bvh, i: nat)
    requires Stores(s, bits, nodes, q, t, r) && i < |r.parts.nodes|
    ensures i < |nodes| && nodes[i].box.Box?
    ensures var b, n := nodes[i].box, r.parts.nodes[i];
            n.mn == V3(bits(b.mn.x), bits(b.mn.y), bits(b.mn.z)) && n.mx == V3(bits(b.mx.x), bits(b.mx.y), bits(b.mx.z))
    ensures forall c :: Contains(c, nodes[i].box) <==> HasAllBelow(s, r.parts.nodes, q, i, c)
  {
    StoredHasBox(s, bits, nodes, q, t, r, i);
    assert r.parts.nodes[i] == NodeRecord(bits, nodes[i]);
    forall c ensures Contains(c, nodes[i].box) <==> HasAllBelow(s, r.parts.nodes, q, i, c) {
      StoredBounds(s, bits, nodes, q, t, r, i, c);
    }
    hide Stores, HasAllBelow, Contains;
  }

  /** A node's other fields: a leaf has its first primitive and its count, any
      other node its left child. */
  lemma NodeLinks(s: Scene, bits: Bits, nodes: seq<BuiltNode>, q: seq<Item>, t: Tree, r: Bvh, i: nat)
    requires Stores(s, bits, nodes, q, t, r) && i < |r.parts.nodes|
    ensures i < |nodes| && r.parts.nodes[i].leftOrFirst == nodes[i].leftOrFirst
    ensures r.parts.nodes[i].countAndLeaf == if nodes[i].leaf then 0x8000_0000 + nodes[i].count else 0
  {
    assert Packable(nodes[i]) && r.parts.nodes[i] == NodeRecord(bits, nodes[i]);
  }

  /** Every stored primitive says what the scene says: which kind it is, its
      material, and its centre and radius or its vertices in order. */
  lemma PrimitiveIs(s: Scene, bits: Bits, nodes: seq<BuiltNode>, q: seq<Item>, t: Tree, r: Bvh, p: nat)
    requires Stores(s, bits, nodes, q, t, r) && p < |r.parts.prims|
    ensures p < |q| && q[p].tag < Primitives(s)
    ensures var k, e := q[p].tag, r.parts.prims[p];
            if k < |s.spheres| then
              var o := s.spheres[k];
              e.kind == 0 && e.material == o.material && e.radius == bits(o.radius)
              && e.a == V3(bits(o.center.x), bits(o.center.y), bits(o.center.z))
            else
              var o := s.triangles[k - |s.spheres|];
              e.kind == 1 && e.material == o.material
              && e.a == V3(bits(o.a.x), bits(o.a.y), bits(o.a.z))
              && e.b == V3(bits(o.b.x), bits(o.b.y), bits(o.b.z))
              && e.c == V3(bits(o.c.x), bits(o.c.y), bits(o.c.z))
  {
    assert r.parts.prims[p] == RecordOf(s, bits, q[p].tag);
  }

  /** Each primitive of the scene is stored at exactly one place. */
  lemma StoredOnce(s: Scene, bits: Bits, nodes: seq<BuiltNode>, q: seq<Item>, t: Tree, r: Bvh, k: nat)
    requires Stores(s, bits, nodes, q, t, r) && k < Primitives(s)
    ensures |r.parts.prims| == |q| == Primitives(s)
    ensures exists p: nat :: p < |q| && q[p].tag == k && forall o: nat | o < |q| && q[o].tag == k :: o == p
  {
    var all := Items(s);
    assert |multiset(q)| == |q| && |multiset(all)| == |all|;
    assert all[k] in multiset(all);
    assert all[k] in multiset(q);
    var p: nat :| p < |q| && q[p] == all[k];
    forall o: nat | o < |q| && q[o].tag == k ensures o == p {
      StoredItem(s, q, o);
      if o != p {
        TwoPlaces(q, o, p);
        OnePlace(s, k);
      }
    }
  }

  lemma TwoPlaces(q: seq<Item>, a: nat, b: nat)
    requires a < |q| && b < |q| && a != b && q[a] == q[b]
    ensures multiset(q)[q[a]] >= 2
  {
    var lo, hi := if a < b then a else b, if a < b then b else a;
    assert q == q[..lo] + [q[lo]] + q[lo + 1..hi] + [q[hi]] + q[hi + 1..];
  }

  lemma OnePlace(s: Scene, k: nat)
    requires k < Primitives(s)
    ensures multiset(Items(s))[ItemAt(s, k)] <= 1
  {
    var q := Items(s);
    assert q == q[..k] + [q[k]] + q[k + 1..];
    assert q[k] !in q[..k] by {
      forall x <- q[..k] ensures x != q[k] {
        var i :| 0 <= i < k && q[i] == x;
        assert q[i].tag == i;
      }
    }
    var rest := q[k + 1..];
    assert q[k] !in rest by {
      forall x <- rest ensures x != q[k] {
        var i :| k < i < |q| && q[i] == x;
        assert q[i].tag == i;
      }
    }
  }

  /** Materials keep their order. */
  lemma MaterialIs(s: Scene, bits: Bits, nodes: seq<BuiltNode>, q: seq<Item>, t: Tree, r: Bvh, i: nat)
    requires Stores(s, bits, nodes, q, t, r)
    ensures |r.parts.materials| == |s.materials|
    ensures i < |s.materials| ==>
              var m, o := r.parts.materials[i], s.materials[i];
              m.albedo == V3(bits(o.albedo.x), bits(o.albedo.y), bits(o.albedo.z)) && m.fuzz == bits(o.fuzz) && m.kind == o.kind
  {
  }
}
