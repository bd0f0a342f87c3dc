/** From a scene to a loaded tree (`BuildBvh`, `SerializeBvh` and `LoadBvh` of
    src/scene/bvh.cpp together). Geometry is over the reals; `bits` is the
    float representation, which may be any function. */
module BvhScene {
  import opened Basics
  import opened Boxes
  import opened Sah
  import opened BvhTrees
  import opened BvhFormat
  import opened Words
  import opened BvhLoader
  import opened BvhBuilder
  import opened BvhStructure

  datatype Sphere = Sphere(center: Point, radius: real, material: Word)
  datatype Triangle = Triangle(a: Point, b: Point, c: Point, material: Word)
  datatype Surface = Surface(albedo: Point, fuzz: real, kind: Word)
  datatype Scene = Scene(spheres: seq<Sphere>, triangles: seq<Triangle>, materials: seq<Surface>)

  type Bits = real -> Word

  function Primitives(s: Scene): nat { |s.spheres| + |s.triangles| }

  /** What the loader demands of the counts and of every reference. */
  ghost predicate Loadable(s: Scene) {
    CountsOk(1, Primitives(s), |s.materials|)
    && (forall i :: 0 <= i < |s.spheres| ==> s.spheres[i].material < |s.materials|)
    && (forall i :: 0 <= i < |s.triangles| ==> s.triangles[i].material < |s.materials|)
    && (forall i :: 0 <= i < |s.materials| ==> s.materials[i].kind <= EMISSIVE)
  }

  // ---- items --------------------------------------------------------------------------

  function Shifted(p: Point, d: real): Point { Point(p.x + d, p.y + d, p.z + d) }

  function SphereItem(s: Sphere, tag: nat): Item {
    Item(tag, Union(Spot(Shifted(s.center, -s.radius)), Spot(Shifted(s.center, s.radius))), s.center)
  }

  function Middle(b: Aabb): Point {
    if b.Empty? then Point(0.0, 0.0, 0.0)
    else Point((b.mn.x + b.mx.x) / 2.0, (b.mn.y + b.mx.y) / 2.0, (b.mn.z + b.mx.z) / 2.0)
  }

  function TriangleItem(t: Triangle, tag: nat): Item {
    var box := Union(Union(Spot(t.a), Spot(t.b)), Spot(t.c));
    Item(tag, box, Middle(box))
  }

  /** The item of primitive `i`: spheres first, then triangles. */
  function ItemAt(s: Scene, i: nat): Item
    requires i < Primitives(s)
  {
    if i < |s.spheres| then SphereItem(s.spheres[i], i) else TriangleItem(s.triangles[i - |s.spheres|], i)
  }

  function Items(s: Scene): (q: seq<Item>)
    ensures |q| == Primitives(s) && forall i :: 0 <= i < |q| ==> q[i] == ItemAt(s, i) && q[i].tag == i
  {
    seq(Primitives(s), (i: nat) requires i < Primitives(s) => ItemAt(s, i))
  }

  // ---- records ---------------------------------------------------------------------------

  function V3Of(bits: Bits, p: Point): V3 { V3(bits(p.x), bits(p.y), bits(p.z)) }

  function RecordOf(s: Scene, bits: Bits, tag: nat): Prim
    requires tag < Primitives(s)
  {
    if tag < |s.spheres| then
      var p := s.spheres[tag];
      Prim(SPHERE, p.material, 0, 0, V3Of(bits, p.center), bits(p.radius), ZERO, 0, ZERO, 0)
    else
      var t := s.triangles[tag - |s.spheres|];
      Prim(TRIANGLE, t.material, 0, 0, V3Of(bits, t.a), 0, V3Of(bits, t.b), 0, V3Of(bits, t.c), 0)
  }

  function Records(s: Scene, bits: Bits, q: seq<Item>): (ps: seq<Prim>)
    requires forall i :: 0 <= i < |q| ==> q[i].tag < Primitives(s)
    ensures |ps| == |q| && forall i :: 0 <= i < |q| ==> ps[i] == RecordOf(s, bits, q[i].tag)
  {
    seq(|q|, (i: nat) requires i < |q| => RecordOf(s, bits, q[i].tag))
  }

  function MaterialRecord(bits: Bits, m: Surface): Material {
    Material(V3Of(bits, m.albedo), bits(m.fuzz), m.kind, ZERO)
  }

  function Materials(s: Scene, bits: Bits): (ms: seq<Material>)
    ensures |ms| == |s.materials| && forall i :: 0 <= i < |ms| ==> ms[i] == MaterialRecord(bits, s.materials[i])
  {
    seq(|s.materials|, (i: nat) requires i < |s.materials| => MaterialRecord(bits, s.materials[i]))
  }

  predicate Packable(n: BuiltNode) {
    n.leftOrFirst < 0x1_0000_0000 && n.count < LEAF_FLAG && (!n.leaf ==> n.count == 0)
  }

  function NodeRecord(bits: Bits, n: BuiltNode): Node
    requires Packable(n)
  {
    var mn := if n.box.Empty? then ZERO else V3Of(bits, n.box.mn);
    var mx := if n.box.Empty? then ZERO else V3Of(bits, n.box.mx);
    Node(mn, n.leftOrFirst, mx, if n.leaf then LEAF_FLAG + n.count else 0)
  }

  function NodeRecords(bits: Bits, nodes: seq<BuiltNode>): (ns: seq<Node>)
    requires forall i :: 0 <= i < |nodes| ==> Packable(nodes[i])
    ensures |ns| == |nodes| && forall i :: 0 <= i < |nodes| ==> ns[i] == NodeRecord(bits, nodes[i])
  {
    seq(|nodes|, (i: nat) requires i < |nodes| => NodeRecord(bits, nodes[i]))
  }

  // ---- building ------------------------------------------------------------------------------

  /** `r` is what the finished build of `s` is stored as. */
  ghost predicate Stores(s: Scene, bits: Bits, nodes: seq<BuiltNode>, q: seq<Item>, t: Tree, r: Bvh) {
    Finished(nodes, q, t) && multiset(q) == multiset(Items(s))
    && (forall i :: 0 <= i < |q| ==> q[i].tag < Primitives(s))
    && (forall i :: 0 <= i < |nodes| ==> Packable(nodes[i]))
    && r == Bvh(Parts(NodeRecords(bits, nodes), Records(s, bits, q), Materials(s, bits)), Height(t), LargestLeaf(t))
  }

  lemma FinishedIsPackable(nodes: seq<BuiltNode>, q: seq<Item>, t: Tree)
    requires Finished(nodes, q, t) && |q| < LEAF_FLAG
    ensures forall i :: 0 <= i < |nodes| ==> Packable(nodes[i])
  {
    BuiltIsTree(nodes, q, t);
    NodesPerLeaf(nodes, q, t);
    forall i | 0 <= i < |nodes| ensures Packable(nodes[i]) {
      assert InOrder(nodes, i, |q|);
    }
  }

  lemma TagsInRange(s: Scene, q: seq<Item>, i: nat)
    requires multiset(q) == multiset(Items(s)) && i < |q|
    ensures q[i].tag < Primitives(s)
  {
    assert q[i] in multiset(Items(s));
  }

  method CollectItems(s: Scene) returns (items: array<Item>)
    requires Primitives(s) > 0
    ensures fresh(items) && items[..] == Items(s)
  {
    items := new Item[Primitives(s)](_ => Item(0, Empty, Point(0.0, 0.0, 0.0)));
    for i := 0 to |s.spheres|
      invariant forall j :: 0 <= j < i ==> items[j] == ItemAt(s, j)
    {
      items[i] := SphereItem(s.spheres[i], i);
    }
    for i := 0 to |s.triangles|
      invariant forall j :: 0 <= j < |s.spheres| + i ==> items[j] == ItemAt(s, j)
    {
      items[|s.spheres| + i] := TriangleItem(s.triangles[i], |s.spheres| + i);
    }
  }

  /** Build over the scene's primitives. An empty scene has no nodes. */
  method BuildBvh(s: Scene, bits: Bits) returns (r: Bvh, ghost nodes: seq<BuiltNode>, ghost q: seq<Item>, ghost t: Tree)
    requires Primitives(s) < LEAF_FLAG
    ensures Primitives(s) == 0 ==> r == Bvh(Parts([], [], Materials(s, bits)), 0, 0)
    ensures Primitives(s) > 0 ==> Stores(s, bits, nodes, q, t, r)
  {
    var materials := Materials(s, bits);
    nodes, q, t := [], [], Leaf(0, 0, []);
    if Primitives(s) == 0 {
      return Bvh(Parts([], [], materials), 0, 0), nodes, q, t;
    }
    var items := CollectItems(s);
    var builder := new Builder(items);
    t := builder.Build(0, 0, items.Length, 0);
    nodes, q := builder.nodes, items[..];
    WholeIsFinished(s, nodes, q, t);
    FinishedIsPackable(nodes, q, t);
    r := Bvh(Parts(NodeRecords(bits, builder.nodes), Records(s, bits, items[..]), materials), builder.maxDepth, builder.maxLeafPrims);
  }

  lemma WholeIsFinished(s: Scene, nodes: seq<BuiltNode>, q: seq<Item>, t: Tree)
    requires Primitives(s) > 0 && Emitted([BLANK], nodes, 0, t) && Optimal(t)
    requires Placed(Items(s), q, 0, Primitives(s), t)
    ensures Finished(nodes, q, t) && multiset(q) == multiset(Items(s))
    ensures forall i :: 0 <= i < |q| ==> q[i].tag < Primitives(s)
  {
    assert q[0..|q|] == q && Items(s)[0..|q|] == Items(s);
    forall i | 0 <= i < |q| ensures q[i].tag < Primitives(s) {
      TagsInRange(s, q, i);
    }
  }

  // ---- what is stored is well-formed -------------------------------------------------------------

  lemma SameShape(bits: Bits, nodes: seq<BuiltNode>)
    requires forall i :: 0 <= i < |nodes| ==> Packable(nodes[i])
    ensures ShapeOf(NodeRecords(bits, nodes)) == ShapeOfBuilt(nodes)
  {
    var k, k' := ShapeOf(NodeRecords(bits, nodes)), ShapeOfBuilt(nodes);
    forall i | 0 <= i < |nodes| ensures k[i] == k'[i] {
      assert NodeRecords(bits, nodes)[i] == NodeRecord(bits, nodes[i]);
    }
  }

  lemma {:induction false} MaxLeafIs(ns: seq<Node>, n: nat, at: nat, m: nat)
    requires at < n <= |ns| && IsLeaf(ns[at]) && Count(ns[at]) == m
    requires forall i :: 0 <= i < n && IsLeaf(ns[i]) ==> Count(ns[i]) <= m
    ensures MaxLeaf(ns, n) == m
  {
    if at == n - 1 {
      MaxLeafBound(ns, n - 1, m);
    } else {
      MaxLeafIs(ns, n - 1, at, m);
    }
  }

  lemma {:induction false} MaxLeafBound(ns: seq<Node>, n: nat, m: nat)
    requires n <= |ns| && forall i :: 0 <= i < n && IsLeaf(ns[i]) ==> Count(ns[i]) <= m
    ensures MaxLeaf(ns, n) <= m
  {
    if n > 0 {
      MaxLeafBound(ns, n - 1, m);
    }
  }

  lemma StoredNodesOk(s: Scene, bits: Bits, nodes: seq<BuiltNode>, q: seq<Item>, t: Tree, r: Bvh)
    requires Loadable(s) && Stores(s, bits, nodes, q, t, r)
    ensures NodesOk(r.parts.nodes, |q|) && |q| == Primitives(s)
    ensures 0 < |nodes| <= MAX_NODES
  {
    hide Finished, Items;
    assert |multiset(q)| == |q| && |multiset(Items(s))| == |Items(s)|;
    BuiltIsTree(nodes, q, t);
    NodesPerLeaf(nodes, q, t);
    forall i | 0 <= i < |nodes| ensures NodeOk(r.parts.nodes, |q|, i) {
      assert InOrder(nodes, i, |q|) && Packable(nodes[i]);
    }
  }

  lemma StoredLeafFits(s: Scene, bits: Bits, nodes: seq<BuiltNode>, q: seq<Item>, t: Tree, r: Bvh, i: nat)
    requires Stores(s, bits, nodes, q, t, r) && i < |r.parts.nodes| && IsLeaf(r.parts.nodes[i])
    ensures Count(r.parts.nodes[i]) <= LargestLeaf(t)
  {
    var at := LargestIsAttained(nodes, t);
    EveryPlace(nodes, t, i);
    assert Packable(nodes[i]);
  }

  lemma StoredStatistics(s: Scene, bits: Bits, nodes: seq<BuiltNode>, q: seq<Item>, t: Tree, r: Bvh)
    requires Stores(s, bits, nodes, q, t, r)
    ensures MaxLeaf(r.parts.nodes, |r.parts.nodes|) == r.maxLeafPrims
    ensures IsTree(ShapeOf(r.parts.nodes)) && IsMaxDepth(ShapeOf(r.parts.nodes), r.maxDepth)
  {
    SameShape(bits, nodes);
    HeightIsMaxDepth(nodes, q, t);
    var at := LargestIsAttained(nodes, t);
    var ns := r.parts.nodes;
    forall i | 0 <= i < |ns| && IsLeaf(ns[i]) ensures Count(ns[i]) <= LargestLeaf(t) {
      StoredLeafFits(s, bits, nodes, q, t, r, i);
    }
    assert Packable(nodes[at]);
    MaxLeafIs(ns, |ns|, at, LargestLeaf(t));
  }

  /** Whatever scene within the caps is built, the loader will accept it. */
  lemma StoredIsWellFormed(s: Scene, bits: Bits, nodes: seq<BuiltNode>, q: seq<Item>, t: Tree, r: Bvh)
    requires Loadable(s) && Stores(s, bits, nodes, q, t, r)
    ensures WellFormed(r.parts)
  {
    StoredNodesOk(s, bits, nodes, q, t, r);
    StoredStatistics(s, bits, nodes, q, t, r);
    forall i | 0 <= i < |q| ensures PrimOk(r.parts.prims[i], |s.materials|) {
      assert q[i].tag < Primitives(s);
    }
  }

  // ---- the round trip ---------------------------------------------------------------------------------

  lemma OneMaxDepth(k: Shape, a: nat, b: nat)
    requires IsTree(k) && IsMaxDepth(k, a) && IsMaxDepth(k, b)
    ensures a == b
  {
  }

  /** Build, serialize, load: the same nodes, primitives and materials come
      back, and the recomputed depth and leaf size are those the builder
      tracked. */
  method BuildStoreLoad(s: Scene, bits: Bits) returns (built: Bvh, loaded: Loaded)
    requires Loadable(s)
    ensures loaded == Loaded.Ok(built)
  {
    ghost var nodes, q, t;
    built, nodes, q, t := BuildBvh(s, bits);
    StoredIsWellFormed(s, bits, nodes, q, t, built);
    StoredStatistics(s, bits, nodes, q, t, built);
    var bytes := SerializeBvh(built.parts);
    loaded := LoadBvh(bytes[..]);
    if loaded.Ok? {
      SameSerialization(built.parts, loaded.bvh.parts);
      OneMaxDepth(ShapeOf(built.parts.nodes), built.maxDepth, loaded.bvh.maxDepth);
    }
  }

  lemma SameSerialization(a: Parts, b: Parts)
    requires Addressable(|a.nodes|, |a.prims|, |a.materials|) && Addressable(|b.nodes|, |b.prims|, |b.materials|)
    requires Serialized(a) == Serialized(b)
    ensures a == b
  {
    DecodeSerialized(a);
    DecodeSerialized(b);
    SameHeader(|a.nodes|, |a.prims|, |a.materials|, |b.nodes|, |b.prims|, |b.materials|);
  }

  // ---- the primitives are permuted ---------------------------------------------------------------------

  lemma RecordsRemove(s: Scene, bits: Bits, q: seq<Item>, i: nat)
    requires (forall j :: 0 <= j < |q| ==> q[j].tag < Primitives(s)) && i < |q|
    ensures forall j :: 0 <= j < |RemoveAt(q, i)| ==> RemoveAt(q, i)[j].tag < Primitives(s)
    ensures multiset(Records(s, bits, q)) == multiset(Records(s, bits, RemoveAt(q, i))) + multiset{RecordOf(s, bits, q[i].tag)}
  {
    assert Records(s, bits, RemoveAt(q, i)) == RemoveAt(Records(s, bits, q), i);
  }

  lemma {:induction false} RecordsPermute(s: Scene, bits: Bits, a: seq<Item>, b: seq<Item>)
    requires forall j :: 0 <= j < |a| ==> a[j].tag < Primitives(s)
    requires forall j :: 0 <= j < |b| ==> b[j].tag < Primitives(s)
    requires multiset(a) == multiset(b)
    ensures multiset(Records(s, bits, a)) == multiset(Records(s, bits, b))
    decreases |a|
  {
    if a == [] {
      assert |multiset(b)| == 0;
    } else {
      assert a[0] in multiset(a);
      var i :| 0 <= i < |b| && b[i] == a[0];
      RecordsRemove(s, bits, a, 0);
      RecordsRemove(s, bits, b, i);
      RecordsPermute(s, bits, RemoveAt(a, 0), RemoveAt(b, i));
    }
  }

  /** Every primitive of the scene is stored exactly once. */
  lemma PrimitivesArePermuted(s: Scene, bits: Bits, nodes: seq<BuiltNode>, q: seq<Item>, t: Tree, r: Bvh)
    requires Stores(s, bits, nodes, q, t, r)
    ensures multiset(r.parts.prims) == multiset(Records(s, bits, Items(s)))
  {
    RecordsPermute(s, bits, q, Items(s));
  }
}
