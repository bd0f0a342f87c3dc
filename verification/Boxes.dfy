/** Axis-aligned boxes over the reals (src/scene/bvh.cpp). */
module Boxes {

  datatype Point = Point(x: real, y: real, z: real) {
    function On(axis: nat): real {
      if axis == 0 then x else if axis == 1 then y else z
    }
  }

  /** `Empty` is the box nothing was added to yet. */
  datatype Aabb = Empty | Box(mn: Point, mx: Point)

  function Lesser(a: real, b: real): real { if a < b then a else b }
  function Greater(a: real, b: real): real { if a < b then b else a }

  function Union(a: Aabb, b: Aabb): Aabb {
    if a.Empty? then b
    else if b.Empty? then a
    else Box(Point(Lesser(a.mn.x, b.mn.x), Lesser(a.mn.y, b.mn.y), Lesser(a.mn.z, b.mn.z)),
             Point(Greater(a.mx.x, b.mx.x), Greater(a.mx.y, b.mx.y), Greater(a.mx.z, b.mx.z)))
  }

  predicate Contains(a: Aabb, b: Aabb) {
    b.Empty?
    || (a.Box? && a.mn.x <= b.mn.x && a.mn.y <= b.mn.y && a.mn.z <= b.mn.z
        && a.mx.x >= b.mx.x && a.mx.y >= b.mx.y && a.mx.z >= b.mx.z)
  }

  /** `Union` is the least box that contains both. */
  lemma UnionLeast(a: Aabb, b: Aabb, c: Aabb)
    ensures Contains(Union(a, b), a) && Contains(Union(a, b), b)
    ensures Contains(c, Union(a, b)) <==> Contains(c, a) && Contains(c, b)
  {
  }

  lemma UnionAssoc(a: Aabb, b: Aabb, c: Aabb)
    ensures Union(Union(a, b), c) == Union(a, Union(b, c))
  {
  }

  lemma UnionComm(a: Aabb, b: Aabb)
    ensures Union(a, b) == Union(b, a)
  {
  }

  function SurfaceArea(b: Aabb): real {
    if b.Empty? then 0.0
    else
      var dx, dy, dz := b.mx.x - b.mn.x, b.mx.y - b.mn.y, b.mx.z - b.mn.z;
      if dx < 0.0 || dy < 0.0 || dz < 0.0 then 0.0 else 2.0 * (dx * dy + dy * dz + dz * dx)
  }

  function LongestAxis(b: Aabb): (axis: nat)
    ensures axis < 3
    ensures b.Box? ==> forall i | i in {0, 1, 2} :: b.mx.On(axis) - b.mn.On(axis) >= b.mx.On(i) - b.mn.On(i)
  {
    if b.Empty? then 2
    else
      var dx, dy, dz := b.mx.x - b.mn.x, b.mx.y - b.mn.y, b.mx.z - b.mn.z;
      if dx > dy && dx > dz then 0 else if dy > dz then 1 else 2
  }
}
