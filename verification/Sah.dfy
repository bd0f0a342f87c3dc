/** The binned surface-area heuristic (src/scene/bvh.cpp): what a plane costs,
    and that sweeping the bins from both sides computes exactly that. */
module Sah {
  import opened Boxes

  const BINS: nat := 12
  const MAX_LEAF: nat := 4

  /** A primitive being built over; `tag` names it. */
  datatype Item = Item(tag: nat, box: Aabb, centroid: Point)

  function Bounds(q: seq<Item>): Aabb {
    if q == [] then Empty else Union(Bounds(q[..|q| - 1]), q[|q| - 1].box)
  }

  function Spot(p: Point): Aabb { Box(p, p) }

  function CentroidBounds(q: seq<Item>): (b: Aabb)
    ensures q != [] ==> b.Box?
  {
    if q == [] then Empty else Union(CentroidBounds(q[..|q| - 1]), Spot(q[|q| - 1].centroid))
  }

  /** `Bounds` is the least box around all of them. */
  lemma {:induction false} BoundsLeast(q: seq<Item>, c: Aabb)
    ensures Contains(c, Bounds(q)) <==> forall i :: 0 <= i < |q| ==> Contains(c, q[i].box)
  {
    if q != [] {
      BoundsLeast(q[..|q| - 1], c);
      UnionLeast(Bounds(q[..|q| - 1]), q[|q| - 1].box, c);
    }
  }

  lemma BoundsHold(q: seq<Item>, i: nat)
    requires i < |q|
    ensures Contains(Bounds(q), q[i].box)
  {
    UnionLeast(Bounds(q), Empty, Bounds(q));
    BoundsLeast(q, Bounds(q));
  }

  /** Items found among others are bounded by the others' bounds. */
  lemma BoundsMonotone(q: seq<Item>, r: seq<Item>)
    requires multiset(q) <= multiset(r)
    ensures Contains(Bounds(r), Bounds(q))
  {
    forall i | 0 <= i < |q| ensures Contains(Bounds(r), q[i].box) {
      assert q[i] in multiset(r);
      var k :| 0 <= k < |r| && r[k] == q[i];
      BoundsHold(r, k);
    }
    BoundsLeast(q, Bounds(r));
  }

  // ---- bins ------------------------------------------------------------------------

  /** How a range is cut: along an axis, from `lo` to `hi`. */
  datatype Cut = Cut(axis: nat, lo: real, hi: real)

  /** Along the longest axis of the centroids' box. */
  function CutAlong(b: Aabb): Cut {
    var axis := LongestAxis(b);
    if b.Empty? then Cut(axis, 0.0, 0.0) else Cut(axis, b.mn.On(axis), b.mx.On(axis))
  }

  function CutOf(q: seq<Item>): Cut { CutAlong(CentroidBounds(q)) }

  /** Where `d` falls when a width of `w` is divided into the bins. */
  function Scaled(d: real, w: real): real
    requires w > 0.0
  {
    d * (12.0 / w)
  }

  function BinOf(cut: Cut, x: Item): (b: nat)
    requires cut.hi > cut.lo
    ensures b < BINS
  {
    var b := Scaled(x.centroid.On(cut.axis) - cut.lo, cut.hi - cut.lo).Floor;
    if b < 0 then 0 else if b > 11 then 11 else b
  }

  /** The items in bins `a` to `b - 1`, in order. */
  function Within(q: seq<Item>, cut: Cut, a: nat, b: nat): seq<Item>
    requires cut.hi > cut.lo
  {
    if q == [] then []
    else
      var last := q[|q| - 1];
      Within(q[..|q| - 1], cut, a, b) + if a <= BinOf(cut, last) < b then [last] else []
  }

  lemma {:induction false} WithinCount(q: seq<Item>, cut: Cut, a: nat, b: nat, x: Item)
    requires cut.hi > cut.lo
    ensures multiset(Within(q, cut, a, b))[x] == if a <= BinOf(cut, x) < b then multiset(q)[x] else 0
  {
    if q != [] {
      WithinCount(q[..|q| - 1], cut, a, b, x);
      assert q == q[..|q| - 1] + [q[|q| - 1]];
    }
  }

  /** Neighbouring bins add up, in number and in bounds. */
  lemma {:induction false} WithinJoin(q: seq<Item>, cut: Cut, a: nat, b: nat, c: nat)
    requires cut.hi > cut.lo && a <= b <= c
    ensures |Within(q, cut, a, c)| == |Within(q, cut, a, b)| + |Within(q, cut, b, c)|
    ensures Bounds(Within(q, cut, a, c)) == Union(Bounds(Within(q, cut, a, b)), Bounds(Within(q, cut, b, c)))
  {
    if q != [] {
      var init, last := q[..|q| - 1], q[|q| - 1];
      WithinJoin(init, cut, a, b, c);
      var left, right := Bounds(Within(init, cut, a, b)), Bounds(Within(init, cut, b, c));
      WithinSnoc(init, last, cut, a, b);
      WithinSnoc(init, last, cut, b, c);
      WithinSnoc(init, last, cut, a, c);
      assert q == init + [last];
      UnionAssoc(left, right, last.box);
      UnionAssoc(left, last.box, right);
      UnionComm(right, last.box);
    }
  }

  lemma BoundsSnoc(q: seq<Item>, x: Item)
    ensures Bounds(q + [x]) == Union(Bounds(q), x.box)
  {
    assert (q + [x])[..|q|] == q;
  }

  lemma WithinSnoc(q: seq<Item>, x: Item, cut: Cut, a: nat, b: nat)
    requires cut.hi > cut.lo
    ensures var r := Within(q + [x], cut, a, b);
            if a <= BinOf(cut, x) < b then r == Within(q, cut, a, b) + [x] && Bounds(r) == Union(Bounds(Within(q, cut, a, b)), x.box)
            else r == Within(q, cut, a, b)
  {
    assert (q + [x])[..|q|] == q;
    BoundsSnoc(Within(q, cut, a, b), x);
  }

  lemma {:induction false} WithinNone(q: seq<Item>, cut: Cut, a: nat)
    requires cut.hi > cut.lo
    ensures Within(q, cut, a, a) == []
  {
    if q != [] {
      WithinNone(q[..|q| - 1], cut, a);
    }
  }

  // ---- planes ----------------------------------------------------------------------------

  function Left(q: seq<Item>, cut: Cut, p: nat): seq<Item>
    requires cut.hi > cut.lo
  {
    Within(q, cut, 0, p)
  }

  function Right(q: seq<Item>, cut: Cut, p: nat): seq<Item>
    requires cut.hi > cut.lo
  {
    Within(q, cut, p, BINS)
  }

  function AreaTimes(b: Aabb, n: nat): real { SurfaceArea(b) * n as real }

  /** Area times count, on both sides of plane `p`. */
  function Cost(q: seq<Item>, cut: Cut, p: nat): real
    requires cut.hi > cut.lo
  {
    AreaTimes(Bounds(Left(q, cut, p)), |Left(q, cut, p)|) + AreaTimes(Bounds(Right(q, cut, p)), |Right(q, cut, p)|)
  }

  /** Plane `p` separates something from something. */
  predicate Separates(q: seq<Item>, cut: Cut, p: nat)
    requires cut.hi > cut.lo
  {
    1 <= p < BINS && |Left(q, cut, p)| > 0 && |Right(q, cut, p)| > 0
  }

  /** The cheapest separating plane among those from `from` up; the highest one on ties. */
  ghost predicate IsBestPlane(q: seq<Item>, cut: Cut, from: nat, p: nat)
    requires cut.hi > cut.lo
  {
    from <= p && Separates(q, cut, p)
    && forall r | from <= r < BINS && Separates(q, cut, r) :: Cost(q, cut, p) <= Cost(q, cut, r) && (r > p ==> Cost(q, cut, p) < Cost(q, cut, r))
  }

  function LeafCost(q: seq<Item>): real { AreaTimes(Bounds(q), |q|) }

  /** A range is not split: it is small, its centroids coincide, nothing
      separates it, or splitting it does not pay. */
  ghost predicate StaysWhole(q: seq<Item>) {
    |q| <= MAX_LEAF
    || var cut := CutOf(q);
       !(cut.hi > cut.lo)
       || (forall p :: !Separates(q, cut, p))
       || exists p :: IsBestPlane(q, cut, 1, p) && LeafCost(q) <= Cost(q, cut, p)
  }

  /** Splitting at `p` is the cheapest way to split, and cheaper than not splitting. */
  ghost predicate SplitsAt(q: seq<Item>, p: nat) {
    |q| > MAX_LEAF
    && var cut := CutOf(q);
       cut.hi > cut.lo && IsBestPlane(q, cut, 1, p) && Cost(q, cut, p) < LeafCost(q)
  }

  lemma OneBestPlane(q: seq<Item>, cut: Cut, p: nat, r: nat)
    requires cut.hi > cut.lo && IsBestPlane(q, cut, 1, p) && IsBestPlane(q, cut, 1, r)
    ensures p == r
  {
  }

  /** The decision is made: a range either stays whole or splits at one plane. */
  lemma WholeOrSplit(q: seq<Item>, p: nat)
    ensures !(StaysWhole(q) && SplitsAt(q, p))
  {
    if StaysWhole(q) && SplitsAt(q, p) {
      var cut := CutOf(q);
      var r :| IsBestPlane(q, cut, 1, r) && LeafCost(q) <= Cost(q, cut, r);
      OneBestPlane(q, cut, p, r);
    }
  }

  // ---- the extreme bins are never empty ----------------------------------------------------

  /** Some centroid attains each end of the centroid bounds. */
  lemma {:induction false} EndsAttained(q: seq<Item>, axis: nat)
    requires q != [] && axis < 3
    ensures exists i :: 0 <= i < |q| && q[i].centroid.On(axis) == CentroidBounds(q).mn.On(axis)
    ensures exists i :: 0 <= i < |q| && q[i].centroid.On(axis) == CentroidBounds(q).mx.On(axis)
  {
    var init, last := q[..|q| - 1], q[|q| - 1];
    if init == [] {
      assert q[0].centroid.On(axis) == CentroidBounds(q).mn.On(axis);
      assert q[0].centroid.On(axis) == CentroidBounds(q).mx.On(axis);
    } else {
      EndsAttained(init, axis);
      var i :| 0 <= i < |init| && init[i].centroid.On(axis) == CentroidBounds(init).mn.On(axis);
      var j :| 0 <= j < |init| && init[j].centroid.On(axis) == CentroidBounds(init).mx.On(axis);
      assert q[i].centroid.On(axis) == CentroidBounds(q).mn.On(axis) || q[|q| - 1].centroid.On(axis) == CentroidBounds(q).mn.On(axis);
      assert q[j].centroid.On(axis) == CentroidBounds(q).mx.On(axis) || q[|q| - 1].centroid.On(axis) == CentroidBounds(q).mx.On(axis);
    }
  }

  lemma ScaledEnds(w: real)
    requires w > 0.0
    ensures Scaled(0.0, w) == 0.0 && Scaled(w, w) == 12.0
  {
  }

  lemma LowBin(cut: Cut, x: Item)
    requires cut.hi > cut.lo && x.centroid.On(cut.axis) == cut.lo
    ensures BinOf(cut, x) == 0
  {
    ScaledEnds(cut.hi - cut.lo);
    assert Scaled(x.centroid.On(cut.axis) - cut.lo, cut.hi - cut.lo) == 0.0;
  }

  lemma HighBin(cut: Cut, x: Item)
    requires cut.hi > cut.lo && x.centroid.On(cut.axis) == cut.hi
    ensures BinOf(cut, x) == 11
  {
    ScaledEnds(cut.hi - cut.lo);
    assert Scaled(x.centroid.On(cut.axis) - cut.lo, cut.hi - cut.lo) == 12.0;
  }

  lemma WithinHolds(q: seq<Item>, cut: Cut, a: nat, b: nat, i: nat)
    requires cut.hi > cut.lo && i < |q| && a <= BinOf(cut, q[i]) < b
    ensures |Within(q, cut, a, b)| > 0
  {
    WithinCount(q, cut, a, b, q[i]);
    assert multiset(q)[q[i]] > 0;
  }

  /** When the centroids do not coincide, every one of the eleven planes
      separates something: the lowest centroid is in the first bin and the
      highest in the last. */
  lemma EveryPlaneSeparates(q: seq<Item>, p: nat)
    requires q != [] && CutOf(q).hi > CutOf(q).lo && 1 <= p < BINS
    ensures Separates(q, CutOf(q), p)
  {
    var cut := CutOf(q);
    EndsAttained(q, cut.axis);
    var i :| 0 <= i < |q| && q[i].centroid.On(cut.axis) == CentroidBounds(q).mn.On(cut.axis);
    var j :| 0 <= j < |q| && q[j].centroid.On(cut.axis) == CentroidBounds(q).mx.On(cut.axis);
    LowBin(cut, q[i]);
    HighBin(cut, q[j]);
    WithinHolds(q, cut, 0, p, i);
    WithinHolds(q, cut, p, BINS, j);
  }
}
