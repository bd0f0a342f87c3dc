/** What boxes, areas, bins and costs mean (src/scene/bvh.cpp), by laws that do
    not name the formulas. */
module Surfaces {
  import opened Boxes
  import opened Sah

  // ---- boxes ---------------------------------------------------------------------------

  ghost predicate Has(b: Aabb, p: Point) {
    b.Box? && b.mn.x <= p.x <= b.mx.x && b.mn.y <= p.y <= b.mx.y && b.mn.z <= p.z <= b.mx.z
  }

  /** Not turned inside out along any axis. */
  ghost predicate Proper(b: Aabb) {
    b.Box? && b.mn.x <= b.mx.x && b.mn.y <= b.mx.y && b.mn.z <= b.mx.z
  }

  /** One box contains another exactly when it has all its points. */
  lemma ContainsIff(a: Aabb, b: Aabb)
    requires Proper(b)
    ensures Contains(a, b) <==> forall p | Has(b, p) :: Has(a, p)
  {
    assert Has(b, b.mn) && Has(b, b.mx);
  }

  lemma UnionIsProper(a: Aabb, b: Aabb)
    requires Proper(a) && Proper(b)
    ensures Proper(Union(a, b))
  {
  }

  // ---- areas ---------------------------------------------------------------------------

  /** The axes renamed: x, y, z become y, z, x. */
  function Turned(p: Point): Point { Point(p.y, p.z, p.x) }

  /** Two axes swapped; with `Turned` this gives every permutation. */
  function Swapped(p: Point): Point { Point(p.y, p.x, p.z) }

  lemma AreaTurned(b: Aabb)
    requires b.Box?
    ensures SurfaceArea(Box(Turned(b.mn), Turned(b.mx))) == SurfaceArea(b)
    ensures SurfaceArea(Box(Swapped(b.mn), Swapped(b.mx))) == SurfaceArea(b)
  {
  }

  lemma ProductsGrow(a: real, b: real, c: real, d: real)
    requires 0.0 <= a <= c && 0.0 <= b <= d
    ensures 0.0 <= a * b <= c * d
  {
    assert a * b <= c * b && c * b <= c * d;
  }

  lemma FacesGrow(dx: real, dy: real, dz: real, ex: real, ey: real, ez: real)
    requires 0.0 <= dx <= ex && 0.0 <= dy <= ey && 0.0 <= dz <= ez
    ensures 0.0 <= 2.0 * (dx * dy + dy * dz + dz * dx) <= 2.0 * (ex * ey + ey * ez + ez * ex)
  {
    ProductsGrow(dx, dy, ex, ey);
    ProductsGrow(dy, dz, ey, ez);
    ProductsGrow(dz, dx, ez, ex);
  }

  /** A box inside another has no larger area. */
  lemma AreaGrows(a: Aabb, b: Aabb)
    requires Proper(a) && Proper(b) && Contains(b, a)
    ensures 0.0 <= SurfaceArea(a) <= SurfaceArea(b)
  {
    FacesGrow(a.mx.x - a.mn.x, a.mx.y - a.mn.y, a.mx.z - a.mn.z, b.mx.x - b.mn.x, b.mx.y - b.mn.y, b.mx.z - b.mn.z);
  }

  /** Cut in two at `x = c`, the parts have the area of the whole and that of
      the cut, once for each part. `AreaTurned` says the same of the other axes. */
  lemma AreaCut(b: Aabb, c: real)
    requires Proper(b) && b.mn.x <= c <= b.mx.x
    ensures SurfaceArea(Box(b.mn, b.mx.(x := c))) + SurfaceArea(Box(b.mn.(x := c), b.mx))
            == SurfaceArea(b) + 2.0 * ((b.mx.y - b.mn.y) * (b.mx.z - b.mn.z))
  {
    var l, r, dy, dz := c - b.mn.x, b.mx.x - c, b.mx.y - b.mn.y, b.mx.z - b.mn.z;
    assert (l + r) * dy == l * dy + r * dy;
    assert dz * (l + r) == dz * l + dz * r;
  }

  /** The unit cube has six unit faces; what is empty or inside out has none. */
  lemma UnitArea(b: Aabb)
    ensures SurfaceArea(Box(Point(0.0, 0.0, 0.0), Point(1.0, 1.0, 1.0))) == 6.0
    ensures !Proper(b) ==> SurfaceArea(b) == 0.0
  {
  }

  // ---- the axis and the bins --------------------------------------------------------------

  /** The centroids' box is the least that has every centroid. */
  lemma {:induction false} CentroidBoundsLeast(q: seq<Item>, c: Aabb)
    ensures Contains(c, CentroidBounds(q)) <==> forall i :: 0 <= i < |q| ==> Has(c, q[i].centroid)
  {
    if q != [] {
      CentroidBoundsLeast(q[..|q| - 1], c);
      UnionLeast(CentroidBounds(q[..|q| - 1]), Spot(q[|q| - 1].centroid), c);
    }
  }

  /** A range is cut along the axis on which its centroids lie furthest apart,
      the last of several, over their whole extent. */
  lemma CutIs(q: seq<Item>)
    requires q != []
    ensures var b, cut := CentroidBounds(q), CutOf(q);
            cut.axis < 3 && cut.lo == b.mn.On(cut.axis) && cut.hi == b.mx.On(cut.axis)
            && forall i: nat | i < 3 :: b.mx.On(i) - b.mn.On(i) <= cut.hi - cut.lo
                                       && (i > cut.axis ==> b.mx.On(i) - b.mn.On(i) < cut.hi - cut.lo)
  {
  }

  lemma CentroidInCut(q: seq<Item>, i: nat)
    requires i < |q|
    ensures CutOf(q).lo <= q[i].centroid.On(CutOf(q).axis) <= CutOf(q).hi
  {
    UnionLeast(CentroidBounds(q), Empty, Empty);
    CentroidBoundsLeast(q, CentroidBounds(q));
  }

  /** The extent is divided into twelve bins of equal width; the last one is closed. */
  lemma BinIs(cut: Cut, x: Item)
    requires cut.hi > cut.lo && cut.lo <= x.centroid.On(cut.axis) <= cut.hi
    ensures var b, d, w := BinOf(cut, x), 12.0 * (x.centroid.On(cut.axis) - cut.lo), cut.hi - cut.lo;
            0 <= b <= 11 && b as real * w <= d && (b < 11 ==> d < (b + 1) as real * w)
  {
    var d, w := x.centroid.On(cut.axis) - cut.lo, cut.hi - cut.lo;
    var r := Scaled(d, w);
    assert r * w == 12.0 * d;
    var b := BinOf(cut, x);
    assert 0.0 <= r by {
      if r < 0.0 { NegativeTimes(r, w); }
    }
    TimesMonotone(b as real, r, w);
    if b < 11 {
      assert r < (b + 1) as real;
      TimesMonotone((b + 1) as real, r, w);
    }
  }

  lemma NegativeTimes(a: real, b: real)
    requires a < 0.0 && b > 0.0
    ensures a * b < 0.0
  {
  }

  lemma TimesMonotone(a: real, b: real, c: real)
    requires c > 0.0
    ensures a <= b ==> a * c <= b * c
    ensures a > b ==> a * c > b * c
  {
    if a > b {
      NegativeTimes(b - a, c);
      assert (b - a) * c == b * c - a * c;
    } else if a < b {
      NegativeTimes(a - b, c);
      assert (a - b) * c == a * c - b * c;
    }
  }

  // ---- costs --------------------------------------------------------------------------------

  /** Every item charged `l` if it lies left of plane `p`, and `r` if right. */
  ghost function Charged(q: seq<Item>, cut: Cut, p: nat, l: real, r: real): real
    requires cut.hi > cut.lo
  {
    if q == [] then 0.0
    else Charged(q[..|q| - 1], cut, p, l, r) + if BinOf(cut, q[|q| - 1]) < p then l else r
  }

  function Share(a: real, n: nat): real { a * n as real }

  lemma {:induction false} ChargedIs(q: seq<Item>, cut: Cut, p: nat, l: real, r: real)
    requires cut.hi > cut.lo && p <= BINS
    ensures Charged(q, cut, p, l, r) == Share(l, |Left(q, cut, p)|) + Share(r, |Right(q, cut, p)|)
  {
    if q != [] {
      var init, last := q[..|q| - 1], q[|q| - 1];
      ChargedIs(init, cut, p, l, r);
      OneMore(l, |Left(init, cut, p)|);
      OneMore(r, |Right(init, cut, p)|);
      hide Share;
    }
  }

  lemma OneMore(a: real, n: nat)
    ensures Share(a, n + 1) == Share(a, n) + a
  {
  }

  lemma AreaShare(b: Aabb, n: nat)
    ensures AreaTimes(b, n) == Share(SurfaceArea(b), n)
  {
  }

  /** Splitting costs every item the area of the least box around its own side. */
  lemma CostIsCharge(q: seq<Item>, cut: Cut, p: nat)
    requires cut.hi > cut.lo && p <= BINS
    ensures Cost(q, cut, p)
            == Charged(q, cut, p, SurfaceArea(Bounds(Left(q, cut, p))), SurfaceArea(Bounds(Right(q, cut, p))))
  {
    hide Share, AreaTimes, Charged, SurfaceArea, Bounds;
    var l, r := Left(q, cut, p), Right(q, cut, p);
    AreaShare(Bounds(l), |l|);
    AreaShare(Bounds(r), |r|);
    ChargedIs(q, cut, p, SurfaceArea(Bounds(l)), SurfaceArea(Bounds(r)));
  }

  /** Not splitting costs every item the area of the least box around all. */
  lemma LeafCostIsCharge(q: seq<Item>, cut: Cut, p: nat)
    requires cut.hi > cut.lo
    ensures LeafCost(q) == Charged(q, cut, p, SurfaceArea(Bounds(q)), SurfaceArea(Bounds(q)))
  {
    hide Share, AreaTimes, Charged, SurfaceArea, Bounds;
    var a := SurfaceArea(Bounds(q));
    AreaShare(Bounds(q), |q|);
    SameCharge(q, cut, p, a);
    ChargedIs(q, cut, 0, a, a);
    WithinAll(q, cut);
    WithinNone(q, cut, 0);
    NoShare(a);
  }

  lemma NoShare(a: real)
    ensures Share(a, 0) == 0.0
  {
  }

  lemma {:induction false} SameCharge(q: seq<Item>, cut: Cut, p: nat, a: real)
    requires cut.hi > cut.lo
    ensures Charged(q, cut, p, a, a) == Charged(q, cut, 0, a, a)
  {
    if q != [] {
      SameCharge(q[..|q| - 1], cut, p, a);
    }
  }

  lemma {:induction false} WithinAll(q: seq<Item>, cut: Cut)
    requires cut.hi > cut.lo
    ensures Within(q, cut, 0, BINS) == q
  {
    if q != [] {
      WithinAll(q[..|q| - 1], cut);
    }
  }

  // ---- the decision ---------------------------------------------------------------------------

  lemma {:induction false} SomeBestPlane(q: seq<Item>, cut: Cut, from: nat)
    requires cut.hi > cut.lo && 1 <= from < BINS && forall p | 1 <= p < BINS :: Separates(q, cut, p)
    ensures exists p :: IsBestPlane(q, cut, from, p)
    decreases BINS - from
  {
    assert Separates(q, cut, from);
    if from == BINS - 1 {
      assert IsBestPlane(q, cut, from, from);
    } else {
      SomeBestPlane(q, cut, from + 1);
      var p :| IsBestPlane(q, cut, from + 1, p);
      assert IsBestPlane(q, cut, from, if Cost(q, cut, from) < Cost(q, cut, p) then from else p);
    }
  }

  /** Plane `p` of the eleven costs least, the last of several, and less than no split. */
  ghost predicate PaysBest(q: seq<Item>, p: nat) {
    var cut := CutOf(q);
    cut.hi > cut.lo && 1 <= p <= 11 && Cost(q, cut, p) < LeafCost(q)
    && forall r: nat | 1 <= r <= 11 :: Cost(q, cut, p) <= Cost(q, cut, r) && (r > p ==> Cost(q, cut, p) < Cost(q, cut, r))
  }

  /** A range is split exactly when it has five items or more and some plane
      pays, at the plane that pays best. */
  lemma SplitsAtIff(q: seq<Item>, p: nat)
    ensures SplitsAt(q, p) <==> |q| >= 5 && PaysBest(q, p)
  {
    if |q| >= 5 && CutOf(q).hi > CutOf(q).lo {
      forall r: nat | 1 <= r < BINS ensures Separates(q, CutOf(q), r) {
        EveryPlaneSeparates(q, r);
      }
    }
  }

  lemma StaysWholeIff(q: seq<Item>)
    ensures StaysWhole(q) <==> |q| <= 4 || forall p :: !PaysBest(q, p)
  {
    forall p ensures SplitsAt(q, p) <==> |q| >= 5 && PaysBest(q, p) {
      SplitsAtIff(q, p);
    }
    if |q| >= 5 && CutOf(q).hi > CutOf(q).lo {
      forall r: nat | 1 <= r < BINS ensures Separates(q, CutOf(q), r) {
        EveryPlaneSeparates(q, r);
      }
      SomeBestPlane(q, CutOf(q), 1);
      var p :| IsBestPlane(q, CutOf(q), 1, p);
      WholeOrSplit(q, p);
      assert SplitsAt(q, p) || LeafCost(q) <= Cost(q, CutOf(q), p);
    }
  }
}
