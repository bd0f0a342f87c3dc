/** Deciding and splitting one range as the source does it (`Builder::Build` in
    src/scene/bvh.cpp): bins filled and swept in loops, items partitioned in
    place. */
module BvhSplits {
  import opened Basics
  import opened Boxes
  import opened Sah

  // ---- binning ------------------------------------------------------------------

  /** Adding one item touches its own bin only. */
  lemma BinnedNext(q: seq<Item>, x: Item, cut: Cut, box: Aabb, count: nat, b: nat)
    requires cut.hi > cut.lo && Binned(q, cut, box, count, b)
    ensures if b == BinOf(cut, x) then Binned(q + [x], cut, Union(box, x.box), count + 1, b) else Binned(q + [x], cut, box, count, b)
  {
    WithinSnoc(q, x, cut, b, b + 1);
  }

  ghost predicate AllBinned(q: seq<Item>, cut: Cut, boxes: seq<Aabb>, counts: seq<nat>)
    requires cut.hi > cut.lo
  {
    |boxes| == |counts| == BINS && forall b :: 0 <= b < BINS ==> Binned(q, cut, boxes[b], counts[b], b)
  }

  lemma AllBinnedNext(q: seq<Item>, x: Item, cut: Cut, boxes: seq<Aabb>, counts: seq<nat>)
    requires cut.hi > cut.lo && AllBinned(q, cut, boxes, counts)
    ensures var b := BinOf(cut, x);
            AllBinned(q + [x], cut, boxes[b := Union(boxes[b], x.box)], counts[b := counts[b] + 1])
  {
    forall b: nat | b < BINS ensures Binned(q, cut, boxes[b], counts[b], b) {}
    forall b: nat | b < BINS
      ensures if b == BinOf(cut, x) then Binned(q + [x], cut, Union(boxes[b], x.box), counts[b] + 1, b)
              else Binned(q + [x], cut, boxes[b], counts[b], b)
    {
      BinnedNext(q, x, cut, boxes[b], counts[b], b);
    }
  }

  method FillBins(q: seq<Item>, cut: Cut, boxes: array<Aabb>, counts: array<nat>)
    requires cut.hi > cut.lo && boxes.Length == counts.Length == BINS
    requires forall b :: 0 <= b < BINS ==> boxes[b] == Empty && counts[b] == 0
    modifies boxes, counts
    ensures AllBinned(q, cut, boxes[..], counts[..])
  {
    for i := 0 to |q|
      invariant AllBinned(q[..i], cut, boxes[..], counts[..])
    {
      AllBinnedNext(q[..i], q[i], cut, boxes[..], counts[..]);
      assert q[..i + 1] == q[..i] + [q[i]];
      var b := BinOf(cut, q[i]);
      boxes[b] := Union(boxes[b], q[i].box);
      counts[b] := counts[b] + 1;
    }
    assert q[..|q|] == q;
  }

  ghost predicate Binned(q: seq<Item>, cut: Cut, box: Aabb, count: nat, b: nat)
    requires cut.hi > cut.lo
  {
    box == Bounds(Within(q, cut, b, b + 1)) && count == |Within(q, cut, b, b + 1)|
  }

  /** The accumulators when the sweep from the left stands behind plane `p`. */
  ghost predicate SweptLeft(q: seq<Item>, cut: Cut, box: Aabb, n: nat, p: nat)
    requires cut.hi > cut.lo
  {
    box == Bounds(Left(q, cut, p)) && n == |Left(q, cut, p)|
  }

  ghost predicate SweptRight(q: seq<Item>, cut: Cut, box: Aabb, n: nat, p: nat)
    requires cut.hi > cut.lo
  {
    box == Bounds(Right(q, cut, p)) && n == |Right(q, cut, p)|
  }

  /** The best plane from `from` up, if any separates. */
  ghost predicate BestSoFar(q: seq<Item>, cut: Cut, from: nat, best: Option<(nat, real)>)
    requires cut.hi > cut.lo
  {
    match best
    case None => forall p | from <= p < BINS :: !Separates(q, cut, p)
    case Some((p, cost)) => IsBestPlane(q, cut, from, p) && cost == Cost(q, cut, p)
  }

  ghost predicate LeftOf(q: seq<Item>, cut: Cut, area: real, count: nat, p: nat)
    requires cut.hi > cut.lo
  {
    area == SurfaceArea(Bounds(Left(q, cut, p))) && count == |Left(q, cut, p)|
  }

  lemma NothingSwept(q: seq<Item>, cut: Cut)
    requires cut.hi > cut.lo
    ensures SweptLeft(q, cut, Empty, 0, 0)
  {
    WithinNone(q, cut, 0);
  }

  lemma LeftNext(q: seq<Item>, cut: Cut, acc: Aabb, n: nat, box: Aabb, count: nat, p: nat)
    requires cut.hi > cut.lo && SweptLeft(q, cut, acc, n, p) && Binned(q, cut, box, count, p)
    ensures SweptLeft(q, cut, Union(acc, box), n + count, p + 1)
    ensures LeftOf(q, cut, SurfaceArea(Union(acc, box)), n + count, p + 1)
  {
    WithinJoin(q, cut, 0, p, p + 1);
  }

  /** Area and count to the left of every plane. */
  method SweepLeft(ghost q: seq<Item>, ghost cut: Cut, boxes: array<Aabb>, counts: array<nat>)
    returns (area: array<real>, count: array<nat>)
    requires cut.hi > cut.lo && boxes.Length == counts.Length == BINS
    requires AllBinned(q, cut, boxes[..], counts[..])
    ensures fresh(area) && fresh(count) && area.Length == count.Length == BINS - 1
    ensures forall p :: 0 <= p < BINS - 1 ==> LeftOf(q, cut, area[p], count[p], p + 1)
  {
    area := new real[BINS - 1](_ => 0.0);
    count := new nat[BINS - 1](_ => 0);
    var acc, n := Empty, 0;
    NothingSwept(q, cut);
    hide SweptLeft, LeftOf, Binned;
    for i := 0 to BINS - 1
      invariant SweptLeft(q, cut, acc, n, i)
      invariant forall p :: 0 <= p < i ==> LeftOf(q, cut, area[p], count[p], p + 1)
    {
      LeftNext(q, cut, acc, n, boxes[i], counts[i], i);
      acc, n := Union(acc, boxes[i]), n + counts[i];
      area[i], count[i] := SurfaceArea(acc), n;
    }
  }

  function PlaneCost(area: real, count: nat, acc: Aabb, n: nat): real {
    area * count as real + SurfaceArea(acc) * n as real
  }

  lemma CostIs(q: seq<Item>, cut: Cut, area: real, count: nat, acc: Aabb, n: nat, p: nat)
    requires cut.hi > cut.lo && 1 <= p < BINS && LeftOf(q, cut, area, count, p) && SweptRight(q, cut, acc, n, p)
    ensures PlaneCost(area, count, acc, n) == Cost(q, cut, p)
    ensures count > 0 && n > 0 <==> Separates(q, cut, p)
  {
  }

  /** Plane `p` is considered after all planes above it. */
  lemma BestNext(q: seq<Item>, cut: Cut, p: nat, best: Option<(nat, real)>)
    requires cut.hi > cut.lo && 1 <= p < BINS && BestSoFar(q, cut, p + 1, best)
    ensures BestSoFar(q, cut, p, if (best.None? || Cost(q, cut, p) < best.value.1) && Separates(q, cut, p)
                                 then Some((p, Cost(q, cut, p))) else best)
  {
  }

  lemma RightNext(q: seq<Item>, cut: Cut, acc: Aabb, n: nat, box: Aabb, count: nat, p: nat)
    requires cut.hi > cut.lo && p < BINS && SweptRight(q, cut, acc, n, p + 1) && Binned(q, cut, box, count, p)
    ensures SweptRight(q, cut, Union(acc, box), n + count, p)
  {
    WithinJoin(q, cut, p, p + 1, BINS);
    UnionComm(acc, box);
  }

  /** One step of the sweep from the right. */
  lemma SweepNext(q: seq<Item>, cut: Cut, acc: Aabb, n: nat, box: Aabb, boxed: nat, area: real, count: nat, p: nat,
                  best: Option<(nat, real)>)
    requires cut.hi > cut.lo && 1 <= p < BINS && SweptRight(q, cut, acc, n, p + 1) && Binned(q, cut, box, boxed, p)
    requires LeftOf(q, cut, area, count, p) && BestSoFar(q, cut, p + 1, best)
    ensures SweptRight(q, cut, Union(acc, box), n + boxed, p)
    ensures var cost := PlaneCost(area, count, Union(acc, box), n + boxed);
            BestSoFar(q, cut, p, if (best.None? || cost < best.value.1) && count > 0 && n + boxed > 0 then Some((p, cost)) else best)
  {
    RightNext(q, cut, acc, n, box, boxed, p);
    CostIs(q, cut, area, count, Union(acc, box), n + boxed, p);
    BestNext(q, cut, p, best);
  }

  /** Sweep from the left, then from the right, and take the cheapest of the
      eleven planes. */
  method Sweep(ghost q: seq<Item>, ghost cut: Cut, boxes: array<Aabb>, counts: array<nat>) returns (best: Option<(nat, real)>)
    requires cut.hi > cut.lo && boxes.Length == counts.Length == BINS
    requires AllBinned(q, cut, boxes[..], counts[..])
    ensures BestSoFar(q, cut, 1, best)
  {
    var leftArea, leftCount := SweepLeft(q, cut, boxes, counts);
    var acc, n := Empty, 0;
    best := None;
    WithinNone(q, cut, BINS);
    for i := BINS downto 1
      invariant forall p :: 0 <= p < BINS - 1 ==> LeftOf(q, cut, leftArea[p], leftCount[p], p + 1)
      invariant AllBinned(q, cut, boxes[..], counts[..])
      invariant SweptRight(q, cut, acc, n, i)
      invariant BestSoFar(q, cut, i, best)
    {
      SweepNext(q, cut, acc, n, boxes[i], counts[i], leftArea[i - 1], leftCount[i - 1], i, best);
      acc, n := Union(acc, boxes[i]), n + counts[i];
      var cost := PlaneCost(leftArea[i - 1], leftCount[i - 1], acc, n);
      if (best.None? || cost < best.value.1) && leftCount[i - 1] > 0 && n > 0 {
        best := Some((i, cost));
      }
    }
  }

  // ---- partitioning in place -----------------------------------------------------------

  lemma SliceMultiset(a: seq<Item>, b: seq<Item>, begin: nat, end: nat)
    requires begin <= end <= |a| == |b| && a[..begin] == b[..begin] && a[end..] == b[end..] && multiset(a) == multiset(b)
    ensures multiset(a[begin..end]) == multiset(b[begin..end])
  {
    assert a == a[..begin] + a[begin..end] + a[end..];
    assert b == b[..begin] + b[begin..end] + b[end..];
    forall x ensures multiset(a[begin..end])[x] == multiset(b[begin..end])[x] {
      assert multiset(a)[x] == multiset(b)[x];
    }
  }

  /** Items below the plane to the front of the range, all others behind them. */
  method Partition(items: array<Item>, begin: nat, end: nat, cut: Cut, plane: nat) returns (mid: nat)
    requires begin <= end <= items.Length && cut.hi > cut.lo
    modifies items
    ensures begin <= mid <= end
    ensures forall i :: begin <= i < mid ==> BinOf(cut, items[i]) < plane
    ensures forall i :: mid <= i < end ==> BinOf(cut, items[i]) >= plane
    ensures forall i :: 0 <= i < begin || end <= i < items.Length ==> items[i] == old(items[i])
    ensures multiset(items[..]) == multiset(old(items[..]))
  {
    hide BinOf;
    mid := begin;
    for i := begin to end
      invariant begin <= mid <= i
      invariant forall j :: begin <= j < mid ==> BinOf(cut, items[j]) < plane
      invariant forall j :: mid <= j < i ==> BinOf(cut, items[j]) >= plane
      invariant forall j :: 0 <= j < begin || end <= j < items.Length ==> items[j] == old(items[j])
      invariant multiset(items[..]) == multiset(old(items[..]))
    {
      if BinOf(cut, items[i]) < plane {
        items[i], items[mid] := items[mid], items[i];
        mid := mid + 1;
      }
    }
  }

  /** The two sides of the partition are the two sides of the plane. */
  lemma PartitionSides(q: seq<Item>, l: seq<Item>, r: seq<Item>, cut: Cut, plane: nat)
    requires cut.hi > cut.lo && plane <= BINS && multiset(l + r) == multiset(q)
    requires forall i :: 0 <= i < |l| ==> BinOf(cut, l[i]) < plane
    requires forall i :: 0 <= i < |r| ==> BinOf(cut, r[i]) >= plane
    ensures multiset(l) == multiset(Left(q, cut, plane)) && multiset(r) == multiset(Right(q, cut, plane))
    ensures |l| == |Left(q, cut, plane)| && |r| == |Right(q, cut, plane)|
  {
    forall x ensures multiset(l)[x] == multiset(Left(q, cut, plane))[x] && multiset(r)[x] == multiset(Right(q, cut, plane))[x] {
      WithinCount(q, cut, 0, plane, x);
      WithinCount(q, cut, plane, BINS, x);
      assert multiset(l)[x] + multiset(r)[x] == multiset(l + r)[x];
      assert x in multiset(l) ==> x in l;
      assert x in multiset(r) ==> x in r;
    }
    assert |multiset(l)| == |l| && |multiset(r)| == |r|;
    assert |multiset(Left(q, cut, plane))| == |Left(q, cut, plane)|;
    assert |multiset(Right(q, cut, plane))| == |Right(q, cut, plane)|;
  }

  // ---- deciding and splitting one range --------------------------------------------------

  method Measure(items: array<Item>, begin: nat, end: nat) returns (bounds: Aabb, centroids: Aabb)
    requires begin <= end <= items.Length
    ensures bounds == Bounds(items[begin..end]) && centroids == CentroidBounds(items[begin..end])
  {
    bounds, centroids := Empty, Empty;
    for i := begin to end
      invariant bounds == Bounds(items[begin..i]) && centroids == CentroidBounds(items[begin..i])
    {
      assert items[begin..i + 1][..i - begin] == items[begin..i];
      bounds := Union(bounds, items[i].box);
      centroids := Union(centroids, Spot(items[i].centroid));
    }
  }

  method BestPlane(q: seq<Item>, cut: Cut) returns (best: Option<(nat, real)>)
    requires cut.hi > cut.lo
    ensures BestSoFar(q, cut, 1, best)
  {
    var boxes := new Aabb[BINS](_ => Empty);
    var counts := new nat[BINS](_ => 0);
    FillBins(q, cut, boxes, counts);
    best := Sweep(q, cut, boxes, counts);
  }

  /** A lone sweep result settles the question. */
  lemma Decision(q: seq<Item>, best: Option<(nat, real)>)
    requires |q| > MAX_LEAF && CutOf(q).hi > CutOf(q).lo && BestSoFar(q, CutOf(q), 1, best)
    ensures if best.None? || LeafCost(q) <= best.value.1 then StaysWhole(q) else SplitsAt(q, best.value.0)
  {
    if best.None? {
      forall p ensures !Separates(q, CutOf(q), p) {}
    }
  }

  /** Leave the range whole, or split it at the cheapest plane. */
  method Decide(q: seq<Item>, bounds: Aabb, centroids: Aabb) returns (plane: Option<nat>)
    requires bounds == Bounds(q) && centroids == CentroidBounds(q)
    ensures plane.None? ==> StaysWhole(q)
    ensures plane.Some? ==> SplitsAt(q, plane.value)
  {
    if |q| <= MAX_LEAF { return None; }
    var cut := CutAlong(centroids);
    if !(cut.hi > cut.lo) { return None; }
    var best := BestPlane(q, cut);
    var leafCost := AreaTimes(bounds, |q|);
    Decision(q, best);
    if best.None? || leafCost <= best.value.1 { return None; }
    plane := Some(best.value.0);
  }

  ghost predicate SplitInto(q: seq<Item>, plane: nat, l: seq<Item>, r: seq<Item>) {
    var cut := CutOf(q);
    cut.hi > cut.lo && l != [] && r != []
    && multiset(l) == multiset(Left(q, cut, plane)) && multiset(r) == multiset(Right(q, cut, plane))
  }

  lemma SidesSplit(q: seq<Item>, l: seq<Item>, r: seq<Item>, plane: nat)
    requires CutOf(q).hi > CutOf(q).lo && Separates(q, CutOf(q), plane) && multiset(l + r) == multiset(q)
    requires forall i :: 0 <= i < |l| ==> BinOf(CutOf(q), l[i]) < plane
    requires forall i :: 0 <= i < |r| ==> BinOf(CutOf(q), r[i]) >= plane
    ensures SplitInto(q, plane, l, r)
  {
    PartitionSides(q, l, r, CutOf(q), plane);
  }

  /** Partition the range; both sides are non-empty, so the source's guard
      against an empty side never fires. */
  method Split(items: array<Item>, begin: nat, end: nat, centroids: Aabb, plane: nat) returns (mid: nat)
    requires begin <= end <= items.Length && centroids == CentroidBounds(items[begin..end])
    requires var q := items[begin..end]; CutOf(q).hi > CutOf(q).lo && Separates(q, CutOf(q), plane)
    modifies items
    ensures begin < mid < end && SplitInto(old(items[begin..end]), plane, items[begin..mid], items[mid..end])
    ensures forall i :: 0 <= i < begin || end <= i < items.Length ==> items[i] == old(items[i])
    ensures multiset(items[begin..end]) == multiset(old(items[begin..end]))
  {
    ghost var before := items[..];
    var cut := CutAlong(centroids);
    mid := Partition(items, begin, end, cut, plane);
    SlicesSplit(before, items[..], begin, mid, end, cut, plane);
    if mid == begin || mid == end {
      assert false;
    }
  }

  lemma SlicesSplit(a: seq<Item>, b: seq<Item>, begin: nat, mid: nat, end: nat, cut: Cut, plane: nat)
    requires begin <= mid <= end <= |a| == |b| && multiset(b) == multiset(a)
    requires forall i :: 0 <= i < begin || end <= i < |a| ==> a[i] == b[i]
    requires cut == CutOf(a[begin..end]) && cut.hi > cut.lo && Separates(a[begin..end], cut, plane)
    requires forall i :: begin <= i < mid ==> BinOf(cut, b[i]) < plane
    requires forall i :: mid <= i < end ==> BinOf(cut, b[i]) >= plane
    ensures multiset(b[begin..end]) == multiset(a[begin..end])
    ensures SplitInto(a[begin..end], plane, b[begin..mid], b[mid..end])
  {
    SliceMultiset(a, b, begin, end);
    var l, r := b[begin..mid], b[mid..end];
    assert b[begin..end] == l + r;
    SidesSplit(a[begin..end], l, r, plane);
  }
}
