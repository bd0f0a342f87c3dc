/** The contract check that accompanies the loader (fuzz/fuzz_bvh.cpp): it
    re-derives the contract and walks the tree with an explicit stack. */
module BvhOracle {
  import opened Basics
  import opened BvhTrees
  import opened BvhFormat
  import opened Words
  import opened BvhLoader

  datatype Violation = EmptySection | BrokenNode | BrokenPrim | Cycle | TwoPaths

  method CheckTables(b: Parts) returns (v: Option<Violation>)
    ensures v.None? <==> b.nodes != [] && b.prims != [] && b.materials != [] && NodesOk(b.nodes, |b.prims|)
                         && forall i :: 0 <= i < |b.prims| ==> PrimOk(b.prims[i], |b.materials|)
  {
    if b.nodes == [] || b.prims == [] || b.materials == [] { return Some(EmptySection); }
    for i := 0 to |b.nodes|
      invariant forall j :: 0 <= j < i ==> NodeOk(b.nodes, |b.prims|, j)
    {
      var n := b.nodes[i];
      var bad :=
        if IsLeaf(n) then Count(n) == 0 || n.leftOrFirst + Count(n) > |b.prims|
        else Count(n) != 0 || n.leftOrFirst <= i || n.leftOrFirst + 1 >= |b.nodes|;
      assert bad <==> !NodeOk(b.nodes, |b.prims|, i);
      if bad { return Some(BrokenNode); }
    }
    for i := 0 to |b.prims|
      invariant forall j :: 0 <= j < i ==> PrimOk(b.prims[j], |b.materials|)
    {
      var p := b.prims[i];
      if (p.kind != SPHERE && p.kind != TRIANGLE) || p.material >= |b.materials| { return Some(BrokenPrim); }
    }
    v := None;
  }

  ghost predicate HasWay(i: nat, done: set<seq<nat>>) {
    exists d :: d in done && d != [] && Last(d) == i
  }

  ghost predicate Endpoints(k: Shape, visited: set<nat>, done: set<seq<nat>>) {
    (forall i <- visited :: i < |k|)
    && (forall i {:trigger HasWay(i, done)} :: i in visited ==> HasWay(i, done))
    && (forall d <- done :: d != [] && Last(d) in visited)
    && (forall d, e :: d in done && e in done && d != [] && e != [] && Last(d) == Last(e) ==> d == e)
  }

  ghost predicate Waiting(k: Shape, stack: seq<nat>, ways: seq<seq<nat>>) {
    |ways| == |stack| && forall a :: 0 <= a < |ways| ==> ways[a] != [] && Last(ways[a]) == stack[a] < |k|
  }

  /** The stack holds the ends of the paths still to walk, and the nodes visited
      are the ends of those already walked, one each. */
  ghost predicate OnCourse(k: Shape, visited: set<nat>, stack: seq<nat>, done: set<seq<nat>>, ways: seq<seq<nat>>) {
    Explored(k, done, ways) && Endpoints(k, visited, done) && Waiting(k, stack, ways)
  }

  lemma Setout(k: Shape)
    requires k != []
    ensures OnCourse(k, {}, [0], {}, [[0]])
  {
    NothingExplored(k);
  }

  /** A node met again is reached by two paths. */
  lemma MetAgain(k: Shape, visited: set<nat>, stack: seq<nat>, done: set<seq<nat>>, ways: seq<seq<nat>>)
    requires stack != [] && OnCourse(k, visited, stack, done, ways) && Last(stack) in visited
    ensures !OneWay(k)
  {
    assert HasWay(Last(stack), done);
    var d :| d in done && d != [] && Last(d) == Last(stack);
    var way := ways[|ways| - 1];
    assert IsPath(k, d) && IsPath(k, way) && d != way && Last(d) == Last(way);
  }

  lemma EndpointsNext(k: Shape, visited: set<nat>, done: set<seq<nat>>, way: seq<nat>)
    requires Endpoints(k, visited, done) && way != [] && Last(way) < |k| && Last(way) !in visited
    ensures Endpoints(k, visited + {Last(way)}, done + {way})
  {
    forall i <- visited + {Last(way)} ensures HasWay(i, done + {way}) {
      if i in visited {
        assert HasWay(i, done);
        var d :| d in done && d != [] && Last(d) == i;
        assert d in done + {way};
      } else {
        assert way in done + {way};
      }
    }
  }

  function Pushed(k: Shape, at: nat, rest: seq<nat>): seq<nat>
    requires at < |k|
  {
    if k[at].Some? then rest + [k[at].value, k[at].value + 1] else rest
  }

  lemma WaitingNext(k: Shape, stack: seq<nat>, ways: seq<seq<nat>>)
    requires Increasing(k) && stack != [] && Waiting(k, stack, ways)
    ensures var way := ways[|ways| - 1];
            way != [] && Last(way) == Last(stack) < |k|
            && Waiting(k, Pushed(k, Last(stack), stack[..|stack| - 1]), ways[..|ways| - 1] + Extended(k, way))
  {
  }

  lemma StayOnCourse(k: Shape, visited: set<nat>, stack: seq<nat>, done: set<seq<nat>>, ways: seq<seq<nat>>)
    returns (done': set<seq<nat>>, ways': seq<seq<nat>>)
    requires Increasing(k) && stack != [] && OnCourse(k, visited, stack, done, ways) && Last(stack) !in visited
    ensures Last(stack) < |k|
    ensures OnCourse(k, visited + {Last(stack)}, Pushed(k, Last(stack), stack[..|stack| - 1]), done', ways')
  {
    WaitingNext(k, stack, ways);
    var rest, way := ways[..|ways| - 1], ways[|ways| - 1];
    assert ways == rest + [way];
    ExploreOn(k, done, rest, way);
    EndpointsNext(k, visited, done, way);
    done', ways' := done + {way}, rest + Extended(k, way);
  }

  ghost predicate Marks(seen: seq<bool>, visited: set<nat>) {
    forall i: nat :: i < |seen| ==> (seen[i] <==> i in visited)
  }

  /** With nothing left to walk, the nodes reached are those visited. */
  lemma WalkEnds(k: Shape, visited: set<nat>, done: set<seq<nat>>)
    requires k != [] && Increasing(k) && OnCourse(k, visited, [], done, [])
    ensures OneWay(k) && (|visited| == |k| <==> IsTree(k))
  {
    forall path | IsPath(k, path) ensures path in done {
      assert !Ahead(path, []);
    }
    TreeIffOneWay(k);
    if |visited| == |k| {
      forall i | 0 <= i < |k| ensures Reached(k, i) {
        FullSetHasAll(visited, |k|, i);
        assert HasWay(i, done);
        var d :| d in done && d != [] && Last(d) == i;
        assert IsPath(k, d);
      }
    }
    if IsTree(k) {
      forall i: nat | i < |k| ensures i in visited {
        assert Reached(k, i);
        var path :| IsPath(k, path) && Last(path) == i;
      }
      AllNodesSeen(visited, |k|);
    }
  }

  /** Start at the root and follow children. The walk objects exactly when some
      node is reached by two paths; otherwise it visits every node just when the
      nodes form one tree. */
  method Walk(nodes: seq<Node>) returns (v: Option<Violation>, visits: nat)
    requires nodes != [] && Increasing(ShapeOf(nodes))
    ensures v.None? <==> OneWay(ShapeOf(nodes))
    ensures v.None? ==> (visits == |nodes| <==> IsTree(ShapeOf(nodes)))
  {
    ghost var k := ShapeOf(nodes);
    var seen := new bool[|nodes|](_ => false);
    var stack: seq<nat> := [0];
    ghost var visited: set<nat>, done: set<seq<nat>>, ways := {}, {}, [[0]];
    visits := 0;
    Setout(k);
    while stack != []
      invariant OnCourse(k, visited, stack, done, ways) && Marks(seen[..], visited)
      invariant visits == |visited|
      decreases |nodes| - visits
    {
      SubsetSize(visited, |nodes|);
      var at := stack[|stack| - 1];
      visits := visits + 1;
      if visits > |nodes| {
        FullSetHasAll(visited, |nodes|, at);
        MetAgain(k, visited, stack, done, ways);
        return Some(Cycle), visits;
      }
      if seen[at] {
        MetAgain(k, visited, stack, done, ways);
        return Some(TwoPaths), visits;
      }
      done, ways := StayOnCourse(k, visited, stack, done, ways);
      stack := stack[..|stack| - 1];
      seen[at] := true;
      visited := visited + {at};
      if !IsLeaf(nodes[at]) {
        stack := stack + [nodes[at].leftOrFirst as nat, nodes[at].leftOrFirst as nat + 1];
      }
    }
    WalkEnds(k, visited, done);
    v := None;
  }

  function Below(n: nat): (r: set<nat>)
    ensures forall i: nat :: i in r <==> i < n
  {
    if n == 0 then {} else Below(n - 1) + {n - 1}
  }

  lemma {:induction false} BelowSize(n: nat)
    ensures |Below(n)| == n
  {
    if n == 0 {
      assert Below(0) == {};
    } else {
      BelowSize(n - 1);
      assert Below(n) == Below(n - 1) + {n - 1};
    }
  }

  lemma {:induction false} SubsetCard(a: set<nat>, b: set<nat>)
    requires a <= b
    ensures |a| <= |b| && (|a| == |b| ==> a == b)
  {
    if a != {} {
      var x :| x in a;
      SubsetCard(a - {x}, b - {x});
      assert a == a - {x} + {x} && b == b - {x} + {x};
    }
  }

  lemma SubsetSize(s: set<nat>, n: nat)
    requires forall i <- s :: i < n
    ensures |s| <= n
  {
    BelowSize(n);
    SubsetCard(s, Below(n));
  }

  lemma FullSetHasAll(s: set<nat>, n: nat, x: nat)
    requires (forall i <- s :: i < n) && |s| >= n && x < n
    ensures x in s
  {
    BelowSize(n);
    SubsetCard(s, Below(n));
  }

  lemma AllNodesSeen(s: set<nat>, n: nat)
    requires (forall i <- s :: i < n) && forall i: nat :: i < n ==> i in s
    ensures |s| == n
  {
    BelowSize(n);
    assert s == Below(n);
  }

  ghost predicate Contract(b: Parts) {
    b.nodes != [] && b.prims != [] && b.materials != [] && NodesOk(b.nodes, |b.prims|)
    && (forall i :: 0 <= i < |b.prims| ==> PrimOk(b.prims[i], |b.materials|))
    && OneWay(ShapeOf(b.nodes))
  }

  method AssertContractHolds(b: Parts) returns (v: Option<Violation>)
    ensures v.None? <==> Contract(b)
  {
    v := CheckTables(b);
    if v.Some? { return; }
    NodesIncrease(b.nodes, |b.prims|);
    var visits: nat;
    v, visits := Walk(b.nodes);
  }

  /** What the loader accepts meets the contract, which it states more
      strongly: the oracle does not ask that every node be reached. */
  lemma LoadedMeetsContract(b: Parts)
    requires WellFormed(b)
    ensures Contract(b)
  {
    NodesIncrease(b.nodes, |b.prims|);
    TreeIffOneWay(ShapeOf(b.nodes));
  }

  /** Whatever bytes arrive: if the loader accepts them, the contract holds. */
  method TestOneInput(bytes: seq<Byte>) returns (v: Option<Violation>)
    ensures v.None?
  {
    var r := LoadBvh(bytes);
    if r.Rejected? { return None; }
    LoadedMeetsContract(r.bvh.parts);
    v := AssertContractHolds(r.bvh.parts);
  }
}
