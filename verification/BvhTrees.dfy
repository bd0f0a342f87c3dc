/** What a flat node array says about the tree it encodes (src/scene/bvh.cpp). */
module BvhTrees {
  import opened Basics

  /** For each node its left child, or none for a leaf; the right child is the
      next node. */
  type Shape = seq<Option<nat>>

  ghost predicate Increasing(k: Shape) {
    forall i :: 0 <= i < |k| && k[i].Some? ==> i < k[i].value && k[i].value + 1 < |k|
  }

  predicate IsChild(k: Shape, p: nat, c: nat) {
    p < |k| && k[p].Some? && (c == k[p].value || c == k[p].value + 1)
  }

  ghost predicate HasParent(k: Shape, c: nat) {
    exists p :: IsChild(k, p, c)
  }

  ghost predicate NoTwoParents(k: Shape) {
    forall p, q, c :: IsChild(k, p, c) && IsChild(k, q, c) ==> p == q
  }

  /** Children come after their parent, and every node but the root has exactly
      one parent. */
  ghost predicate IsTree(k: Shape) {
    k != [] && Increasing(k) && NoTwoParents(k) && forall c :: 0 < c < |k| ==> HasParent(k, c)
  }

  // ---- paths -------------------------------------------------------------------

  ghost predicate IsPath(k: Shape, path: seq<nat>) {
    path != [] && path[0] == 0 && forall a :: 0 < a < |path| ==> IsChild(k, path[a - 1], path[a])
  }

  function Last(path: seq<nat>): nat
    requires path != []
  {
    path[|path| - 1]
  }

  ghost function PathTo(k: Shape, i: nat): (path: seq<nat>)
    requires IsTree(k) && i < |k|
    ensures IsPath(k, path) && Last(path) == i
    decreases i
  {
    if i == 0 then [0]
    else
      assert HasParent(k, i);
      var p :| IsChild(k, p, i);
      PathTo(k, p) + [i]
  }

  /** There is exactly one path from the root to each node. */
  lemma {:induction false} OnePath(k: Shape, i: nat, path: seq<nat>)
    requires IsTree(k) && i < |k| && IsPath(k, path) && Last(path) == i
    ensures path == PathTo(k, i)
    decreases i
  {
    var own := PathTo(k, i);
    if i == 0 {
      assert |path| > 1 ==> IsChild(k, path[|path| - 2], 0);
    } else {
      assert |path| > 1 && |own| > 1;
      var p := path[|path| - 2];
      assert IsChild(k, p, i) && IsChild(k, own[|own| - 2], i);
      OnePath(k, p, path[..|path| - 1]);
      OnePath(k, p, own[..|own| - 1]);
    }
  }

  /** Nodes on the path from the root to `i`. */
  ghost function Depth(k: Shape, i: nat): nat
    requires IsTree(k) && i < |k|
  {
    |PathTo(k, i)|
  }

  lemma ChildDepth(k: Shape, p: nat, c: nat)
    requires IsTree(k) && IsChild(k, p, c)
    ensures p < c < |k| && Depth(k, c) == Depth(k, p) + 1
  {
    OnePath(k, c, PathTo(k, p) + [c]);
  }

  lemma RootDepth(k: Shape)
    requires IsTree(k)
    ensures Depth(k, 0) == 1
  {
  }

  /** `m` is the length of the longest path. */
  ghost predicate IsMaxDepth(k: Shape, m: nat)
    requires IsTree(k)
  {
    (forall i :: 0 <= i < |k| ==> Depth(k, i) <= m) && exists i :: 0 <= i < |k| && Depth(k, i) == m
  }

  // ---- walking it with an explicit stack ----------------------------------------------

  /** No node is reached by two paths. */
  ghost predicate OneWay(k: Shape) {
    forall a, b :: IsPath(k, a) && IsPath(k, b) && Last(a) == Last(b) ==> a == b
  }

  ghost predicate Reached(k: Shape, i: nat) {
    exists path :: IsPath(k, path) && Last(path) == i
  }

  ghost predicate Begun(path: seq<nat>, done: set<seq<nat>>) {
    |path| > 1 ==> path[..|path| - 1] in done
  }

  ghost predicate Ahead(path: seq<nat>, ways: seq<seq<nat>>) {
    exists a :: 0 <= a < |ways| && ways[a] <= path
  }

  /** `done` are the paths walked so far, `ways` those that wait on the stack;
      every other path continues one that waits. */
  ghost predicate Explored(k: Shape, done: set<seq<nat>>, ways: seq<seq<nat>>) {
    (forall d <- done :: IsPath(k, d))
    && (forall d {:trigger Begun(d, done)} :: d in done ==> Begun(d, done))
    && (forall a :: 0 <= a < |ways| ==> IsPath(k, ways[a]) && Begun(ways[a], done) && ways[a] !in done)
    && (forall a, b :: 0 <= a < b < |ways| ==> ways[a] != ways[b])
    && (forall path {:trigger Ahead(path, ways)} :: IsPath(k, path) ==> path in done || Ahead(path, ways))
  }

  lemma NothingExplored(k: Shape)
    ensures Explored(k, {}, [[0]])
  {
    forall path | IsPath(k, path) ensures Ahead(path, [[0]]) {
      assert [[0]][0] <= path;
    }
  }

  function Extended(k: Shape, way: seq<nat>): (r: seq<seq<nat>>)
    requires way != [] && Last(way) < |k|
  {
    if k[Last(way)].Some? then [way + [k[Last(way)].value], way + [k[Last(way)].value + 1]] else []
  }

  lemma ExtendedArePaths(k: Shape, way: seq<nat>, path: seq<nat>)
    requires IsPath(k, way) && Last(way) < |k|
    ensures path in Extended(k, way) <==> |path| == |way| + 1 && way <= path && IsPath(k, path)
  {
    if |path| == |way| + 1 && way <= path {
      assert path == way + [Last(path)];
    }
  }

  lemma PathContinues(k: Shape, way: seq<nat>, path: seq<nat>)
    requires IsPath(k, way) && Last(way) < |k| && IsPath(k, path) && way <= path && path != way
    ensures Ahead(path, Extended(k, way))
  {
    var next := path[..|way| + 1];
    assert IsPath(k, next) && way <= next;
    ExtendedArePaths(k, way, next);
    var a :| 0 <= a < |Extended(k, way)| && Extended(k, way)[a] == next;
    assert Extended(k, way)[a] <= path;
  }

  lemma StillAhead(k: Shape, way: seq<nat>, rest: seq<seq<nat>>, path: seq<nat>)
    requires IsPath(k, way) && Last(way) < |k| && IsPath(k, path) && path != way && Ahead(path, rest + [way])
    ensures Ahead(path, rest + Extended(k, way))
  {
    var a :| 0 <= a < |rest + [way]| && (rest + [way])[a] <= path;
    if a < |rest| {
      assert (rest + Extended(k, way))[a] <= path;
    } else {
      PathContinues(k, way, path);
      var b :| 0 <= b < |Extended(k, way)| && Extended(k, way)[b] <= path;
      assert (rest + Extended(k, way))[|rest| + b] <= path;
    }
  }

  lemma ExtendedAreNew(k: Shape, done: set<seq<nat>>, rest: seq<seq<nat>>, way: seq<nat>, path: seq<nat>)
    requires Explored(k, done, rest + [way]) && way != [] && Last(way) < |k| && path in Extended(k, way)
    ensures path !in done && path !in rest && path != way && Begun(path, done + {way})
  {
    assert way == (rest + [way])[|rest|];
    ExtendedArePaths(k, way, path);
    assert path[..|path| - 1] == way;
    assert path in done ==> Begun(path, done);
    assert forall a :: 0 <= a < |rest| ==> rest[a] == (rest + [way])[a];
  }

  lemma WaysApart(k: Shape, done: set<seq<nat>>, rest: seq<seq<nat>>, way: seq<nat>, a: nat, b: nat)
    requires Explored(k, done, rest + [way]) && way != [] && Last(way) < |k| && a < b < |rest + Extended(k, way)|
    ensures (rest + Extended(k, way))[a] != (rest + Extended(k, way))[b]
  {
    if b < |rest| {
      assert (rest + [way])[a] == rest[a] && (rest + [way])[b] == rest[b];
    } else if a < |rest| {
      assert Extended(k, way)[b - |rest|] in Extended(k, way) && rest[a] in rest;
      ExtendedAreNew(k, done, rest, way, Extended(k, way)[b - |rest|]);
    } else {
      assert Last(Extended(k, way)[0]) != Last(Extended(k, way)[1]);
    }
  }

  lemma WayIsNew(k: Shape, done: set<seq<nat>>, rest: seq<seq<nat>>, way: seq<nat>, a: nat)
    requires Explored(k, done, rest + [way]) && way != [] && Last(way) < |k| && a < |rest + Extended(k, way)|
    ensures var path := (rest + Extended(k, way))[a];
            IsPath(k, path) && Begun(path, done + {way}) && path !in done + {way}
  {
    assert way == (rest + [way])[|rest|];
    var path := (rest + Extended(k, way))[a];
    if a < |rest| {
      assert path == (rest + [way])[a];
    } else {
      assert path in Extended(k, way);
      ExtendedArePaths(k, way, path);
      ExtendedAreNew(k, done, rest, way, path);
    }
  }

  /** Walking the path on top of the stack. */
  lemma ExploreOn(k: Shape, done: set<seq<nat>>, rest: seq<seq<nat>>, way: seq<nat>)
    requires Explored(k, done, rest + [way]) && way != [] && Last(way) < |k|
    ensures way !in done && Explored(k, done + {way}, rest + Extended(k, way))
  {
    assert way == (rest + [way])[|rest|];
    forall d | d in done + {way} ensures Begun(d, done + {way}) {
      assert d in done ==> Begun(d, done);
    }
    forall a | 0 <= a < |rest + Extended(k, way)|
      ensures var path := (rest + Extended(k, way))[a];
              IsPath(k, path) && Begun(path, done + {way}) && path !in done + {way} {
      WayIsNew(k, done, rest, way, a);
    }
    forall a, b | 0 <= a < b < |rest + Extended(k, way)| ensures (rest + Extended(k, way))[a] != (rest + Extended(k, way))[b] {
      WaysApart(k, done, rest, way, a, b);
    }
    forall path | IsPath(k, path) ensures path in done + {way} || Ahead(path, rest + Extended(k, way)) {
      assert path in done || Ahead(path, rest + [way]);
      if path !in done && path != way {
        StillAhead(k, way, rest, path);
      }
    }
  }

  /** Of the shapes whose children come after their parent, the trees are
      those in which every node is reached by exactly one path. */
  lemma TreeIffOneWay(k: Shape)
    requires k != [] && Increasing(k)
    ensures IsTree(k) <==> OneWay(k) && forall i :: 0 <= i < |k| ==> Reached(k, i)
  {
    if IsTree(k) {
      forall a, b | IsPath(k, a) && IsPath(k, b) && Last(a) == Last(b) ensures a == b {
        EndsInside(k, a);
        OnePath(k, Last(a), a);
        OnePath(k, Last(b), b);
      }
      forall i | 0 <= i < |k| ensures Reached(k, i) {
        assert IsPath(k, PathTo(k, i)) && Last(PathTo(k, i)) == i;
      }
    }
    if OneWay(k) && forall i :: 0 <= i < |k| ==> Reached(k, i) {
      forall c | 0 < c < |k| ensures HasParent(k, c) {
        assert Reached(k, c);
        var path :| IsPath(k, path) && Last(path) == c;
        assert IsChild(k, path[|path| - 2], c);
      }
      forall p, q, c | IsChild(k, p, c) && IsChild(k, q, c) ensures p == q {
        assert Reached(k, p) && Reached(k, q);
        var a :| IsPath(k, a) && Last(a) == p;
        var b :| IsPath(k, b) && Last(b) == q;
        assert IsPath(k, a + [c]) && IsPath(k, b + [c]) && Last(a + [c]) == Last(b + [c]);
        assert a == (a + [c])[..|a|] && b == (b + [c])[..|b|];
      }
    }
  }

  lemma EndsInside(k: Shape, path: seq<nat>)
    requires k != [] && Increasing(k) && IsPath(k, path)
    ensures Last(path) < |k|
  {
    if |path| > 1 {
      assert IsChild(k, path[|path| - 2], path[|path| - 1]);
    }
  }
}
