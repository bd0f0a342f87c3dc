/** The vote as the source counts it: clusters and the best one grown in loops
    (src/coordinator/quorum.cpp), proved against `Quorum.Decide`. */
module Ballots {
  import opened Basics
  import opened Quorum

  /** Compare with every member, stopping at the first that disagrees. */
  method AgreesWithAll(k: Comparator, subs: seq<Submission>, i: nat, cluster: seq<nat>) returns (all: bool)
    requires i < |subs| && Below(cluster, |subs|)
    ensures all <==> Fits(k, subs, i, cluster)
  {
    for a := 0 to |cluster|
      invariant forall b :: 0 <= b < a ==> Agrees(k, subs[i], subs[cluster[b]])
    {
      if !Agrees(k, subs[i], subs[cluster[a]]) { return false; }
    }
    all := true;
  }

  method PlaceOne(k: Comparator, subs: seq<Submission>, i: nat, clusters: seq<seq<nat>>) returns (r: seq<seq<nat>>)
    requires i < |subs| && InRange(clusters, i)
    ensures r == Place(k, subs, i, clusters)
  {
    for c := 0 to |clusters|
      invariant forall d :: 0 <= d < c ==> !Fits(k, subs, i, clusters[d])
    {
      var all := AgreesWithAll(k, subs, i, clusters[c]);
      if all {
        return clusters[c := clusters[c] + [i]];
      }
    }
    r := clusters + [[i]];
  }

  method Cluster(k: Comparator, subs: seq<Submission>) returns (clusters: seq<seq<nat>>)
    ensures clusters == Clusters(k, subs, |subs|)
  {
    clusters := [];
    for i := 0 to |subs|
      invariant clusters == Clusters(k, subs, i)
    {
      clusters := PlaceOne(k, subs, i, clusters);
    }
  }

  method Largest(clusters: seq<seq<nat>>) returns (best: nat)
    requires clusters != []
    ensures best == Best(clusters)
  {
    best := 0;
    for c := 1 to |clusters|
      invariant best == Best(clusters[..c])
    {
      assert clusters[..c + 1][..c] == clusters[..c];
      if |clusters[c]| > |clusters[best]| { best := c; }
    }
    assert clusters[..|clusters|] == clusters;
  }

  /** The workers of the best cluster, and of all others in order. */
  method Collect(subs: seq<Submission>, clusters: seq<seq<nat>>, best: nat)
    returns (agreeing: seq<WorkerId>, dissenting: seq<WorkerId>)
    requires best < |clusters| && InRange(clusters, |subs|)
    ensures agreeing == WorkersOf(subs, clusters[best])
    ensures dissenting == Concat(subs, Others(clusters, best, |subs|))
  {
    agreeing, dissenting := [], [];
    BesideEnds(subs, clusters, best);
    hide WorkersOf, Concat, Beside;
    for c := 0 to |clusters|
      invariant agreeing == if c <= best then [] else WorkersOf(subs, clusters[best])
      invariant dissenting == Concat(subs, Beside(clusters, best, c, |subs|))
    {
      BesideNext(subs, clusters, best, c);
      if c == best {
        agreeing := WorkersOf(subs, clusters[c]);
      } else {
        dissenting := dissenting + WorkersOf(subs, clusters[c]);
      }
    }
  }

  /** Before the first cluster nothing is collected, after the last everything. */
  lemma BesideEnds(subs: seq<Submission>, clusters: seq<seq<nat>>, best: nat)
    requires best < |clusters| && InRange(clusters, |subs|)
    ensures Concat(subs, Beside(clusters, best, 0, |subs|)) == []
    ensures Beside(clusters, best, |clusters|, |subs|) == Others(clusters, best, |subs|)
  {
  }

  /** The first `c` clusters but the best. */
  function Beside(clusters: seq<seq<nat>>, best: nat, c: nat, n: nat): (r: seq<seq<nat>>)
    requires c <= |clusters| && InRange(clusters, n)
    ensures InRange(r, n)
  {
    if c <= best then clusters[..c] else clusters[..best] + clusters[best + 1..c]
  }

  lemma ConcatSnoc(subs: seq<Submission>, cs: seq<seq<nat>>, c: seq<nat>)
    requires InRange(cs, |subs|) && c != [] && Below(c, |subs|)
    ensures InRange(cs + [c], |subs|) && Concat(subs, cs + [c]) == Concat(subs, cs) + WorkersOf(subs, c)
  {
    assert (cs + [c])[..|cs|] == cs;
  }

  lemma BesideIs(clusters: seq<seq<nat>>, best: nat, c: nat, n: nat)
    requires c < |clusters| && InRange(clusters, n)
    ensures Beside(clusters, best, c + 1, n) == Beside(clusters, best, c, n) + if c == best then [] else [clusters[c]]
  {
    if c < best {
      assert clusters[..c + 1] == clusters[..c] + [clusters[c]];
    } else if c > best {
      assert clusters[best + 1..c + 1] == clusters[best + 1..c] + [clusters[c]];
    } else {
      assert clusters[c + 1..c + 1] == [];
    }
  }

  lemma BesideNext(subs: seq<Submission>, clusters: seq<seq<nat>>, best: nat, c: nat)
    requires c < |clusters| && InRange(clusters, |subs|)
    ensures Concat(subs, Beside(clusters, best, c + 1, |subs|))
            == if c == best then Concat(subs, Beside(clusters, best, c, |subs|))
               else Concat(subs, Beside(clusters, best, c, |subs|)) + WorkersOf(subs, clusters[c])
  {
    var here := Beside(clusters, best, c, |subs|);
    BesideIs(clusters, best, c, |subs|);
    if c == best {
      assert here + [] == here;
    } else {
      ConcatSnoc(subs, here, clusters[c]);
    }
  }

  method Judge(k: Comparator, cfg: Config, subs: seq<Submission>) returns (v: Verdict)
    ensures v == Decide(k, cfg, subs)
  {
    if subs == [] { return Verdict(NeedMoreReplicas, [], []); }
    if cfg.policy.Unreplicated? { return Verdict(Accept, [subs[0].worker], []); }
    var clusters := Cluster(k, subs);
    var best := Largest(clusters);
    var size := |clusters[best]|;
    if size < cfg.required {
      if |subs| < cfg.maxReplicas { return Verdict(NeedMoreReplicas, [], []); }
      if size * 2 <= |subs| { return Verdict(Inconclusive, [], []); }
    }
    var agreeing, dissenting := Collect(subs, clusters, best);
    v := Verdict(Accept, agreeing, dissenting);
  }
}
