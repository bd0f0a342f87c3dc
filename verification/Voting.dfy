/** What the vote means: clusters are an online form of counting, and a lie
    cannot win while liars are few. */
module Voting {
  import opened Basics
  import opened Quorum

  // ---- the clustering ---------------------------------------------------------------

  /** Members, in order of arrival, agree pairwise. */
  ghost predicate Agreeing(k: Comparator, subs: seq<Submission>, c: seq<nat>)
    requires Below(c, |subs|)
  {
    forall a, b :: 0 <= a < b < |c| ==> c[a] < c[b] && Agrees(k, subs[c[b]], subs[c[a]])
  }

  /** `i` disagrees with an earlier member of `c`. */
  ghost predicate Refused(k: Comparator, subs: seq<Submission>, i: nat, c: seq<nat>)
    requires i < |subs| && Below(c, |subs|)
  {
    exists a :: 0 <= a < |c| && c[a] < i && !Agrees(k, subs[i], subs[c[a]])
  }

  /** Clusters agree internally, though agreement need not be transitive; and a
      member of a later cluster was refused by every cluster before it. */
  ghost predicate Greedy(k: Comparator, subs: seq<Submission>, cs: seq<seq<nat>>)
    requires InRange(cs, |subs|)
  {
    (forall c :: 0 <= c < |cs| ==> Agreeing(k, subs, cs[c]))
    && (forall c, d, b :: 0 <= c < d < |cs| && 0 <= b < |cs[d]| ==> Refused(k, subs, cs[d][b], cs[c]))
  }

  lemma AgreeingAppend(k: Comparator, subs: seq<Submission>, c: seq<nat>, i: nat)
    requires i < |subs| && Below(c, i) && Agreeing(k, subs, c) && Fits(k, subs, i, c)
    ensures Agreeing(k, subs, c + [i])
  {
  }

  lemma RefusedAppend(k: Comparator, subs: seq<Submission>, i: nat, c: seq<nat>, j: nat)
    requires i < |subs| && j < |subs| && Below(c, |subs|) && Refused(k, subs, i, c)
    ensures Refused(k, subs, i, c + [j])
  {
    var a :| 0 <= a < |c| && c[a] < i && !Agrees(k, subs[i], subs[c[a]]);
    assert (c + [j])[a] == c[a];
  }

  lemma PlaceKeepsAgreeing(k: Comparator, subs: seq<Submission>, i: nat, cs: seq<seq<nat>>, c: nat)
    requires i < |subs| && InRange(cs, i) && c < |Place(k, subs, i, cs)|
    requires c < |cs| ==> Agreeing(k, subs, cs[c])
    ensures Below(Place(k, subs, i, cs)[c], i + 1) && Agreeing(k, subs, Place(k, subs, i, cs)[c])
  {
    if Home(k, subs, i, cs) == Some(c) {
      AgreeingAppend(k, subs, cs[c], i);
    } else {
      assert c < |cs| ==> Place(k, subs, i, cs)[c] == cs[c];
    }
  }

  lemma PlaceKeepsRefused(k: Comparator, subs: seq<Submission>, i: nat, cs: seq<seq<nat>>, c: nat, d: nat, b: nat)
    requires i < |subs| && InRange(cs, i) && c < d < |Place(k, subs, i, cs)| && b < |Place(k, subs, i, cs)[d]|
    requires d < |cs| && b < |cs[d]| ==> Refused(k, subs, cs[d][b], cs[c])
    ensures var r := Place(k, subs, i, cs);
            Below(r[c], i + 1) && r[d][b] <= i && Refused(k, subs, r[d][b], r[c])
  {
    var r := Place(k, subs, i, cs);
    assert Below(cs[c], i);
    if d < |cs| && b < |cs[d]| {
      assert Below(cs[d], i);
      RefusedAppend(k, subs, cs[d][b], cs[c], i);
    } else {
      assert r[d][b] == i && r[c] == cs[c] && !Fits(k, subs, i, cs[c]);
    }
  }

  /** Greedy clustering, whatever the comparator. */
  lemma {:induction false} ClustersAreGreedy(k: Comparator, subs: seq<Submission>, n: nat)
    requires n <= |subs|
    ensures Greedy(k, subs, Clusters(k, subs, n))
  {
    if n > 0 {
      var cs, i := Clusters(k, subs, n - 1), n - 1;
      ClustersAreGreedy(k, subs, i);
      forall c | 0 <= c < |Clusters(k, subs, n)| ensures Agreeing(k, subs, Clusters(k, subs, n)[c]) {
        PlaceKeepsAgreeing(k, subs, i, cs, c);
      }
      forall c, d, b | 0 <= c < d < |Clusters(k, subs, n)| && 0 <= b < |Clusters(k, subs, n)[d]|
        ensures Refused(k, subs, Clusters(k, subs, n)[d][b], Clusters(k, subs, n)[c])
      {
        PlaceKeepsRefused(k, subs, i, cs, c, d, b);
      }
    }
  }

  function Flatten(cs: seq<seq<nat>>): seq<nat> {
    if cs == [] then [] else Flatten(cs[..|cs| - 1]) + cs[|cs| - 1]
  }

  lemma {:induction false} FlattenUpdate(cs: seq<seq<nat>>, c: nat, i: nat)
    requires c < |cs|
    ensures multiset(Flatten(cs[c := cs[c] + [i]])) == multiset(Flatten(cs)) + multiset{i}
  {
    var last := |cs| - 1;
    var cs' := cs[c := cs[c] + [i]];
    if c == last {
      assert cs'[..last] == cs[..last];
    } else {
      assert cs'[..last] == cs[..last][c := cs[..last][c] + [i]];
      FlattenUpdate(cs[..last], c, i);
    }
  }

  /** Every submission is in exactly one cluster. */
  lemma {:induction false} ClustersPartition(k: Comparator, subs: seq<Submission>, n: nat)
    requires n <= |subs|
    ensures multiset(Flatten(Clusters(k, subs, n))) == multiset(UpTo(n))
  {
    if n > 0 {
      ClustersPartition(k, subs, n - 1);
      var cs := Clusters(k, subs, n - 1);
      match Home(k, subs, n - 1, cs)
      case Some(c) => FlattenUpdate(cs, c, n - 1);
      case None => assert (cs + [[n - 1]])[..|cs|] == cs;
    }
  }

  lemma FitsLocally(k: Comparator, subs: seq<Submission>, more: seq<Submission>, i: nat, c: seq<nat>)
    requires i < |subs| && Below(c, i)
    ensures Fits(k, subs + more, i, c) <==> Fits(k, subs, i, c)
  {
    forall a | 0 <= a < |c| ensures (subs + more)[c[a]] == subs[c[a]] {}
  }

  lemma HomeLocally(k: Comparator, subs: seq<Submission>, more: seq<Submission>, i: nat, cs: seq<seq<nat>>)
    requires i < |subs| && InRange(cs, i)
    ensures Home(k, subs + more, i, cs) == Home(k, subs, i, cs)
  {
    forall c | 0 <= c < |cs| ensures Fits(k, subs + more, i, cs[c]) <==> Fits(k, subs, i, cs[c]) {
      FitsLocally(k, subs, more, i, cs[c]);
    }
  }

  /** Clustering more submissions only extends the clustering of the first ones. */
  lemma {:induction false} ClustersExtend(k: Comparator, subs: seq<Submission>, more: seq<Submission>, n: nat)
    requires n <= |subs|
    ensures Clusters(k, subs + more, n) == Clusters(k, subs, n)
  {
    if n > 0 {
      ClustersExtend(k, subs, more, n - 1);
      HomeLocally(k, subs, more, n - 1, Clusters(k, subs, n - 1));
    }
  }

  // ---- exact kernels: counting ---------------------------------------------------------

  function Checksums(subs: seq<Submission>): (r: seq<nat>)
    ensures |r| == |subs| && forall i :: 0 <= i < |subs| ==> r[i] == subs[i].checksum
  {
    seq(|subs|, (i: nat) requires i < |subs| => subs[i].checksum)
  }

  /** How often `x` was answered among the first `n`. */
  function Times(subs: seq<Submission>, n: nat, x: nat): nat
    requires n <= |subs|
  {
    if n == 0 then 0 else Times(subs, n - 1, x) + if subs[n - 1].checksum == x then 1 else 0
  }

  lemma {:induction false} TimesIsMultiplicity(subs: seq<Submission>, n: nat, x: nat)
    requires n <= |subs|
    ensures Times(subs, n, x) == multiset(Checksums(subs)[..n])[x]
  {
    if n > 0 {
      TimesIsMultiplicity(subs, n - 1, x);
      assert Checksums(subs)[..n] == Checksums(subs)[..n - 1] + [subs[n - 1].checksum];
    }
  }

  function Label(subs: seq<Submission>, c: seq<nat>): nat
    requires c != [] && Below(c, |subs|)
  {
    subs[c[0]].checksum
  }

  /** `c` is all the submissions among the first `n` that answered its label. */
  ghost predicate IsClass(subs: seq<Submission>, n: nat, c: seq<nat>)
    requires n <= |subs| && c != [] && Below(c, n)
  {
    (forall a :: 0 <= a < |c| ==> subs[c[a]].checksum == Label(subs, c))
    && |c| == Times(subs, n, Label(subs, c))
  }

  ghost predicate HasLabel(subs: seq<Submission>, cs: seq<seq<nat>>, x: nat)
    requires InRange(cs, |subs|)
  {
    exists c :: 0 <= c < |cs| && Label(subs, cs[c]) == x
  }

  /** One cluster per distinct checksum, holding all its submissions. */
  ghost predicate CountsExactly(subs: seq<Submission>, n: nat, cs: seq<seq<nat>>)
    requires n <= |subs| && InRange(cs, n)
  {
    (forall c :: 0 <= c < |cs| ==> IsClass(subs, n, cs[c]))
    && (forall c, d :: 0 <= c < d < |cs| ==> Label(subs, cs[c]) != Label(subs, cs[d]))
    && (forall a :: 0 <= a < n ==> HasLabel(subs, cs, subs[a].checksum))
  }

  /** In a class, fitting one member is fitting all. */
  lemma FitsClassIff(subs: seq<Submission>, i: nat, c: seq<nat>)
    requires i < |subs| && c != [] && Below(c, i) && IsClass(subs, i, c)
    ensures Fits(Exact, subs, i, c) <==> subs[i].checksum == Label(subs, c)
  {
    assert Fits(Exact, subs, i, c) ==> Agrees(Exact, subs[i], subs[c[0]]);
  }

  lemma {:induction false} TimesPositive(subs: seq<Submission>, n: nat, x: nat)
    requires n <= |subs|
    ensures Times(subs, n, x) > 0 <==> exists a :: 0 <= a < n && subs[a].checksum == x
  {
    if n > 0 {
      TimesPositive(subs, n - 1, x);
    }
  }

  /** For exact kernels, home is the class of the checksum. */
  lemma ExactHomeIs(subs: seq<Submission>, i: nat, cs: seq<seq<nat>>, c: nat)
    requires i < |subs| && InRange(cs, i) && c < |cs|
    requires forall d :: 0 <= d < |cs| ==> IsClass(subs, i, cs[d])
    requires forall d, e :: 0 <= d < e < |cs| ==> Label(subs, cs[d]) != Label(subs, cs[e])
    ensures Home(Exact, subs, i, cs) == Some(c) <==> Label(subs, cs[c]) == subs[i].checksum
  {
    FitsClassIff(subs, i, cs[c]);
    var h := Home(Exact, subs, i, cs);
    if h.Some? {
      FitsClassIff(subs, i, cs[h.value]);
    }
  }

  lemma ExactHomeless(subs: seq<Submission>, i: nat, cs: seq<seq<nat>>)
    requires i < |subs| && InRange(cs, i) && CountsExactly(subs, i, cs)
    ensures Home(Exact, subs, i, cs).None? <==> Times(subs, i, subs[i].checksum) == 0
  {
    TimesPositive(subs, i, subs[i].checksum);
    if Times(subs, i, subs[i].checksum) > 0 {
      var a :| 0 <= a < i && subs[a].checksum == subs[i].checksum;
      assert HasLabel(subs, cs, subs[a].checksum);
      var c :| 0 <= c < |cs| && Label(subs, cs[c]) == subs[i].checksum;
      ExactHomeIs(subs, i, cs, c);
    } else if Home(Exact, subs, i, cs).Some? {
      ExactHomeIs(subs, i, cs, Home(Exact, subs, i, cs).value);
    }
  }

  lemma ExactPlaceClass(subs: seq<Submission>, i: nat, cs: seq<seq<nat>>, c: nat)
    requires i < |subs| && InRange(cs, i) && CountsExactly(subs, i, cs) && c < |Place(Exact, subs, i, cs)|
    ensures var r := Place(Exact, subs, i, cs);
            r[c] != [] && Below(r[c], i + 1) && IsClass(subs, i + 1, r[c])
            && Label(subs, r[c]) == if c < |cs| then Label(subs, cs[c]) else subs[i].checksum
  {
    if c < |cs| {
      ExactHomeIs(subs, i, cs, c);
      assert IsClass(subs, i, cs[c]);
    } else {
      ExactHomeless(subs, i, cs);
    }
  }

  lemma ExactPlaceLabels(subs: seq<Submission>, i: nat, cs: seq<seq<nat>>, c: nat, d: nat)
    requires i < |subs| && InRange(cs, i) && CountsExactly(subs, i, cs) && c < d < |Place(Exact, subs, i, cs)|
    ensures var r := Place(Exact, subs, i, cs);
            r[c] != [] && r[d] != [] && Below(r[c], |subs|) && Below(r[d], |subs|) && Label(subs, r[c]) != Label(subs, r[d])
  {
    ExactPlaceClass(subs, i, cs, c);
    ExactPlaceClass(subs, i, cs, d);
    if d == |cs| {
      ExactHomeIs(subs, i, cs, c);
    }
  }

  lemma ExactPlaceFinds(subs: seq<Submission>, i: nat, cs: seq<seq<nat>>, a: nat)
    requires i < |subs| && InRange(cs, i) && CountsExactly(subs, i, cs) && a <= i
    requires InRange(Place(Exact, subs, i, cs), |subs|)
    ensures HasLabel(subs, Place(Exact, subs, i, cs), subs[a].checksum)
  {
    var r := Place(Exact, subs, i, cs);
    if a < i {
      assert HasLabel(subs, cs, subs[a].checksum);
      var c :| 0 <= c < |cs| && Label(subs, cs[c]) == subs[a].checksum;
      ExactPlaceClass(subs, i, cs, c);
      assert Label(subs, r[c]) == subs[a].checksum;
    } else {
      var c := Home(Exact, subs, i, cs).GetOr(|cs|);
      ExactPlaceClass(subs, i, cs, c);
      if c < |cs| {
        ExactHomeIs(subs, i, cs, c);
      }
      assert Label(subs, r[c]) == subs[a].checksum;
    }
  }

  lemma ExactPlaceCounts(subs: seq<Submission>, i: nat, cs: seq<seq<nat>>)
    requires i < |subs| && InRange(cs, i) && CountsExactly(subs, i, cs)
    ensures InRange(Place(Exact, subs, i, cs), i + 1) && CountsExactly(subs, i + 1, Place(Exact, subs, i, cs))
  {
    var r := Place(Exact, subs, i, cs);
    forall c | 0 <= c < |r| ensures r[c] != [] && Below(r[c], i + 1) && IsClass(subs, i + 1, r[c]) {
      ExactPlaceClass(subs, i, cs, c);
    }
    forall c, d | 0 <= c < d < |r| ensures Label(subs, r[c]) != Label(subs, r[d]) {
      ExactPlaceLabels(subs, i, cs, c, d);
    }
    forall a | 0 <= a < i + 1 ensures HasLabel(subs, r, subs[a].checksum) {
      ExactPlaceFinds(subs, i, cs, a);
    }
  }

  lemma ExactClustersStep(subs: seq<Submission>, i: nat)
    requires i < |subs| && CountsExactly(subs, i, Clusters(Exact, subs, i))
    ensures CountsExactly(subs, i + 1, Clusters(Exact, subs, i + 1))
  {
    ExactPlaceCounts(subs, i, Clusters(Exact, subs, i));
    assert Clusters(Exact, subs, i + 1) == Place(Exact, subs, i, Clusters(Exact, subs, i));
  }

  lemma NothingCounted(subs: seq<Submission>)
    ensures CountsExactly(subs, 0, Clusters(Exact, subs, 0))
  {
  }

  lemma {:induction false} ExactClustersCount(subs: seq<Submission>, n: nat)
    requires n <= |subs|
    ensures CountsExactly(subs, n, Clusters(Exact, subs, n))
  {
    if n == 0 {
      NothingCounted(subs);
    } else {
      ExactClustersCount(subs, n - 1);
      ExactClustersStep(subs, n - 1);
    }
  }
}
