/** For exact kernels the vote is counting: order does not matter, a lie cannot
    win while liars are few, and what it costs to keep the last answer. */
module Counting {
  import opened Basics
  import opened Quorum
  import opened Voting

  /** The cluster a decision would accept. */
  function Winning(k: Comparator, subs: seq<Submission>): (c: seq<nat>)
    requires subs != []
    ensures c != [] && Below(c, |subs|)
  {
    var cs := Clusters(k, subs, |subs|);
    cs[Best(cs)]
  }

  /** `m` is the highest frequency in `xs`. */
  ghost predicate IsTop(xs: seq<nat>, m: nat) {
    (forall x :: multiset(xs)[x] <= m) && (exists x :: multiset(xs)[x] == m)
  }

  lemma NoAnswerBeatsWinning(subs: seq<Submission>, x: nat)
    requires subs != []
    ensures multiset(Checksums(subs))[x] <= |Winning(Exact, subs)|
  {
    var cs, n := Clusters(Exact, subs, |subs|), |subs|;
    ExactClustersCount(subs, n);
    TimesIsMultiplicity(subs, n, x);
    assert Checksums(subs)[..n] == Checksums(subs);
    TimesPositive(subs, n, x);
    if Times(subs, n, x) > 0 {
      var a :| 0 <= a < n && subs[a].checksum == x;
      assert HasLabel(subs, cs, subs[a].checksum);
      var c :| 0 <= c < |cs| && Label(subs, cs[c]) == x;
      assert IsClass(subs, n, cs[c]) && IsBest(cs, Best(cs));
    }
  }

  /** The winning cluster is every submission of a most frequent checksum. */
  lemma ExactWinning(subs: seq<Submission>)
    requires subs != []
    ensures IsClass(subs, |subs|, Winning(Exact, subs))
    ensures IsTop(Checksums(subs), |Winning(Exact, subs)|)
  {
    var c, n := Winning(Exact, subs), |subs|;
    ExactClustersCount(subs, n);
    TimesIsMultiplicity(subs, n, Label(subs, c));
    assert Checksums(subs)[..n] == Checksums(subs);
    forall x ensures multiset(Checksums(subs))[x] <= |c| {
      NoAnswerBeatsWinning(subs, x);
    }
  }

  /** The decision from the numbers alone. */
  function Rule(cfg: Config, n: nat, top: nat): Action {
    if n == 0 then NeedMoreReplicas
    else if cfg.policy.Unreplicated? || top >= cfg.required then Accept
    else if n < cfg.maxReplicas then NeedMoreReplicas
    else if top * 2 > n then Accept
    else Inconclusive
  }

  /** On exact kernels the action depends on the number of answers and on how
      often the most frequent one was given, and on nothing else. */
  lemma ExactRule(cfg: Config, subs: seq<Submission>, top: nat)
    requires IsTop(Checksums(subs), top)
    ensures Decide(Exact, cfg, subs).action == Rule(cfg, |subs|, top)
  {
    if subs != [] {
      ExactWinning(subs);
    }
  }

  /** In particular the order in which the answers arrived is irrelevant. */
  lemma OrderIrrelevant(cfg: Config, a: seq<Submission>, b: seq<Submission>)
    requires multiset(Checksums(a)) == multiset(Checksums(b))
    ensures Decide(Exact, cfg, a).action == Decide(Exact, cfg, b).action
  {
    assert |a| == |multiset(Checksums(a))| == |b|;
    if a != [] {
      ExactWinning(a);
      var top := |Winning(Exact, a)|;
      assert IsTop(Checksums(b), top);
      ExactRule(cfg, a, top);
      ExactRule(cfg, b, top);
    }
  }

  // ---- every voter is judged once ------------------------------------------------------

  lemma {:induction false} ConcatIsFlatten(subs: seq<Submission>, cs: seq<seq<nat>>)
    requires InRange(cs, |subs|)
    ensures Below(Flatten(cs), |subs|) && Concat(subs, cs) == WorkersOf(subs, Flatten(cs))
  {
    if cs != [] {
      ConcatIsFlatten(subs, cs[..|cs| - 1]);
    }
  }

  lemma WorkersAppend(subs: seq<Submission>, p: seq<nat>, q: seq<nat>)
    requires Below(p, |subs|) && Below(q, |subs|)
    ensures Below(p + q, |subs|) && WorkersOf(subs, p + q) == WorkersOf(subs, p) + WorkersOf(subs, q)
  {
  }

  /** Removing position `i` removes that worker's entry. */
  lemma WorkersRemove(subs: seq<Submission>, q: seq<nat>, i: nat)
    requires Below(q, |subs|) && i < |q|
    ensures Below(RemoveAt(q, i), |subs|)
    ensures multiset(WorkersOf(subs, q)) == multiset(WorkersOf(subs, RemoveAt(q, i))) + multiset{subs[q[i]].worker}
  {
    assert WorkersOf(subs, RemoveAt(q, i)) == RemoveAt(WorkersOf(subs, q), i);
  }

  lemma {:induction false} WorkersPermute(subs: seq<Submission>, p: seq<nat>, q: seq<nat>)
    requires Below(p, |subs|) && Below(q, |subs|) && multiset(p) == multiset(q)
    ensures multiset(WorkersOf(subs, p)) == multiset(WorkersOf(subs, q))
    decreases |p|
  {
    if p == [] {
      assert |multiset(q)| == 0;
    } else {
      assert p[0] in multiset(p);
      var i :| 0 <= i < |q| && q[i] == p[0];
      WorkersRemove(subs, p, 0);
      WorkersRemove(subs, q, i);
      WorkersPermute(subs, RemoveAt(p, 0), RemoveAt(q, i));
    }
  }

  lemma {:induction false} FlattenWithout(cs: seq<seq<nat>>, b: nat)
    requires b < |cs|
    ensures multiset(cs[b] + Flatten(cs[..b] + cs[b + 1..])) == multiset(Flatten(cs))
  {
    var last := |cs| - 1;
    var rest := cs[..b] + cs[b + 1..];
    if b == last {
      assert rest == cs[..last];
    } else {
      assert rest[..|rest| - 1] == cs[..last][..b] + cs[..last][b + 1..];
      assert rest[|rest| - 1] == cs[last];
      FlattenWithout(cs[..last], b);
    }
  }

  lemma BestAndOthers(subs: seq<Submission>, cs: seq<seq<nat>>)
    requires cs != [] && InRange(cs, |subs|)
    ensures var all := cs[Best(cs)] + Flatten(Others(cs, Best(cs), |subs|));
            multiset(all) == multiset(Flatten(cs)) && Below(all, |subs|)
            && AcceptBest(subs, cs).agreeing + AcceptBest(subs, cs).dissenting == WorkersOf(subs, all)
  {
    var b := Best(cs);
    FlattenWithout(cs, b);
    ConcatIsFlatten(subs, Others(cs, b, |subs|));
    WorkersAppend(subs, cs[b], Flatten(Others(cs, b, |subs|)));
  }

  lemma BestJudgesAll(subs: seq<Submission>, cs: seq<seq<nat>>)
    requires cs != [] && InRange(cs, |subs|) && multiset(Flatten(cs)) == multiset(UpTo(|subs|))
    ensures Below(UpTo(|subs|), |subs|)
    ensures var v := AcceptBest(subs, cs);
            v.agreeing == WorkersOf(subs, cs[Best(cs)])
            && multiset(v.agreeing + v.dissenting) == multiset(WorkersOf(subs, UpTo(|subs|)))
  {
    BestAndOthers(subs, cs);
    WorkersPermute(subs, cs[Best(cs)] + Flatten(Others(cs, Best(cs), |subs|)), UpTo(|subs|));
  }

  lemma AcceptIsBest(k: Comparator, cfg: Config, subs: seq<Submission>)
    requires !cfg.policy.Unreplicated? && Decide(k, cfg, subs).action.Accept?
    ensures subs != [] && Decide(k, cfg, subs) == AcceptBest(subs, Clusters(k, subs, |subs|))
  {
  }

  /** On other kernels what counts is closeness of the payloads, whatever the
      checksums: any two accepted answers are close, the later to the earlier. */
  lemma AcceptedAreClose(close: (Payload, Payload) -> bool, cfg: Config, subs: seq<Submission>)
    requires !cfg.policy.Unreplicated? && Decide(Tolerance(close), cfg, subs).action.Accept?
    ensures subs != []
    ensures var c := Winning(Tolerance(close), subs);
            Decide(Tolerance(close), cfg, subs).agreeing == WorkersOf(subs, c)
            && (|c| >= cfg.required || (|subs| >= cfg.maxReplicas && 2 * |c| > |subs|))
            && forall a, b :: 0 <= a < b < |c| ==> c[a] < c[b] && close(subs[c[b]].payload, subs[c[a]].payload)
  {
    ClustersAreGreedy(Tolerance(close), subs, |subs|);
    var cs := Clusters(Tolerance(close), subs, |subs|);
    assert Agreeing(Tolerance(close), subs, cs[Best(cs)]);
  }

  /** Where two agreeing answers are wanted, two are accepted exactly when they
      agree: by checksum on exact kernels, by closeness on others. */
  lemma TwoAnswers(k: Comparator, cfg: Config, a: Submission, b: Submission)
    requires !cfg.policy.Unreplicated? && cfg.required == 2
    ensures Decide(k, cfg, [a, b]).action.Accept? <==> match k case Exact => a.checksum == b.checksum
                                                               case Tolerance(close) => close(b.payload, a.payload)
  {
    var subs := [a, b];
    SecondFits(k, subs);
    assert Clusters(k, subs, 1) == [[0]] by { assert Clusters(k, subs, 0) == []; }
    hide Fits;
    assert Clusters(k, subs, 2) == if Agrees(k, b, a) then [[0, 1]] else [[0], [1]];
  }

  lemma SecondFits(k: Comparator, subs: seq<Submission>)
    requires |subs| == 2
    ensures Home(k, subs, 1, [[0]]) == if Agrees(k, subs[1], subs[0]) then Some(0) else None
    ensures Place(k, subs, 1, [[0]]) == if Agrees(k, subs[1], subs[0]) then [[0, 1]] else [[0], [1]]
  {
    var one: seq<seq<nat>> := [[0]];
    assert one[0] == [0] && [0][0] == 0;
    assert Fits(k, subs, 1, [0]) ==> Agrees(k, subs[1], subs[[0][0]]);
    var first: seq<nat> := [0];
    assert first + [1] == [0, 1];
    assert one[0 := first + [1]] == [[0, 1]];
  }

  /** An accepted vote credits or charges every voter, each exactly once; the
      winning cluster is credited. */
  lemma EveryVoterJudged(k: Comparator, cfg: Config, subs: seq<Submission>)
    requires !cfg.policy.Unreplicated? && Decide(k, cfg, subs).action.Accept?
    ensures subs != [] && Below(UpTo(|subs|), |subs|)
    ensures multiset(Decide(k, cfg, subs).agreeing + Decide(k, cfg, subs).dissenting) == multiset(WorkersOf(subs, UpTo(|subs|)))
    ensures Decide(k, cfg, subs).agreeing == WorkersOf(subs, Winning(k, subs))
  {
    AcceptIsBest(k, cfg, subs);
    ClustersJudgeAll(k, subs);
  }

  lemma ClustersJudgeAll(k: Comparator, subs: seq<Submission>)
    requires subs != []
    ensures Below(UpTo(|subs|), |subs|)
    ensures var v := AcceptBest(subs, Clusters(k, subs, |subs|));
            v.agreeing == WorkersOf(subs, Winning(k, subs))
            && multiset(v.agreeing + v.dissenting) == multiset(WorkersOf(subs, UpTo(|subs|)))
  {
    ClustersPartition(k, subs, |subs|);
    BestJudgesAll(subs, Clusters(k, subs, |subs|));
  }

  // ---- soundness -------------------------------------------------------------------------

  /** How many of the first `n` answers came from liars. */
  function LiarVotes(subs: seq<Submission>, n: nat, liars: set<WorkerId>): nat
    requires n <= |subs|
  {
    if n == 0 then 0 else LiarVotes(subs, n - 1, liars) + if subs[n - 1].worker in liars then 1 else 0
  }

  /** Whoever is not a liar answered `truth`. */
  ghost predicate HonestVotes(subs: seq<Submission>, liars: set<WorkerId>, truth: nat) {
    forall a :: 0 <= a < |subs| && subs[a].worker !in liars ==> subs[a].checksum == truth
  }

  lemma {:induction false} LiesAreLiars(subs: seq<Submission>, n: nat, liars: set<WorkerId>, truth: nat, x: nat)
    requires n <= |subs| && HonestVotes(subs, liars, truth) && x != truth
    ensures Times(subs, n, x) <= LiarVotes(subs, n, liars)
  {
    if n > 0 {
      LiesAreLiars(subs, n - 1, liars, truth, x);
    }
  }

  /** While fewer than `required` answers, and at most half of them, come from
      liars, an accepted exact vote accepts the truth; and only liars dissent. */
  lemma VoteIsSound(cfg: Config, subs: seq<Submission>, liars: set<WorkerId>, truth: nat)
    requires !cfg.policy.Unreplicated? && Decide(Exact, cfg, subs).action.Accept?
    requires HonestVotes(subs, liars, truth)
    requires LiarVotes(subs, |subs|, liars) < cfg.required && 2 * LiarVotes(subs, |subs|, liars) <= |subs|
    ensures forall a <- Winning(Exact, subs) :: subs[a].checksum == truth
    ensures forall a | 0 <= a < |subs| && subs[a].checksum != truth :: subs[a].worker in liars
  {
    var c := Winning(Exact, subs);
    ExactWinning(subs);
    if Label(subs, c) != truth {
      LiesAreLiars(subs, |subs|, liars, truth, Label(subs, c));
    }
  }

  /** The bound is sharp: as many liars as `required`, or more than half at the
      cap, and the lie is what is accepted. */
  lemma LiarsAtTheBoundWin(cfg: Config, subs: seq<Submission>, lie: nat, truth: nat)
    requires !cfg.policy.Unreplicated? && subs != [] && lie != truth
    requires forall a :: 0 <= a < |subs| ==> subs[a].checksum == lie || subs[a].checksum == truth
    requires Times(subs, |subs|, lie) > Times(subs, |subs|, truth)
    requires Times(subs, |subs|, lie) >= cfg.required || |subs| >= cfg.maxReplicas
    ensures Decide(Exact, cfg, subs).action.Accept?
    ensures forall a <- Winning(Exact, subs) :: subs[a].checksum == lie
  {
    var n, c := |subs|, Winning(Exact, subs);
    ExactWinning(subs);
    NoAnswerBeatsWinning(subs, lie);
    TimesIsMultiplicity(subs, n, lie);
    assert Checksums(subs)[..n] == Checksums(subs);
    TwoAnswersOnly(subs, n, lie, truth);
  }

  lemma {:induction false} TwoAnswersOnly(subs: seq<Submission>, n: nat, x: nat, y: nat)
    requires n <= |subs| && x != y
    requires forall a :: 0 <= a < n ==> subs[a].checksum == x || subs[a].checksum == y
    ensures Times(subs, n, x) + Times(subs, n, y) == n
  {
    if n > 0 {
      TwoAnswersOnly(subs, n - 1, x, y);
    }
  }
}
