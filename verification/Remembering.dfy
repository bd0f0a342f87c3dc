/** Which answer becomes ground truth for later spot checks
    (src/coordinator/session.cpp, src/coordinator/spot_check.hpp). The pool is
    meant to hold answers a quorum agreed on; what is stored is the checksum of
    the submission that completed the vote. */
module Remembering {
  import opened Basics
  import opened Quorum
  import opened Voting
  import opened Counting

  function Remembered(v: Verdict, last: Submission): Option<nat> {
    if v.action.Accept? && |v.agreeing| >= 2 then Some(last.checksum) else None
  }

  /** Some voter's record asks for more answers than these. */
  ghost predicate StillAsking(k: Comparator, cfg: Config, rated: bool, subs: seq<Submission>) {
    exists st :: Decide(k, Asking(cfg, rated, st), subs).action.NeedMoreReplicas?
  }

  /** The answers arrived one by one, and each time another was asked for. */
  ghost predicate Asked(k: Comparator, cfg: Config, rated: bool, subs: seq<Submission>) {
    forall n :: 1 <= n <= |subs| ==> StillAsking(k, cfg, rated, subs[..n])
  }

  /** `last`, from a voter of standing `st`, ends the vote that `init` left open. */
  ghost predicate Completes(k: Comparator, cfg: Config, rated: bool, st: Standing, init: seq<Submission>, last: Submission) {
    DistinctVoters(init + [last]) && Asked(k, cfg, rated, init)
    && Decide(k, Asking(cfg, rated, st), init + [last]).action.Accept?
  }

  /** Whatever the kernel and the history, an answer remembered is of the
      cluster that was accepted. */
  ghost predicate RemembersAgreed(cfg: Config, rated: bool) {
    forall k, st, init, last | Completes(k, cfg, rated, st, init, last)
        && Remembered(Decide(k, Asking(cfg, rated, st), init + [last]), last).Some? ::
      |init| in Winning(k, init + [last])
  }

  /** And so is the payload that is painted, which needs no second voice. */
  ghost predicate PaintsAgreed(cfg: Config, rated: bool) {
    forall k, st, init, last | Completes(k, cfg, rated, st, init, last) :: |init| in Winning(k, init + [last])
  }

  /** A plain majority at the replica cap can never be short of `required`. */
  predicate CapIsSafe(cfg: Config) {
    cfg.maxReplicas <= 2 || 2 * cfg.required <= cfg.maxReplicas + 2
  }

  /** The threshold depends on who answers. */
  predicate Varies(cfg: Config, rated: bool) {
    rated && cfg.policy.Adaptive?
  }

  predicate PoolIsSafe(cfg: Config, rated: bool) {
    cfg.policy.Unreplicated? || if Varies(cfg, rated) then cfg.maxReplicas <= 2 else CapIsSafe(cfg)
  }

  predicate PictureIsSafe(cfg: Config, rated: bool) {
    cfg.policy.Unreplicated? || if Varies(cfg, rated) then cfg.maxReplicas <= 1 else CapIsSafe(cfg)
  }

  // ---- the submission that completes a vote ------------------------------------------------

  lemma PlacedOrSame(k: Comparator, subs: seq<Submission>, i: nat, cs: seq<seq<nat>>, c: nat)
    requires c < |Place(k, subs, i, cs)|
    ensures i in Place(k, subs, i, cs)[c] || (c < |cs| && Place(k, subs, i, cs)[c] == cs[c])
  {
  }

  lemma UndecidedClusters(k: Comparator, cfg: Config, subs: seq<Submission>, c: nat)
    requires subs != [] && Decide(k, cfg, subs).action.NeedMoreReplicas?
    requires c < |Clusters(k, subs, |subs|)|
    ensures |Clusters(k, subs, |subs|)[c]| < cfg.required && |subs| < cfg.maxReplicas
  {
    var cs := Clusters(k, subs, |subs|);
    assert IsBest(cs, Best(cs));
  }

  lemma WholeCluster(k: Comparator, subs: seq<Submission>, c: nat)
    requires c < |Clusters(k, subs, |subs|)|
    ensures |Clusters(k, subs, |subs|)[c]| <= |subs|
    ensures |Clusters(k, subs, |subs|)[c]| == |subs| ==> forall i :: 0 <= i < |subs| ==> i in Clusters(k, subs, |subs|)[c]
  {
    var cs := Clusters(k, subs, |subs|);
    ClustersPartition(k, subs, |subs|);
    FlattenWithout(cs, c);
    var rest := Flatten(cs[..c] + cs[c + 1..]);
    assert |multiset(cs[c] + rest)| == |multiset(UpTo(|subs|))|;
    if |cs[c]| == |subs| {
      assert rest == [];
      forall i | 0 <= i < |subs| ensures i in cs[c] {
        assert UpTo(|subs|)[i] in multiset(UpTo(|subs|));
        assert cs[c] + rest == cs[c];
      }
    }
  }

  /** The last submission joined a cluster, or that cluster was there before. */
  lemma JoinedOrWas(k: Comparator, init: seq<Submission>, last: Submission, c: nat)
    requires c < |Clusters(k, init + [last], |init| + 1)|
    ensures var before, after := Clusters(k, init, |init|), Clusters(k, init + [last], |init| + 1);
            |init| in after[c] || (c < |before| && after[c] == before[c])
  {
    ClustersExtend(k, init, [last], |init|);
    PlacedOrSame(k, init + [last], |init|, Clusters(k, init, |init|), c);
  }

  /** Under one threshold the submission that reaches it is in the accepted
      cluster, for any comparator; so is the one that completes a vote by
      majority at the cap, if the cap is safe. */
  lemma LastIsAccepted(k: Comparator, cfg: Config, init: seq<Submission>, last: Submission)
    requires Decide(k, cfg, init).action.NeedMoreReplicas? && Decide(k, cfg, init + [last]).action.Accept?
    requires cfg.policy.Unreplicated? || CapIsSafe(cfg) || |Winning(k, init + [last])| >= cfg.required
    ensures |init| in Winning(k, init + [last])
  {
    var subs := init + [last];
    if init == [] {
      WholeWinning(k, subs);
    } else {
      var b := Best(Clusters(k, subs, |subs|));
      JoinedOrWas(k, init, last, b);
      if |init| !in Winning(k, subs) {
        UndecidedClusters(k, cfg, init, b);
        WholeCluster(k, subs, b);
      }
    }
  }

  lemma {:induction false} FlattenedFrom(cs: seq<seq<nat>>, x: nat) returns (c: nat)
    requires x in Flatten(cs)
    ensures c < |cs| && x in cs[c]
  {
    var last := |cs| - 1;
    if x in cs[last] {
      c := last;
    } else {
      c := FlattenedFrom(cs[..last], x);
    }
  }

  lemma ClusterOf(k: Comparator, subs: seq<Submission>, a: nat) returns (c: nat)
    requires a < |subs|
    ensures c < |Clusters(k, subs, |subs|)| && a in Clusters(k, subs, |subs|)[c]
  {
    ClustersPartition(k, subs, |subs|);
    assert UpTo(|subs|)[a] in multiset(UpTo(|subs|));
    c := FlattenedFrom(Clusters(k, subs, |subs|), a);
  }

  /** On exact kernels: being in the accepted cluster is having its checksum. */
  lemma InWinningIff(subs: seq<Submission>, a: nat)
    requires a < |subs|
    ensures a in Winning(Exact, subs) <==> subs[a].checksum == Label(subs, Winning(Exact, subs))
  {
    ExactWinning(subs);
    ExactClustersCount(subs, |subs|);
    var cs := Clusters(Exact, subs, |subs|);
    var c := ClusterOf(Exact, subs, a);
    assert IsClass(subs, |subs|, cs[c]) && subs[a].checksum == Label(subs, cs[c]);
  }

  /** Fewer answers are asked for than the cap, whoever was asked. */
  lemma AskedBelowCap(k: Comparator, cfg: Config, rated: bool, subs: seq<Submission>)
    requires Asked(k, cfg, rated, subs) && subs != []
    ensures !cfg.policy.Unreplicated? && |subs| < cfg.maxReplicas
  {
    assert subs[..|subs|] == subs && StillAsking(k, cfg, rated, subs);
  }

  lemma WholeWinning(k: Comparator, subs: seq<Submission>)
    requires subs != [] && |Winning(k, subs)| >= |subs|
    ensures |subs| - 1 in Winning(k, subs)
  {
    WholeCluster(k, subs, Best(Clusters(k, subs, |subs|)));
  }

  lemma SafeFixedAccepts(k: Comparator, cfg: Config, rated: bool, st: Standing, init: seq<Submission>, last: Submission)
    requires Completes(k, cfg, rated, st, init, last) && !Varies(cfg, rated) && !cfg.policy.Unreplicated? && CapIsSafe(cfg)
    ensures |init| in Winning(k, init + [last])
  {
    if init != [] {
      assert init[..|init|] == init && StillAsking(k, cfg, rated, init);
    }
    LastIsAccepted(k, cfg, init, last);
  }

  lemma SafePoolAccepts(k: Comparator, cfg: Config, rated: bool, st: Standing, init: seq<Submission>, last: Submission)
    requires PoolIsSafe(cfg, rated) && Completes(k, cfg, rated, st, init, last)
    requires Remembered(Decide(k, Asking(cfg, rated, st), init + [last]), last).Some?
    ensures |init| in Winning(k, init + [last])
  {
    if init != [] {
      AskedBelowCap(k, cfg, rated, init);
      if Varies(cfg, rated) {
        EveryVoterJudged(k, Asking(cfg, rated, st), init + [last]);
        WholeWinning(k, init + [last]);
      } else {
        SafeFixedAccepts(k, cfg, rated, st, init, last);
      }
    } else {
      WholeWinning(k, init + [last]);
    }
  }

  lemma SafePictureAccepts(k: Comparator, cfg: Config, rated: bool, st: Standing, init: seq<Submission>, last: Submission)
    requires PictureIsSafe(cfg, rated) && Completes(k, cfg, rated, st, init, last)
    ensures |init| in Winning(k, init + [last])
  {
    if init != [] {
      AskedBelowCap(k, cfg, rated, init);
      SafeFixedAccepts(k, cfg, rated, st, init, last);
    } else {
      WholeWinning(k, init + [last]);
    }
  }

  // ---- when the cap is not safe ------------------------------------------------------------------

  /** Two answers that the kernel tells apart; an exact one does so by checksum. */
  predicate TellsApart(k: Comparator, x: Payload, y: Payload) {
    if k.Exact? then x == y == [] else k.close(x, x) && !k.close(y, x)
  }

  /** The first `s` workers answer `x`, the others `y`. */
  function Split(x: Payload, y: Payload, s: nat, n: nat): (r: seq<Submission>)
    ensures |r| == n && forall i :: 0 <= i < n ==> r[i] == if i < s then Submission(i + 1, 0, x) else Submission(i + 1, 1, y)
  {
    seq(n, (i: nat) => if i < s then Submission(i + 1, 0, x) else Submission(i + 1, 1, y))
  }

  function Fewer(a: nat, b: nat): nat { if a < b then a else b }

  lemma SplitFitsIff(k: Comparator, x: Payload, y: Payload, s: nat, m: nat, n: nat)
    requires TellsApart(k, x, y) && 0 < n < m && 0 < s
    ensures Fits(k, Split(x, y, s, m), n, UpTo(Fewer(n, s))) <==> n < s
  {
    var subs, c := Split(x, y, s, m), UpTo(Fewer(n, s));
    assert c[0] == 0;
    if n >= s {
      assert !Agrees(k, subs[n], subs[c[0]]);
    }
  }

  /** The first cluster is the first `s`, and the others share the rest. */
  ghost predicate SplitShape(cs: seq<seq<nat>>, s: nat, n: nat) {
    cs != [] && cs[0] == UpTo(Fewer(n, s)) && forall c :: 1 <= c < |cs| ==> |cs[c]| + s <= n
  }

  lemma SplitPlaced(k: Comparator, subs: seq<Submission>, cs: seq<seq<nat>>, s: nat, n: nat)
    requires SplitShape(cs, s, n) && 0 < n && (Fits(k, subs, n, cs[0]) <==> n < s)
    ensures SplitShape(Place(k, subs, n, cs), s, n + 1)
  {
    if n < s {
      FirstMatchUnique(cs, c => Fits(k, subs, n, c), 0);
      assert UpTo(n + 1) == UpTo(n) + [n];
    } else {
      assert Home(k, subs, n, cs) != Some(0);
    }
  }

  lemma {:induction false} SplitClusters(k: Comparator, x: Payload, y: Payload, s: nat, m: nat, n: nat)
    requires TellsApart(k, x, y) && 0 < n <= m && 0 < s
    ensures SplitShape(Clusters(k, Split(x, y, s, m), n), s, n)
  {
    var subs := Split(x, y, s, m);
    if n == 1 {
      assert Clusters(k, subs, 0) == [];
      assert UpTo(1) == UpTo(0) + [0] && UpTo(0) == [];
      assert Clusters(k, subs, 1) == [[0]];
    } else {
      SplitClusters(k, x, y, s, m, n - 1);
      SplitFitsIff(k, x, y, s, m, n - 1);
      SplitPlaced(k, subs, Clusters(k, subs, n - 1), s, n - 1);
    }
  }

  lemma SplitWinning(k: Comparator, x: Payload, y: Payload, s: nat, n: nat)
    requires TellsApart(k, x, y) && 0 < n <= 2 * s
    ensures Winning(k, Split(x, y, s, n)) == UpTo(Fewer(n, s))
  {
    var cs := Clusters(k, Split(x, y, s, n), n);
    SplitClusters(k, x, y, s, n, n);
    assert IsBest(cs, Best(cs));
  }

  lemma SplitPrefix(x: Payload, y: Payload, s: nat, m: nat, n: nat)
    requires n <= m
    ensures Split(x, y, s, m)[..n] == Split(x, y, s, n)
  {
  }

  /** Open as long as no threshold that some voter may bring is reached. */
  lemma SplitIsAsked(k: Comparator, x: Payload, y: Payload, cfg: Config, rated: bool, st: Standing, s: nat, n: nat)
    requires TellsApart(k, x, y) && !cfg.policy.Unreplicated?
    requires n <= 2 * s && n < cfg.maxReplicas && s < Asking(cfg, rated, st).required
    ensures Asked(k, cfg, rated, Split(x, y, s, n))
  {
    forall i | 1 <= i <= n ensures StillAsking(k, cfg, rated, Split(x, y, s, n)[..i]) {
      SplitPrefix(x, y, s, n, i);
      SplitWinning(k, x, y, s, i);
      assert Decide(k, Asking(cfg, rated, st), Split(x, y, s, i)).action.NeedMoreReplicas?;
    }
  }

  /** The `m`-th answer of a split vote completes it and is not of the accepted cluster. */
  ghost predicate PublishesDissent(k: Comparator, x: Payload, y: Payload, cfg: Config, rated: bool, st: Standing, s: nat, m: nat) {
    0 < m && Completes(k, cfg, rated, st, Split(x, y, s, m - 1), Split(x, y, s, m)[m - 1])
    && Split(x, y, s, m - 1) + [Split(x, y, s, m)[m - 1]] == Split(x, y, s, m) && m - 1 !in Winning(k, Split(x, y, s, m))
  }

  /** What is decided of a split vote, by the numbers. */
  lemma SplitVerdict(k: Comparator, x: Payload, y: Payload, cfg: Config, s: nat, n: nat)
    requires TellsApart(k, x, y) && !cfg.policy.Unreplicated? && 0 < n <= 2 * s
    requires Fewer(n, s) >= cfg.required || (n >= cfg.maxReplicas && 2 * Fewer(n, s) > n)
    ensures Decide(k, cfg, Split(x, y, s, n)).action.Accept? && |Decide(k, cfg, Split(x, y, s, n)).agreeing| == Fewer(n, s)
  {
    SplitWinning(k, x, y, s, n);
    EveryVoterJudged(k, cfg, Split(x, y, s, n));
  }

  lemma SplitSnoc(x: Payload, y: Payload, s: nat, m: nat)
    requires 0 < m
    ensures Split(x, y, s, m - 1) + [Split(x, y, s, m)[m - 1]] == Split(x, y, s, m) && DistinctVoters(Split(x, y, s, m))
  {
  }

  lemma SplitEnds(k: Comparator, x: Payload, y: Payload, cfg: Config, rated: bool, st: Standing, s: nat, m: nat)
    requires TellsApart(k, x, y) && 0 < s < m <= 2 * s && Asked(k, cfg, rated, Split(x, y, s, m - 1))
    requires Decide(k, Asking(cfg, rated, st), Split(x, y, s, m)).action.Accept?
    ensures PublishesDissent(k, x, y, cfg, rated, st, s, m)
  {
    SplitSnoc(x, y, s, m);
    SplitWinning(k, x, y, s, m);
  }

  lemma SplitCompletes(k: Comparator, x: Payload, y: Payload, cfg: Config, rated: bool, slow: Standing, st: Standing, s: nat, m: nat)
    requires TellsApart(k, x, y) && !cfg.policy.Unreplicated?
    requires 0 < s < m <= 2 * s && m <= cfg.maxReplicas && s < Asking(cfg, rated, slow).required
    requires Asking(cfg, rated, st).required <= s || (m == cfg.maxReplicas && m < 2 * s)
    ensures PublishesDissent(k, x, y, cfg, rated, st, s, m)
    ensures Remembered(Decide(k, Asking(cfg, rated, st), Split(x, y, s, m)), Split(x, y, s, m)[m - 1]).Some? <==> s >= 2
  {
    hide Decide, Asked, PublishesDissent, Split, Asking, TellsApart;
    SplitIsAsked(k, x, y, cfg, rated, slow, s, m - 1);
    SameCap(cfg, rated, st);
    SplitVerdict(k, x, y, Asking(cfg, rated, st), s, m);
    SplitEnds(k, x, y, cfg, rated, st, s, m);
  }

  /** Standing changes the agreement asked for and nothing else. */
  lemma SameCap(cfg: Config, rated: bool, st: Standing)
    ensures Asking(cfg, rated, st).maxReplicas == cfg.maxReplicas && Asking(cfg, rated, st).policy == cfg.policy
  {
  }

  /** An agreement one short of `required`, then dissent up to the cap. With
      varying thresholds: two voters on probation agree, then a trusted one dissents. */
  lemma UnsafePoolRemembersDissent(k: Comparator, x: Payload, y: Payload, cfg: Config, rated: bool)
    returns (st: Standing, s: nat, m: nat)
    requires TellsApart(k, x, y) && !PoolIsSafe(cfg, rated)
    ensures PublishesDissent(k, x, y, cfg, rated, st, s, m)
    ensures Remembered(Decide(k, Asking(cfg, rated, st), Split(x, y, s, m)), Split(x, y, s, m)[m - 1]).Some?
  {
    if Varies(cfg, rated) {
      st, s, m := Trusted, 2, 3;
      SplitCompletes(k, x, y, cfg, rated, Probation, st, s, m);
    } else {
      st, s, m := Ordinary, if cfg.required < cfg.maxReplicas then cfg.required - 1 else cfg.maxReplicas - 1, cfg.maxReplicas;
      SplitCompletes(k, x, y, cfg, rated, Ordinary, st, s, m);
    }
  }

  /** The answer remembered is always one that was agreed on if, and only if:
      with one threshold, the replica cap is safe; with thresholds that vary by
      voter, the cap is at most two. */
  lemma RemembersAgreedIff(cfg: Config, rated: bool)
    ensures RemembersAgreed(cfg, rated) <==> PoolIsSafe(cfg, rated)
  {
    if PoolIsSafe(cfg, rated) {
      forall k, st, init, last | Completes(k, cfg, rated, st, init, last)
          && Remembered(Decide(k, Asking(cfg, rated, st), init + [last]), last).Some?
        ensures |init| in Winning(k, init + [last])
      {
        SafePoolAccepts(k, cfg, rated, st, init, last);
      }
    } else {
      var st, s, m := UnsafePoolRemembersDissent(Exact, [], [], cfg, rated);
      assert Completes(Exact, cfg, rated, st, Split([], [], s, m - 1), Split([], [], s, m)[m - 1]);
    }
  }

  // ---- the picture ----------------------------------------------------------------------------------

  /** With varying thresholds already two voters do: one on probation, then a
      trusted one who says something else and is not of the accepted cluster. */
  lemma UnsafePicturePaintsDissent(k: Comparator, x: Payload, y: Payload, cfg: Config, rated: bool)
    returns (st: Standing, s: nat, m: nat)
    requires TellsApart(k, x, y) && !PictureIsSafe(cfg, rated)
    ensures PublishesDissent(k, x, y, cfg, rated, st, s, m)
  {
    if Varies(cfg, rated) {
      st, s, m := Trusted, 1, 2;
      SplitCompletes(k, x, y, cfg, rated, Probation, st, s, m);
    } else {
      st, s, m := UnsafePoolRemembersDissent(k, x, y, cfg, rated);
    }
  }

  /** The payload painted is always one that was agreed on if, and only if:
      with one threshold, the replica cap is safe; with thresholds that vary by
      voter, nothing is ever replicated. */
  lemma PaintsAgreedIff(cfg: Config, rated: bool)
    ensures PaintsAgreed(cfg, rated) <==> PictureIsSafe(cfg, rated)
  {
    if PictureIsSafe(cfg, rated) {
      forall k, st, init, last | Completes(k, cfg, rated, st, init, last) ensures |init| in Winning(k, init + [last]) {
        SafePictureAccepts(k, cfg, rated, st, init, last);
      }
    } else {
      var st, s, m := UnsafePicturePaintsDissent(Exact, [], [], cfg, rated);
      assert Completes(Exact, cfg, rated, st, Split([], [], s, m - 1), Split([], [], s, m)[m - 1]);
    }
  }

  /** The defaults, two of at most four, are safe with one threshold and fail
      with varying ones: two voters on probation agree, then a trusted one
      answers something else, and its answer is what is remembered. */
  lemma DefaultsRememberDissent()
    ensures var cfg, all := Config(Adaptive, 2, 4), Split([], [], 2, 3);
            PoolIsSafe(cfg, false) && PictureIsSafe(cfg, false)
            && PublishesDissent(Exact, [], [], cfg, true, Trusted, 2, 3)
            && Remembered(Decide(Exact, Asking(cfg, true, Trusted), all), all[2]) == Some(1)
  {
    SplitCompletes(Exact, [], [], Config(Adaptive, 2, 4), true, Probation, Trusted, 2, 3);
  }
}
