/** Replication policy and the vote (src/coordinator/quorum.cpp). */
module Quorum {
  import opened Basics

  type Payload = seq<nat>

  /** One worker's answer. `payload` is retained for non-exact kernels only. */
  datatype Submission = Submission(worker: WorkerId, checksum: nat, payload: Payload)

  /** How a kernel compares two answers: by checksum, or by a tolerance that is
      arbitrary here - in particular it need not be transitive. */
  datatype Comparator = Exact | Tolerance(close: (Payload, Payload) -> bool)

  datatype Policy = Unreplicated | Fixed2x | Adaptive
  datatype Config = Config(policy: Policy, required: nat, maxReplicas: nat)
  datatype Action = Accept | NeedMoreReplicas | Inconclusive
  datatype Verdict = Verdict(action: Action, agreeing: seq<WorkerId>, dissenting: seq<WorkerId>)

  predicate Agrees(k: Comparator, a: Submission, b: Submission) {
    if k.Exact? then a.checksum == b.checksum else k.close(a.payload, b.payload)
  }

  // ---- the clustering, as a function ------------------------------------

  /** Submission `i` agrees with every member of `cluster`, not just the first. */
  predicate Fits(k: Comparator, subs: seq<Submission>, i: nat, cluster: seq<nat>) {
    forall a :: 0 <= a < |cluster| ==>
      i < |subs| && cluster[a] < |subs| && Agrees(k, subs[i], subs[cluster[a]])
  }

  ghost predicate Below(cluster: seq<nat>, n: nat) {
    forall a :: 0 <= a < |cluster| ==> cluster[a] < n
  }

  /** Clusters are non-empty and hold positions below `n`. */
  ghost predicate InRange(clusters: seq<seq<nat>>, n: nat) {
    forall c :: 0 <= c < |clusters| ==> clusters[c] != [] && Below(clusters[c], n)
  }

  /** The first cluster that `i` fits. */
  function Home(k: Comparator, subs: seq<Submission>, i: nat, clusters: seq<seq<nat>>): (r: Option<nat>)
    ensures r.Some? ==> r.value < |clusters| && Fits(k, subs, i, clusters[r.value])
                        && forall c :: 0 <= c < r.value ==> !Fits(k, subs, i, clusters[c])
    ensures r.None? ==> forall c :: 0 <= c < |clusters| ==> !Fits(k, subs, i, clusters[c])
  {
    FirstMatch(clusters, c => Fits(k, subs, i, c))
  }

  /** `i` joins the first cluster it fits, or founds a new one. */
  function Place(k: Comparator, subs: seq<Submission>, i: nat, clusters: seq<seq<nat>>): seq<seq<nat>> {
    match Home(k, subs, i, clusters)
    case Some(c) => clusters[c := clusters[c] + [i]]
    case None => clusters + [[i]]
  }

  /** The clusters of the first `n` submissions, taken in arrival order. */
  function Clusters(k: Comparator, subs: seq<Submission>, n: nat): (r: seq<seq<nat>>)
    requires n <= |subs|
    ensures InRange(r, n) && (n > 0 ==> r != [])
  {
    if n == 0 then [] else Place(k, subs, n - 1, Clusters(k, subs, n - 1))
  }

  /** `b` is the first of the largest clusters. */
  ghost predicate IsBest(clusters: seq<seq<nat>>, b: nat) {
    b < |clusters|
    && (forall c :: 0 <= c < |clusters| ==> |clusters[c]| <= |clusters[b]|)
    && (forall c :: 0 <= c < b ==> |clusters[c]| < |clusters[b]|)
  }

  function Best(clusters: seq<seq<nat>>): (b: nat)
    requires clusters != []
    ensures IsBest(clusters, b)
  {
    if |clusters| == 1 then 0
    else
      var last := |clusters| - 1;
      var b := Best(clusters[..last]);
      if |clusters[last]| > |clusters[b]| then last else b
  }

  function WorkersOf(subs: seq<Submission>, c: seq<nat>): (r: seq<WorkerId>)
    requires Below(c, |subs|)
    ensures |r| == |c| && forall i :: 0 <= i < |c| ==> r[i] == subs[c[i]].worker
  {
    seq(|c|, (i: nat) requires 0 <= i < |c| => subs[c[i]].worker)
  }

  function Concat(subs: seq<Submission>, clusters: seq<seq<nat>>): seq<WorkerId>
    requires InRange(clusters, |subs|)
  {
    if clusters == [] then []
    else Concat(subs, clusters[..|clusters| - 1]) + WorkersOf(subs, clusters[|clusters| - 1])
  }

  /** All clusters but the `b`-th. */
  function Others(clusters: seq<seq<nat>>, b: nat, n: nat): (r: seq<seq<nat>>)
    requires b < |clusters| && InRange(clusters, n)
    ensures InRange(r, n)
  {
    clusters[..b] + clusters[b + 1..]
  }

  /** The best cluster is accepted; everybody else dissented. */
  function AcceptBest(subs: seq<Submission>, clusters: seq<seq<nat>>): Verdict
    requires clusters != [] && InRange(clusters, |subs|)
  {
    var b := Best(clusters);
    Verdict(Accept, WorkersOf(subs, clusters[b]), Concat(subs, Others(clusters, b, |subs|)))
  }

  /** What the coordinator does with the answers received so far. */
  function Decide(k: Comparator, cfg: Config, subs: seq<Submission>): Verdict {
    if subs == [] then Verdict(NeedMoreReplicas, [], [])
    else if cfg.policy.Unreplicated? then Verdict(Accept, [subs[0].worker], [])
    else
      var cs := Clusters(k, subs, |subs|);
      var size := |cs[Best(cs)]|;
      if size >= cfg.required then AcceptBest(subs, cs)
      else if |subs| < cfg.maxReplicas then Verdict(NeedMoreReplicas, [], [])
      else if size * 2 > |subs| then AcceptBest(subs, cs)
      else Verdict(Inconclusive, [], [])
  }

  // ---- how much agreement each voter's answer needs --------------------------

  datatype Standing = Probation | Trusted | Ordinary

  /** `RequiredAgreementFor`: the adaptive policy looks at the voter's record. */
  function RequiredFor(cfg: Config, st: Standing): nat {
    match cfg.policy
    case Unreplicated => 1
    case Fixed2x => cfg.required
    case Adaptive =>
      match st
      case Probation => cfg.maxReplicas
      case Trusted => 1
      case Ordinary => cfg.required
  }

  /** The configuration one vote is decided with; without a reputation table
      (`rated` is false) it is always the configured one. */
  function Asking(cfg: Config, rated: bool, st: Standing): Config {
    cfg.(required := if rated then RequiredFor(cfg, st) else cfg.required)
  }

  ghost predicate DistinctVoters(subs: seq<Submission>) {
    forall a, b :: 0 <= a < b < |subs| ==> subs[a].worker != subs[b].worker
  }
}
