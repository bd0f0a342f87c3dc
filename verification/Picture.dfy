/** What a tile shows of the samples accepted for it. A tile is replaced at each
    acceptance (src/coordinator/composite.cpp), while its samples are handed out
    in as many ranges as the workers' speed makes of them. */
module Picture {
  import opened Basics
  import opened TileGrids
  import Quorum
  import opened Coordinator
  import opened Protocol
  import opened Invariants
  import opened Coverage
  import opened Marking
  import opened Quietness
  import opened Speculation
  import opened Runs
  import opened Rendering
  import opened Compositing

  /** A payload given to the compositor for `tile`, and the task it answers. */
  datatype Painted = Painted(task: TaskId, job: JobId, start: nat, count: nat, tile: nat, payload: Quorum.Payload)

  /** A step paints when it accepts a task of a render job. */
  ghost function PaintedBy(u: Setup, s: State, e: Event): seq<Painted> {
    if Accepts(u, s, e) && CanCount(u, s, e.result) then
      var t := s.tasks[e.result.task];
      var r := s.jobs[t.job].render;
      if r.Some? && r.value.samplesPerTile > 0
      then [Painted(e.result.task, t.job, t.start, t.count, t.start / r.value.samplesPerTile, e.result.payload)] else []
    else []
  }

  /** All that is painted along a run, in order. */
  ghost function PaintLog(u: Setup, s: State, es: seq<Event>): seq<Painted>
    decreases es
  {
    if es == [] then [] else PaintedBy(u, s, es[0]) + PaintLog(u, Step(u, s, es[0]), es[1..])
  }

  /** The payload bytes as floats. */
  type Decoder = Quorum.Payload -> seq<Float>

  function Decoded(log: seq<Painted>, floats: Decoder): seq<(nat, seq<Float>)> {
    seq(|log|, (i: nat) requires i < |log| => (log[i].tile, floats(log[i].payload)))
  }

  // ---- what was painted is still on record ----------------------------------------------------

  /** The entry speaks of a task of `s`, and names its tile. */
  ghost predicate OnRecord(s: State, p: Painted) {
    p.task in s.tasks && s.tasks[p.task].job == p.job && s.tasks[p.task].start == p.start && s.tasks[p.task].count == p.count
    && p.job in s.jobs && s.jobs[p.job].render.Some?
    && var spt := s.jobs[p.job].render.value.samplesPerTile; spt > 0 && p.tile == p.start / spt
  }

  lemma PaintedOnRecord(u: Setup, s: State, e: Event)
    ensures forall p <- PaintedBy(u, s, e) :: OnRecord(s, p)
  {
  }

  lemma StaysOnRecord(s: State, s': State, p: Painted)
    requires Evolves(s, s') && OnRecord(s, p)
    ensures OnRecord(s', p)
  {
    assert TaskEvolves(s.tasks[p.task], s'.tasks[p.task]) && SameJob(s.jobs[p.job], s'.jobs[p.job]);
  }

  lemma {:induction false} RunKeepsRecord(u: Setup, s: State, es: seq<Event>, p: Painted)
    requires Safe(u, s) && Run(u, s, es) && OnRecord(s, p)
    ensures OnRecord(Final(u, s, es), p)
    decreases es
  {
    if es != [] {
      StepSafe(u, s, es[0]);
      StepEvolves(u, s, es[0]);
      StaysOnRecord(s, Step(u, s, es[0]), p);
      RunKeepsRecord(u, Step(u, s, es[0]), es[1..], p);
    }
  }

  lemma {:induction false} LogIsOnRecord(u: Setup, s: State, es: seq<Event>, p: Painted)
    requires Safe(u, s) && Run(u, s, es) && p in PaintLog(u, s, es)
    ensures OnRecord(Final(u, s, es), p)
    decreases es
  {
    StepSafe(u, s, es[0]);
    if p in PaintedBy(u, s, es[0]) {
      PaintedOnRecord(u, s, es[0]);
      RunKeepsRecord(u, s, es, p);
    } else {
      LogIsOnRecord(u, Step(u, s, es[0]), es[1..], p);
    }
  }

  // ---- what a tile shows ------------------------------------------------------------------------

  /** Entry `a` is what tile `i` shows at the end of a run. */
  ghost predicate Shows(u: Setup, es: seq<Event>, g: TileGrid, floats: Decoder, i: nat, a: nat) {
    LastFor(g, Decoded(PaintLog(u, INITIAL, es), floats), i, a)
  }

  /** At the end of every run a tile shows the last accepted payload that has its
      size, and none of what was accepted for it before; that payload answers a
      range of the tile's samples. */
  lemma TileShowsLast(u: Setup, es: seq<Event>, g: TileGrid, floats: Decoder, i: nat, a: nat)
    requires Run(u, INITIAL, es) && Shows(u, es, g, floats, i, a)
    ensures var log := PaintLog(u, INITIAL, es);
            a < |log| && log[a].tile == i && OnRecord(Final(u, INITIAL, es), log[a])
            && var tiles := AcceptAll(g, Decoded(log, floats));
            i in tiles && FitsGrid(g, i, floats(log[a].payload)) && tiles[i] == DataFor(g, i, floats(log[a].payload))
  {
    var log := PaintLog(u, INITIAL, es);
    StartIsSafe(u);
    TileHoldsLast(g, Decoded(log, floats), i, a);
    assert log[a] in log;
    LogIsOnRecord(u, INITIAL, es, log[a]);
  }

  // ---- when that is all of it -------------------------------------------------------------------

  /** The unit is a sample of tile `k`. */
  predicate OfTile(j: Job, k: nat, unit: nat)
    requires j.ByTile()
  {
    unit / j.render.value.samplesPerTile == k
  }

  predicate Holds(start: nat, count: nat, unit: nat) { start <= unit < start + count }

  /** Every sample of tile `k` lies in the window. */
  ghost predicate WholeTile(j: Job, k: nat, start: nat, count: nat)
    requires j.ByTile()
  {
    forall unit: nat | OfTile(j, k, unit) :: Holds(start, count, unit)
  }

  /** Tile `k` was handed out in one piece. */
  ghost predicate OnePiece(s: State, j: JobId, k: nat)
    requires j in s.jobs && s.jobs[j].ByTile()
  {
    exists id :: Original(s, j, id) && WholeTile(s.jobs[j], k, s.tasks[id].start, s.tasks[id].count)
  }

  lemma FirstOfTile(spt: nat, k: nat)
    requires spt > 0
    ensures (k * spt) / spt == k && (k * spt + spt - 1) / spt == k
  {
    QuotientIs(k * spt, spt, k);
    QuotientIs(k * spt + spt - 1, spt, k);
  }

  /** A window of the tile is the whole of it exactly if it has all the samples. */
  lemma WholeIffFull(j: Job, k: nat, start: nat, count: nat)
    requires j.ByTile() && start / j.render.value.samplesPerTile == k
    requires start % j.render.value.samplesPerTile + count <= j.render.value.samplesPerTile
    ensures WholeTile(j, k, start, count) <==> count == j.render.value.samplesPerTile
  {
    var spt := j.render.value.samplesPerTile;
    FirstOfTile(spt, k);
    assert start == k * spt + start % spt;
    if WholeTile(j, k, start, count) {
      assert OfTile(j, k, k * spt) && OfTile(j, k, k * spt + spt - 1);
      assert Holds(start, count, k * spt) && Holds(start, count, k * spt + spt - 1);
    }
    forall unit: nat | count == spt && OfTile(j, k, unit) ensures Holds(start, count, unit) {
      assert unit == unit / spt * spt + unit % spt;
    }
  }

  /** A listed task has the range of an original. */
  lemma HasOriginal(s: State, j: JobId, x: TaskId)
    requires Core(s) && j in s.jobs && x in s.jobs[j].tasks
    ensures x in s.tasks && var r := Root(s, x);
            Original(s, j, r) && s.tasks[r].start == s.tasks[x].start && s.tasks[r].count == s.tasks[x].count > 0
  {
    assert s.tasks[x].job == j && TaskOk(s.tasks[x]);
    if s.tasks[x].replicaOf != NIL {
      assert IsReplica(s, x);
    }
  }

  /** Two listed tasks that share a sample have the same range. */
  lemma SharedIsSame(s: State, j: JobId, x: TaskId, y: TaskId, unit: nat)
    requires Core(s) && Covered(s) && j in s.jobs && x in s.jobs[j].tasks && y in s.jobs[j].tasks
    requires x in s.tasks && y in s.tasks && InRange(s.tasks[x], unit) && InRange(s.tasks[y], unit)
    ensures s.tasks[x].start == s.tasks[y].start && s.tasks[x].count == s.tasks[y].count
  {
    HasOriginal(s, j, x);
    HasOriginal(s, j, y);
    assert JobCovered(s, j);
    assert Covers(s, j, Root(s, x), unit) && Covers(s, j, Root(s, y), unit);
  }

  lemma WholeIffOnePiece(s: State, j: JobId, k: nat, x: TaskId)
    requires Core(s) && Covered(s) && j in s.jobs && s.jobs[j].ByTile() && x in s.jobs[j].tasks && x in s.tasks
    requires OfTile(s.jobs[j], k, s.tasks[x].start)
    ensures WholeTile(s.jobs[j], k, s.tasks[x].start, s.tasks[x].count) <==> OnePiece(s, j, k)
  {
    HasOriginal(s, j, x);
    var unit := s.tasks[x].start;
    if WholeTile(s.jobs[j], k, s.tasks[x].start, s.tasks[x].count) {
      assert Original(s, j, Root(s, x));
    } else if OnePiece(s, j, k) {
      var id :| Original(s, j, id) && WholeTile(s.jobs[j], k, s.tasks[id].start, s.tasks[id].count);
      assert Holds(s.tasks[id].start, s.tasks[id].count, unit);
      SharedIsSame(s, j, x, id, unit);
    }
  }

  /** On every run: what a tile of the job shows is all of its samples if, and
      only if, the tile was handed out in one piece - if, and only if, the task
      it shows has as many samples as a tile. (Probes are not listed; a tile may
      show one of those too, and then only its count matters.) */
  lemma ShowsWholeTileIff(u: Setup, es: seq<Event>, m: nat, g: TileGrid, floats: Decoder, i: nat, a: nat)
    requires Run(u, INITIAL, es) && AllAtMost(es, m) && Shows(u, es, g, floats, i, a)
    requires a < |PaintLog(u, INITIAL, es)|
    requires var s, p := Final(u, INITIAL, es), PaintLog(u, INITIAL, es)[a];
             p.job in s.jobs && s.jobs[p.job].ByTile() && p.task in s.jobs[p.job].tasks
    ensures var s, p := Final(u, INITIAL, es), PaintLog(u, INITIAL, es)[a];
            (WholeTile(s.jobs[p.job], i, p.start, p.count) <==> OnePiece(s, p.job, i))
            && (WholeTile(s.jobs[p.job], i, p.start, p.count) <==> p.count == s.jobs[p.job].render.value.samplesPerTile)
  {
    var s, p := Final(u, INITIAL, es), PaintLog(u, INITIAL, es)[a];
    StartIsSafe(u);
    RunIsSafe(u, INITIAL, es);
    RunIsAligned(u, INITIAL, es, m);
    TileShowsLast(u, es, g, floats, i, a);
    assert JobFits(s, p.job) && FitsTile(s.jobs[p.job], s.tasks[p.task]);
    WholeIffFull(s.jobs[p.job], i, p.start, p.count);
    WholeIffOnePiece(s, p.job, i, p.task);
  }
}
