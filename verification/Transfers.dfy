/** When a fetch that falls back to the coordinator completes
    (`RequestAssetChunks`, `HandleAssetChunk` and `FallBackToCoordinator` in
    src/worker-core/task_loop.cpp). The worker asks again only at every 64th
    chunk it keeps; a repeat is not kept. */
module Transfers {
  import opened Basics
  import opened TileGrids
  import opened Words
  import opened Assets

  // ---- which chunks are missing ---------------------------------------------------------

  /** How many chunks of `[a, b)` are missing. */
  function Gaps(have: seq<bool>, a: nat, b: nat): nat
    requires a <= b <= |have|
    decreases b - a
  {
    if a == b then 0 else (if have[a] then 0 else 1) + Gaps(have, a + 1, b)
  }

  /** The chunks of `[a, b)` come in. */
  function Fill(have: seq<bool>, a: nat, b: nat): (r: seq<bool>)
    ensures |r| == |have|
  {
    seq(|have|, (i: nat) requires i < |have| => have[i] || a <= i < b)
  }

  /** Past the first `d` missing chunks from `a` on: the next missing one. */
  function Nth(have: seq<bool>, a: nat, d: nat): (r: nat)
    requires a <= |have|
    ensures a <= r <= |have| && (d >= 1 && a < |have| ==> a < r)
    ensures r < |have| ==> !have[r] && Gaps(have, a, r) == d
    ensures r == |have| ==> Gaps(have, a, r) <= d
    decreases |have| - a
  {
    if a == |have| then a
    else if have[a] then Nth(have, a + 1, d)
    else if d == 0 then a
    else Nth(have, a + 1, d - 1)
  }

  /** How many more chunks are kept before the worker asks again. */
  function UntilAsk(have: seq<bool>): (d: nat)
    ensures 1 <= d <= BATCH
  {
    BATCH - Count(have) % BATCH
  }

  /** A batch was asked for from `a` on, and the next request goes out `d` chunks
      later. Either the batch brings all that is missing; or it brings `d` chunks,
      and from the first one then missing the same holds, 64 at a time. */
  predicate Completes(have: seq<bool>, a: nat, d: nat)
    requires a <= |have| && d >= 1
    decreases |have| - a
  {
    var e := Min(a + BATCH, |have|);
    Gaps(have, e, |have|) == 0 || (Gaps(have, a, e) >= d && Completes(have, Nth(have, a, d), BATCH))
  }

  /** What happens while true chunks come in: `[p, b)` are still to come, then
      the answers to `q`. True if the last missing chunk is among what comes. */
  function Ends(have: seq<bool>, p: nat, b: nat, q: seq<(nat, nat)>): bool
    requires b <= |have|
    decreases |have| - Count(have), |q|, b - p
  {
    CountFull(have);
    if p < b then
      if have[p] then Ends(have, p + 1, b, q)
      else
        var h := have[p := true];
        CountSet(have, p);
        CountFull(h);
        Count(h) == |h| || Ends(h, p + 1, b, q + Asks(h))
    else q != [] && Ends(have, q[0].0, Min(q[0].1, |have|), q[1..])
  }

  // ---- counting --------------------------------------------------------------------------

  lemma {:induction false} GapsSplit(have: seq<bool>, a: nat, m: nat, b: nat)
    requires a <= m <= b <= |have|
    ensures Gaps(have, a, b) == Gaps(have, a, m) + Gaps(have, m, b) && Gaps(have, a, m) <= m - a
    decreases m - a
  {
    if a < m {
      GapsSplit(have, a + 1, m, b);
    }
  }

  lemma {:induction false} GapsLocal(h: seq<bool>, h': seq<bool>, a: nat, b: nat)
    requires a <= b <= |h| == |h'| && forall i :: a <= i < b ==> h[i] == h'[i]
    ensures Gaps(h, a, b) == Gaps(h', a, b)
    decreases b - a
  {
    if a < b {
      GapsLocal(h, h', a + 1, b);
    }
  }

  lemma {:induction false} NoGaps(have: seq<bool>, a: nat, b: nat)
    requires a <= b <= |have|
    ensures Gaps(have, a, b) == 0 <==> forall i :: a <= i < b ==> have[i]
    decreases b - a
  {
    if a < b {
      NoGaps(have, a + 1, b);
    }
  }

  lemma {:induction false} NthLocal(h: seq<bool>, h': seq<bool>, a: nat, d: nat)
    requires a <= |h| == |h'| && forall i :: a <= i < |h| ==> h[i] == h'[i]
    ensures Nth(h, a, d) == Nth(h', a, d)
    decreases |h| - a
  {
    if a < |h| {
      NthLocal(h, h', a + 1, if h[a] || d == 0 then d else d - 1);
    }
  }

  /** What comes before `a` does not matter. */
  lemma {:induction false} CompletesLocal(h: seq<bool>, h': seq<bool>, a: nat, d: nat)
    requires a <= |h| == |h'| && d >= 1 && forall i :: a <= i < |h| ==> h[i] == h'[i]
    ensures Completes(h, a, d) == Completes(h', a, d)
    decreases |h| - a
  {
    var e := Min(a + BATCH, |h|);
    GapsLocal(h, h', a, e);
    GapsLocal(h, h', e, |h|);
    NthLocal(h, h', a, d);
    if Gaps(h, e, |h|) > 0 && Gaps(h, a, e) >= d {
      CompletesLocal(h, h', Nth(h, a, d), BATCH);
    }
  }

  /** Skipping the first missing chunks one range at a time. */
  lemma {:induction false} NthSkip(have: seq<bool>, a: nat, b: nat, d: nat)
    requires a <= b <= |have| && Gaps(have, a, b) <= d
    ensures Nth(have, a, d) == Nth(have, b, d - Gaps(have, a, b))
    decreases b - a
  {
    if a < b {
      NthSkip(have, a + 1, b, if have[a] then d else d - 1);
    }
  }

  lemma {:induction false} CountFill(have: seq<bool>, a: nat, b: nat)
    requires a <= b <= |have|
    ensures Count(Fill(have, a, b)) == Count(have) + Gaps(have, a, b)
    decreases b - a
  {
    if a == b {
      assert Fill(have, a, b) == have;
    } else {
      CountFill(have, a + 1, b);
      FillOne(have, a, b);
      if !have[a] {
        CountSet(Fill(have, a + 1, b), a);
      }
    }
  }

  lemma FillOne(have: seq<bool>, a: nat, b: nat)
    requires a < b <= |have|
    ensures Fill(have, a, b) == Fill(have, a + 1, b)[a := true]
    ensures have[a] ==> Fill(have, a, b) == Fill(have, a + 1, b)
    ensures Fill(have, a, b) == Fill(have[a := true], a + 1, b)
  {
  }

  /** Keeping one chunk brings the next request one closer. */
  lemma OneCloser(have: seq<bool>, p: nat, j: nat)
    requires p < |have| && !have[p] && j < |have| && j != p && !have[j]
    ensures var h := have[p := true];
            Count(h) < |h|
            && (UntilAsk(have) > 1 ==> UntilAsk(h) == UntilAsk(have) - 1 && Asks(h) == [])
            && (UntilAsk(have) == 1 ==> UntilAsk(h) == BATCH && Asks(h) == [NextAsk(h)])
  {
    CountSet(have, p);
    CountFull(have[p := true]);
    assert !have[p := true][j];
  }

  // ---- one batch -------------------------------------------------------------------------

  /** A batch that brings all that is missing. */
  lemma {:induction false} EndsAll(have: seq<bool>, p: nat, b: nat, q: seq<(nat, nat)>)
    requires p <= b <= |have| && Count(have) < |have| && forall i :: 0 <= i < |have| && !have[i] ==> p <= i < b
    ensures Ends(have, p, b, q)
    decreases b - p
  {
    CountFull(have);
    if have[p] {
      EndsAll(have, p + 1, b, q);
    } else {
      var h := have[p := true];
      CountFull(h);
      if Count(h) < |h| {
        EndsAll(h, p + 1, b, q + Asks(h));
      }
    }
  }

  /** A batch with too few new chunks for a request. */
  lemma {:induction false} EndsQuiet(have: seq<bool>, p: nat, b: nat, q: seq<(nat, nat)>, j: nat)
    requires p <= b <= j < |have| && !have[j] && Gaps(have, p, b) < UntilAsk(have)
    ensures Ends(have, p, b, q) == Ends(Fill(have, p, b), b, b, q)
    decreases b - p
  {
    if p == b {
      assert Fill(have, p, b) == have;
    } else {
      FillOne(have, p, b);
      if have[p] {
        EndsQuiet(have, p + 1, b, q, j);
      } else {
        var h := have[p := true];
        OneCloser(have, p, j);
        GapsLocal(have, h, p + 1, b);
        EndsQuiet(h, p + 1, b, q, j);
        assert q + [] == q;
      }
    }
  }

  /** The last chunk before a request. */
  lemma AskedFor(have: seq<bool>, p: nat)
    requires p < |have| && !have[p] && forall i :: 0 <= i < p ==> have[i]
    ensures var h := have[p := true]; FirstMissing(h, 0) == Nth(have, p, 1)
  {
    var h := have[p := true];
    var g := Nth(have, p, 1);
    assert Gaps(have, p, g) <= 1;
    GapsSplit(have, p, p + 1, g);
    NoGaps(have, p + 1, g);
    assert forall i :: 0 <= i < g ==> h[i];
    assert g < |h| ==> !h[g];
  }

  /** One new chunk that is not the last. */
  lemma EndsStep(have: seq<bool>, p: nat, b: nat, q: seq<(nat, nat)>, j: nat)
    requires p < b <= |have| && !have[p] && j < |have| && j != p && !have[j]
    ensures var h := have[p := true];
            Ends(have, p, b, q) == Ends(h, p + 1, b, if UntilAsk(have) == 1 then q + [NextAsk(h)] else q)
  {
    OneCloser(have, p, j);
    assert q + [] == q;
  }

  /** The batch still holds the rest of the chunks needed. */
  lemma StepGaps(have: seq<bool>, p: nat, b: nat, d: nat)
    requires p < b <= |have| && !have[p] && d >= 1
    ensures var h := have[p := true];
            Gaps(h, p + 1, b) == Gaps(have, p, b) - 1 && Nth(h, p + 1, d - 1) == Nth(have, p, d)
            && Fill(h, p + 1, b) == Fill(have, p, b)
  {
    var h := have[p := true];
    FillOne(have, p, b);
    GapsLocal(have, h, p + 1, b);
    NthLocal(have, h, p + 1, d - 1);
  }

  /** What the batch is proved to do from `have`. */
  ghost predicate AsksOnce(have: seq<bool>, p: nat, b: nat, q: seq<(nat, nat)>, d: nat)
    requires p <= b <= |have|
  {
    var g := Nth(have, p, d);
    Ends(have, p, b, q) == Ends(Fill(have, p, b), b, b, q + [(g, Min(|have|, g + BATCH))])
  }

  lemma AskNow(have: seq<bool>, p: nat, b: nat, q: seq<(nat, nat)>, j: nat)
    requires p < b <= j < |have| && !have[p] && !have[j] && forall i :: 0 <= i < p ==> have[i]
    requires UntilAsk(have) == 1 && Gaps(have, p, b) <= BATCH
    ensures AsksOnce(have, p, b, q, 1)
  {
    var h := have[p := true];
    OneCloser(have, p, j);
    EndsStep(have, p, b, q, j);
    StepGaps(have, p, b, 1);
    AskedFor(have, p);
    EndsQuiet(h, p + 1, b, q + [NextAsk(h)], j);
  }

  lemma AsksAfterHad(have: seq<bool>, p: nat, b: nat, q: seq<(nat, nat)>, d: nat)
    requires p < b <= |have| && have[p] && AsksOnce(have, p + 1, b, q, d)
    ensures AsksOnce(have, p, b, q, d) && Gaps(have, p, b) == Gaps(have, p + 1, b)
  {
    FillOne(have, p, b);
  }

  lemma AsksAfterNew(have: seq<bool>, p: nat, b: nat, q: seq<(nat, nat)>, d: nat, j: nat)
    requires p < b <= j < |have| && !have[p] && !have[j] && d == UntilAsk(have) > 1
    requires AsksOnce(have[p := true], p + 1, b, q, d - 1)
    ensures AsksOnce(have, p, b, q, d)
  {
    EndsStep(have, p, b, q, j);
    StepGaps(have, p, b, d);
  }

  /** A batch with enough new chunks for one request. */
  lemma {:induction false} EndsAsk(have: seq<bool>, p: nat, b: nat, q: seq<(nat, nat)>, j: nat, d: nat)
    requires p <= b <= j < |have| && !have[j] && forall i :: 0 <= i < p ==> have[i]
    requires UntilAsk(have) == d <= Gaps(have, p, b) < d + BATCH
    ensures AsksOnce(have, p, b, q, d)
    decreases b - p
  {
    hide AsksOnce, UntilAsk, Nth, Fill;
    if have[p] {
      EndsAsk(have, p + 1, b, q, j, d);
      AsksAfterHad(have, p, b, q, d);
    } else if d == 1 {
      AskNow(have, p, b, q, j);
    } else {
      OneCloser(have, p, j);
      StepGaps(have, p, b, d);
      EndsAsk(have[p := true], p + 1, b, q, j, d - 1);
      AsksAfterNew(have, p, b, q, d, j);
    }
  }

  // ---- batch after batch -----------------------------------------------------------------

  lemma StillUntil(have: seq<bool>, h': seq<bool>, n: nat)
    requires Count(h') == Count(have) + n && n < UntilAsk(have)
    ensures UntilAsk(h') == UntilAsk(have) - n
  {
    AddRemainder(Count(have), n);
  }

  /** At the next multiple the count to the one after starts anew. */
  lemma AtAsk(have: seq<bool>, h': seq<bool>)
    requires Count(h') == Count(have) + UntilAsk(have)
    ensures UntilAsk(h') == BATCH
  {
    assert Count(h') == (Count(have) / BATCH + 1) * BATCH;
  }

  lemma AddRemainder(c: nat, n: nat)
    requires c % BATCH + n < BATCH
    ensures (c + n) % BATCH == c % BATCH + n
  {
    assert c + n == c / BATCH * BATCH + (c % BATCH + n);
  }

  /** The chunks of `[a, b)` having come, what is missing up to `e`. */
  lemma FilledGaps(h0: seq<bool>, a: nat, b: nat, e: nat)
    requires a <= b <= e <= |h0|
    ensures var h2 := Fill(h0, a, b);
            Gaps(h2, a, b) == 0 && Gaps(h2, a, e) == Gaps(h0, a, e) - Gaps(h0, a, b) && Fill(h2, a, e) == Fill(h0, a, e)
  {
    var h2 := Fill(h0, a, b);
    GapsSplit(h0, a, b, e);
    GapsSplit(h2, a, b, e);
    GapsLocal(h0, h2, b, e);
    NoGaps(h2, a, b);
  }

  lemma FilledNth(h0: seq<bool>, a: nat, b: nat, d: nat)
    requires a <= b <= |h0| && Gaps(h0, a, b) <= d
    ensures Nth(Fill(h0, a, b), a, d - Gaps(h0, a, b)) == Nth(h0, a, d)
  {
    var h2 := Fill(h0, a, b);
    NoGaps(h2, a, b);
    NthSkip(h0, a, b, d);
    NthSkip(h2, a, b, d - Gaps(h0, a, b));
    NthLocal(h0, h2, b, d - Gaps(h0, a, b));
  }

  /** Counting from the last request gives the same next one. */
  lemma SinceAsked(h0: seq<bool>, a: nat, b: nat)
    requires a <= b <= |h0| && Gaps(h0, a, b) < UntilAsk(h0)
    ensures var h2 := Fill(h0, a, b);
            UntilAsk(h2) == UntilAsk(h0) - Gaps(h0, a, b) && Nth(h2, a, UntilAsk(h2)) == Nth(h0, a, UntilAsk(h0))
  {
    CountFill(h0, a, b);
    StillUntil(h0, Fill(h0, a, b), Gaps(h0, a, b));
    FilledNth(h0, a, b, UntilAsk(h0));
  }

  /** Where the next batch starts, and that the rest of this one lies in it. */
  lemma NextBatch(h0: seq<bool>, a: nat, e: nat)
    requires a <= e == Min(a + BATCH, |h0|) && forall i :: 0 <= i < a ==> h0[i]
    requires UntilAsk(h0) <= Gaps(h0, a, e) && Gaps(h0, e, |h0|) > 0
    ensures var g := Nth(h0, a, UntilAsk(h0));
            var h1, b := Fill(h0, a, g), if g < e then e else g;
            a < g && b <= Min(g + BATCH, |h0|) && Fill(h1, g, b) == Fill(h0, a, e)
            && UntilAsk(h1) == BATCH && Gaps(h1, g, b) < BATCH && Completes(h1, g, BATCH) == Completes(h0, g, BATCH)
  {
    var g := Nth(h0, a, UntilAsk(h0));
    GapsSplit(h0, a, e, |h0|);
    assert a < g < |h0|;
    var h1, b := Fill(h0, a, g), if g < e then e else g;
    CountFill(h0, a, g);
    AtAsk(h0, h1);
    hide Completes, UntilAsk, Count;
    CompletesLocal(h1, h0, g, BATCH);
    GapsSplit(h1, g, b, b);
    if e < g {
      GapsSplit(h0, a, e, g);
      NoGaps(h0, e, g);
    }
    assert Fill(h1, g, b) == Fill(h0, a, e);
  }

  /** A chunk past the batch is still missing after it. */
  lemma LaterGap(h0: seq<bool>, a: nat, e: nat) returns (j: nat)
    requires a <= e <= |h0| && Gaps(h0, e, |h0|) > 0
    ensures e <= j < |h0| && !h0[j] && Count(Fill(h0, a, e)) < |h0|
  {
    j := Nth(h0, e, 0);
    CountFull(Fill(h0, a, e));
    assert !Fill(h0, a, e)[j];
  }

  /** This batch sends one request, and the next batch answers it. */
  lemma EndsNext(h0: seq<bool>, a: nat, b: nat, e: nat, j: nat)
    requires a <= b <= e == Min(a + BATCH, |h0|) && forall i :: 0 <= i < a ==> h0[i]
    requires Gaps(h0, a, b) < UntilAsk(h0) <= Gaps(h0, a, e) && e <= j < |h0| && !h0[j]
    ensures var g := Nth(h0, a, UntilAsk(h0));
            Ends(Fill(h0, a, b), a, e, []) == Ends(Fill(h0, a, e), g, Min(g + BATCH, |h0|), [])
  {
    var h2 := Fill(h0, a, b);
    hide Ends, UntilAsk, Gaps, Nth;
    SinceAsked(h0, a, b);
    FilledGaps(h0, a, b, e);
    GapsSplit(h0, a, e, e);
    assert !h2[j] && forall i :: 0 <= i < a ==> h2[i];
    AskAndAnswer(h2, a, e, j, UntilAsk(h2), Fill(h0, a, e));
  }

  lemma AskAndAnswer(have: seq<bool>, a: nat, e: nat, j: nat, d: nat, after: seq<bool>)
    requires a <= e <= j < |have| && !have[j] && forall i :: 0 <= i < a ==> have[i]
    requires UntilAsk(have) == d <= Gaps(have, a, e) < d + BATCH && Fill(have, a, e) == after
    ensures Ends(have, a, e, []) == Ends(after, Nth(have, a, d), Min(Nth(have, a, d) + BATCH, |have|), [])
  {
    EndsAsk(have, a, e, [], j, d);
    AnswerNext(after, e, Nth(have, a, d));
  }

  /** Between two batches. */
  lemma AnswerNext(have: seq<bool>, e: nat, g: nat)
    requires e <= |have|
    ensures Ends(have, e, e, [] + [(g, Min(|have|, g + BATCH))]) == Ends(have, g, Min(g + BATCH, |have|), [])
  {
    assert ([] + [(g, Min(|have|, g + BATCH))])[1..] == [];
  }

  /** A batch that brings the rest, or that brings too little for a request. */
  lemma LastBatch(h0: seq<bool>, a: nat, b: nat, e: nat)
    requires a <= b <= e == Min(a + BATCH, |h0|) && forall i :: 0 <= i < a ==> h0[i]
    requires Gaps(h0, a, b) < UntilAsk(h0) && Count(Fill(h0, a, b)) < |h0|
    requires Gaps(h0, e, |h0|) == 0 || Gaps(h0, a, e) < UntilAsk(h0)
    ensures Ends(Fill(h0, a, b), a, e, []) == (Gaps(h0, e, |h0|) == 0)
  {
    var h2 := Fill(h0, a, b);
    if Gaps(h0, e, |h0|) == 0 {
      NoGaps(h0, e, |h0|);
      EndsAll(h2, a, e, []);
    } else {
      var j := LaterGap(h0, a, e);
      SinceAsked(h0, a, b);
      FilledGaps(h0, a, b, e);
      EndsQuiet(h2, a, e, [], j);
    }
  }

  /** The chunks of `[a, b)` have come since the batch from `a` was asked for,
      and no request went out since. */
  lemma {:induction false} EndsIff(h0: seq<bool>, a: nat, b: nat)
    requires a <= b <= Min(a + BATCH, |h0|) && forall i :: 0 <= i < a ==> h0[i]
    requires Gaps(h0, a, b) < UntilAsk(h0) && Count(Fill(h0, a, b)) < |h0|
    ensures Ends(Fill(h0, a, b), a, Min(a + BATCH, |h0|), []) == Completes(h0, a, UntilAsk(h0))
    decreases |h0| - a
  {
    var e := Min(a + BATCH, |h0|);
    if Gaps(h0, e, |h0|) == 0 || Gaps(h0, a, e) < UntilAsk(h0) {
      LastBatch(h0, a, b, e);
    } else {
      var j := LaterGap(h0, a, e);
      EndsNext(h0, a, b, e, j);
      NextBatch(h0, a, e);
      var g := Nth(h0, a, UntilAsk(h0));
      EndsIff(Fill(h0, a, g), g, if g < e then e else g);
    }
  }

  // ---- what follows for a fallback -------------------------------------------------------

  /** Falling back asks for the first batch. */
  predicate FallBackCompletes(have: seq<bool>) {
    Completes(have, 0, UntilAsk(have))
  }

  lemma FallBackIff(have: seq<bool>)
    requires Count(have) < |have|
    ensures Ends(have, 0, 0, [(0, BATCH)]) == FallBackCompletes(have)
  {
    assert Fill(have, 0, 0) == have;
    EndsIff(have, 0, 0);
    assert [(0, BATCH)][1..] == [];
  }

  /** The answer to a request for chunks that are all there. */
  lemma OnlyRepeats(have: seq<bool>, p: nat, b: nat, q: seq<(nat, nat)>, j: nat)
    requires p <= b <= |have| && j < |have| && !have[j] && forall i :: p <= i < b ==> have[i]
    ensures Ends(have, p, b, q) == Ends(have, b, b, q)
    decreases b - p
  {
    if p < b {
      OnlyRepeats(have, p + 1, b, q, j);
    }
  }

  /** Falling back while the answer to an earlier request is on its way changes
      nothing: what it asks for comes with that answer, or is there. */
  lemma FallBackAddsNothing(have: seq<bool>)
    requires Count(have) < |have| && UntilAsk(have) == BATCH
    ensures var f := FirstMissing(have, 0);
            Ends(have, f, Min(f + BATCH, |have|), [(0, BATCH)]) == Ends(have, f, Min(f + BATCH, |have|), [])
  {
    CountFull(have);
    var f := FirstMissing(have, 0);
    var e := Min(f + BATCH, |have|);
    if Gaps(have, e, |have|) == 0 {
      NoGaps(have, e, |have|);
      EndsAll(have, f, e, [(0, BATCH)]);
      EndsAll(have, f, e, []);
    } else {
      var j := LaterGap(have, f, e);
      GapsSplit(have, f, e, e);
      if Gaps(have, f, e) < BATCH {
        EndsQuiet(have, f, e, [(0, BATCH)], j);
        EndsQuiet(have, f, e, [], j);
        RepeatsAfter(have, f, e, [], j);
        assert [(0, BATCH)] + [] == [(0, BATCH)];
      } else {
        AskedTwice(have, f, e, j);
      }
    }
  }

  lemma AskedTwice(have: seq<bool>, f: nat, e: nat, j: nat)
    requires f <= e == Min(f + BATCH, |have|) <= j < |have| && !have[j] && forall i :: 0 <= i < f ==> have[i]
    requires UntilAsk(have) == BATCH == Gaps(have, f, e)
    ensures Ends(have, f, e, [(0, BATCH)]) == Ends(have, f, e, [])
  {
    var g := Nth(have, f, BATCH);
    var next := (g, Min(|have|, g + BATCH));
    EndsAsk(have, f, e, [(0, BATCH)], j, BATCH);
    EndsAsk(have, f, e, [], j, BATCH);
    hide Ends, Gaps, Nth, Fill;
    RepeatsAfter(have, f, e, [next], j);
    assert [] + [next] == [next];
  }

  lemma RepeatsAfter(have: seq<bool>, f: nat, e: nat, q: seq<(nat, nat)>, j: nat)
    requires f <= e == Min(f + BATCH, |have|) <= j < |have| && !have[j] && forall i :: 0 <= i < f ==> have[i]
    ensures Ends(Fill(have, f, e), e, e, [(0, BATCH)] + q) == Ends(Fill(have, f, e), e, e, q)
  {
    var h := Fill(have, f, e);
    assert ([(0, BATCH)] + q)[1..] == q;
    OnlyRepeats(h, 0, Min(BATCH, |h|), q, j);
    assert Ends(h, Min(BATCH, |h|), Min(BATCH, |h|), q) == Ends(h, e, e, q);
  }

  lemma {:induction false} RestCompletes(have: seq<bool>, a: nat)
    requires a <= |have| && forall i :: a <= i < |have| ==> !have[i]
    ensures Completes(have, a, BATCH)
    decreases |have| - a
  {
    if a + BATCH < |have| {
      AllMissing(have, a, a + BATCH);
      NthOfMissing(have, a, BATCH);
      RestCompletes(have, a + BATCH);
    }
  }

  lemma {:induction false} AllMissing(have: seq<bool>, a: nat, b: nat)
    requires a <= b <= |have| && forall i :: a <= i < b ==> !have[i]
    ensures Gaps(have, a, b) == b - a
    decreases b - a
  {
    if a < b {
      AllMissing(have, a + 1, b);
    }
  }

  lemma {:induction false} NthOfMissing(have: seq<bool>, a: nat, d: nat)
    requires a + d <= |have| && forall i :: a <= i < |have| ==> !have[i]
    ensures Nth(have, a, d) == a + d
    decreases d
  {
    if d > 0 {
      NthOfMissing(have, a + 1, d - 1);
    }
  }

  lemma CountGaps(have: seq<bool>)
    ensures Count(have) + Gaps(have, 0, |have|) == |have|
  {
    CountFill(have, 0, |have|);
    CountFull(Fill(have, 0, |have|));
  }

  /** A fetch with nothing past the first batch completes, unless it has all of
      that batch: so does one whose peers sent only what was asked of them. */
  lemma FirstBatchCompletesIff(have: seq<bool>)
    requires Count(have) < |have| && forall i :: BATCH <= i < |have| ==> !have[i]
    ensures FallBackCompletes(have) <==> exists i :: 0 <= i < Min(BATCH, |have|) && !have[i]
  {
    CountFull(have);
    if |have| > BATCH {
      FirstOfMany(have);
      NoGaps(have, 0, BATCH);
      if Gaps(have, 0, BATCH) > 0 {
        RestCompletes(have, BATCH);
      }
    }
  }

  lemma UntilAfter(have: seq<bool>, m: nat)
    requires m <= BATCH && Count(have) == BATCH - m
    ensures UntilAsk(have) == if m == 0 then BATCH else m
  {
  }

  lemma FirstOfMany(have: seq<bool>)
    requires |have| > BATCH && forall i :: BATCH <= i < |have| ==> !have[i]
    ensures var m := Gaps(have, 0, BATCH);
            Gaps(have, BATCH, |have|) > 0 && Nth(have, 0, m) == BATCH && UntilAsk(have) == if m == 0 then BATCH else m
  {
    var m := Gaps(have, 0, BATCH);
    FirstNth(have);
    CountGaps(have);
    GapsSplit(have, 0, BATCH, |have|);
    AllMissing(have, BATCH, |have|);
    UntilAfter(have, m);
  }

  lemma FirstNth(have: seq<bool>)
    requires |have| > BATCH && !have[BATCH]
    ensures Gaps(have, 0, BATCH) <= BATCH && Nth(have, 0, Gaps(have, 0, BATCH)) == BATCH
  {
    GapsSplit(have, 0, BATCH, BATCH);
    NthAt(have, 0, BATCH);
  }

  lemma NthAt(have: seq<bool>, a: nat, b: nat)
    requires a <= b < |have| && !have[b]
    ensures Nth(have, a, Gaps(have, a, b)) == b
  {
    NthSkip(have, a, b, Gaps(have, a, b));
  }

  /** The first `r` chunks of `n`. */
  function FirstOnes(n: nat, r: nat): seq<bool> { seq(n, i => i < r) }

  lemma CountFirst(n: nat, r: nat)
    requires r <= n
    ensures Count(FirstOnes(n, r)) == r
  {
    var have := FirstOnes(n, r);
    NoGaps(have, 0, r);
    AllMissing(have, r, n);
    GapsSplit(have, 0, r, n);
    CountGaps(have);
  }

  /** With the first `r` chunks in, falling back completes only if one of the
      first batch is missing: otherwise it brings repeats only. */
  lemma InOrderCompletesIff(n: nat, r: nat)
    requires r < n
    ensures FallBackCompletes(FirstOnes(n, r)) <==> r < BATCH
  {
    var have := FirstOnes(n, r);
    CountFirst(n, r);
    if r <= BATCH {
      FirstBatchCompletesIff(have);
      assert r < BATCH ==> !have[r];
    } else {
      NoGaps(have, 0, BATCH);
      NoGaps(have, BATCH, n);
      assert !have[r];
    }
  }

  /** The first 63 chunks and, ahead of its turn, the 65th. */
  function OneAhead(n: nat): seq<bool> { seq(n, i => i < 63 || i == 64) }

  /** The next request brings 63 new chunks, one short of another request; and
      falling back brings repeats only. */
  lemma OneAheadStalls(n: nat)
    requires n >= 128
    ensures Asks(OneAhead(n)) == [(63, 127)] && !Ends(OneAhead(n), 0, 0, [(63, 127), (0, BATCH)])
  {
    var have, q := OneAhead(n), [(0, BATCH)];
    AheadCounts(n);
    assert [(63, 127), (0, BATCH)][1..] == q && q[1..] == [];
    assert !have[127];
    EndsQuiet(have, 63, 127, q, 127);
    assert Fill(have, 63, 127) == FirstOnes(n, 127);
    InOrderCompletesIff(n, 127);
    CountFirst(n, 127);
    FallBackIff(FirstOnes(n, 127));
  }

  lemma AheadCounts(n: nat)
    requires n >= 128
    ensures var have := OneAhead(n); Count(have) == 64 && Gaps(have, 63, 127) == 63 && Gaps(have, 127, n) == n - 127
    ensures FirstMissing(OneAhead(n), 0) == 63
  {
    var have := OneAhead(n);
    NoGaps(have, 0, 63);
    AllMissing(have, 65, 127);
    AllMissing(have, 127, n);
    GapsSplit(have, 0, 63, n);
    GapsSplit(have, 63, 65, 127);
    GapsSplit(have, 63, 127, n);
    assert Gaps(have, 63, 65) == 1 + Gaps(have, 64, 65) && Gaps(have, 64, 65) == 0;
    CountGaps(have);
    assert !have[63];
  }

  // ---- the run of it ---------------------------------------------------------------------

  /** Whether the fetch ends with the asset, if it ends. */
  ghost predicate Sound(f: Fetch, blob: seq<Byte>)
    reads f
  {
    f.Valid() && f.size == |blob| && 0 < |blob| <= MAX_ASSET && Names(f.genuine, blob) && (f.live ==> f.ready.None?)
  }

  /** `f` took a chunk: it is there now, and the worker asked again if due. */
  method Take(f: Fetch, blob: seq<Byte>, c: Chunk)
    requires Sound(f, blob) && f.live && !f.fromPeer && TrueChunk(c, blob)
    modifies f
    ensures Sound(f, blob) && !f.fromPeer && |f.Has()| == |old(f.Has())| == ChunkCount(|blob|)
    ensures old(f.Has())[c.index] ==> f.live && f.Has() == old(f.Has()) && f.asked == old(f.asked)
    ensures !old(f.Has())[c.index] && f.live ==>
              f.Has() == old(f.Has())[c.index := true] && f.asked == old(f.asked) + Asks(f.Has()) && Count(f.Has()) < |f.Has()|
    ensures !f.live ==> !old(f.Has())[c.index] && Count(old(f.Has())[c.index := true]) == ChunkCount(|blob|) && f.asked == old(f.asked)
    ensures f.live ==> (HonestPieces(f.pieces, blob) <==> old(HonestPieces(f.pieces, blob)))
    ensures !f.live ==> f.ready == if old(HonestPieces(f.pieces, blob)) then Some(blob) else None
  {
    TrueChunkPasses(c, blob);
    ghost var had, after := f.pieces, f.pieces[c.index := c.bytes];
    var o := f.Handle(c);
    if o.Kept() {
      SameHonesty(had, blob, c);
    }
    if o.Finished? {
      AssembledIffHonest(blob, f.bytes, after);
    }
    if o.Rejected? {
      ghost var b :| !f.genuine(b) && Assembled(f.size, b, after);
      AssembledIffHonest(blob, b, after);
    }
  }

  /** The requests are for some chunks of the asset, a batch at most. */
  ghost predicate GoodAsks(asked: seq<(nat, nat)>, n: nat) {
    forall x <- asked :: x.0 < n && x.0 < x.1 <= x.0 + BATCH
  }

  /** What is still to come decides: `[p, b)`, then the answers to `asked[i..]`. */
  ghost predicate OnCourse(live: bool, have: seq<bool>, asked: seq<(nat, nat)>, p: nat, b: nat, i: nat, completes: bool) {
    i <= |asked| && b <= |have| && GoodAsks(asked[i..], |have|)
    && if live then Count(have) < |have| && completes == Ends(have, p, b, asked[i..]) else completes
  }

  /** The fetch keeps true chunks beside what it had, or ended with all of them. */
  ghost predicate Fed(f: Fetch, blob: seq<Byte>, honest: bool)
    reads f
  {
    Sound(f, blob) && !f.fromPeer
    && if f.live then honest <==> HonestPieces(f.pieces, blob) else f.ready == if honest then Some(blob) else None
  }

  lemma AsksGood(have: seq<bool>, asked: seq<(nat, nat)>, i: nat)
    requires i <= |asked| && GoodAsks(asked[i..], |have|)
    ensures GoodAsks((asked + Asks(have))[i..], |have|) && (asked + Asks(have))[i..] == asked[i..] + Asks(have)
  {
    CountFull(have);
  }

  /** One chunk of an answer, kept or a repeat. */
  lemma EndsTake(have: seq<bool>, p: nat, b: nat, i: nat, asked: seq<(nat, nat)>)
    requires p < b <= |have| && i <= |asked| && GoodAsks(asked[i..], |have|)
    ensures have[p] ==> Ends(have, p, b, asked[i..]) == Ends(have, p + 1, b, asked[i..])
    ensures var h := have[p := true];
            !have[p] ==> Count(h) == Count(have) + 1 <= |h| && (Count(h) == |h| ==> Ends(have, p, b, asked[i..]))
                         && (Count(h) < |h| ==> Ends(have, p, b, asked[i..]) == Ends(h, p + 1, b, (asked + Asks(h))[i..]))
                         && GoodAsks((asked + Asks(h))[i..], |h|)
  {
    if !have[p] {
      CountSet(have, p);
      CountFull(have[p := true]);
      AsksGood(have[p := true], asked, i);
    }
  }

  lemma CourseOn(have: seq<bool>, asked: seq<(nat, nat)>, p: nat, b: nat, i: nat, completes: bool,
                 live: bool, have': seq<bool>, asked': seq<(nat, nat)>)
    requires OnCourse(true, have, asked, p, b, i, completes) && p < b
    requires |have'| == |have| && |asked'| >= |asked|
    requires have[p] ==> live && have' == have && asked' == asked
    requires !have[p] && live ==> have' == have[p := true] && asked' == asked + Asks(have') && Count(have') < |have'|
    requires !live ==> Count(have[p := true]) == |have| && asked' == asked
    ensures OnCourse(live, have', asked', p + 1, b, i, completes)
    ensures (live && !have[p] ==> Count(have') > Count(have)) && (!live ==> completes)
  {
    EndsTake(have, p, b, i, asked);
  }

  /** Either more chunks are in, or nothing happened; `had` and `sent` are from before. */
  ghost predicate Moved(f: Fetch, had: nat, sent: nat)
    reads f
  {
    f.live ==> Count(f.Has()) > had || (Count(f.Has()) == had && |f.asked| == sent)
  }

  method TakeNext(f: Fetch, blob: seq<Byte>, c: Chunk, b: nat, i: nat, ghost completes: bool, ghost honest: bool)
    requires Fed(f, blob, honest) && f.live && c.index < b && TrueChunk(c, blob)
    requires OnCourse(true, f.Has(), f.asked, c.index, b, i, completes)
    modifies f
    ensures Fed(f, blob, honest) && OnCourse(f.live, f.Has(), f.asked, c.index + 1, b, i, completes)
    ensures !f.live ==> completes
    ensures Moved(f, Count(old(f.Has())), |old(f.asked)|)
  {
    ghost var have, asked := f.Has(), f.asked;
    hide Sound, OnCourse;
    Take(f, blob, c);
    CourseOn(have, asked, c.index, b, i, completes, f.live, f.Has(), f.asked);
  }

  lemma SameHonesty(pieces: map<nat, seq<Byte>>, blob: seq<Byte>, c: Chunk)
    requires |blob| <= MAX_ASSET && TrueChunk(c, blob) && c.index !in pieces
    ensures HonestPieces(pieces[c.index := c.bytes], blob) <==> HonestPieces(pieces, blob)
  {
    var after := pieces[c.index := c.bytes];
    assert forall i <- pieces :: i in after && after[i] == pieces[i];
  }

  /** Consecutive chunks of the asset, from `from` on. */
  ghost predicate TrueRange(chunks: seq<Chunk>, blob: seq<Byte>, from: nat)
    requires |blob| <= MAX_ASSET
  {
    forall k :: 0 <= k < |chunks| ==> TrueChunk(chunks[k], blob) && chunks[k].index == from + k
  }

  method TakeAll(f: Fetch, blob: seq<Byte>, from: nat, chunks: seq<Chunk>, i: nat, ghost completes: bool, ghost honest: bool)
    requires Fed(f, blob, honest) && f.live && TrueRange(chunks, blob, from)
    requires OnCourse(true, f.Has(), f.asked, from, from + |chunks|, i, completes)
    modifies f
    ensures Fed(f, blob, honest)
    ensures OnCourse(f.live, f.Has(), f.asked, from + |chunks|, from + |chunks|, i, completes) || (!f.live && completes)
    ensures Moved(f, Count(old(f.Has())), |old(f.asked)|)
  {
    hide OnCourse, Sound;
    for k := 0 to |chunks|
      invariant Fed(f, blob, honest) && Moved(f, Count(old(f.Has())), |old(f.asked)|)
      invariant f.live && OnCourse(true, f.Has(), f.asked, from + k, from + |chunks|, i, completes)
    {
      TakeNext(f, blob, chunks[k], from + |chunks|, i, completes, honest);
      if !f.live { return; }
    }
  }

  /** The coordinator answers request `i`, and each chunk is handled as it comes. */
  method Answer(f: Fetch, blob: seq<Byte>, i: nat, ghost completes: bool, ghost honest: bool)
    requires Fed(f, blob, honest) && f.live && i < |f.asked|
    requires OnCourse(true, f.Has(), f.asked, 0, 0, i, completes)
    modifies f
    ensures Fed(f, blob, honest) && (if f.live then OnCourse(true, f.Has(), f.asked, 0, 0, i + 1, completes) else completes)
    ensures f.live ==> i < |f.asked| && Count(f.Has()) < ChunkCount(|blob|)
    ensures Moved(f, Count(old(f.Has())), |old(f.asked)|)
  {
    var from, to := f.asked[i].0, f.asked[i].1;
    FirstAnswered(f.Has(), f.asked, i, completes);
    var chunks := Serve(blob, from, to);
    TakeAll(f, blob, from, chunks, i + 1, completes, honest);
    if f.live {
      BatchOver(f.Has(), f.asked, from + |chunks|, i + 1, completes);
    }
  }

  method Serve(blob: seq<Byte>, from: nat, to: nat) returns (chunks: seq<Chunk>)
    requires 0 < |blob| <= MAX_ASSET && from < ChunkCount(|blob|) && from < to <= from + BATCH
    ensures TrueRange(chunks, blob, from) && from + |chunks| == Min(to, ChunkCount(|blob|))
  {
    ServedAsAsked(|blob|, from, to);
    var reply := OnAssetRequest(Some(blob), from, to);
    chunks := reply.chunks;
  }

  lemma BatchOver(have: seq<bool>, asked: seq<(nat, nat)>, p: nat, i: nat, completes: bool)
    requires OnCourse(true, have, asked, p, p, i, completes)
    ensures OnCourse(true, have, asked, 0, 0, i, completes)
  {
  }

  lemma FirstAnswered(have: seq<bool>, asked: seq<(nat, nat)>, i: nat, completes: bool)
    requires OnCourse(true, have, asked, 0, 0, i, completes) && i < |asked|
    ensures OnCourse(true, have, asked, asked[i].0, Min(asked[i].1, |have|), i + 1, completes)
    ensures asked[i].0 < |have| && asked[i].0 < asked[i].1 <= asked[i].0 + BATCH
  {
    assert asked[i..][0] == asked[i] && asked[i..][1..] == asked[i + 1..];
    assert asked[i] in asked[i..];
    assert forall x <- asked[i + 1..] :: x in asked[i..];
  }

  /** Within the size limit no request wraps. */
  lemma ServedAsAsked(size: nat, from: nat, to: nat)
    requires 0 < size <= MAX_ASSET && from < ChunkCount(size) && from < to <= from + BATCH
    ensures to < WORD_SPAN && ServedEnd(ChunkCount(size), from, to) == Min(to, ChunkCount(size))
  {
  }

  /** Answers go on until no request is left. */
  method Drain(f: Fetch, blob: seq<Byte>, first: nat, ghost completes: bool, ghost honest: bool)
    requires Fed(f, blob, honest) && f.live && first < |f.asked|
    requires OnCourse(true, f.Has(), f.asked, 0, 0, first, completes) && Count(f.Has()) < ChunkCount(|blob|)
    modifies f
    ensures Fed(f, blob, honest) && (if f.live then OnCourse(true, f.Has(), f.asked, 0, 0, |f.asked|, completes) else completes)
  {
    hide OnCourse, Fed;
    var i: nat := first;
    while f.live && i < |f.asked|
      invariant Fed(f, blob, honest)
      invariant if f.live then OnCourse(true, f.Has(), f.asked, 0, 0, i, completes) else completes
      invariant f.live ==> i <= |f.asked| && Count(f.Has()) < ChunkCount(|blob|)
      decreases f.live, ChunkCount(|blob|) - Count(f.Has()), |f.asked| - i
    {
      Answer(f, blob, i, completes, honest);
      i := i + 1;
    }
  }

  /** The fetch has fallen back to the coordinator, whose answers all arrive. It
      ends with the asset if, and only if, nothing a peer sent is wrong and the
      chunks it has let the requests go on to the last one. */
  method Resume(f: Fetch, blob: seq<Byte>)
    requires Sound(f, blob) && f.live && !f.fromPeer
    requires f.asked != [] && f.asked[|f.asked| - 1] == (0, BATCH)
    modifies f
    ensures f.ready == if old(HonestPieces(f.pieces, blob)) && FallBackCompletes(old(f.Has())) then Some(blob) else None
    ensures f.live <==> !FallBackCompletes(old(f.Has()))
  {
    ghost var honest, completes := HonestPieces(f.pieces, blob), FallBackCompletes(f.Has());
    CountNone(ChunkCount(|blob|));
    StartsOnCourse(f.Has(), f.asked);
    Drain(f, blob, |f.asked| - 1, completes, honest);
    if f.live {
      NothingComes(f.Has(), f.asked, completes);
    }
  }

  lemma StartsOnCourse(have: seq<bool>, asked: seq<(nat, nat)>)
    requires Count(have) < |have| && asked != [] && asked[|asked| - 1] == (0, BATCH)
    ensures OnCourse(true, have, asked, 0, 0, |asked| - 1, FallBackCompletes(have))
  {
    FallBackIff(have);
    assert asked[|asked| - 1..] == [(0, BATCH)];
  }

  lemma NothingComes(have: seq<bool>, asked: seq<(nat, nat)>, completes: bool)
    requires OnCourse(true, have, asked, 0, 0, |asked|, completes)
    ensures !completes
  {
    assert asked[|asked|..] == [];
  }

  /** What the peer sends: 63 chunks in order, then one ahead of its turn. */
  function AheadAt(k: nat): nat { if k < 63 then k else 64 }

  function AheadSoFar(n: nat, k: nat): seq<bool> { if k <= 63 then FirstOnes(n, k) else OneAhead(n) }

  lemma AheadNext(n: nat, k: nat)
    requires n >= 128 && k < 64
    ensures var have, h := AheadSoFar(n, k), AheadSoFar(n, k + 1);
            !have[AheadAt(k)] && h == have[AheadAt(k) := true] && Count(h) == k + 1
            && Asks(h) == if k == 63 then [(63, 127)] else []
  {
    if k < 63 {
      CountFirst(n, k + 1);
    } else {
      OneAheadStalls(n);
      AheadCounts(n);
    }
  }

  method SendAhead(f: Fetch, blob: seq<Byte>)
    requires Sound(f, blob) && f.live && f.total == 0 && f.asked == [] && ChunkCount(|blob|) >= 128
    modifies f
    ensures Sound(f, blob) && f.live && f.peers == old(f.peers)
    ensures f.Has() == OneAhead(ChunkCount(|blob|)) && f.asked == [(63, 127)]
  {
    ghost var n := ChunkCount(|blob|);
    assert Blank(n) == FirstOnes(n, 0);
    for k := 0 to 64
      invariant Sound(f, blob) && f.live && f.peers == old(f.peers)
      invariant f.Has() == AheadSoFar(n, k) && f.asked == if k == 64 then [(63, 127)] else []
    {
      AheadNext(n, k);
      SendOne(f, blob, AheadAt(k));
    }
  }

  /** A true chunk that is missing and not the last one. */
  method SendOne(f: Fetch, blob: seq<Byte>, i: nat)
    requires Sound(f, blob) && f.live && i < ChunkCount(|blob|) && !f.Has()[i]
    requires Count(f.Has()[i := true]) < ChunkCount(|blob|)
    modifies f
    ensures Sound(f, blob) && f.live && f.peers == old(f.peers)
    ensures f.Has() == old(f.Has())[i := true] && f.asked == old(f.asked) + Asks(f.Has())
  {
    ChunksTile(|blob|, i);
    var c := Chunk(i, ChunkCount(|blob|), ChunkOf(blob, i));
    TrueChunkPasses(c, blob);
    var o := f.Handle(c);
  }

  /** One peer, only true chunks, one of them not asked for: the peer is given up,
      the coordinator answers everything, and the fetch is never finished. */
  method FetchStalls(blob: seq<Byte>, genuine: seq<Byte> -> bool) returns (f: Fetch)
    requires |blob| <= MAX_ASSET && ChunkCount(|blob|) >= 128 && Names(genuine, blob)
    ensures f.live && f.ready.None?
  {
    f := new Fetch(|blob|, genuine, 1);
    SendAhead(f, blob);
    f.TryNext();
    OneAheadStalls(ChunkCount(|blob|));
    AheadCounts(ChunkCount(|blob|));
    assert f.asked[0..] == f.asked == [(63, 127), (0, BATCH)];
    Drain(f, blob, 0, false, HonestPieces(f.pieces, blob));
  }

  /** Without peers a fetch starts at the coordinator, and always completes. */
  method FetchAll(blob: seq<Byte>, genuine: seq<Byte> -> bool) returns (f: Fetch)
    requires 0 < |blob| <= MAX_ASSET && Names(genuine, blob)
    ensures f.ready == Some(blob)
  {
    f := new Fetch(|blob|, genuine, 0);
    CountNone(ChunkCount(|blob|));
    FirstBatchCompletesIff(f.Has());
    assert !f.Has()[0];
    Resume(f, blob);
  }
}
