/** The preview image (src/coordinator/composite.cpp): accumulators replace one
    another tile by tile, and the composed buffer shows every tile where it
    belongs. Floats are reals; the transfer to bytes is any function. */
module Compositing {
  import opened TileGrids
  import opened Rendering

  /** A float of a payload; infinities and NaN are taken for zero. */
  datatype Float = Finite(value: real) | NonFinite

  function Sane(f: Float): real { if f.Finite? then f.value else 0.0 }

  /** Three channel sums per pixel, and how many samples went into them. */
  datatype TileData = TileData(rgb: seq<real>, samples: real)

  /** From the sum of a channel and the sample count to the byte shown. */
  type Transfer = (real, real) -> nat

  function Pixels(t: Tile): nat { t.w * t.h }

  /** The colours of the first `n` pixels; a payload holds `r, g, b, samples` per pixel. */
  function Colours(payload: seq<Float>, n: nat): (r: seq<real>)
    requires |payload| >= n * 4
    ensures |r| == n * 3
  {
    if n == 0 then []
    else Colours(payload, n - 1) + [Sane(payload[n * 4 - 4]), Sane(payload[n * 4 - 3]), Sane(payload[n * 4 - 2])]
  }

  lemma {:induction false} ColourAt(payload: seq<Float>, n: nat, p: nat, c: nat)
    requires |payload| >= n * 4 && p < n && c < 3
    ensures p * 3 + c < n * 3 && Colours(payload, n)[p * 3 + c] == Sane(payload[p * 4 + c])
  {
    if p < n - 1 {
      ColourAt(payload, n - 1, p, c);
    }
  }

  /** The first pixel's sample count stands for all. */
  function Unpacked(payload: seq<Float>, n: nat): (d: TileData)
    requires |payload| == n * 4 && n > 0
    ensures |d.rgb| == n * 3
  {
    TileData(Colours(payload, n), if Sane(payload[3]) > 0.0 then Sane(payload[3]) else 0.0)
  }

  /** Position of channel `k` of pixel `(x, y)` in a row-major RGBA buffer. */
  function At(x: nat, y: nat, k: nat, width: nat): nat { (y * width + x) * 4 + k }

  lemma AtFits(x: nat, y: nat, k: nat, width: nat, height: nat)
    requires x < width && y < height && k < 4
    ensures At(x, y, k, width) < width * height * 4
  {
    RowColumnIs(y * width + x, width, y, x);
    RowAndColumn(y * width + x, width, height);
  }

  /** Different pixels and channels never share a position. */
  lemma AtInjective(x: nat, y: nat, k: nat, x': nat, y': nat, k': nat, width: nat)
    requires x < width && x' < width && k < 4 && k' < 4 && At(x, y, k, width) == At(x', y', k', width)
    ensures x == x' && y == y' && k == k'
  {
    assert y * width + x == y' * width + x';
    RowColumnIs(y * width + x, width, y, x);
    RowColumnIs(y * width + x, width, y', x');
  }

  lemma SourceFits(t: Tile, x: nat, y: nat, k: nat)
    requires Inside(t, x, y) && k < 3
    ensures ((y - t.y) * t.w + (x - t.x)) * 3 + k < Pixels(t) * 3
  {
    RowColumnIs((y - t.y) * t.w + (x - t.x), t.w, y - t.y, x - t.x);
    RowAndColumn((y - t.y) * t.w + (x - t.x), t.w, t.h);
  }

  /** What pixel `(x, y)` of the image shows on channel `k`, out of the data of its tile. */
  function Shade(d: TileData, t: Tile, f: Transfer, x: nat, y: nat, k: nat): nat
    requires Inside(t, x, y) && |d.rgb| == Pixels(t) * 3 && k < 3
  {
    if d.samples <= 0.0 then 0
    else
      SourceFits(t, x, y, k);
      f(d.rgb[((y - t.y) * t.w + (x - t.x)) * 3 + k], d.samples)
  }

  ghost predicate WellFormed(g: TileGrid, tiles: map<nat, TileData>) {
    forall i <- tiles :: i < g.TileCount() && |tiles[i].rgb| == Pixels(g.TileAt(i).value) * 3
  }

  // ---- payload after payload ---------------------------------------------------------

  /** The payload has the size of the tile it is for. */
  predicate FitsGrid(g: TileGrid, i: nat, payload: seq<Float>) {
    i < g.TileCount() && |payload| == Pixels(g.TileAt(i).value) * 4
  }

  function DataFor(g: TileGrid, i: nat, payload: seq<Float>): (d: TileData)
    requires FitsGrid(g, i, payload)
    ensures |d.rgb| == Pixels(g.TileAt(i).value) * 3
  {
    NonEmpty(g.TileAt(i).value);
    Unpacked(payload, Pixels(g.TileAt(i).value))
  }

  /** A payload that fits replaces what its tile had. */
  function AcceptOne(g: TileGrid, tiles: map<nat, TileData>, i: nat, payload: seq<Float>): map<nat, TileData> {
    if FitsGrid(g, i, payload) then tiles[i := DataFor(g, i, payload)] else tiles
  }

  function AcceptAll(g: TileGrid, log: seq<(nat, seq<Float>)>): map<nat, TileData> {
    if log == [] then map[]
    else AcceptOne(g, AcceptAll(g, log[..|log| - 1]), log[|log| - 1].0, log[|log| - 1].1)
  }

  /** Entry `a` is for tile `i` and fits it. */
  predicate FitsAt(g: TileGrid, log: seq<(nat, seq<Float>)>, i: nat, a: nat)
    requires a < |log|
  {
    log[a].0 == i && FitsGrid(g, i, log[a].1)
  }

  /** Entry `a` is the last that fits tile `i`. */
  ghost predicate LastFor(g: TileGrid, log: seq<(nat, seq<Float>)>, i: nat, a: nat) {
    a < |log| && FitsAt(g, log, i, a) && forall b :: a < b < |log| ==> !FitsAt(g, log, i, b)
  }

  /** A tile holds the last payload that fitted it, and nothing of those before. */
  lemma {:induction false} TileHoldsLast(g: TileGrid, log: seq<(nat, seq<Float>)>, i: nat, a: nat)
    requires LastFor(g, log, i, a)
    ensures i in AcceptAll(g, log) && AcceptAll(g, log)[i] == DataFor(g, i, log[a].1)
    decreases |log|
  {
    var init := log[..|log| - 1];
    if a < |init| {
      assert forall b :: 0 <= b < |init| ==> FitsAt(g, init, i, b) == FitsAt(g, log, i, b);
      TileHoldsLast(g, init, i, a);
      assert !FitsAt(g, log, i, |log| - 1);
    }
  }

  /** And a tile nothing fitted holds nothing. */
  lemma {:induction false} TileHoldsNothing(g: TileGrid, log: seq<(nat, seq<Float>)>, i: nat)
    requires forall b :: 0 <= b < |log| ==> !FitsAt(g, log, i, b)
    ensures i !in AcceptAll(g, log)
    decreases |log|
  {
    if log != [] {
      var init := log[..|log| - 1];
      assert forall b :: 0 <= b < |init| ==> FitsAt(g, init, i, b) == FitsAt(g, log, i, b);
      TileHoldsNothing(g, init, i);
      assert !FitsAt(g, log, i, |log| - 1);
    }
  }

  // ---- painting, one pixel at a time ------------------------------------------------

  /** Tiles before `i`, rows before `row` of tile `i`, and `column` pixels of
      that row have been painted. */
  ghost predicate Done(g: TileGrid, i: nat, row: nat, column: nat, x: nat, y: nat)
    requires g.tileW > 0 && g.tileH > 0 && x < g.imageW && y < g.imageH
  {
    var own := TileOf(g, x, y);
    TilesPartitionImage(g, x, y, own);
    var t := g.TileAt(own).value;
    own < i || (own == i && (y - t.y < row || (y - t.y == row && x - t.x < column)))
  }

  /** What the finished image shows at a pixel: alpha is opaque, colour is the
      shade of the one tile the pixel lies in, if the grid has tiles at all. */
  function Shown(g: TileGrid, tiles: map<nat, TileData>, f: Transfer, x: nat, y: nat, k: nat): nat
    requires WellFormed(g, tiles) && x < g.imageW && y < g.imageH && k < 4
  {
    if k == 3 then 255
    else if g.tileW == 0 || g.tileH == 0 then 0
    else
      var own := TileOf(g, x, y);
      TilesPartitionImage(g, x, y, own);
      if own !in tiles then 0 else Shade(tiles[own], g.TileAt(own).value, f, x, y, k)
  }

  ghost predicate PixelOk(out: seq<nat>, g: TileGrid, tiles: map<nat, TileData>, f: Transfer, i: nat, row: nat, column: nat,
                          x: nat, y: nat, k: nat)
    requires WellFormed(g, tiles) && g.tileW > 0 && g.tileH > 0 && x < g.imageW && y < g.imageH && k < 4
  {
    At(x, y, k, g.imageW) < |out|
    && out[At(x, y, k, g.imageW)]
       == if k == 3 || Done(g, i, row, column, x, y) then Shown(g, tiles, f, x, y, k) else 0
  }

  ghost predicate Painted(out: seq<nat>, g: TileGrid, tiles: map<nat, TileData>, f: Transfer, i: nat, row: nat, column: nat)
    requires WellFormed(g, tiles) && g.tileW > 0 && g.tileH > 0
  {
    |out| == g.imageW * g.imageH * 4
    && forall x: nat, y: nat, k: nat | x < g.imageW && y < g.imageH && k < 4 :: PixelOk(out, g, tiles, f, i, row, column, x, y, k)
  }

  // ---- how painting proceeds ----------------------------------------------------------

  /** A row, a tile or an unrendered tile is finished: the next one is due. */
  lemma SameDone(out: seq<nat>, g: TileGrid, tiles: map<nat, TileData>, f: Transfer,
                 i: nat, row: nat, column: nat, i': nat, row': nat, column': nat)
    requires WellFormed(g, tiles) && g.tileW > 0 && g.tileH > 0 && Painted(out, g, tiles, f, i, row, column)
    requires forall x: nat, y: nat | x < g.imageW && y < g.imageH ::
               Done(g, i, row, column, x, y) == Done(g, i', row', column', x, y)
               || (Done(g, i', row', column', x, y) && forall k: nat | k < 3 :: Shown(g, tiles, f, x, y, k) == 0)
    ensures Painted(out, g, tiles, f, i', row', column')
  {
    forall x: nat, y: nat, k: nat | x < g.imageW && y < g.imageH && k < 4
      ensures PixelOk(out, g, tiles, f, i', row', column', x, y, k)
    {
      assert PixelOk(out, g, tiles, f, i, row, column, x, y, k);
    }
  }

  lemma RowDone(g: TileGrid, i: nat, row: nat, x: nat, y: nat)
    requires g.tileW > 0 && g.tileH > 0 && x < g.imageW && y < g.imageH && i < g.TileCount()
    ensures Done(g, i, row, g.TileAt(i).value.w, x, y) == Done(g, i, row + 1, 0, x, y)
  {
    TilesPartitionImage(g, x, y, i);
    TilesPartitionImage(g, x, y, TileOf(g, x, y));
  }

  lemma TileDone(g: TileGrid, i: nat, x: nat, y: nat)
    requires g.tileW > 0 && g.tileH > 0 && x < g.imageW && y < g.imageH && i < g.TileCount()
    ensures Done(g, i, g.TileAt(i).value.h, 0, x, y) == Done(g, i + 1, 0, 0, x, y)
    ensures Done(g, i, 0, 0, x, y) == Done(g, i + 1, 0, 0, x, y) || TileOf(g, x, y) == i
  {
    TilesPartitionImage(g, x, y, i);
    TilesPartitionImage(g, x, y, TileOf(g, x, y));
  }

  /** The pixel at `row`, `column` of tile `i` is the only one that becomes done. */
  lemma PixelDone(g: TileGrid, i: nat, row: nat, column: nat, x: nat, y: nat)
    requires g.tileW > 0 && g.tileH > 0 && x < g.imageW && y < g.imageH && i < g.TileCount()
    requires row < g.TileAt(i).value.h && column < g.TileAt(i).value.w
    ensures var t := g.TileAt(i).value;
            if x == t.x + column && y == t.y + row
            then Done(g, i, row, column + 1, x, y) && TileOf(g, x, y) == i
            else Done(g, i, row, column + 1, x, y) == Done(g, i, row, column, x, y)
  {
    TilesPartitionImage(g, x, y, i);
    TilesPartitionImage(g, x, y, TileOf(g, x, y));
  }

  /** Writing the three colours of that pixel paints it. */
  lemma PixelPainted(out: seq<nat>, out': seq<nat>, g: TileGrid, tiles: map<nat, TileData>, f: Transfer,
                     i: nat, row: nat, column: nat, px: nat, py: nat)
    requires WellFormed(g, tiles) && g.tileW > 0 && g.tileH > 0 && px < g.imageW && py < g.imageH
    requires Painted(out, g, tiles, f, i, row, column) && |out'| == |out|
    requires forall x: nat, y: nat | x < g.imageW && y < g.imageH ::
               if x == px && y == py then Done(g, i, row, column + 1, x, y)
               else Done(g, i, row, column + 1, x, y) == Done(g, i, row, column, x, y)
    requires forall x: nat, y: nat, k: nat | x < g.imageW && y < g.imageH && k < 4 ::
               At(x, y, k, g.imageW) < |out|
               && out'[At(x, y, k, g.imageW)]
                  == if x == px && y == py then Shown(g, tiles, f, x, y, k) else out[At(x, y, k, g.imageW)]
    ensures Painted(out', g, tiles, f, i, row, column + 1)
  {
    var next := column + 1;
    forall x: nat, y: nat, k: nat | x < g.imageW && y < g.imageH && k < 4
      ensures PixelOk(out', g, tiles, f, i, row, next, x, y, k)
    {
      assert PixelOk(out, g, tiles, f, i, row, column, x, y, k);
    }
  }

  lemma NonEmpty(t: Tile)
    requires t.w > 0 && t.h > 0
    ensures Pixels(t) > 0
  {
  }

  lemma ModFour(a: nat, k: nat)
    requires k < 4
    ensures (a * 4 + k) % 4 == k
  {
  }

  ghost predicate IsBlank(out: seq<nat>) {
    forall p :: 0 <= p < |out| ==> out[p] == if p % 4 == 3 then 255 else 0
  }

  lemma Blank(out: seq<nat>, g: TileGrid)
    requires |out| == g.imageW * g.imageH * 4 && IsBlank(out)
    ensures forall x: nat, y: nat, k: nat | x < g.imageW && y < g.imageH && k < 4 ::
              At(x, y, k, g.imageW) < |out| && out[At(x, y, k, g.imageW)] == if k == 3 then 255 else 0
  {
    forall x: nat, y: nat, k: nat | x < g.imageW && y < g.imageH && k < 4
      ensures At(x, y, k, g.imageW) < |out| && out[At(x, y, k, g.imageW)] == if k == 3 then 255 else 0
    {
      AtFits(x, y, k, g.imageW, g.imageH);
      ModFour(y * g.imageW + x, k);
    }
  }

  lemma BlankIsPainted(out: seq<nat>, g: TileGrid, tiles: map<nat, TileData>, f: Transfer)
    requires WellFormed(g, tiles) && g.tileW > 0 && g.tileH > 0 && |out| == g.imageW * g.imageH * 4
    requires IsBlank(out)
    ensures Painted(out, g, tiles, f, 0, 0, 0)
  {
    Blank(out, g);
    forall x: nat, y: nat, k: nat | x < g.imageW && y < g.imageH && k < 4 ensures PixelOk(out, g, tiles, f, 0, 0, 0, x, y, k) {
      assert out[At(x, y, k, g.imageW)] == if k == 3 then 255 else 0;
    }
  }

  lemma RowIsPainted(out: seq<nat>, g: TileGrid, tiles: map<nat, TileData>, f: Transfer, i: nat, row: nat)
    requires WellFormed(g, tiles) && g.tileW > 0 && g.tileH > 0 && i < g.TileCount()
    requires Painted(out, g, tiles, f, i, row, g.TileAt(i).value.w)
    ensures Painted(out, g, tiles, f, i, row + 1, 0)
  {
    var w := g.TileAt(i).value.w;
    forall x: nat, y: nat | x < g.imageW && y < g.imageH ensures Done(g, i, row, w, x, y) == Done(g, i, row + 1, 0, x, y) {
      RowDone(g, i, row, x, y);
    }
    SameDone(out, g, tiles, f, i, row, w, i, row + 1, 0);
  }

  lemma TileIsPainted(out: seq<nat>, g: TileGrid, tiles: map<nat, TileData>, f: Transfer, i: nat)
    requires WellFormed(g, tiles) && g.tileW > 0 && g.tileH > 0 && i < g.TileCount()
    requires Painted(out, g, tiles, f, i, g.TileAt(i).value.h, 0)
    ensures Painted(out, g, tiles, f, i + 1, 0, 0)
  {
    var h := g.TileAt(i).value.h;
    forall x: nat, y: nat | x < g.imageW && y < g.imageH ensures Done(g, i, h, 0, x, y) == Done(g, i + 1, 0, 0, x, y) {
      TileDone(g, i, x, y);
    }
    SameDone(out, g, tiles, f, i, h, 0, i + 1, 0, 0);
  }

  lemma UnrenderedTile(out: seq<nat>, g: TileGrid, tiles: map<nat, TileData>, f: Transfer, i: nat)
    requires WellFormed(g, tiles) && g.tileW > 0 && g.tileH > 0 && i < g.TileCount()
    requires i !in tiles || tiles[i].samples <= 0.0
    requires Painted(out, g, tiles, f, i, 0, 0)
    ensures Painted(out, g, tiles, f, i + 1, 0, 0)
  {
    forall x: nat, y: nat | x < g.imageW && y < g.imageH
      ensures Done(g, i, 0, 0, x, y) == Done(g, i + 1, 0, 0, x, y)
              || (Done(g, i + 1, 0, 0, x, y) && forall k: nat | k < 3 :: Shown(g, tiles, f, x, y, k) == 0)
    {
      TileDone(g, i, x, y);
    }
    SameDone(out, g, tiles, f, i, 0, 0, i + 1, 0, 0);
  }

  lemma AllDone(out: seq<nat>, g: TileGrid, tiles: map<nat, TileData>, f: Transfer)
    requires WellFormed(g, tiles) && g.tileW > 0 && g.tileH > 0 && Painted(out, g, tiles, f, g.TileCount(), 0, 0)
    ensures forall x: nat, y: nat, k: nat | x < g.imageW && y < g.imageH && k < 4 ::
              At(x, y, k, g.imageW) < |out| && out[At(x, y, k, g.imageW)] == Shown(g, tiles, f, x, y, k)
  {
    forall x: nat, y: nat, k: nat | x < g.imageW && y < g.imageH && k < 4
      ensures At(x, y, k, g.imageW) < |out| && out[At(x, y, k, g.imageW)] == Shown(g, tiles, f, x, y, k)
    {
      TilesPartitionImage(g, x, y, TileOf(g, x, y));
      assert PixelOk(out, g, tiles, f, g.TileCount(), 0, 0, x, y, k);
    }
  }

  /** `after` is `before` with the first `n` colours of a pixel put at `first`. */
  ghost predicate Overwritten(before: seq<nat>, after: seq<nat>, d: TileData, t: Tile, f: Transfer, x: nat, y: nat, first: nat, n: nat)
    requires Inside(t, x, y) && |d.rgb| == Pixels(t) * 3 && n <= 3
  {
    |after| == |before|
    && forall p :: 0 <= p < |after| ==> after[p] == if first <= p < first + n then Shade(d, t, f, x, y, p - first) else before[p]
  }

  lemma OverwrittenNext(before: seq<nat>, so: seq<nat>, after: seq<nat>, d: TileData, t: Tile, f: Transfer, x: nat, y: nat,
                        first: nat, n: nat)
    requires Inside(t, x, y) && |d.rgb| == Pixels(t) * 3 && n < 3 && first + n < |so|
    requires Overwritten(before, so, d, t, f, x, y, first, n) && after == so[first + n := Shade(d, t, f, x, y, n)]
    ensures Overwritten(before, after, d, t, f, x, y, first, n + 1)
  {
  }

  /** A position among the colours of one pixel belongs to no other. */
  lemma OwnPositions(x: nat, y: nat, k: nat, px: nat, py: nat, width: nat)
    requires x < width && px < width && k < 4
    ensures At(px, py, 0, width) <= At(x, y, k, width) < At(px, py, 3, width) <==> x == px && y == py && k < 3
    ensures x == px && y == py ==> At(x, y, k, width) - At(px, py, 0, width) == k
  {
    var p, first := At(x, y, k, width), At(px, py, 0, width);
    if first <= p < first + 3 {
      AtInjective(x, y, k, px, py, p - first, width);
    }
  }

  /** The positions between the first and past the third colour of a pixel are
      that pixel's own. */
  lemma PixelWritten(before: seq<nat>, after: seq<nat>, g: TileGrid, tiles: map<nat, TileData>, f: Transfer,
                     i: nat, row: nat, column: nat)
    requires WellFormed(g, tiles) && g.tileW > 0 && g.tileH > 0 && i in tiles && tiles[i].samples > 0.0
    requires row < g.TileAt(i).value.h && column < g.TileAt(i).value.w
    requires Painted(before, g, tiles, f, i, row, column)
    requires var t := g.TileAt(i).value;
             var x, y := t.x + column, t.y + row;
             Overwritten(before, after, tiles[i], t, f, x, y, At(x, y, 0, g.imageW), 3)
    ensures Painted(after, g, tiles, f, i, row, column + 1)
  {
    var t := g.TileAt(i).value;
    var px, py := t.x + column, t.y + row;
    forall x: nat, y: nat | x < g.imageW && y < g.imageH
      ensures if x == px && y == py then Done(g, i, row, column + 1, x, y)
              else Done(g, i, row, column + 1, x, y) == Done(g, i, row, column, x, y)
    {
      PixelDone(g, i, row, column, x, y);
    }
    PixelDone(g, i, row, column, px, py);
    forall x: nat, y: nat, k: nat | x < g.imageW && y < g.imageH && k < 4
      ensures At(x, y, k, g.imageW) < |before|
              && after[At(x, y, k, g.imageW)]
                 == if x == px && y == py then Shown(g, tiles, f, x, y, k) else before[At(x, y, k, g.imageW)]
    {
      assert PixelOk(before, g, tiles, f, i, row, column, x, y, k);
      OwnPositions(x, y, k, px, py, g.imageW);
    }
    PixelPainted(before, after, g, tiles, f, i, row, column, px, py);
  }

  class Compositor {
    const grid: TileGrid
    var tiles: map<nat, TileData>

    constructor (grid: TileGrid)
      ensures this.grid == grid && tiles == map[]
    {
      this.grid, tiles := grid, map[];
    }

    /** A payload of the wrong size, or for a tile that does not exist, changes
        nothing; any other replaces what the tile had. */
    method AcceptTile(i: nat, payload: seq<Float>) returns (ok: bool)
      requires WellFormed(grid, tiles)
      modifies this`tiles
      ensures ok <==> FitsGrid(grid, i, payload)
      ensures tiles == AcceptOne(grid, old(tiles), i, payload) && WellFormed(grid, tiles)
    {
      var tile := grid.TileAt(i);
      if tile.None? { return false; }
      var n := Pixels(tile.value);
      if |payload| != n * 4 { return false; }
      NonEmpty(tile.value);
      var rgb, samples, samplesSet := [], 0.0, false;
      for p := 0 to n
        invariant rgb == Colours(payload, p)
        invariant samplesSet <==> p > 0
        invariant samplesSet ==> samples == if Sane(payload[3]) > 0.0 then Sane(payload[3]) else 0.0
      {
        rgb := rgb + [Sane(payload[p * 4]), Sane(payload[p * 4 + 1]), Sane(payload[p * 4 + 2])];
        if !samplesSet {
          samples := if Sane(payload[3]) > 0.0 then Sane(payload[3]) else 0.0;
          samplesSet := true;
        }
      }
      tiles := tiles[i := TileData(rgb, samples)];
      ok := true;
    }

    /** The whole image: opaque, and black where nothing was rendered yet. */
    method RenderRgba(f: Transfer) returns (out: array<nat>)
      requires WellFormed(grid, tiles)
      ensures fresh(out) && out.Length == grid.imageW * grid.imageH * 4
      ensures forall x: nat, y: nat, k: nat | x < grid.imageW && y < grid.imageH && k < 4 ::
                At(x, y, k, grid.imageW) < out.Length && out[At(x, y, k, grid.imageW)] == Shown(grid, tiles, f, x, y, k)
    {
      out := new nat[grid.imageW * grid.imageH * 4](i => if i % 4 == 3 then 255 else 0);
      Blank(out[..], grid);
      if grid.tileW == 0 || grid.tileH == 0 { return; }
      BlankIsPainted(out[..], grid, tiles, f);
      for i := 0 to grid.TileCount()
        invariant Painted(out[..], grid, tiles, f, i, 0, 0)
      {
        if i in tiles && tiles[i].samples > 0.0 {
          PaintTile(out, f, i);
        } else {
          UnrenderedTile(out[..], grid, tiles, f, i);
        }
      }
      AllDone(out[..], grid, tiles, f);
    }

    method PaintTile(out: array<nat>, f: Transfer, i: nat)
      requires WellFormed(grid, tiles) && grid.tileW > 0 && grid.tileH > 0 && i in tiles && tiles[i].samples > 0.0
      requires Painted(out[..], grid, tiles, f, i, 0, 0)
      modifies out
      ensures Painted(out[..], grid, tiles, f, i + 1, 0, 0)
    {
      var tile := grid.TileAt(i).value;
      for row := 0 to tile.h
        invariant Painted(out[..], grid, tiles, f, i, row, 0)
      {
        for column := 0 to tile.w
          invariant Painted(out[..], grid, tiles, f, i, row, column)
        {
          PaintPixel(out, f, i, row, column);
        }
        RowIsPainted(out[..], grid, tiles, f, i, row);
      }
      TileIsPainted(out[..], grid, tiles, f, i);
    }

    method Colour(d: TileData, tile: Tile, f: Transfer, x: nat, y: nat, k: nat) returns (c: nat)
      requires Inside(tile, x, y) && |d.rgb| == Pixels(tile) * 3 && d.samples > 0.0 && k < 3
      ensures c == Shade(d, tile, f, x, y, k)
    {
      SourceFits(tile, x, y, k);
      var source := ((y - tile.y) * tile.w + (x - tile.x)) * 3;
      c := f(d.rgb[source + k], d.samples);
    }

    method WriteColours(out: array<nat>, first: nat, d: TileData, tile: Tile, f: Transfer, x: nat, y: nat)
      requires Inside(tile, x, y) && |d.rgb| == Pixels(tile) * 3 && d.samples > 0.0 && first + 3 <= out.Length
      modifies out
      ensures Overwritten(old(out[..]), out[..], d, tile, f, x, y, first, 3)
    {
      ghost var before := out[..];
      for k := 0 to 3
        invariant Overwritten(before, out[..], d, tile, f, x, y, first, k)
      {
        ghost var so := out[..];
        var colour := Colour(d, tile, f, x, y, k);
        out[first + k] := colour;
        OverwrittenNext(before, so, out[..], d, tile, f, x, y, first, k);
      }
    }

    method PaintPixel(out: array<nat>, f: Transfer, i: nat, row: nat, column: nat)
      requires WellFormed(grid, tiles) && grid.tileW > 0 && grid.tileH > 0 && i in tiles && tiles[i].samples > 0.0
      requires row < grid.TileAt(i).value.h && column < grid.TileAt(i).value.w
      requires Painted(out[..], grid, tiles, f, i, row, column)
      modifies out
      ensures Painted(out[..], grid, tiles, f, i, row, column + 1)
    {
      var tile := grid.TileAt(i).value;
      var x, y := tile.x + column, tile.y + row;
      ghost var before := out[..];
      AtFits(x, y, 2, grid.imageW, grid.imageH);
      WriteColours(out, At(x, y, 0, grid.imageW), tiles[i], tile, f, x, y);
      PixelWritten(before, out[..], grid, tiles, f, i, row, column);
    }
  }

  // ---- from a payload to the picture ---------------------------------------------------

  /** `out` has, at channel `k` of pixel `(x, y)`, what the payload of tile `t`
      says of it; black, if the first pixel counts no samples. A float that is
      not finite counts as zero. */
  ghost predicate ShowsPayload(out: seq<nat>, width: nat, t: Tile, payload: seq<Float>, f: Transfer, x: nat, y: nat, k: nat)
    requires Inside(t, x, y) && |payload| > 3
  {
    var to, from := (y * width + x) * 4 + k, ((y - t.y) * t.w + (x - t.x)) * 4 + k;
    to < |out| && 0 <= from < |payload|
    && var samples := if payload[3].Finite? then payload[3].value else 0.0;
       var colour := if payload[from].Finite? then payload[from].value else 0.0;
       out[to] == if samples > 0.0 then f(colour, samples) else 0
  }

  /** Position of a pixel in the data of its tile. */
  function InTile(t: Tile, x: nat, y: nat): (p: nat)
    requires Inside(t, x, y)
    ensures p == (y - t.y) * t.w + (x - t.x) && p < Pixels(t)
  {
    SourceFits(t, x, y, 0);
    (y - t.y) * t.w + (x - t.x)
  }

  lemma ShadeIs(payload: seq<Float>, t: Tile, f: Transfer, x: nat, y: nat, k: nat)
    requires Inside(t, x, y) && k < 3 && Pixels(t) > 0 && |payload| == Pixels(t) * 4
    ensures Shade(Unpacked(payload, Pixels(t)), t, f, x, y, k)
            == if Sane(payload[3]) > 0.0 then f(Sane(payload[InTile(t, x, y) * 4 + k]), Sane(payload[3])) else 0
  {
    ColourAt(payload, Pixels(t), InTile(t, x, y), k);
  }

  lemma AcceptedShows(g: TileGrid, tiles: map<nat, TileData>, i: nat, payload: seq<Float>, f: Transfer, x: nat, y: nat, k: nat)
    requires WellFormed(g, tiles) && FitsGrid(g, i, payload) && Inside(g.TileAt(i).value, x, y) && k < 3
    ensures x < g.imageW && y < g.imageH && WellFormed(g, AcceptOne(g, tiles, i, payload))
    ensures var t := g.TileAt(i).value;
            Pixels(t) > 0 && Shown(g, AcceptOne(g, tiles, i, payload), f, x, y, k) == Shade(Unpacked(payload, Pixels(t)), t, f, x, y, k)
  {
    hide Shade, Unpacked, Pixels;
    NonEmpty(g.TileAt(i).value);
    TilesPartitionImage(g, x, y, i);
  }

  lemma PayloadShown(out: seq<nat>, g: TileGrid, tiles: map<nat, TileData>, i: nat, payload: seq<Float>, f: Transfer,
                     x: nat, y: nat, k: nat)
    requires WellFormed(g, tiles) && FitsGrid(g, i, payload) && Inside(g.TileAt(i).value, x, y) && k < 3
    requires x < g.imageW && y < g.imageH && WellFormed(g, AcceptOne(g, tiles, i, payload))
    requires At(x, y, k, g.imageW) < |out| && out[At(x, y, k, g.imageW)] == Shown(g, AcceptOne(g, tiles, i, payload), f, x, y, k)
    ensures |payload| > 3 && ShowsPayload(out, g.imageW, g.TileAt(i).value, payload, f, x, y, k)
  {
    var t := g.TileAt(i).value;
    AcceptedShows(g, tiles, i, payload, f, x, y, k);
    hide Shown, AcceptOne, WellFormed;
    ShadeIs(payload, t, f, x, y, k);
    hide Shade, Unpacked;
    var p := InTile(t, x, y);
    assert p * 4 + k < |payload|;
  }

  lemma OtherShows(g: TileGrid, tiles: map<nat, TileData>, i: nat, payload: seq<Float>, f: Transfer, x: nat, y: nat, k: nat)
    requires WellFormed(g, tiles) && FitsGrid(g, i, payload) && x < g.imageW && y < g.imageH && k < 4
    requires !Inside(g.TileAt(i).value, x, y)
    ensures WellFormed(g, AcceptOne(g, tiles, i, payload))
    ensures Shown(g, AcceptOne(g, tiles, i, payload), f, x, y, k) == Shown(g, tiles, f, x, y, k)
  {
    if g.tileW > 0 && g.tileH > 0 {
      TilesPartitionImage(g, x, y, i);
    }
  }

  /** Once a payload is taken, the picture shows its colours, each pixel's and
      each channel's own, where its tile lies. */
  method AcceptThenRender(c: Compositor, i: nat, payload: seq<Float>, f: Transfer) returns (ok: bool, out: array<nat>)
    requires WellFormed(c.grid, c.tiles)
    modifies c
    ensures ok <==> c.grid.TileAt(i).Some? && |payload| == c.grid.TileAt(i).value.w * c.grid.TileAt(i).value.h * 4
    ensures ok ==> |payload| > 3
    ensures ok ==> forall x: nat, y: nat, k: nat | Inside(c.grid.TileAt(i).value, x, y) && k < 3 ::
                     ShowsPayload(out[..], c.grid.imageW, c.grid.TileAt(i).value, payload, f, x, y, k)
  {
    ghost var tiles := c.tiles;
    ok := c.AcceptTile(i, payload);
    out := c.RenderRgba(f);
    if ok {
      ghost var t := c.grid.TileAt(i).value;
      NonEmpty(t);
      hide Shown, AcceptOne, WellFormed, At, ShowsPayload;
      forall x: nat, y: nat, k: nat | Inside(t, x, y) && k < 3
        ensures ShowsPayload(out[..], c.grid.imageW, t, payload, f, x, y, k)
      {
        AcceptedShows(c.grid, tiles, i, payload, f, x, y, k);
        PayloadShown(out[..], c.grid, tiles, i, payload, f, x, y, k);
      }
    }
  }
}
