/** Tile geometry (include/p2pgpu/coordinator/composite.hpp, src/coordinator/composite.cpp). */
module TileGrids {
  import opened Basics

  datatype Tile = Tile(x: nat, y: nat, w: nat, h: nat)

  function Min(a: nat, b: nat): nat { if a < b then a else b }

  /** The number of `size`-wide cells that cover `extent`. */
  function Cells(extent: nat, size: nat): nat {
    if size == 0 then 0 else (extent + size - 1) / size
  }

  /** `p / size` is the one `i` with `i * size <= p < i * size + size`. */
  lemma QuotientIs(p: nat, size: nat, i: nat)
    requires size > 0
    ensures i * size <= p < i * size + size <==> p / size == i
  {
    var d := p / size;
    assert p == d * size + p % size;
    if d < i {
      MulMonotone(d + 1, i, size);
    } else if d > i {
      MulMonotone(i + 1, d, size);
    }
  }

  lemma MulMonotone(a: nat, b: nat, c: nat)
    requires a <= b
    ensures a * c <= b * c
  {
  }

  /** The cells are exactly those that begin inside the extent. */
  lemma CellBegins(extent: nat, size: nat, i: nat)
    requires size > 0
    ensures i < Cells(extent, size) <==> i * size < extent
  {
    var q := Cells(extent, size);
    QuotientIs(extent + size - 1, size, q);
    if i < q {
      MulMonotone(i + 1, q, size);
      assert (i + 1) * size == i * size + size;
    } else {
      MulMonotone(q, i, size);
    }
  }

  /** Start and length of cell `i`, clipped to the extent. */
  function Clip(extent: nat, size: nat, i: nat): (r: (nat, nat))
    requires size > 0 && i < Cells(extent, size)
    ensures r.0 == i * size && r.1 > 0 && r.0 + r.1 <= extent
  {
    CellBegins(extent, size, i);
    (i * size, Min(size, extent - i * size))
  }

  datatype TileGrid = TileGrid(imageW: nat, imageH: nat, tileW: nat, tileH: nat) {
    function TilesX(): nat { Cells(imageW, tileW) }

    function TilesY(): nat { Cells(imageH, tileH) }

    function TileCount(): nat { TilesX() * TilesY() }

    /** Where a tile starts and how big it is; the last column and row are
        clipped to the image. */
    function TileAt(index: nat): (r: Option<Tile>)
      ensures r.Some? <==> index < TileCount()
      ensures r.Some? ==> r.value.w > 0 && r.value.h > 0
                          && r.value.x + r.value.w <= imageW && r.value.y + r.value.h <= imageH
    {
      if tileW == 0 || tileH == 0 || index >= TileCount() then None
      else
        GridHas(index, TilesX(), TilesY());
        var column, row := Clip(imageW, tileW, index % TilesX()), Clip(imageH, tileH, index / TilesX());
        Some(Tile(column.0, row.0, column.1, row.1))
    }
  }

  /** A number below the count has a column and a row. */
  lemma GridHas(index: nat, width: nat, height: nat)
    requires index < width * height
    ensures width > 0 && index % width < width && index / width < height
  {
    if width > 0 {
      RowAndColumn(index, width, height);
    }
  }

  /** Row-major numbering of a `width` by `height` grid is a bijection. */
  lemma RowAndColumn(index: nat, width: nat, height: nat)
    requires width > 0
    ensures index % width < width && index == index / width * width + index % width
    ensures index < width * height <==> index / width < height
  {
    var y := index / width;
    if y < height {
      assert (y + 1) * width <= height * width;
    } else {
      assert height * width <= y * width;
    }
  }

  lemma CellsAre(extent: nat, size: nat, n: nat)
    requires size > 0 && n > 0 && (n - 1) * size < extent <= n * size
    ensures Cells(extent, size) == n
  {
    QuotientIs(extent + size - 1, size, n);
    assert n * size == (n - 1) * size + size;
  }

  /** With `columns` tiles to a row, tile `row * columns + column` starts that
      many tile sizes from the image's corner, and is cut off where the image ends. */
  lemma TileIs(g: TileGrid, columns: nat, row: nat, column: nat)
    requires g.tileW > 0 && g.tileH > 0 && columns > 0 && (columns - 1) * g.tileW < g.imageW <= columns * g.tileW
    requires column < columns && row * g.tileH < g.imageH
    ensures column * g.tileW < g.imageW
    ensures g.TileAt(row * columns + column)
            == Some(Tile(column * g.tileW, row * g.tileH,
                         Min(g.tileW, g.imageW - column * g.tileW), Min(g.tileH, g.imageH - row * g.tileH)))
  {
    var index := row * columns + column;
    CellsAre(g.imageW, g.tileW, columns);
    QuotientIs(index, columns, row);
    RowAndColumn(index, columns, g.TilesY());
    CellBegins(g.imageH, g.tileH, row);
    CellBegins(g.imageW, g.tileW, column);
  }
}
