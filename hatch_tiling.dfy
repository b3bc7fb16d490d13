/** The tiling in `RendererDxf._draw_mpl_hatch` (mpldxf/backend_dxf.py): how many one-inch hatch
    tiles cover the path, where they go, and what each clipped piece becomes. */
module HatchTiling {
  import opened Results
  import opened Geometry
  import opened Entities
  import Colors

  /** `math.ceil(extent / dpi) - 1` on integer extents: the number of tiles needed on each
      side of the centre tile. */
  function GridSize(extent: nat, dpi: Dpi): (n: int)
    ensures n >= -1
    ensures n == -1 <==> extent == 0
  {
    (extent + dpi - 1) / dpi - 1
  }

  /** `GridSize` is one less than the ceiling of extent / dpi: n tiles on a side leave part of
      the extent uncovered and n + 1 cover it. */
  lemma GridSizeIsCeiling(extent: nat, dpi: Dpi)
    ensures var n := GridSize(extent, dpi); n * dpi < extent <= (n + 1) * dpi
  {
    var q := (extent + dpi - 1) / dpi;
    assert q * dpi <= extent + dpi - 1 < (q + 1) * dpi;
  }

  /** The tile at row offset `irow` and column offset `icol` from the centre tile. */
  datatype Tile = Tile(irow: int, icol: int)

  /** The tiles of row `irow` for `icol` in [lo, hi), in loop order. */
  function RowTiles(irow: int, lo: int, hi: int): seq<Tile>
    decreases hi - lo
  {
    if hi <= lo then [] else RowTiles(irow, lo, hi - 1) + [Tile(irow, hi - 1)]
  }

  /** The tiles of rows [lo, hi), each row for `icol` in [-cols, cols], in loop order. */
  function GridTiles(lo: int, hi: int, cols: int): seq<Tile>
    decreases hi - lo
  {
    if hi <= lo then [] else GridTiles(lo, hi - 1, cols) + RowTiles(hi - 1, -cols, cols + 1)
  }

  /** `for irow in range(-rows, rows + 1): for icol in range(-cols, cols + 1)`. */
  function Tiles(rows: int, cols: int): seq<Tile> {
    GridTiles(-rows, rows + 1, cols)
  }

  /** The number of offsets in [-n, n]: 2n + 1, or none when n is negative. */
  function Span(n: int): nat {
    if n < 0 then 0 else 2 * n + 1
  }

  lemma {:induction false} RowTilesShape(irow: int, lo: int, hi: int)
    ensures |RowTiles(irow, lo, hi)| == if hi <= lo then 0 else hi - lo
    ensures forall t :: t in RowTiles(irow, lo, hi) <==> t.irow == irow && lo <= t.icol < hi
    decreases hi - lo
  {
    if hi > lo {
      RowTilesShape(irow, lo, hi - 1);
    }
  }

  lemma {:induction false} GridTilesCount(lo: int, hi: int, cols: int)
    requires cols >= -1
    ensures |GridTiles(lo, hi, cols)| == (if hi <= lo then 0 else hi - lo) * Span(cols)
    decreases hi - lo
  {
    if hi > lo {
      GridTilesCount(lo, hi - 1, cols);
      RowTilesShape(hi - 1, -cols, cols + 1);
      var n := if hi - 1 <= lo then 0 else hi - 1 - lo;
      var w := Span(cols);
      assert |RowTiles(hi - 1, -cols, cols + 1)| == w;
      assert |GridTiles(lo, hi, cols)| == n * w + w;
      assert n * w + w == (n + 1) * w;
    }
  }

  lemma {:induction false} GridTilesMembers(lo: int, hi: int, cols: int)
    ensures forall t :: t in GridTiles(lo, hi, cols) <==> lo <= t.irow < hi && -cols <= t.icol <= cols
    decreases hi - lo
  {
    if hi > lo {
      GridTilesMembers(lo, hi - 1, cols);
      RowTilesShape(hi - 1, -cols, cols + 1);
    }
  }

  /** The grid has (2 rows + 1)(2 cols + 1) tiles, none when either count is -1, and holds
      exactly the tiles with |irow| <= rows and |icol| <= cols. */
  lemma TilesShape(rows: int, cols: int)
    requires rows >= -1 && cols >= -1
    ensures |Tiles(rows, cols)| == Span(rows) * Span(cols)
    ensures forall t :: t in Tiles(rows, cols) <==> -rows <= t.irow <= rows && -cols <= t.icol <= cols
  {
    GridTilesCount(-rows, rows + 1, cols);
    GridTilesMembers(-rows, rows + 1, cols);
  }

  /** A 300 x 150 pixel path at 100 dpi needs one row and two columns on each side: 15 tiles. */
  lemma TileCountExample()
    ensures GridSize(150, 100) == 1 && GridSize(300, 100) == 2
    ensures |Tiles(1, 2)| == 15
  {
    TilesShape(1, 2);
  }

  /** A path with no height or no width gets no tile. */
  lemma FlatPathHasNoTiles(dx: nat, dy: nat, dpi: Dpi)
    requires dx == 0 || dy == 0
    ensures Tiles(GridSize(dy, dpi), GridSize(dx, dpi)) == []
  {
    TilesShape(GridSize(dy, dpi), GridSize(dx, dpi));
  }

  /** What one hatch drawing works with: the hatch colour index, the kernel, the boundary points
      of the polylines just drawn, the placed hatch cell, the dpi and the path's centre. */
  datatype Hatching = Hatching(
    color: Colors.ColorIndex,
    kernel: Kernel,
    boundaries: seq<seq<Vertex>>,
    cell: CellPlacement,
    dpi: Dpi,
    cx: real,
    cy: real)

  /** The pieces of the hatch cell placed at a tile, shifted by (icol * dpi, irow * dpi). */
  function TilePieces(h: Hatching, t: Tile): seq<seq<Vertex>> {
    h.cell(h.dpi, h.cx, h.cy, t.icol * h.dpi, t.irow * h.dpi)
  }

  /** One clip of a piece by one boundary: a two-vertex piece is a segment intersected with the
      boundary polygon, any other piece goes to the polygon clipper. */
  function ClipPiece(k: Kernel, boundary: seq<Vertex>, piece: seq<Vertex>): seq<Vertex> {
    if |piece| == 2 then k.clipSegment(piece, boundary) else k.clipPolygon(boundary, piece)
  }

  /** The boundary loop of `_draw_mpl_hatch` for one piece: `clipped` is reassigned for every
      boundary, so what survives the loop is the clip by the last one. */
  method ClipByBoundaries(k: Kernel, boundaries: seq<seq<Vertex>>, piece: seq<Vertex>) returns (clipped: seq<Vertex>)
    requires |boundaries| > 0
    ensures clipped == ClipPiece(k, boundaries[|boundaries| - 1], piece)
  {
    // overwritten on the first iteration, as `boundaries` is not empty
    clipped := [];
    var j := 0;
    while j < |boundaries|
      invariant 0 <= j <= |boundaries|
      invariant j > 0 ==> clipped == ClipPiece(k, boundaries[j - 1], piece)
    {
      if |piece| == 2 {
        clipped := k.clipSegment(piece, boundaries[j]);
      } else {
        clipped := k.clipPolygon(boundaries[j], piece);
      }
      j := j + 1;
    }
  }

  /** What a piece contributes. `clipped` is overwritten for every boundary, so only the last
      boundary counts: nothing when its clip is empty, an open polyline for a two-vertex piece,
      otherwise a hatch with a closed boundary, both in the hatch colour. */
  function PieceEntities(h: Hatching, piece: seq<Vertex>): (es: seq<Entity>)
    requires |h.boundaries| > 0
    ensures |es| <= 1
  {
    var clipped := ClipPiece(h.kernel, h.boundaries[|h.boundaries| - 1], piece);
    if |clipped| == 0 then []
    else if |piece| == 2 then [LwPolyline(Polyline(clipped, false, h.color))]
    else [Hatch(h.color, BoundaryPath(clipped, true, None))]
  }

  /** The entities of a list of pieces, in order. */
  function PiecesEntities(h: Hatching, pieces: seq<seq<Vertex>>): (es: seq<Entity>)
    requires |h.boundaries| > 0
    ensures |es| <= |pieces|
  {
    if pieces == [] then []
    else PiecesEntities(h, pieces[..|pieces| - 1]) + PieceEntities(h, pieces[|pieces| - 1])
  }

  /** The entities of a list of tiles, in order. */
  function GridEntities(h: Hatching, tiles: seq<Tile>): seq<Entity>
    requires |h.boundaries| > 0
  {
    if tiles == [] then []
    else GridEntities(h, tiles[..|tiles| - 1]) + PiecesEntities(h, TilePieces(h, tiles[|tiles| - 1]))
  }

  /** The entities of the tiles of row `irow` for `icol` in [lo, hi), column by column. */
  function ColsEntities(h: Hatching, irow: int, lo: int, hi: int): seq<Entity>
    requires |h.boundaries| > 0
    decreases hi - lo
  {
    if hi <= lo then [] else ColsEntities(h, irow, lo, hi - 1) + PiecesEntities(h, TilePieces(h, Tile(irow, hi - 1)))
  }

  /** The entities of rows [lo, hi) of the grid, row by row. */
  function RowsEntities(h: Hatching, lo: int, hi: int, cols: int): seq<Entity>
    requires |h.boundaries| > 0
    decreases hi - lo
  {
    if hi <= lo then [] else RowsEntities(h, lo, hi - 1, cols) + ColsEntities(h, hi - 1, -cols, cols + 1)
  }

  /** Emitting column by column is emitting the row's tiles in loop order. */
  lemma {:induction false} ColsEntitiesAreGridEntities(h: Hatching, irow: int, lo: int, hi: int)
    requires |h.boundaries| > 0
    ensures ColsEntities(h, irow, lo, hi) == GridEntities(h, RowTiles(irow, lo, hi))
    decreases hi - lo
  {
    if hi > lo {
      ColsEntitiesAreGridEntities(h, irow, lo, hi - 1);
      var prefix := RowTiles(irow, lo, hi - 1);
      assert (prefix + [Tile(irow, hi - 1)])[..|prefix|] == prefix;
    }
  }

  /** Emitting row by row is emitting the whole grid in loop order. */
  lemma {:induction false} RowsEntitiesAreGridEntities(h: Hatching, lo: int, hi: int, cols: int)
    requires |h.boundaries| > 0
    ensures RowsEntities(h, lo, hi, cols) == GridEntities(h, GridTiles(lo, hi, cols))
    decreases hi - lo
  {
    if hi > lo {
      var done, row := GridTiles(lo, hi - 1, cols), RowTiles(hi - 1, -cols, cols + 1);
      assert GridTiles(lo, hi, cols) == done + row;
      RowsEntitiesAreGridEntities(h, lo, hi - 1, cols);
      ColsEntitiesAreGridEntities(h, hi - 1, -cols, cols + 1);
      GridEntitiesAppend(h, done, row);
    }
  }

  /** The piece loop of `_draw_mpl_hatch` for one tile: what each piece leaves after the
      boundary loop, in order. */
  method HatchTile(h: Hatching, pieces: seq<seq<Vertex>>) returns (es: seq<Entity>)
    requires |h.boundaries| > 0
    ensures es == PiecesEntities(h, pieces)
  {
    es := [];
    var k := 0;
    while k < |pieces|
      invariant 0 <= k <= |pieces|
      invariant es == PiecesEntities(h, pieces[..k])
    {
      var vertices := pieces[k];
      var clipped := ClipByBoundaries(h.kernel, h.boundaries, vertices);
      if |clipped| > 0 {
        if |vertices| == 2 {
          es := es + [LwPolyline(Polyline(clipped, false, h.color))];
        } else {
          es := es + [Hatch(h.color, BoundaryPath(clipped, true, None))];
        }
      }
      assert pieces[..k + 1][..k] == pieces[..k];
      k := k + 1;
    }
    assert pieces[..k] == pieces;
  }

  /** The `icol` loop of `_draw_mpl_hatch` for row `irow`: the tiles from -cols to cols. */
  method HatchRow(h: Hatching, irow: int, cols: int) returns (es: seq<Entity>)
    requires |h.boundaries| > 0
    ensures es == ColsEntities(h, irow, -cols, cols + 1)
  {
    es := [];
    if cols < 0 {
      return;
    }
    var icol := -cols;
    while icol < cols + 1
      invariant -cols <= icol <= cols + 1
      invariant es == ColsEntities(h, irow, -cols, icol)
    {
      var tile := HatchTile(h, TilePieces(h, Tile(irow, icol)));
      es := es + tile;
      icol := icol + 1;
    }
  }

  /** The `irow` loop of `_draw_mpl_hatch`: the rows from -rows to rows. */
  method HatchGrid(h: Hatching, rows: int, cols: int) returns (es: seq<Entity>)
    requires |h.boundaries| > 0
    ensures es == RowsEntities(h, -rows, rows + 1, cols)
  {
    es := [];
    if rows < 0 {
      return;
    }
    var irow := -rows;
    while irow < rows + 1
      invariant -rows <= irow <= rows + 1
      invariant es == RowsEntities(h, -rows, irow, cols)
    {
      var row := HatchRow(h, irow, cols);
      es := es + row;
      irow := irow + 1;
    }
  }

  /** Tiling a concatenation emits the two parts' entities one after the other. */
  lemma {:induction false} GridEntitiesAppend(h: Hatching, a: seq<Tile>, b: seq<Tile>)
    requires |h.boundaries| > 0
    ensures GridEntities(h, a + b) == GridEntities(h, a) + GridEntities(h, b)
    decreases |b|
  {
    if b == [] {
      assert a + b == a;
    } else {
      var b' := b[..|b| - 1];
      var last := PiecesEntities(h, TilePieces(h, b[|b| - 1]));
      assert (a + b)[..|a + b| - 1] == a + b';
      assert (a + b)[|a + b| - 1] == b[|b| - 1];
      assert GridEntities(h, a + b) == GridEntities(h, a + b') + last;
      assert GridEntities(h, b) == GridEntities(h, b') + last;
      GridEntitiesAppend(h, a, b');
    }
  }

  /** An entity a piece can produce: an open polyline or a hatch with a closed, unassociated
      boundary, in the hatch colour. */
  predicate IsHatchPiece(h: Hatching, e: Entity) {
    || (e.LwPolyline? && !e.line.closed && e.line.color == h.color)
    || (e.Hatch? && e.fill == h.color && e.boundary.closed && e.boundary.source.None?)
  }

  lemma {:induction false} PiecesEntitiesAreHatchPieces(h: Hatching, pieces: seq<seq<Vertex>>)
    requires |h.boundaries| > 0
    ensures forall e :: e in PiecesEntities(h, pieces) ==> IsHatchPiece(h, e)
    decreases |pieces|
  {
    if pieces != [] {
      PiecesEntitiesAreHatchPieces(h, pieces[..|pieces| - 1]);
    }
  }

  /** Every entity of the tiling is in the hatch colour, and is an open polyline or a closed
      hatch boundary. */
  lemma {:induction false} GridEntitiesAreHatchPieces(h: Hatching, tiles: seq<Tile>)
    requires |h.boundaries| > 0
    ensures forall e :: e in GridEntities(h, tiles) ==> IsHatchPiece(h, e)
    decreases |tiles|
  {
    if tiles != [] {
      GridEntitiesAreHatchPieces(h, tiles[..|tiles| - 1]);
      PiecesEntitiesAreHatchPieces(h, TilePieces(h, tiles[|tiles| - 1]));
    }
  }

  /** A two-vertex piece whose clip is not empty becomes a polyline, any other such piece a
      hatch; an empty clip contributes nothing. */
  lemma PieceKind(h: Hatching, piece: seq<Vertex>)
    requires |h.boundaries| > 0
    ensures var clipped := ClipPiece(h.kernel, h.boundaries[|h.boundaries| - 1], piece);
      && (PieceEntities(h, piece) == [] <==> clipped == [])
      && (clipped != [] && |piece| == 2 ==> PieceEntities(h, piece) == [LwPolyline(Polyline(clipped, false, h.color))])
      && (clipped != [] && |piece| != 2 ==> PieceEntities(h, piece) == [Hatch(h.color, BoundaryPath(clipped, true, None))])
  {
  }

  lemma {:induction false} PiecesUseLastBoundary(h: Hatching, pieces: seq<seq<Vertex>>)
    requires |h.boundaries| > 0
    ensures PiecesEntities(h, pieces) == PiecesEntities(h.(boundaries := [h.boundaries[|h.boundaries| - 1]]), pieces)
    decreases |pieces|
  {
    if pieces != [] {
      PiecesUseLastBoundary(h, pieces[..|pieces| - 1]);
    }
  }

  /** Only the last boundary polyline decides what the tiling emits: the earlier ones are
      clipped against and then overwritten. */
  lemma {:induction false} OnlyLastBoundaryCounts(h: Hatching, tiles: seq<Tile>)
    requires |h.boundaries| > 0
    ensures GridEntities(h, tiles) == GridEntities(h.(boundaries := [h.boundaries[|h.boundaries| - 1]]), tiles)
    decreases |tiles|
  {
    if tiles != [] {
      OnlyLastBoundaryCounts(h, tiles[..|tiles| - 1]);
      PiecesUseLastBoundary(h, TilePieces(h, tiles[|tiles| - 1]));
    }
  }

  /** What `_draw_mpl_hatch` works with for a hatch spec and a path. */
  function HatchingFor(pal: Colors.Palette, k: Kernel, dpi: Dpi, spec: HatchSpec, path: Path, boundaries: seq<seq<Vertex>>): (h: Hatching)
    ensures h.boundaries == boundaries && h.dpi == dpi && h.color == Colors.RgbToDxf(pal, spec.color)
  {
    Hatching(Colors.RgbToDxf(pal, spec.color), k, boundaries, spec.cell, dpi, path.extents.cx, path.extents.cy)
  }

  /** The tiling of a hatched path: nothing without a hatch, otherwise the entities of every
      tile of the grid sized from the path's extents. */
  function HatchEntities(pal: Colors.Palette, k: Kernel, dpi: Dpi, gc: GraphicsContext, path: Path, boundaries: seq<seq<Vertex>>): seq<Entity>
    requires |boundaries| > 0
  {
    match gc.hatch
    case None => []
    case Some(spec) =>
      GridEntities(HatchingFor(pal, k, dpi, spec, path, boundaries), Tiles(GridSize(path.extents.dy, dpi), GridSize(path.extents.dx, dpi)))
  }

  /** The tiling of a hatched path, row by row as the loops of `_draw_mpl_hatch` produce it. */
  lemma HatchEntitiesByRows(pal: Colors.Palette, k: Kernel, dpi: Dpi, gc: GraphicsContext, spec: HatchSpec, path: Path, boundaries: seq<seq<Vertex>>, rows: int, cols: int)
    requires |boundaries| > 0 && gc.hatch == Some(spec)
    requires rows == GridSize(path.extents.dy, dpi) && cols == GridSize(path.extents.dx, dpi)
    ensures HatchEntities(pal, k, dpi, gc, path, boundaries)
         == RowsEntities(HatchingFor(pal, k, dpi, spec, path, boundaries), -rows, rows + 1, cols)
  {
    var h := HatchingFor(pal, k, dpi, spec, path, boundaries);
    RowsEntitiesAreGridEntities(h, -rows, rows + 1, cols);
  }

  /** No hatch, nothing appended. */
  lemma NoHatchNoEntities(pal: Colors.Palette, k: Kernel, dpi: Dpi, gc: GraphicsContext, path: Path, boundaries: seq<seq<Vertex>>)
    requires |boundaries| > 0 && gc.hatch.None?
    ensures HatchEntities(pal, k, dpi, gc, path, boundaries) == []
  {
  }
}
