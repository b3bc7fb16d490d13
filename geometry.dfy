/** The values the renderer works on: coordinates, vertices, the clip rectangle, the graphics
    context snapshot, the device-space path, and the geometry library calls it delegates to. */
module Geometry {
  import opened Results
  import Colors

  /** A floating-point coordinate; only `isnan` and the comparison with 0 are used. */
  datatype Float = Num(r: real) | Infinite(negative: bool) | NaN

  datatype Vertex = Vertex(x: Float, y: Float)

  /** `np.isnan(v).any()`. */
  predicate HasNaN(v: Vertex) {
    v.x.NaN? || v.y.NaN?
  }

  /** The graphics context's clip rectangle `bbox`, corners (x0, y0) and (x1, y1). */
  datatype Rect = Rect(x0: real, y0: real, x1: real, y1: real)

  /** The geometry the line branch of `_clip_mpl` builds: a `Point` for a single vertex,
      otherwise a `LineString`. */
  datatype Shape = PointShape(p: Vertex) | LineShape(vs: seq<Vertex>)

  /** The outcome of shapely's `intersection`: it raised, its result is empty, a single part
      (its `coords`), or a `Multi*`/`GeometryCollection` (the `coords` of each part). */
  datatype Intersection = Raised | Empty | Single(coords: seq<Vertex>) | Multi(parts: seq<seq<Vertex>>)

  /** The foreign geometry kernels:
      - clipPolyline: `ClippingRect2d(corner0, corner2).clip_polyline(vertices)` (ezdxf), which
        always yields a list of parts (possibly one, possibly none), never a bare contour;
      - intersect: `shape.intersection(Polygon(rectangle))` (shapely);
      - clipSegment: `LineString(segment).intersection(Polygon(boundary)).coords` (shapely);
      - clipPolygon: the clip of a hatch piece by a boundary polyline (ezdxf). */
  datatype Kernel = Kernel(
    clipPolyline: (Rect, seq<Vertex>) -> seq<seq<Vertex>>,
    intersect: (Shape, Rect) -> Intersection,
    clipSegment: (seq<Vertex>, seq<Vertex>) -> seq<Vertex>,
    clipPolygon: (seq<Vertex>, seq<Vertex>) -> seq<Vertex>)

  /** The renderer's resolution in dots per inch, which is also the hatch tile size. */
  type Dpi = d: int | d > 0 witness 72

  /** `hpath.transformed(...).to_polygons(closed_only=False)` for one hatch tile: the polygons of
      matplotlib's one-inch hatch cell, scaled to `dpi` pixels, centred on (cx, cy) and shifted
      by (dx, dy) pixels. */
  type CellPlacement = (Dpi, real, real, int, int) -> seq<seq<Vertex>>

  /** The hatch part of a graphics context: `get_hatch_color()` and the placed cell. */
  datatype HatchSpec = HatchSpec(color: Option<Colors.Rgba>, cell: CellPlacement)

  /** The graphics context: stroke colour, optional clip rectangle, optional hatch. */
  datatype GraphicsContext = GraphicsContext(
    rgb: Option<Colors.Rgba>,
    clip: Option<Rect>,
    hatch: Option<HatchSpec>)

  /** `path.get_extents(transform)`: width, height and centre in device pixels. */
  datatype Extents = Extents(dx: nat, dy: nat, cx: real, cy: real)

  /** A path already in device space: `path.transformed(transform).vertices` and its extents. */
  datatype Path = Path(vertices: seq<Vertex>, extents: Extents)

  /** The clip result, tagged instead of probed: one contour, or one contour per part. */
  datatype Contours = One(points: seq<Vertex>) | Many(parts: seq<seq<Vertex>>)

  /** `len(vertices)` of a clip result. */
  function Count(c: Contours): nat {
    match c
    case One(points) => |points|
    case Many(parts) => |parts|
  }
}
