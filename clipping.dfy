/** `RendererDxf._clip_mpl` (mpldxf/backend_dxf.py): clipping a contour by the graphics
    context's clip rectangle. The intersection itself is the kernel's. */
module Clipping {
  import opened Results
  import opened Geometry

  /** `[v for v in vertices if not np.isnan(v).any()]`. */
  function StripNaN(vs: seq<Vertex>): (r: seq<Vertex>)
    ensures |r| <= |vs|
    ensures forall v :: v in r <==> v in vs && !HasNaN(v)
  {
    if vs == [] then []
    else if HasNaN(vs[0]) then StripNaN(vs[1..])
    else [vs[0]] + StripNaN(vs[1..])
  }

  /** Vertices without NaN pass through `StripNaN` unchanged. */
  lemma {:induction false} StripNaNKeepsFinite(vs: seq<Vertex>)
    requires forall v :: v in vs ==> !HasNaN(v)
    ensures StripNaN(vs) == vs
  {
    if vs != [] {
      assert vs[0] in vs;
      assert forall v :: v in vs[1..] ==> v in vs;
      StripNaNKeepsFinite(vs[1..]);
    }
  }

  /** Stripping keeps the order of the finite vertices: it distributes over concatenation. */
  lemma {:induction false} StripNaNAppend(a: seq<Vertex>, b: seq<Vertex>)
    ensures StripNaN(a + b) == StripNaN(a) + StripNaN(b)
    decreases |a|
  {
    if a == [] {
      assert a + b == b;
    } else {
      assert (a + b)[0] == a[0];
      assert (a + b)[1..] == a[1..] + b;
      StripNaNAppend(a[1..], b);
    }
  }

  /** Stripping is idempotent. */
  lemma StripNaNIdempotent(vs: seq<Vertex>)
    ensures StripNaN(StripNaN(vs)) == StripNaN(vs)
  {
    StripNaNKeepsFinite(StripNaN(vs));
  }

  /** The shape the line branch intersects: a point for one vertex, a line otherwise. */
  function ShapeOf(vs: seq<Vertex>): (sh: Shape)
    ensures sh.PointShape? <==> |vs| == 1
    ensures sh.PointShape? ==> sh.p == vs[0]
    ensures sh.LineShape? ==> sh.vs == vs
  {
    if |vs| == 1 then PointShape(vs[0]) else LineShape(vs)
  }

  /** The line branch's reading of the intersection: nothing when it raised or is empty,
      one contour per part for a multi-part result, otherwise the single part. */
  function FromIntersection(i: Intersection): (c: Contours)
    ensures i.Raised? || i.Empty? ==> Count(c) == 0
    ensures i.Single? ==> c == One(i.coords)
    ensures i.Multi? ==> c == Many(i.parts)
  {
    match i
    case Raised => One([])
    case Empty => One([])
    case Single(coords) => One(coords)
    case Multi(parts) => Many(parts)
  }

  /** `_clip_mpl(gc, vertices, obj)`. */
  function ClipMpl(k: Kernel, clip: Option<Rect>, vs: seq<Vertex>, obj: string): Contours {
    match clip
    case None => One(vs)
    case Some(rect) =>
      if obj == "patch" then Many(k.clipPolyline(rect, vs))
      else if obj == "line2d" then FromIntersection(k.intersect(ShapeOf(StripNaN(vs)), rect))
      else One(vs)
  }

  /** Without a clip rectangle, or for a kind other than "patch" and "line2d", the vertices pass
      through unchanged. */
  lemma ClipPassthrough(k: Kernel, clip: Option<Rect>, vs: seq<Vertex>, obj: string)
    requires clip.None? || (obj != "patch" && obj != "line2d")
    ensures ClipMpl(k, clip, vs, obj) == One(vs)
  {
  }

  /** A patch is clipped by the rectangle clipper alone: its result is always a list of parts,
      taken as it is, with the patch's NaN vertices left to the clipper. */
  lemma PatchClipIsRectangleClip(k: Kernel, rect: Rect, vs: seq<Vertex>)
    ensures ClipMpl(k, Some(rect), vs, "patch") == Many(k.clipPolyline(rect, vs))
  {
  }

  /** A line is intersected without its NaN vertices: the kernel sees a NaN-free shape, a point
      exactly when one finite vertex remains, and vertices with NaN do not change the result. */
  lemma LineClipDropsNaN(k: Kernel, rect: Rect, vs: seq<Vertex>)
    ensures var sh := ShapeOf(StripNaN(vs));
      && ClipMpl(k, Some(rect), vs, "line2d") == FromIntersection(k.intersect(sh, rect))
      && (sh.PointShape? <==> |StripNaN(vs)| == 1)
      && (sh.PointShape? ==> !HasNaN(sh.p))
      && (sh.LineShape? ==> forall v :: v in sh.vs ==> !HasNaN(v))
    ensures ClipMpl(k, Some(rect), StripNaN(vs), "line2d") == ClipMpl(k, Some(rect), vs, "line2d")
  {
    StripNaNIdempotent(vs);
    if |StripNaN(vs)| == 1 {
      assert StripNaN(vs)[0] in StripNaN(vs);
    }
  }

  /** An intersection that raised or came out empty leaves nothing to draw. */
  lemma FailedIntersectionIsEmpty(k: Kernel, rect: Rect, vs: seq<Vertex>)
    requires k.intersect(ShapeOf(StripNaN(vs)), rect).Raised? || k.intersect(ShapeOf(StripNaN(vs)), rect).Empty?
    ensures Count(ClipMpl(k, Some(rect), vs, "line2d")) == 0
  {
  }

  /** A multi-part intersection keeps every part, in order, as its own contour. */
  lemma MultiPartPreserved(k: Kernel, rect: Rect, vs: seq<Vertex>, parts: seq<seq<Vertex>>)
    requires k.intersect(ShapeOf(StripNaN(vs)), rect) == Multi(parts)
    ensures ClipMpl(k, Some(rect), vs, "line2d") == Many(parts)
    ensures Count(ClipMpl(k, Some(rect), vs, "line2d")) == |parts|
  {
  }
}
