/** What `RendererDxf._draw_mpl_lwpoly` and the fill part of `RendererDxf._draw_mpl_patch`
    append to the modelspace (mpldxf/backend_dxf.py). */
module Emission {
  import opened Results
  import opened Geometry
  import opened Entities
  import Clipping
  import Colors

  /** The polylines `_draw_mpl_lwpoly` adds for a device-space contour: none for no vertices or
      an empty clip; for a single contour one polyline unless its first x is 0; for a list of
      parts one polyline per part. All are open and in the stroke colour. */
  function LwpolyLines(k: Kernel, color: Colors.ColorIndex, clip: Option<Rect>, vs: seq<Vertex>, obj: string): (ps: seq<Polyline>)
    ensures forall p :: p in ps ==> !p.closed && p.color == color
    ensures vs == [] ==> ps == []
    ensures vs != [] && Clipping.ClipMpl(k, clip, vs, obj).One? ==>
      var pts := Clipping.ClipMpl(k, clip, vs, obj).points;
      && (|ps| == 1 <==> |pts| > 0 && pts[0].x != Num(0.0))
      && |ps| <= 1
      && (|ps| == 1 ==> ps[0].points == pts)
    ensures vs != [] && Clipping.ClipMpl(k, clip, vs, obj).Many? ==>
      var parts := Clipping.ClipMpl(k, clip, vs, obj).parts;
      && |ps| == |parts|
      && forall i :: 0 <= i < |parts| ==> ps[i].points == parts[i]
  {
    if |vs| == 0 then []
    else
      match Clipping.ClipMpl(k, clip, vs, obj)
      case One(pts) =>
        if |pts| > 0 && pts[0].x != Num(0.0) then [Polyline(pts, false, color)] else []
      case Many(parts) =>
        seq(|parts|, i requires 0 <= i < |parts| => Polyline(parts[i], false, color))
  }

  /** The polylines are exactly the clip result's contours when something is drawn: nothing is
      drawn iff there are no vertices, the clip is empty, or a single contour starts at x = 0. */
  lemma LwpolyDrawsNothing(k: Kernel, color: Colors.ColorIndex, clip: Option<Rect>, vs: seq<Vertex>, obj: string)
    ensures LwpolyLines(k, color, clip, vs, obj) == [] <==>
      || vs == []
      || Count(Clipping.ClipMpl(k, clip, vs, obj)) == 0
      || (Clipping.ClipMpl(k, clip, vs, obj).One? && Clipping.ClipMpl(k, clip, vs, obj).points[0].x == Num(0.0))
  {
  }

  /** Without a clip rectangle a contour whose first x is not 0 becomes one open polyline with
      exactly its vertices. */
  lemma UnclippedContour(k: Kernel, color: Colors.ColorIndex, vs: seq<Vertex>, obj: string)
    requires vs != [] && vs[0].x != Num(0.0)
    ensures LwpolyLines(k, color, None, vs, obj) == [Polyline(vs, false, color)]
  {
  }

  /** Every clipped patch is drawn as one polyline per part of the rectangle clipper's result,
      in order, including a part whose first x is 0: the clipper returns a list of parts, so
      the x = 0 guard for a single contour never applies to it. */
  lemma ClippedPatchParts(k: Kernel, color: Colors.ColorIndex, rect: Rect, vs: seq<Vertex>)
    requires vs != []
    ensures var parts := k.clipPolyline(rect, vs);
      LwpolyLines(k, color, Some(rect), vs, "patch") ==
      seq(|parts|, i requires 0 <= i < |parts| => Polyline(parts[i], false, color))
  {
    Clipping.PatchClipIsRectangleClip(k, rect, vs);
  }

  /** The fill hatches of `_draw_mpl_patch`: one per polyline, in the face colour, whose boundary
      is that polyline's points and closed flag, associated with that polyline, which sits at
      position `start + i` of the modelspace. */
  function FillHatches(ps: seq<Polyline>, start: nat, fill: Colors.ColorIndex): (hs: seq<Entity>)
    ensures |hs| == |ps|
    ensures forall i :: 0 <= i < |ps| ==> hs[i] == Hatch(fill, BoundaryPath(ps[i].points, ps[i].closed, Some(start + i)))
  {
    seq(|ps|, i requires 0 <= i < |ps| => Hatch(fill, BoundaryPath(ps[i].points, ps[i].closed, Some(start + i))))
  }

  /** Appending the polylines and then their fill hatches to a modelspace of length `start`
      makes each hatch point at the polyline whose points and closed flag it copies. */
  lemma FillAssociation(ms: seq<Entity>, ps: seq<Polyline>, fill: Colors.ColorIndex, i: nat)
    requires i < |ps|
    ensures var out := ms + AsEntities(ps) + FillHatches(ps, |ms|, fill);
      && out[|ms| + |ps| + i].boundary.source == Some(|ms| + i)
      && out[|ms| + i] == LwPolyline(ps[i])
      && out[|ms| + |ps| + i].boundary.points == out[|ms| + i].line.points
      && out[|ms| + |ps| + i].boundary.closed == out[|ms| + i].line.closed
  {
  }
}
