/** `RendererDxf` (mpldxf/backend_dxf.py): the modelspace it appends to, the group stack that
    tells it what is being drawn, and the drawing entry points the host calls. */
module Renderer {
  import opened Results
  import opened Geometry
  import opened Entities
  import opened Colors
  import opened Emission
  import opened HatchTiling
  import opened TextPlacement
  import opened Sequences

  /** The collaborators fixed for one renderer: the palette, the geometry kernel, the dpi. */
  datatype Env = Env(palette: Palette, kernel: Kernel, dpi: Dpi)

  /** The polylines of `_draw_mpl_lwpoly` for one path in the graphics context's colour. */
  function PathLines(env: Env, gc: GraphicsContext, path: Path, obj: string): seq<Polyline> {
    LwpolyLines(env.kernel, RgbToDxf(env.palette, gc.rgb), gc.clip, path.vertices, obj)
  }

  /** What `_draw_mpl_patch` appends to a modelspace of length `start`: nothing when no polyline
      was made; otherwise the polylines, one fill hatch per polyline when there is a face colour,
      then the hatch tiling bounded by those polylines. */
  function PatchEntities(env: Env, gc: GraphicsContext, path: Path, face: Option<Rgba>, start: nat): (es: seq<Entity>)
    ensures var ps := PathLines(env, gc, path, "patch");
      && (ps == [] ==> es == [])
      && |ps| <= |es| && es[..|ps|] == AsEntities(ps)
  {
    var ps := PathLines(env, gc, path, "patch");
    if ps == [] then []
    else
      AsEntities(ps)
      + (if face.Some? then FillHatches(ps, start, RgbToDxf(env.palette, face)) else [])
      + HatchEntities(env.palette, env.kernel, env.dpi, gc, path, PointsOf(ps))
  }

  /** The parts of a patch that draws a polyline. */
  lemma PatchEntitiesOfLines(env: Env, gc: GraphicsContext, path: Path, face: Option<Rgba>, start: nat)
    requires PathLines(env, gc, path, "patch") != []
    ensures var ps := PathLines(env, gc, path, "patch");
      PatchEntities(env, gc, path, face, start)
      == AsEntities(ps)
         + (if face.Some? then FillHatches(ps, start, RgbToDxf(env.palette, face)) else [])
         + HatchEntities(env.palette, env.kernel, env.dpi, gc, path, PointsOf(ps))
  {
  }

  /** The fill hatches among some entities: the hatches associated with a polyline. */
  function Fills(es: seq<Entity>): (fs: seq<Entity>)
    ensures |fs| <= |es|
    ensures forall e :: e in fs ==> e in es && e.Hatch? && e.boundary.source.Some?
  {
    if es == [] then []
    else Fills(es[..|es| - 1]) + (var e := es[|es| - 1]; if e.Hatch? && e.boundary.source.Some? then [e] else [])
  }

  lemma {:induction false} FillsAppend(a: seq<Entity>, b: seq<Entity>)
    ensures Fills(a + b) == Fills(a) + Fills(b)
    decreases |b|
  {
    if b == [] {
      assert a + b == a;
    } else {
      assert (a + b)[..|a + b| - 1] == a + b[..|b| - 1];
      FillsAppend(a, b[..|b| - 1]);
    }
  }

  lemma {:induction false} FillsOfUnassociated(es: seq<Entity>)
    requires forall e :: e in es ==> !(e.Hatch? && e.boundary.source.Some?)
    ensures Fills(es) == []
    decreases |es|
  {
    if es != [] {
      assert es[|es| - 1] in es;
      FillsOfUnassociated(es[..|es| - 1]);
    }
  }

  /** Entities that are all associated hatches are their own fills. */
  lemma {:induction false} FillsOfAssociated(es: seq<Entity>)
    requires forall e :: e in es ==> e.Hatch? && e.boundary.source.Some?
    ensures Fills(es) == es
    decreases |es|
  {
    if es != [] {
      var n := |es| - 1;
      assert es[n] in es;
      FillsOfAssociated(es[..n]);
      LastSplits(es);
    }
  }

  lemma FillsOfFillHatches(ps: seq<Polyline>, start: nat, fill: ColorIndex)
    ensures Fills(FillHatches(ps, start, fill)) == FillHatches(ps, start, fill)
  {
    FillsOfAssociated(FillHatches(ps, start, fill));
  }

  /** The hatch tiling adds no associated hatch. */
  lemma TilingHasNoFills(env: Env, gc: GraphicsContext, path: Path, boundaries: seq<seq<Vertex>>)
    requires |boundaries| > 0
    ensures Fills(HatchEntities(env.palette, env.kernel, env.dpi, gc, path, boundaries)) == []
  {
    if gc.hatch.Some? {
      var spec := gc.hatch.value;
      var h := HatchingFor(env.palette, env.kernel, env.dpi, spec, path, boundaries);
      GridEntitiesAreHatchPieces(h, Tiles(GridSize(path.extents.dy, env.dpi), GridSize(path.extents.dx, env.dpi)));
    }
    FillsOfUnassociated(HatchEntities(env.palette, env.kernel, env.dpi, gc, path, boundaries));
  }

  /** A patch gets exactly one fill hatch per polyline drawn when it has a face colour and none
      without; each fill copies its polyline's points and closed flag, and the tiling adds no
      associated hatch. */
  lemma PatchFills(env: Env, gc: GraphicsContext, path: Path, face: Option<Rgba>, start: nat)
    ensures Fills(PatchEntities(env, gc, path, face, start))
        == if face.Some? then FillHatches(PathLines(env, gc, path, "patch"), start, RgbToDxf(env.palette, face)) else []
  {
    var ps := PathLines(env, gc, path, "patch");
    if ps != [] {
      var fills := if face.Some? then FillHatches(ps, start, RgbToDxf(env.palette, face)) else [];
      var tiling := HatchEntities(env.palette, env.kernel, env.dpi, gc, path, PointsOf(ps));
      if face.Some? {
        FillsOfFillHatches(ps, start, RgbToDxf(env.palette, face));
      }
      TilingHasNoFills(env, gc, path, PointsOf(ps));
      FillsOfParts(AsEntities(ps), fills, tiling);
      assert PatchEntities(env, gc, path, face, start) == AsEntities(ps) + fills + tiling;
    }
  }

  /** The fills of polylines, then fills, then unassociated hatches are the fills alone. */
  lemma FillsOfParts(polys: seq<Entity>, fills: seq<Entity>, tiling: seq<Entity>)
    requires forall e :: e in polys ==> e.LwPolyline?
    requires Fills(fills) == fills && Fills(tiling) == []
    ensures Fills(polys + fills + tiling) == fills
  {
    FillsAppend(polys + fills, tiling);
    FillsAppend(polys, fills);
    FillsOfUnassociated(polys);
  }

  /** A patch whose clip leaves no polyline appends nothing: no fill and no hatch tiling. */
  lemma PatchNeedsAPolyline(env: Env, gc: GraphicsContext, path: Path, face: Option<Rgba>, start: nat)
    requires PathLines(env, gc, path, "patch") == []
    ensures PatchEntities(env, gc, path, face, start) == []
  {
  }

  /** The outline matplotlib gives a rectangle patch: its four corners, closed by repeating the
      first, in device space. */
  function Square(x: real, y: real, side: real): (vs: seq<Vertex>)
    ensures |vs| == 5 && vs[0] == vs[4] && vs[0].x == Num(x)
  {
    [Vertex(Num(x), Num(y)), Vertex(Num(x + side), Num(y)), Vertex(Num(x + side), Num(y + side)),
     Vertex(Num(x), Num(y + side)), Vertex(Num(x), Num(y))]
  }

  /** An unclipped square whose outline starts at x = 0 draws nothing at all: the single-contour
      guard of `_draw_mpl_lwpoly` drops it, and with it the fill and the hatch tiling. */
  lemma SquareAtOriginDrawsNothing(env: Env, gc: GraphicsContext, side: real, ext: Extents, face: Option<Rgba>, start: nat)
    requires gc.clip.None?
    ensures PatchEntities(env, gc, Path(Square(0.0, 0.0, side), ext), face, start) == []
  {
    var vs := Square(0.0, 0.0, side);
    assert Clipping.ClipMpl(env.kernel, None, vs, "patch") == One(vs);
  }

  /** An unclipped, unhatched square away from x = 0 with a face colour becomes an open
      polyline in the stroke colour followed by one fill hatch in the face colour whose boundary
      is the same points and which points back at the polyline. */
  lemma FilledSquare(env: Env, gc: GraphicsContext, x: real, y: real, side: real, ext: Extents, face: Rgba, start: nat)
    requires gc.clip.None? && gc.hatch.None? && x != 0.0
    ensures var vs := Square(x, y, side);
      PatchEntities(env, gc, Path(vs, ext), Some(face), start) ==
        [LwPolyline(Polyline(vs, false, RgbToDxf(env.palette, gc.rgb))),
         Hatch(RgbToDxf(env.palette, Some(face)), BoundaryPath(vs, false, Some(start)))]
  {
    var vs := Square(x, y, side);
    var stroke := RgbToDxf(env.palette, gc.rgb);
    UnclippedContour(env.kernel, stroke, vs, "patch");
    var ps := PathLines(env, gc, Path(vs, ext), "patch");
    assert ps == [Polyline(vs, false, stroke)];
    assert AsEntities(ps) == [LwPolyline(Polyline(vs, false, stroke))];
    NoHatchNoEntities(env.palette, env.kernel, env.dpi, gc, Path(vs, ext), PointsOf(ps));
  }

  /** `draw_path_collection`: every path drawn as a patch, one after another, with the gc
      and the first face colour. */
  function AfterCollection(env: Env, ms: seq<Entity>, gc: GraphicsContext, paths: seq<Path>, face: Option<Rgba>): (out: seq<Entity>)
    ensures |ms| <= |out| && out[..|ms|] == ms
  {
    if paths == [] then ms
    else
      var before := AfterCollection(env, ms, gc, paths[..|paths| - 1], face);
      before + PatchEntities(env, gc, paths[|paths| - 1], face, |before|)
  }

  /** The face colour `draw_path_collection` uses for every path: the first face colour, if any. */
  function CollectionFace(facecolors: seq<Rgba>): (face: Option<Rgba>)
    ensures face.Some? <==> facecolors != []
    ensures face.Some? ==> face.value == facecolors[0]
  {
    if |facecolors| > 0 then Some(facecolors[0]) else None
  }

  /** What `draw_path` does, chosen by the innermost open group. */
  datatype PathAction = DrawPatch | DrawLine | DrawNothing

  function PathDispatch(groupd: seq<string>): (a: PathAction)
    requires |groupd| > 0
    ensures a == DrawPatch <==> groupd[|groupd| - 1] == "patch"
    ensures a == DrawLine <==> groupd[|groupd| - 1] == "line2d"
  {
    var top := groupd[|groupd| - 1];
    if top == "patch" then DrawPatch else if top == "line2d" then DrawLine else DrawNothing
  }

  /** `needle in s` on strings. */
  predicate Contains(s: string, needle: string)
    decreases |s|
  {
    (|needle| <= |s| && s[..|needle|] == needle) || (s != [] && Contains(s[1..], needle))
  }

  /** A string contains every infix of it. */
  lemma {:induction false} ContainsInfix(pre: string, needle: string, post: string)
    ensures Contains(pre + needle + post, needle)
    decreases |pre|
  {
    var s := pre + needle + post;
    if pre == [] {
      assert s[..|needle|] == needle;
    } else {
      assert s[1..] == pre[1..] + needle + post;
      ContainsInfix(pre[1..], needle, post);
    }
  }

  /** A string that contains a needle has it as an infix. */
  lemma {:induction false} ContainsIsInfix(s: string, needle: string)
    requires Contains(s, needle)
    ensures exists pre, post :: s == pre + needle + post
    decreases |s|
  {
    if |needle| <= |s| && s[..|needle|] == needle {
      assert s == [] + needle + s[|needle|..];
    } else {
      ContainsIsInfix(s[1..], needle);
      var pre, post :| s[1..] == pre + needle + post;
      assert s == [s[0]] + pre + needle + post;
    }
  }

  /** The guard of `draw_markers`: the innermost group is "line2d" and the one around it has
      "tick" in its name. Both are read, so two groups must be open. */
  function MarkersDrawn(groupd: seq<string>): (b: bool)
    requires |groupd| >= 2
    ensures b <==> groupd[|groupd| - 1] == "line2d" && exists pre, post :: groupd[|groupd| - 2] == pre + "tick" + post
  {
    var outer := groupd[|groupd| - 2];
    if Contains(outer, "tick") then
      ContainsIsInfix(outer, "tick");
      groupd[|groupd| - 1] == "line2d"
    else
      assert forall pre, post :: outer != pre + "tick" + post by {
        forall pre, post ensures outer != pre + "tick" + post {
          if outer == pre + "tick" + post {
            ContainsInfix(pre, "tick", post);
          }
        }
      }
      false
  }

  /** Markers are drawn inside a "line2d" group nested in any group whose name has "tick" in
      it, such as matplotlib's "xtick" and "ytick"; the groups further out do not matter. */
  lemma TickLinesDrawMarkers(outer: seq<string>, pre: string, post: string)
    ensures MarkersDrawn(outer + [pre + "tick" + post, "line2d"])
  {
    ContainsInfix(pre, "tick", post);
  }

  /** The drawing header fields `_init_drawing` sets: `$EXTMIN` and `$EXTMAX`. */
  datatype Header = Header(extMin: (real, real, real), extMax: (real, real, real))

  /** The extents of a fresh drawing of the given size. */
  function InitialHeader(width: real, height: real): (hd: Header)
    ensures hd.extMin == (0.0, 0.0, 0.0)
    ensures hd.extMax.0 == width && hd.extMax.1 == height && hd.extMax.2 == 0.0
  {
    Header((0.0, 0.0, 0.0), (width, height, 0.0))
  }

  class RendererDxf {
    const width: real
    const height: real
    const dxfversion: string
    const env: Env

    /** The drawing's header extents. */
    var header: Header

    /** The drawing's modelspace, appended to in drawing order. */
    var modelspace: seq<Entity>

    /** `_groupd`: the names of the open groups, innermost last. */
    var groupd: seq<string>

    constructor (width: real, height: real, dpi: Dpi, dxfversion: string, palette: Palette, kernel: Kernel)
      ensures this.width == width && this.height == height && this.dxfversion == dxfversion
      ensures env == Env(palette, kernel, dpi)
      ensures header == InitialHeader(width, height)
      ensures modelspace == [] && groupd == []
    {
      this.width := width;
      this.height := height;
      this.dxfversion := dxfversion;
      this.env := Env(palette, kernel, dpi);
      header := InitialHeader(width, height);
      modelspace := [];
      groupd := [];
    }

    /** `clear`: a new, empty drawing; the group stack is left as it is. */
    method Clear()
      modifies this`header, this`modelspace
      ensures header == InitialHeader(width, height)
      ensures modelspace == []
    {
      header := InitialHeader(width, height);
      modelspace := [];
    }

    /** `open_group`: push the group's name. */
    method OpenGroup(s: string)
      modifies this`groupd
      ensures groupd == old(groupd) + [s]
    {
      groupd := groupd + [s];
    }

    /** `close_group`: pop the innermost group, whatever name is passed. */
    method CloseGroup(s: string)
      requires |groupd| > 0
      modifies this`groupd
      ensures groupd == old(groupd)[..|old(groupd)| - 1]
    {
      groupd := groupd[..|groupd| - 1];
    }

    /** `_draw_mpl_lwpoly`: clip the device-space contour and add its polylines. */
    method DrawMplLwpoly(gc: GraphicsContext, path: Path, obj: string) returns (made: seq<Polyline>)
      modifies this`modelspace
      ensures made == PathLines(env, gc, path, obj)
      ensures modelspace == old(modelspace) + AsEntities(made)
    {
      var color := RgbToDxf(env.palette, gc.rgb);
      made := [];
      if |path.vertices| > 0 {
        var vertices := Clipping.ClipMpl(env.kernel, gc.clip, path.vertices, obj);
        match vertices
        case One(pts) =>
          if |pts| > 0 && pts[0].x != Num(0.0) {
            made := [Polyline(pts, false, color)];
            modelspace := modelspace + [LwPolyline(made[0])];
          }
        case Many(parts) =>
          var i := 0;
          while i < |parts|
            invariant 0 <= i <= |parts|
            invariant |made| == i
            invariant forall j :: 0 <= j < i ==> made[j] == Polyline(parts[j], false, color)
            invariant modelspace == old(modelspace) + AsEntities(made)
          {
            var p := Polyline(parts[i], false, color);
            modelspace := modelspace + [LwPolyline(p)];
            made := made + [p];
            i := i + 1;
          }
      }
    }

    /** `_draw_mpl_line2d`. */
    method DrawMplLine2d(gc: GraphicsContext, path: Path)
      modifies this`modelspace
      ensures modelspace == old(modelspace) + AsEntities(PathLines(env, gc, path, "line2d"))
    {
      var line := DrawMplLwpoly(gc, path, "line2d");
    }

    /** `_draw_mpl_hatch`: tile the hatch cell over the path's extents and clip every piece of
      every tile by the boundary polylines. */
    method DrawMplHatch(gc: GraphicsContext, path: Path, boundaries: seq<seq<Vertex>>)
      requires |boundaries| > 0
      modifies this`modelspace
      ensures modelspace == old(modelspace) + HatchEntities(env.palette, env.kernel, env.dpi, gc, path, boundaries)
    {
      if gc.hatch.None? {
        return;
      }
      var spec := gc.hatch.value;
      var dpi := env.dpi;
      var rows, cols := GridSize(path.extents.dy, dpi), GridSize(path.extents.dx, dpi);
      var h := HatchingFor(env.palette, env.kernel, dpi, spec, path, boundaries);
      var added := HatchGrid(h, rows, cols);
      HatchEntitiesByRows(env.palette, env.kernel, dpi, gc, spec, path, boundaries, rows, cols);
      modelspace := modelspace + added;
    }

    /** `_draw_mpl_patch`: the polylines, their fill hatches when there is a face colour, then
      the hatch tiling; nothing at all when no polyline was made. */
    method DrawMplPatch(gc: GraphicsContext, path: Path, face: Option<Rgba>)
      modifies this`modelspace
      ensures modelspace == old(modelspace) + PatchEntities(env, gc, path, face, |old(modelspace)|)
    {
      var start := |modelspace|;
      ghost var before := modelspace;
      var poly := DrawMplLwpoly(gc, path, "patch");
      if poly == [] {
        return;
      }
      ghost var fills := if face.Some? then FillHatches(poly, start, RgbToDxf(env.palette, face)) else [];
      if face.Some? {
        DrawFills(poly, start, RgbToDxf(env.palette, face));
      }
      assert modelspace == before + AsEntities(poly) + fills;
      DrawMplHatch(gc, path, PointsOf(poly));
      ghost var tiling := HatchEntities(env.palette, env.kernel, env.dpi, gc, path, PointsOf(poly));
      PatchEntitiesOfLines(env, gc, path, face, start);
      AppendAssociates(before, AsEntities(poly), fills, tiling);
    }

    /** The fill loop of `_draw_mpl_patch`: one hatch per polyline, associated with it. The
      polylines were appended from position `start`. */
    method DrawFills(poly: seq<Polyline>, start: nat, fill: ColorIndex)
      modifies this`modelspace
      ensures modelspace == old(modelspace) + FillHatches(poly, start, fill)
    {
      var i := 0;
      while i < |poly|
        invariant 0 <= i <= |poly|
        invariant modelspace == old(modelspace) + FillHatches(poly[..i], start, fill)
      {
        var pol := poly[i];
        var hatch := Hatch(fill, BoundaryPath(pol.points, pol.closed, Some(start + i)));
        modelspace := modelspace + [hatch];
        assert FillHatches(poly[..i + 1], start, fill) == FillHatches(poly[..i], start, fill) + [hatch];
        i := i + 1;
      }
      assert poly[..i] == poly;
    }

    /** `draw_path_collection`: each path as a filled patch with the first face colour. */
    method DrawPathCollection(gc: GraphicsContext, paths: seq<Path>, facecolors: seq<Rgba>)
      modifies this`modelspace
      ensures modelspace == AfterCollection(env, old(modelspace), gc, paths, CollectionFace(facecolors))
    {
      var rgbFace := if |facecolors| > 0 then Some(facecolors[0]) else None;
      assert rgbFace == CollectionFace(facecolors);
      var i := 0;
      while i < |paths|
        invariant 0 <= i <= |paths|
        invariant modelspace == AfterCollection(env, old(modelspace), gc, paths[..i], rgbFace)
      {
        ghost var before := modelspace;
        DrawMplPatch(gc, paths[i], rgbFace);
        assert paths[..i + 1][..i] == paths[..i];
        assert AfterCollection(env, old(modelspace), gc, paths[..i + 1], rgbFace)
          == before + PatchEntities(env, gc, paths[i], rgbFace, |before|);
        i := i + 1;
      }
      assert paths[..i] == paths;
    }

    /** `draw_path`: a patch inside a "patch" group, a line inside a "line2d" group, nothing
      otherwise. Reading the innermost group needs one open. */
    method DrawPath(gc: GraphicsContext, path: Path, face: Option<Rgba>)
      requires |groupd| > 0
      modifies this`modelspace
      ensures PathDispatch(groupd) == DrawPatch ==> modelspace == old(modelspace) + PatchEntities(env, gc, path, face, |old(modelspace)|)
      ensures PathDispatch(groupd) == DrawLine ==> modelspace == old(modelspace) + AsEntities(PathLines(env, gc, path, "line2d"))
      ensures PathDispatch(groupd) == DrawNothing ==> modelspace == old(modelspace)
    {
      if groupd[|groupd| - 1] == "patch" {
        DrawMplPatch(gc, path, face);
      } else if groupd[|groupd| - 1] == "line2d" {
        DrawMplLine2d(gc, path);
      }
    }

    /** `draw_markers`: a tick mark is drawn as a line at the first vertex of the marker
      positions; `placed` is the marker path already moved there. */
    method DrawMarkers(gc: GraphicsContext, placed: Path)
      requires |groupd| >= 2
      modifies this`modelspace
      ensures MarkersDrawn(groupd) ==> modelspace == old(modelspace) + AsEntities(PathLines(env, gc, placed, "line2d"))
      ensures !MarkersDrawn(groupd) ==> modelspace == old(modelspace)
    {
      if groupd[|groupd| - 1] == "line2d" && Contains(groupd[|groupd| - 2], "tick") {
        DrawMplLine2d(gc, placed);
      }
    }

    /** `draw_text`: append what `DrawTextOutcome` says and report what it raised. */
    method DrawText(gc: GraphicsContext, s: string, sizePts: real, angle: real, mtext: Option<TextInfo>) returns (raised: Option<DrawError>)
      modifies this`modelspace
      ensures var out := DrawTextOutcome(env.palette, env.dpi, gc, s, sizePts, angle, mtext);
        modelspace == old(modelspace) + out.added && raised == out.raised
    {
      var out := DrawTextOutcome(env.palette, env.dpi, gc, s, sizePts, angle, mtext);
      modelspace := modelspace + out.added;
      raised := out.raised;
    }
  }
}
