/** The records the renderer appends to the DXF modelspace. */
module Entities {
  import opened Results
  import opened Geometry
  import Colors
  import Alignment

  /** An LWPOLYLINE: its points, its closed flag and its colour index. */
  datatype Polyline = Polyline(points: seq<Vertex>, closed: bool, color: Colors.ColorIndex)

  /** A hatch boundary path: its points, its closed flag and, when the hatch is associated
      with a polyline, that polyline's position in the modelspace. */
  datatype BoundaryPath = BoundaryPath(points: seq<Vertex>, closed: bool, source: Option<nat>)

  /** A TEXT entity; `placement` is None until `set_placement` is called, and `align` is
      ezdxf's default LEFT until then. */
  datatype TextLabel = TextLabel(
    content: string,
    height: real,
    rotation: real,
    color: Colors.ColorIndex,
    placement: Option<(real, real)>,
    align: Alignment.TextAlignment)

  datatype Entity =
    | LwPolyline(line: Polyline)
    | Hatch(fill: Colors.ColorIndex, boundary: BoundaryPath)
    | Text(text: TextLabel)

  /** The modelspace records of a list of polylines, in order. */
  function AsEntities(ps: seq<Polyline>): (es: seq<Entity>)
    ensures |es| == |ps|
    ensures forall i :: 0 <= i < |ps| ==> es[i] == LwPolyline(ps[i])
  {
    seq(|ps|, i requires 0 <= i < |ps| => LwPolyline(ps[i]))
  }

  /** The points of each polyline, as `pline_obj.vertices()` yields them. */
  function PointsOf(ps: seq<Polyline>): (pts: seq<seq<Vertex>>)
    ensures |pts| == |ps|
    ensures forall i :: 0 <= i < |ps| ==> pts[i] == ps[i].points
  {
    seq(|ps|, i requires 0 <= i < |ps| => ps[i].points)
  }
}
