/** The disjoint predicate engine of Sources/Turf/Boolean/Disjoint.swift: the
    point-on-segment test, the search helpers, the 3x3 dispatch over simple
    geometries and the all-pairs reduction over two flattened features. */
module DisjointEngine {
  import opened GeoTypes
  import Turf

  /** The collaborators whose source is not part of this model, passed in as values:
      `contains` is `Polygon.contains` and `lineIntersections` is the number of
      features returned by `intersection(LineString, LineString)`. */
  datatype Collaborators = Collaborators(
    contains: (Rings, Coordinate) -> bool,
    lineIntersections: (seq<Coordinate>, seq<Coordinate>) -> nat)

  /** Whether two lines intersect does not depend on their order. */
  ghost predicate SymmetricIntersections(env: Collaborators) {
    forall l1, l2 :: env.lineIntersections(l1, l2) > 0 <==> env.lineIntersections(l2, l1) > 0
  }

  /** Exact equality on both fields, with no tolerance. */
  function CompareCoords(pair1: Coordinate, pair2: Coordinate): (r: bool)
    ensures r <==> pair1 == pair2
  {
    pair1.latitude == pair2.latitude && pair1.longitude == pair2.longitude
  }

  /** Collinearity (a zero cross product) plus a bounds check, inclusive at both
      ends, on whichever axis the segment extends further along (latitude on a tie). */
  function IsPointOnLineSegment(lineSegmentStart: Coordinate, lineSegmentEnd: Coordinate, pt: Coordinate): bool {
    var dxc := pt.latitude - lineSegmentStart.latitude;
    var dyc := pt.longitude - lineSegmentStart.longitude;
    var dxl := lineSegmentEnd.latitude - lineSegmentStart.latitude;
    var dyl := lineSegmentEnd.longitude - lineSegmentStart.longitude;
    var cross := dxc * dyl - dyc * dxl;
    if cross != 0.0 then false
    else if Abs(dxl) >= Abs(dyl) then
      if dxl > 0.0 then lineSegmentStart.latitude <= pt.latitude <= lineSegmentEnd.latitude
      else lineSegmentEnd.latitude <= pt.latitude <= lineSegmentStart.latitude
    else
      if dyl > 0.0 then lineSegmentStart.longitude <= pt.longitude <= lineSegmentEnd.longitude
      else lineSegmentEnd.longitude <= pt.longitude <= lineSegmentStart.longitude
  }

  function Abs(x: real): real {
    if x < 0.0 then -x else x
  }

  /** Some consecutive pair of `coords` holds `pt` on its segment. */
  predicate PointOnLine(coords: seq<Coordinate>, pt: Coordinate) {
    exists i :: 0 <= i < |coords| - 1 && IsPointOnLineSegment(coords[i], coords[i + 1], pt)
  }

  /** Some coordinate of `coords` is contained in the polygon. */
  predicate SomeVertexContained(env: Collaborators, coords: seq<Coordinate>, polygon: Rings) {
    exists i :: 0 <= i < |coords| && env.contains(polygon, coords[i])
  }

  predicate LineOnLine(env: Collaborators, line1: seq<Coordinate>, line2: seq<Coordinate>) {
    env.lineIntersections(line1, line2) > 0
  }

  /** A vertex of the line inside the polygon, or the line meeting the outer ring. */
  predicate LineInPoly(env: Collaborators, polygon: Rings, line: seq<Coordinate>) {
    SomeVertexContained(env, line, polygon) || LineOnLine(env, line, polygon.outer)
  }

  /** An outer-ring vertex of either polygon inside the other, or the outer rings meeting. */
  predicate PolyInPoly(env: Collaborators, polygon1: Rings, polygon2: Rings) {
    || SomeVertexContained(env, polygon1.outer, polygon2)
    || SomeVertexContained(env, polygon2.outer, polygon1)
    || LineOnLine(env, polygon1.outer, polygon2.outer)
  }

  /** The disjoint rule for one pair of simple geometries; any unrecognised kind
      on either side gives false. */
  function Disjoint(geom1: Geometry, geom2: Geometry, env: Collaborators): bool {
    match (geom1, geom2)
    case (Point(p1), Point(p2)) => !CompareCoords(p1, p2)
    case (Point(p), LineString(l)) => !PointOnLine(l, p)
    case (Point(p), Polygon(g)) => !env.contains(g, p)
    case (LineString(l), Point(p)) => !PointOnLine(l, p)
    case (LineString(l1), LineString(l2)) => !LineOnLine(env, l1, l2)
    case (LineString(l), Polygon(g)) => !LineInPoly(env, g, l)
    case (Polygon(g), Point(p)) => !env.contains(g, p)
    case (Polygon(g), LineString(l)) => !LineInPoly(env, g, l)
    // The source passes the polygons to isPolyInPoly in swapped order.
    case (Polygon(g1), Polygon(g2)) => !PolyInPoly(env, g2, g1)
    case _ => false
  }

  /** Every geometry of one side is disjoint from every geometry of the other. */
  predicate AllPairsDisjoint(geoms1: seq<Geometry>, geoms2: seq<Geometry>, env: Collaborators) {
    forall i, j :: 0 <= i < |geoms1| && 0 <= j < |geoms2| ==> Disjoint(geoms1[i], geoms2[j], env)
  }

  /** Search over consecutive coordinate pairs, stopping at the first segment
      that holds the point. The source indexes `i + 1` for every `i` below the
      count and returns from inside a closure; this is its evident intent. */
  method IsPointOnLine(coords: seq<Coordinate>, pt: Coordinate) returns (found: bool)
    ensures found == PointOnLine(coords, pt)
  {
    var i := 0;
    while i + 1 < |coords|
      invariant i == 0 || i < |coords|
      invariant forall k :: 0 <= k < i ==> !IsPointOnLineSegment(coords[k], coords[k + 1], pt)
    {
      if IsPointOnLineSegment(coords[i], coords[i + 1], pt) {
        return true;
      }
      i := i + 1;
    }
    return false;
  }

  /** Search for a vertex contained in the polygon, stopping at the first. */
  method FindContainedVertex(env: Collaborators, coords: seq<Coordinate>, polygon: Rings) returns (found: bool)
    ensures found == SomeVertexContained(env, coords, polygon)
  {
    for i := 0 to |coords|
      invariant forall k :: 0 <= k < i ==> !env.contains(polygon, coords[k])
    {
      if env.contains(polygon, coords[i]) {
        return true;
      }
    }
    return false;
  }

  method IsLineInPoly(env: Collaborators, polygon: Rings, line: seq<Coordinate>) returns (found: bool)
    ensures found == LineInPoly(env, polygon, line)
  {
    found := FindContainedVertex(env, line, polygon);
    if !found {
      found := env.lineIntersections(line, polygon.outer) > 0;
    }
  }

  method IsPolyInPoly(env: Collaborators, polygon1: Rings, polygon2: Rings) returns (found: bool)
    ensures found == PolyInPoly(env, polygon1, polygon2)
  {
    found := FindContainedVertex(env, polygon1.outer, polygon2);
    if !found {
      found := FindContainedVertex(env, polygon2.outer, polygon1);
    }
    if !found {
      found := env.lineIntersections(polygon1.outer, polygon2.outer) > 0;
    }
  }

  /** Two features are disjoint when every pair of their flattened simple
      geometries is; the search stops at the first pair that is not, and a
      feature with no geometries is disjoint from everything. */
  method BooleanDisjoint<F>(feature1: F, feature2: F, flattenEach: F -> seq<Geometry>, env: Collaborators)
    returns (result: bool)
    ensures result == AllPairsDisjoint(flattenEach(feature1), flattenEach(feature2), env)
  {
    var geoms1, geoms2 := flattenEach(feature1), flattenEach(feature2);
    for i := 0 to |geoms1|
      invariant forall i', j :: 0 <= i' < i && 0 <= j < |geoms2| ==> Disjoint(geoms1[i'], geoms2[j], env)
    {
      for j := 0 to |geoms2|
        invariant forall j' :: 0 <= j' < j ==> Disjoint(geoms1[i], geoms2[j'], env)
      {
        if !Disjoint(geoms1[i], geoms2[j], env) {
          return false;
        }
      }
    }
    return true;
  }
}
