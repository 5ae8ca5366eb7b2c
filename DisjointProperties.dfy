/** What the disjoint engine promises: the geometric meaning of the point-on-segment
    test and its tie-breaks, the symmetry of the dispatch, the cases that force
    "not disjoint", and the behaviour of the all-pairs reduction. */
module DisjointProperties {
  import opened GeoTypes
  import Turf
  import opened DisjointEngine

  /** Exact coordinate comparison is reflexive and symmetric. */
  lemma CompareCoordsReflexiveSymmetric(p: Coordinate, q: Coordinate)
    ensures CompareCoords(p, p)
    ensures CompareCoords(p, q) == CompareCoords(q, p)
  {
  }

  /** Two points are disjoint exactly when their coordinates differ. */
  lemma PointPointDisjoint(p: Coordinate, q: Coordinate, env: Collaborators)
    ensures Disjoint(Point(p), Point(q), env) <==> p != q
  {
  }

  /** A point off the segment's supporting line (non-zero cross product) is rejected. */
  lemma NonCollinearRejected(s: Coordinate, e: Coordinate, p: Coordinate)
    requires (p.latitude - s.latitude) * (e.longitude - s.longitude)
             - (p.longitude - s.longitude) * (e.latitude - s.latitude) != 0.0
    ensures !IsPointOnLineSegment(s, e, p)
  {
  }

  lemma ScaledStaysBetween(t: real, d: real)
    requires 0.0 <= t <= 1.0
    ensures d >= 0.0 ==> 0.0 <= t * d <= d
    ensures d <= 0.0 ==> d <= t * d <= 0.0
  {
    assert d - t * d == (1.0 - t) * d;
  }

  lemma RatioBetween(x: real, d: real)
    requires d != 0.0
    requires (d > 0.0 && 0.0 <= x <= d) || (d < 0.0 && d <= x <= 0.0)
    ensures 0.0 <= x / d <= 1.0 && x / d * d == x
  {
    var t := x / d;
    assert t * d == x;
    if d > 0.0 {
      assert (1.0 - t) * d == d - x;
    } else {
      assert (1.0 - t) * d == d - x;
    }
  }

  /** Every point at a parameter in [0, 1] of a segment is on it: boundary
      inclusive, whether or not the segment is degenerate. */
  lemma {:induction false} PointAtParamIsOnSegment(s: Coordinate, e: Coordinate, t: real)
    requires 0.0 <= t <= 1.0
    ensures IsPointOnLineSegment(s, e, Turf.PointAt((s, e), t))
  {
    var dxl, dyl := e.latitude - s.latitude, e.longitude - s.longitude;
    var p := Turf.PointAt((s, e), t);
    assert p.latitude - s.latitude == t * dxl;
    assert p.longitude - s.longitude == t * dyl;
    assert (t * dxl) * dyl - (t * dyl) * dxl == 0.0;
    ScaledStaysBetween(t, dxl);
    ScaledStaysBetween(t, dyl);
  }

  /** Along an axis where the segment extends by `along` (non-zero), a collinear
      offset `c` within range is the fraction `c / along` of the segment, and the
      offset on the other axis is the same fraction of `across`. */
  lemma AxisFraction(c: real, cOther: real, along: real, across: real)
    requires along != 0.0
    requires c * across - cOther * along == 0.0
    requires (along > 0.0 && 0.0 <= c <= along) || (along < 0.0 && along <= c <= 0.0)
    ensures 0.0 <= c / along <= 1.0 && c == c / along * along && cOther == c / along * across
  {
    RatioBetween(c, along);
    var t := c / along;
    assert (cOther - t * across) * along == cOther * along - t * along * across;
    Turf.CancelFactor(cOther, t * across, along);
  }

  /** Conversely, on a non-degenerate segment every accepted point is the point
      at some parameter in [0, 1]. */
  lemma {:induction false} OnSegmentIsPointAtParam(s: Coordinate, e: Coordinate, p: Coordinate)
    requires s != e
    requires IsPointOnLineSegment(s, e, p)
    ensures exists t: real :: 0.0 <= t <= 1.0 && p == Turf.PointAt((s, e), t)
  {
    var dxc, dyc := p.latitude - s.latitude, p.longitude - s.longitude;
    var dxl, dyl := e.latitude - s.latitude, e.longitude - s.longitude;
    assert dxc * dyl - dyc * dxl == 0.0;
    if Abs(dxl) >= Abs(dyl) {
      AxisFraction(dxc, dyc, dxl, dyl);
      assert p == Turf.PointAt((s, e), dxc / dxl);
    } else {
      AxisFraction(dyc, dxc, dyl, dxl);
      assert p == Turf.PointAt((s, e), dyc / dyl);
    }
  }

  /** On a non-degenerate segment the test accepts exactly the closed segment. */
  lemma {:induction false} OnSegmentIffClosedSegment(s: Coordinate, e: Coordinate, p: Coordinate)
    requires s != e
    ensures IsPointOnLineSegment(s, e, p) <==> exists t: real :: 0.0 <= t <= 1.0 && p == Turf.PointAt((s, e), t)
  {
    if IsPointOnLineSegment(s, e, p) {
      OnSegmentIsPointAtParam(s, e, p);
    } else if t: real :| 0.0 <= t <= 1.0 && p == Turf.PointAt((s, e), t) {
      PointAtParamIsOnSegment(s, e, t);
    }
  }

  /** Both endpoints are on the segment. */
  lemma {:induction false} EndpointsOnSegment(s: Coordinate, e: Coordinate)
    ensures IsPointOnLineSegment(s, e, s) && IsPointOnLineSegment(s, e, e)
  {
    PointAtParamIsOnSegment(s, e, 0.0);
    assert Turf.PointAt((s, e), 0.0) == s;
    PointAtParamIsOnSegment(s, e, 1.0);
    assert Turf.PointAt((s, e), 1.0) == e;
  }

  /** The test does not depend on which end is the start. */
  lemma {:induction false} OnSegmentSwapInvariant(s: Coordinate, e: Coordinate, p: Coordinate)
    ensures IsPointOnLineSegment(s, e, p) == IsPointOnLineSegment(e, s, p)
  {
    var dxc, dyc := p.latitude - s.latitude, p.longitude - s.longitude;
    var dxl, dyl := e.latitude - s.latitude, e.longitude - s.longitude;
    var dxc', dyc' := p.latitude - e.latitude, p.longitude - e.longitude;
    assert dxc' == dxc - dxl && dyc' == dyc - dyl;
    assert dxc' * -dyl - dyc' * -dxl == -(dxc * dyl - dyc * dxl);
  }

  /** A degenerate segment (start == end) accepts every point with the same
      latitude, whatever its longitude. */
  lemma DegenerateSegmentIgnoresLongitude(s: Coordinate, p: Coordinate)
    ensures IsPointOnLineSegment(s, s, p) <==> p.latitude == s.latitude
  {
  }

  /** Segment (0,0)-(2,0): the collinear point (3,0) is outside its range and
      rejected, the point (1,0) is accepted. */
  lemma OnSegmentExamples()
    ensures !IsPointOnLineSegment(Coordinate(0.0, 0.0), Coordinate(2.0, 0.0), Coordinate(3.0, 0.0))
    ensures IsPointOnLineSegment(Coordinate(0.0, 0.0), Coordinate(2.0, 0.0), Coordinate(1.0, 0.0))
  {
  }

  /** Every vertex of a line with at least one segment lies on the line, so a point
      placed on a vertex (a shared endpoint of two segments included) is never
      disjoint from it. */
  lemma {:induction false} VertexOnOwnLine(coords: seq<Coordinate>, k: int, env: Collaborators)
    requires |coords| >= 2 && 0 <= k < |coords|
    ensures PointOnLine(coords, coords[k])
    ensures !Disjoint(Point(coords[k]), LineString(coords), env)
    ensures !Disjoint(LineString(coords), Point(coords[k]), env)
  {
    if k + 1 < |coords| {
      EndpointsOnSegment(coords[k], coords[k + 1]);
      assert IsPointOnLineSegment(coords[k], coords[k + 1], coords[k]);
    } else {
      EndpointsOnSegment(coords[k - 1], coords[k]);
      assert IsPointOnLineSegment(coords[k - 1], coords[k - 1 + 1], coords[k]);
    }
  }

  /** The documented example: the point (2,2) and the line (1,1),(2,1),(3,1),(4,1),
      read as [longitude, latitude], are disjoint, both as simple geometries and
      as single-geometry features. */
  lemma {:induction false} PointLineDocExample(env: Collaborators)
    ensures Disjoint(LineString([Coordinate(1.0, 1.0), Coordinate(2.0, 1.0), Coordinate(3.0, 1.0), Coordinate(4.0, 1.0)]),
                     Point(Coordinate(2.0, 2.0)), env)
    ensures AllPairsDisjoint([LineString([Coordinate(1.0, 1.0), Coordinate(2.0, 1.0), Coordinate(3.0, 1.0), Coordinate(4.0, 1.0)])],
                             [Point(Coordinate(2.0, 2.0))], env)
  {
    var line := [Coordinate(1.0, 1.0), Coordinate(2.0, 1.0), Coordinate(3.0, 1.0), Coordinate(4.0, 1.0)];
    forall i | 0 <= i < |line| - 1
      ensures !IsPointOnLineSegment(line[i], line[i + 1], Coordinate(2.0, 2.0))
    {
      NonCollinearRejected(line[i], line[i + 1], Coordinate(2.0, 2.0));
    }
    assert Disjoint(LineString(line), Point(Coordinate(2.0, 2.0)), env);
  }

  /** Any geometry kind the dispatch does not recognise gives false, on either side. */
  lemma OtherNeverDisjoint(g: Geometry, env: Collaborators)
    ensures !Disjoint(Other, g, env) && !Disjoint(g, Other, env)
  {
  }

  /** The dispatch is symmetric in argument order, provided the line-intersection
      collaborator is. */
  lemma {:induction false} DisjointSymmetric(g1: Geometry, g2: Geometry, env: Collaborators)
    requires SymmetricIntersections(env)
    ensures Disjoint(g1, g2, env) == Disjoint(g2, g1, env)
  {
    match (g1, g2)
    case (LineString(l1), LineString(l2)) =>
      assert LineOnLine(env, l1, l2) == LineOnLine(env, l2, l1);
    case (Polygon(r1), Polygon(r2)) =>
      assert LineOnLine(env, r1.outer, r2.outer) == LineOnLine(env, r2.outer, r1.outer);
    case _ =>
  }

  /** A line vertex contained in the polygon makes the pair not disjoint, in either order. */
  lemma {:induction false} LineVertexContainedNotDisjoint(line: seq<Coordinate>, rings: Rings, k: int, env: Collaborators)
    requires 0 <= k < |line| && env.contains(rings, line[k])
    ensures !Disjoint(LineString(line), Polygon(rings), env)
    ensures !Disjoint(Polygon(rings), LineString(line), env)
  {
    assert SomeVertexContained(env, line, rings);
  }

  /** An outer-ring vertex of either polygon contained in the other makes the pair
      not disjoint, in either order. */
  lemma {:induction false} PolygonVertexContainedNotDisjoint(rings1: Rings, rings2: Rings, k: int, env: Collaborators)
    requires 0 <= k < |rings1.outer| && env.contains(rings2, rings1.outer[k])
    ensures !Disjoint(Polygon(rings1), Polygon(rings2), env)
    ensures !Disjoint(Polygon(rings2), Polygon(rings1), env)
  {
    assert SomeVertexContained(env, rings1.outer, rings2);
  }

  /** The reduction is vacuously true when either side has no geometries. */
  lemma EmptyFeatureDisjoint(geoms: seq<Geometry>, env: Collaborators)
    ensures AllPairsDisjoint([], geoms, env) && AllPairsDisjoint(geoms, [], env)
  {
  }

  /** The reduction is symmetric in its two features when the dispatch is. */
  lemma {:induction false} AllPairsSymmetric(geoms1: seq<Geometry>, geoms2: seq<Geometry>, env: Collaborators)
    requires SymmetricIntersections(env)
    ensures AllPairsDisjoint(geoms1, geoms2, env) == AllPairsDisjoint(geoms2, geoms1, env)
  {
    forall i, j | 0 <= i < |geoms1| && 0 <= j < |geoms2|
      ensures Disjoint(geoms1[i], geoms2[j], env) == Disjoint(geoms2[j], geoms1[i], env)
    {
      DisjointSymmetric(geoms1[i], geoms2[j], env);
    }
  }

  /** The reduction depends only on which geometries occur on each side, not on
      their order or repetition. */
  lemma AllPairsByMembership(geoms1: seq<Geometry>, geoms2: seq<Geometry>, env: Collaborators)
    ensures AllPairsDisjoint(geoms1, geoms2, env) <==> forall g1, g2 :: g1 in geoms1 && g2 in geoms2 ==> Disjoint(g1, g2, env)
  {
  }

  /** A line-intersection collaborator that reports whether some pair of segments
      strictly crosses, by the segment primitive. */
  predicate SomeSegmentsCross(line1: seq<Coordinate>, line2: seq<Coordinate>) {
    exists i, j :: 0 <= i < |line1| - 1 && 0 <= j < |line2| - 1
      && Turf.Intersection((line1[i], line1[i + 1]), (line2[j], line2[j + 1])).Some?
  }

  /** Such a collaborator meets the symmetry assumption, by the symmetry of the
      segment primitive. */
  lemma {:induction false} SegmentCrossingCollaboratorSymmetric(contains: (Rings, Coordinate) -> bool)
    ensures SymmetricIntersections(Collaborators(contains, (l1, l2) => if SomeSegmentsCross(l1, l2) then 1 else 0))
  {
    forall l1: seq<Coordinate>, l2: seq<Coordinate> ensures SomeSegmentsCross(l1, l2) ==> SomeSegmentsCross(l2, l1) {
      if SomeSegmentsCross(l1, l2) {
        var i, j :| 0 <= i < |l1| - 1 && 0 <= j < |l2| - 1
          && Turf.Intersection((l1[i], l1[i + 1]), (l2[j], l2[j + 1])).Some?;
        Turf.IntersectionSymmetric((l1[i], l1[i + 1]), (l2[j], l2[j + 1]));
      }
    }
  }
}
