/** The segment-intersection primitive of Sources/Turf/Turf.swift. */
module Turf {
  import opened GeoTypes

  /** The point at parameter `t` along the line through `line.0` and `line.1`:
      `line.0` at t = 0 and `line.1` at t = 1. */
  function PointAt(line: LineSegment, t: real): Coordinate {
    Coordinate(line.0.latitude + t * (line.1.latitude - line.0.latitude),
               line.0.longitude + t * (line.1.longitude - line.0.longitude))
  }

  /** The cross product of the two segments' directions: zero when their
      supporting lines are parallel or coincide (see ParallelGivesNone). */
  function Denominator(line1: LineSegment, line2: LineSegment): real {
    (line2.1.latitude - line2.0.latitude) * (line1.1.longitude - line1.0.longitude)
    - (line2.1.longitude - line2.0.longitude) * (line1.1.latitude - line1.0.latitude)
  }

  function Numerator1(line1: LineSegment, line2: LineSegment): real {
    var dStartY := line1.0.latitude - line2.0.latitude;
    var dStartX := line1.0.longitude - line2.0.longitude;
    (line2.1.longitude - line2.0.longitude) * dStartY - (line2.1.latitude - line2.0.latitude) * dStartX
  }

  function Numerator2(line1: LineSegment, line2: LineSegment): real {
    var dStartY := line1.0.latitude - line2.0.latitude;
    var dStartX := line1.0.longitude - line2.0.longitude;
    (line1.1.longitude - line1.0.longitude) * dStartY - (line1.1.latitude - line1.0.latitude) * dStartX
  }

  /** Parameter of the lines' meeting point along `line1`. */
  function ParamA(line1: LineSegment, line2: LineSegment): real
    requires Denominator(line1, line2) != 0.0
  {
    Numerator1(line1, line2) / Denominator(line1, line2)
  }

  /** Parameter of the lines' meeting point along `line2`. */
  function ParamB(line1: LineSegment, line2: LineSegment): real
    requires Denominator(line1, line2) != 0.0
  {
    Numerator2(line1, line2) / Denominator(line1, line2)
  }

  /** The intersection of two segments, or None. Parallel and collinear segments
      (zero denominator) give None, and so does a meeting point at or beyond an
      endpoint of either segment: both parameters must lie strictly in (0, 1). */
  function Intersection(line1: LineSegment, line2: LineSegment): Option<Coordinate> {
    var denominator := Denominator(line1, line2);
    if denominator == 0.0 then None
    else
      var a := ParamA(line1, line2);
      var b := ParamB(line1, line2);
      if 0.0 < a < 1.0 && 0.0 < b < 1.0 then Some(PointAt(line1, a)) else None
  }

  /** `c` is a point strictly inside both segments: the reference meaning of a crossing. */
  ghost predicate CrossesAt(line1: LineSegment, line2: LineSegment, c: Coordinate) {
    exists s: real, t: real :: 0.0 < s < 1.0 && 0.0 < t < 1.0 && c == PointAt(line1, s) && c == PointAt(line2, t)
  }

  lemma CancelFactor(x: real, y: real, d: real)
    requires d != 0.0 && x * d == y * d
    ensures x == y
  {
    assert (x - y) * d == 0.0;
  }

  /** One coordinate of Cramer's rule: from `a * d == n1`, `b * d == n2` and the
      identity on the numerators, the component equation holds without `d`. */
  lemma CramerComponent(a: real, b: real, d: real, n1: real, n2: real, u1: real, u2: real, start: real)
    requires d != 0.0 && a * d == n1 && b * d == n2
    requires n1 * u1 - n2 * u2 == -start * d
    ensures a * u1 - b * u2 == -start
  {
    assert (a * u1 - b * u2) * d == (a * d) * u1 - (b * d) * u2;
    CancelFactor(a * u1 - b * u2, -start, d);
  }

  /** Two parametric points agree when their offsets from the segments' starts
      close the gap between those starts on both axes. */
  lemma PointsAgree(line1: LineSegment, line2: LineSegment, a: real, b: real)
    requires a * (line1.1.latitude - line1.0.latitude) - b * (line2.1.latitude - line2.0.latitude)
             == -(line1.0.latitude - line2.0.latitude)
    requires a * (line1.1.longitude - line1.0.longitude) - b * (line2.1.longitude - line2.0.longitude)
             == -(line1.0.longitude - line2.0.longitude)
    ensures PointAt(line1, a) == PointAt(line2, b)
  {
    var p, q := PointAt(line1, a), PointAt(line2, b);
    assert p.latitude == line1.0.latitude + a * (line1.1.latitude - line1.0.latitude);
    assert q.latitude == line2.0.latitude + b * (line2.1.latitude - line2.0.latitude);
    assert p.latitude == q.latitude;
    assert p.longitude == line1.0.longitude + a * (line1.1.longitude - line1.0.longitude);
    assert q.longitude == line2.0.longitude + b * (line2.1.longitude - line2.0.longitude);
    assert p.longitude == q.longitude;
  }

  /** When the lines are not parallel, the two parameters name one and the same point. */
  lemma {:induction false} LinesMeetAtParams(line1: LineSegment, line2: LineSegment)
    requires Denominator(line1, line2) != 0.0
    ensures PointAt(line1, ParamA(line1, line2)) == PointAt(line2, ParamB(line1, line2))
  {
    var d := Denominator(line1, line2);
    var n1, n2 := Numerator1(line1, line2), Numerator2(line1, line2);
    var a, b := ParamA(line1, line2), ParamB(line1, line2);
    var dLat1, dLon1 := line1.1.latitude - line1.0.latitude, line1.1.longitude - line1.0.longitude;
    var dLat2, dLon2 := line2.1.latitude - line2.0.latitude, line2.1.longitude - line2.0.longitude;
    var sY, sX := line1.0.latitude - line2.0.latitude, line1.0.longitude - line2.0.longitude;
    assert d == dLat2 * dLon1 - dLon2 * dLat1;
    assert n1 == dLon2 * sY - dLat2 * sX && n2 == dLon1 * sY - dLat1 * sX;
    assert a * d == n1 && b * d == n2;
    assert n1 * dLat1 - n2 * dLat2 == -sY * d;
    assert n1 * dLon1 - n2 * dLon2 == -sX * d;
    CramerComponent(a, b, d, n1, n2, dLat1, dLat2, sY);
    CramerComponent(a, b, d, n1, n2, dLon1, dLon2, sX);
    PointsAgree(line1, line2, a, b);
  }

  /** When the lines are not parallel, they meet at one point only, so any pair of
      parameters naming a common point is the pair the source computes. */
  lemma {:induction false} MeetingParamsUnique(line1: LineSegment, line2: LineSegment, s: real, t: real)
    requires Denominator(line1, line2) != 0.0
    requires PointAt(line1, s) == PointAt(line2, t)
    ensures s == ParamA(line1, line2) && t == ParamB(line1, line2)
  {
    var d := Denominator(line1, line2);
    var n1, n2 := Numerator1(line1, line2), Numerator2(line1, line2);
    var dLat1, dLon1 := line1.1.latitude - line1.0.latitude, line1.1.longitude - line1.0.longitude;
    var dLat2, dLon2 := line2.1.latitude - line2.0.latitude, line2.1.longitude - line2.0.longitude;
    var sY, sX := line1.0.latitude - line2.0.latitude, line1.0.longitude - line2.0.longitude;
    assert s * dLat1 - t * dLat2 == -sY;
    assert s * dLon1 - t * dLon2 == -sX;
    assert s * d == n1 by {
      calc {
        s * d;
        s * dLon1 * dLat2 - s * dLat1 * dLon2;
        (s * dLon1 - t * dLon2) * dLat2 - (s * dLat1 - t * dLat2) * dLon2;
        -sX * dLat2 + sY * dLon2;
        n1;
      }
    }
    assert t * d == n2 by {
      calc {
        t * d;
        t * dLat2 * dLon1 - t * dLon2 * dLat1;
        (s * dLat1 - t * dLat2) * dLon1 * -1.0 + (s * dLon1 - t * dLon2) * dLat1;
        sY * dLon1 - sX * dLat1;
        n2;
      }
    }
    assert ParamA(line1, line2) * d == n1;
    assert ParamB(line1, line2) * d == n2;
    CancelFactor(s, ParamA(line1, line2), d);
    CancelFactor(t, ParamB(line1, line2), d);
  }

  /** Intersection returns exactly the strict crossing point of two non-parallel
      segments: Some(c) when c lies strictly inside both, None otherwise; parallel
      and collinear segments always give None, even when they overlap. */
  lemma {:induction false} IntersectionIsStrictCrossing(line1: LineSegment, line2: LineSegment, c: Coordinate)
    ensures Denominator(line1, line2) == 0.0 ==> Intersection(line1, line2) == None
    ensures Intersection(line1, line2) == Some(c) <==> Denominator(line1, line2) != 0.0 && CrossesAt(line1, line2, c)
  {
    if Denominator(line1, line2) != 0.0 {
      var a, b := ParamA(line1, line2), ParamB(line1, line2);
      LinesMeetAtParams(line1, line2);
      if Intersection(line1, line2) == Some(c) {
        assert 0.0 < a < 1.0 && 0.0 < b < 1.0 && c == PointAt(line1, a) && c == PointAt(line2, b);
      }
      if CrossesAt(line1, line2, c) {
        var s: real, t: real :| 0.0 < s < 1.0 && 0.0 < t < 1.0 && c == PointAt(line1, s) && c == PointAt(line2, t);
        MeetingParamsUnique(line1, line2, s, t);
      }
    }
  }

  /** The result does not depend on argument order: swapping the segments negates
      the denominator and exchanges the two parameters. */
  lemma {:induction false} IntersectionSymmetric(line1: LineSegment, line2: LineSegment)
    ensures Intersection(line1, line2) == Intersection(line2, line1)
  {
    assert Denominator(line2, line1) == -Denominator(line1, line2);
    match Intersection(line1, line2)
    case Some(c) =>
      IntersectionIsStrictCrossing(line1, line2, c);
      var s: real, t: real :| 0.0 < s < 1.0 && 0.0 < t < 1.0 && c == PointAt(line1, s) && c == PointAt(line2, t);
      assert CrossesAt(line2, line1, c);
      IntersectionIsStrictCrossing(line2, line1, c);
    case None =>
      match Intersection(line2, line1)
      case Some(c) =>
        IntersectionIsStrictCrossing(line2, line1, c);
        var t: real, s: real :| 0.0 < t < 1.0 && 0.0 < s < 1.0 && c == PointAt(line2, t) && c == PointAt(line1, s);
        assert CrossesAt(line1, line2, c);
        IntersectionIsStrictCrossing(line1, line2, c);
        assert false;
      case None =>
  }

  /** Segments that share an endpoint never intersect: their meeting point sits at
      parameter 0 or 1 on each, which the strict test rejects. */
  lemma {:induction false} SharedEndpointNoIntersection(line1: LineSegment, line2: LineSegment)
    requires line1.0 == line2.0 || line1.0 == line2.1 || line1.1 == line2.0 || line1.1 == line2.1
    ensures Intersection(line1, line2) == None
  {
    if Denominator(line1, line2) != 0.0 {
      assert PointAt(line1, 0.0) == line1.0 && PointAt(line1, 1.0) == line1.1;
      assert PointAt(line2, 0.0) == line2.0 && PointAt(line2, 1.0) == line2.1;
      var s := if line1.0 == line2.0 || line1.0 == line2.1 then 0.0 else 1.0;
      var t := if (s == 0.0 && line1.0 == line2.0) || (s == 1.0 && line1.1 == line2.0) then 0.0 else 1.0;
      MeetingParamsUnique(line1, line2, s, t);
    }
  }

  /** Segments whose directions are parallel (the second a multiple `k` of the
      first, collinear and overlapping segments included) have a zero
      denominator, so they never intersect. */
  lemma {:induction false} ParallelGivesNone(line1: LineSegment, line2: LineSegment, k: real)
    requires line2.1.latitude - line2.0.latitude == k * (line1.1.latitude - line1.0.latitude)
    requires line2.1.longitude - line2.0.longitude == k * (line1.1.longitude - line1.0.longitude)
    ensures Denominator(line1, line2) == 0.0
    ensures Intersection(line1, line2) == None
  {
    var dLat1, dLon1 := line1.1.latitude - line1.0.latitude, line1.1.longitude - line1.0.longitude;
    assert Denominator(line1, line2) == k * dLat1 * dLon1 - k * dLon1 * dLat1;
    IntersectionIsStrictCrossing(line1, line2, line1.0);
  }

  /** Crossing diagonals of the square (0,0)-(2,2) meet at (1,1). */
  lemma CrossingDiagonalsExample()
    ensures Intersection((Coordinate(0.0, 0.0), Coordinate(2.0, 2.0)), (Coordinate(0.0, 2.0), Coordinate(2.0, 0.0)))
         == Some(Coordinate(1.0, 1.0))
  {
  }

  /** Segments (0,0)-(1,1) and (1,1)-(2,0) touch only at (1,1): no intersection. */
  lemma {:induction false} TouchingSegmentsExample()
    ensures Intersection((Coordinate(0.0, 0.0), Coordinate(1.0, 1.0)), (Coordinate(1.0, 1.0), Coordinate(2.0, 0.0))) == None
  {
    SharedEndpointNoIntersection((Coordinate(0.0, 0.0), Coordinate(1.0, 1.0)), (Coordinate(1.0, 1.0), Coordinate(2.0, 0.0)));
  }

  /** The overlapping collinear segments (0,0)-(0,2) and (0,1)-(0,3) are reported
      as not intersecting. */
  lemma CollinearOverlapExample()
    ensures Intersection((Coordinate(0.0, 0.0), Coordinate(0.0, 2.0)), (Coordinate(0.0, 1.0), Coordinate(0.0, 3.0))) == None
  {
  }
}
