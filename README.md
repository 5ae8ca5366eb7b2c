# Disjoint predicate of turf-swift, modelled in Dafny

This project models the `booleanDisjoint` predicate of turf-swift and the segment
intersection primitive next to it. Two features are disjoint when no simple geometry
of one shares a point with any simple geometry of the other.

- `GeoTypes.dfy` holds the values. A coordinate is a pair of reals (latitude, longitude).
  A simple geometry is a `Point`, a `LineString` or a `Polygon`. `Other` stands for any
  kind the dispatch does not recognise. A polygon's `Rings` are its outer ring and its holes.
- `Turf.dfy` holds `intersection(LineSegment, LineSegment)`. It is modelled as
  `Turf.Intersection`, with the denominator and the two parameters `a` and `b` as
  separate functions. The lemmas give its meaning: it returns the unique point strictly
  inside both segments, or None.
- `Disjoint.dfy` holds the engine. Pure code becomes functions: `CompareCoords`,
  `IsPointOnLineSegment` and the 3x3 dispatch `Disjoint`. The early-exit searches
  (`isPointOnLine`, the vertex loops of `isLineInPoly` and `isPolyInPoly`) and the
  all-pairs reduction `booleanDisjoint` become loop methods. Each method is proved equal
  to the predicate that `Disjoint` uses.
- `DisjointProperties.dfy` holds the properties. They cover the closed-segment meaning
  of the point-on-segment test and its tie-breaks, and the symmetry of the dispatch. They
  also cover the cases that force "not disjoint" and the vacuous truth of the reduction.

Three collaborators have no source in this model. They are passed in as values:

- `Polygon.contains` is `Collaborators.contains`.
- The feature count of `intersection(LineString, LineString)` is `Collaborators.lineIntersections`.
- `flattenEach` is the `flattenEach: F -> seq<Geometry>` parameter of `BooleanDisjoint`.

The symmetry lemmas assume `SymmetricIntersections`: whether two lines intersect does
not depend on their order. `SegmentCrossingCollaboratorSymmetric` shows that a
collaborator built from `Turf.Intersection` meets this assumption.

The Swift file is a close port of JavaScript and does not compile as written. The model
follows what it evidently means:

- `let bool` is reassigned inside closures (Disjoint.swift:23,29). It is modelled as an
  AND over all pairs that stops at the first false.
- In `isPointOnLine`, the `return true` sits inside a `forEach` closure and `i + 1` runs
  past the end (Disjoint.swift:88-98). It is modelled as "some `i` with `i + 1 < count`
  has the point on segment `(i, i + 1)`".
- `LineString(polygon.coordinates)` (Disjoint.swift:120,153-154) is modelled as the outer ring.

The model keeps the order in which `disjoint` passes two polygons to `isPolyInPoly`.
Their order is swapped (Disjoint.swift:76).

Two behaviours of the code are worth stating outright:

- With start == end, the bounds check of `isPointOnLineSegment` compares latitudes only, so every point at that latitude is accepted (`DegenerateSegmentIgnoresLongitude`).
- The LineString/LineString, LineString/Polygon and Polygon/Polygon cases call the line-level `intersection` (Disjoint.swift:104,120,152), not the segment primitive. Its source is not part of this model.

The dispatch `Disjoint` evaluates the predicates `PointOnLine`, `LineInPoly` and `PolyInPoly` directly. In the source it calls the search helpers. The loop methods `IsPointOnLine`, `IsLineInPoly` and `IsPolyInPoly` model those helpers, and each is proved equal to the predicate the dispatch uses in its place.

## Model

| member | source | states |
|---|---|---|
| Turf.IntersectionIsStrictCrossing | Sources/Turf/Turf.swift:15-39 | A zero denominator gives None (parallel and collinear segments have one, by `ParallelGivesNone`). Otherwise the result is Some(c) exactly when c lies strictly inside both segments, at parameters in the open interval (0, 1). |
| Turf.LinesMeetAtParams | Sources/Turf/Turf.swift:23-32 | For non-parallel lines, parameter `a` on line 1 and parameter `b` on line 2 name the same point. So the returned point is on both lines. |
| Turf.MeetingParamsUnique | Sources/Turf/Turf.swift:17-28 | For non-parallel lines, any pair of parameters that names a common point equals the computed (`a`, `b`). |
| Turf.IntersectionSymmetric | Sources/Turf/Turf.swift:17-38 | Swapping the two segments changes neither whether the result is nil nor the point returned. |
| Turf.SharedEndpointNoIntersection | Sources/Turf/Turf.swift:25-38 | Segments that share an endpoint never intersect, because `a` or `b` is then 0 or 1. |
| Turf.CrossingDiagonalsExample | Sources/Turf/Turf.swift:31-38 | (0,0)-(2,2) against (0,2)-(2,0) gives (1,1). |
| Turf.TouchingSegmentsExample | Sources/Turf/Turf.swift:35-38 | (0,0)-(1,1) against (1,1)-(2,0) gives None. |
| Turf.ParallelGivesNone | Sources/Turf/Turf.swift:17-21 | Segments whose directions are parallel, collinear overlapping segments included, have a zero denominator and give None. |
| Turf.CollinearOverlapExample | Sources/Turf/Turf.swift:17-21 | The overlapping collinear segments (0,0)-(0,2) and (0,1)-(0,3) give None. |
| DisjointEngine.CompareCoords | Sources/Turf/Boolean/Disjoint.swift:198-200 | True exactly when the two coordinates are equal. |
| DisjointEngine.IsPointOnLine | Sources/Turf/Boolean/Disjoint.swift:87-101 | The early-exit search returns true exactly when some consecutive pair of coordinates holds the point on its segment. |
| DisjointEngine.FindContainedVertex | Sources/Turf/Boolean/Disjoint.swift:114-118 | The early-exit search returns true exactly when some coordinate is contained in the polygon. |
| DisjointEngine.IsLineInPoly | Sources/Turf/Boolean/Disjoint.swift:113-127 | True exactly when a line vertex is contained in the polygon or the line meets the outer ring. |
| DisjointEngine.IsPolyInPoly | Sources/Turf/Boolean/Disjoint.swift:139-162 | True exactly when an outer-ring vertex of either polygon is contained in the other, or the outer rings meet. |
| DisjointEngine.BooleanDisjoint | Sources/Turf/Boolean/Disjoint.swift:22-33 | The nested search with early exit returns true exactly when every pair of flattened geometries is disjoint. |
| DisjointProperties.CompareCoordsReflexiveSymmetric | Sources/Turf/Boolean/Disjoint.swift:198-200 | Coordinate comparison is reflexive and symmetric. |
| DisjointProperties.PointPointDisjoint | Sources/Turf/Boolean/Disjoint.swift:47-48 | Two points are disjoint exactly when their coordinates differ. |
| DisjointProperties.NonCollinearRejected | Sources/Turf/Boolean/Disjoint.swift:165-173 | A non-zero cross product gives false. |
| DisjointProperties.PointAtParamIsOnSegment | Sources/Turf/Boolean/Disjoint.swift:164-188 | Every point of the closed segment is accepted, endpoints included, degenerate segments included. |
| DisjointProperties.OnSegmentIsPointAtParam | Sources/Turf/Boolean/Disjoint.swift:164-188 | On a non-degenerate segment, every accepted point is the point at some parameter in [0, 1]. |
| DisjointProperties.OnSegmentIffClosedSegment | Sources/Turf/Boolean/Disjoint.swift:164-188 | On a non-degenerate segment, the test accepts exactly the points of the closed segment. |
| DisjointProperties.EndpointsOnSegment | Sources/Turf/Boolean/Disjoint.swift:175-187 | Both endpoints are on the segment. |
| DisjointProperties.OnSegmentSwapInvariant | Sources/Turf/Boolean/Disjoint.swift:164-188 | Exchanging the start and end does not change the result. |
| DisjointProperties.DegenerateSegmentIgnoresLongitude | Sources/Turf/Boolean/Disjoint.swift:165-180 | With start == end, a point is accepted exactly when its latitude equals the start's. Longitude is ignored. |
| DisjointProperties.OnSegmentExamples | Sources/Turf/Boolean/Disjoint.swift:175-181 | On (0,0)-(2,0), (3,0) is rejected and (1,0) is accepted. |
| DisjointProperties.VertexOnOwnLine | Sources/Turf/Boolean/Disjoint.swift:87-101 | Every vertex of a line with at least two coordinates is on the line. So a point on a vertex is not disjoint from the line, in either order. |
| DisjointProperties.PointLineDocExample | Sources/Turf/Boolean/Disjoint.swift:16-20 | The documented line and point, read as [longitude, latitude], are disjoint: as simple geometries, and as single-geometry features under the all-pairs reduction. |
| DisjointProperties.OtherNeverDisjoint | Sources/Turf/Boolean/Disjoint.swift:43-84 | An unrecognised geometry kind on either side gives false. |
| DisjointProperties.DisjointSymmetric | Sources/Turf/Boolean/Disjoint.swift:43-84 | The dispatch gives the same answer for both argument orders, for every pair of kinds. This assumes a symmetric line intersection. |
| DisjointProperties.LineVertexContainedNotDisjoint | Sources/Turf/Boolean/Disjoint.swift:113-118 | A line vertex contained in the polygon makes the line and polygon not disjoint, in either order. |
| DisjointProperties.PolygonVertexContainedNotDisjoint | Sources/Turf/Boolean/Disjoint.swift:139-150 | An outer-ring vertex of one polygon contained in the other makes the two not disjoint, in either order. |
| DisjointProperties.EmptyFeatureDisjoint | Sources/Turf/Boolean/Disjoint.swift:22-33 | A side with no geometries is disjoint from everything. |
| DisjointProperties.AllPairsSymmetric | Sources/Turf/Boolean/Disjoint.swift:22-33 | The all-pairs reduction is symmetric in its two features when the line intersection is symmetric. |
| DisjointProperties.AllPairsByMembership | Sources/Turf/Boolean/Disjoint.swift:22-33 | The reduction depends only on which geometries occur on each side, not on their order. |
| DisjointProperties.SegmentCrossingCollaboratorSymmetric | Sources/Turf/Boolean/Disjoint.swift:103-111 | A line intersection that reports any strict segment crossing meets the symmetry assumption. |

## Left out

- `mid` and the constants `metersPerRadian` and `equatorialRadius` (Turf.swift:6-8, 44-48) are left out. They are spherical geodesy built on CoreLocation extensions, which are not part of this model.
- The commented-out `booleanIntersects` (Turf.swift:49-61) is left out because it is dead code.
- `Polygon.contains`, `intersection(LineString, LineString)` and `flattenEach` are not part of this model. They are opaque parameters, so no boundary behaviour of `contains` is assumed or proved. Facts that depend on `contains` take it as a hypothesis, as `LineVertexContainedNotDisjoint` and `PolygonVertexContainedNotDisjoint` do with `env.contains(rings, vertex)`.
- Floating-point rounding, NaN and infinities are left out. Coordinates are exact reals.
- Polygon holes are carried but never read, as in the source.
- A polygon with no rings at all, which traps at `coordinates[0]` in the source, cannot be represented, because `Rings` always has an outer ring.
- The Swift constructs that do not compile (the closure returns and the reassigned `let`) are not modelled as written. Only their evident intent is modelled.
- DisjointProperties.DisjointSymmetric: the LineString/LineString and Polygon/Polygon cases rely on `SymmetricIntersections`, because the line intersection's source is not part of this model.
- DisjointProperties.AllPairsSymmetric: relies on `SymmetricIntersections` for the same reason.
