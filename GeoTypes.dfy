/** Value types shared by the segment primitive and the disjoint predicate engine. */
module GeoTypes {

  /** An optional value, as Swift's `T?`. */
  datatype Option<+T> = None | Some(value: T)

  /** A planar coordinate. The source stores 64-bit floats; here they are exact reals. */
  datatype Coordinate = Coordinate(latitude: real, longitude: real)

  /** An ordered pair of coordinates, as the source's `LineSegment` tuple. */
  type LineSegment = (Coordinate, Coordinate)

  /** A polygon's rings: the outer boundary and its holes. */
  datatype Rings = Rings(outer: seq<Coordinate>, holes: seq<seq<Coordinate>>)

  /** A simple geometry as produced by flattening a feature. `Other` stands for any
      geometry kind the disjoint dispatch does not recognise. */
  datatype Geometry =
    | Point(coord: Coordinate)
    | LineString(coords: seq<Coordinate>)
    | Polygon(rings: Rings)
    | Other
}
