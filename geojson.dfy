/** The GeoJSON shapes (RFC 7946) that the KML conversion produces and the pipeline reads:
    a FeatureCollection (section 3.3) of Features (section 3.2) whose geometry is a
    LineString (section 3.1.4), a GeometryCollection (section 3.1.8) or another type. */
module GeoJson {
  import opened Common

  /** A position (section 3.1.1): longitude, latitude and possibly altitude. Positions are
      compared the way the source compares them, through `join()`, which for numbers is
      equality of the number lists. */
  type Position = seq<real>

  datatype Geometry =
    | LineString(coordinates: seq<Position>)
    | GeometryCollection(geometries: seq<Geometry>)
      /** Point, Polygon, Multi*: its `type` member and its coordinates flattened into
          one number list, which is what `coordinates.join()` compares. */
    | OtherGeometry(kind: string, flatCoordinates: seq<real>)

  datatype Feature = Feature(geometry: Geometry)

  datatype FeatureCollection = FeatureCollection(features: seq<Feature>)

  /** The `type` member of a geometry. */
  function TypeName(g: Geometry): string
  {
    match g
    case LineString(_) => "LineString"
    case GeometryCollection(_) => "GeometryCollection"
    case OtherGeometry(kind, _) => kind
  }

  /** All numbers of a coordinate list in order: what `coordinates.join()` spells out. */
  function Flatten(coords: seq<Position>): seq<real>
  {
    Concat(coords)
  }

  /** `geometry.coordinates.join()` as a number list; `None` for a GeometryCollection, which
      has no `coordinates` member, so that `join` throws. */
  function JoinedCoordinates(g: Geometry): Option<seq<real>>
  {
    match g
    case LineString(cs) => Some(Flatten(cs))
    case GeometryCollection(_) => None
    case OtherGeometry(_, flat) => Some(flat)
  }
}
