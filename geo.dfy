/** The shapes the core passes around: shapely geometries (as far as the
    core distinguishes their kinds), the features read from the map layers,
    and the GeoJSON features whose `properties` dictionaries are updated in
    place. Polygon arithmetic itself is not modelled. */
module Geo {

  datatype Point = Point(x: real, y: real)

  /** A closed ring of planar coordinates. */
  type Ring = seq<Point>

  /** A polygon: an exterior ring and its holes. */
  datatype PolygonShape = PolygonShape(shell: Ring, holes: seq<Ring>)

  /** The shapely geometry kinds: a GeometryCollection may hold any kind,
      including lines and points (`Other`). */
  datatype Geometry =
    | Polygon(shape: PolygonShape)
    | MultiPolygon(parts: seq<PolygonShape>)
    | GeometryCollection(geoms: seq<Geometry>)
    | Other(kind: string)

  /** A polygon feature of a map layer; `coordinates[0]` is its exterior ring. */
  datatype LayerFeature = LayerFeature(exterior: Ring, interiors: seq<Ring>)

  /** `Polygon(feature["geometry"].coordinates[0])`: the exterior ring only,
      so any holes of the layer feature are dropped. */
  function PolygonOf(f: LayerFeature): (g: Geometry)
    ensures g.Polygon? && g.shape.shell == f.exterior && g.shape.holes == []
  {
    Polygon(PolygonShape(f.exterior, []))
  }

  /** A value in a GeoJSON `properties` dictionary. Formatted display strings
      (`f"{x:.2f} ha"`) are kept as their number and unit; rounding is not
      modelled. */
  datatype PropValue =
    | Text(s: string)
    | Whole(n: int)
    | Number(r: real)
    | Display(amount: real, unit: string)
    | Object(fields: map<string, PropValue>)

  /** A GeoJSON feature dictionary; its `properties` are updated in place. */
  class Feature {
    const geometry: Geometry
    var properties: map<string, PropValue>

    constructor (geometry: Geometry)
      ensures this.geometry == geometry && properties == map[]
    {
      this.geometry := geometry;
      properties := map[];
    }
  }

  /** `{"type": "FeatureCollection", "features": [...]}`: the feature objects are shared. */
  datatype FeatureCollection = FeatureCollection(features: seq<Feature>)
}
