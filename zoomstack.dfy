/** zoomstack/parse_zoomstack_data.py: the usable residential shape of an
    MSOA, its buildings and their area, and the conversion of shapes to
    GeoJSON features. The shapely operations are parameters:
    `area`, `within` and `difference` are the library's, `featuresIn(name)`
    is `layer.filter(bbox=...)` on the named Zoomstack layer, and
    `reproject` is rasterio's `transform_geom` to WGS84. */
module Zoomstack {
  import opened Geo

  // ---------------------------------------------------------------------
  // extract_multipolygon
  // ---------------------------------------------------------------------

  /** The polygons one member of a collection contributes. */
  function PartsOf(g: Geometry): seq<PolygonShape> {
    match g
    case Polygon(p) => [p]
    case MultiPolygon(ps) => ps
    case GeometryCollection(_) => []
    case Other(_) => []
  }

  /** The polygonal parts of a collection's members, in member order. */
  function PolygonalParts(geoms: seq<Geometry>): seq<PolygonShape>
    decreases |geoms|
  {
    if geoms == [] then []
    else PolygonalParts(geoms[..|geoms| - 1]) + PartsOf(geoms[|geoms| - 1])
  }

  /** Collecting the parts distributes over concatenation of members:
      each member's parts appear in place, in the original order. */
  lemma {:induction false} PolygonalPartsAppend(a: seq<Geometry>, b: seq<Geometry>)
    ensures PolygonalParts(a + b) == PolygonalParts(a) + PolygonalParts(b)
    decreases |b|
  {
    if b == [] {
      assert a + b == a;
    } else {
      assert (a + b)[..|a + b| - 1] == a + b[..|b| - 1];
      PolygonalPartsAppend(a, b[..|b| - 1]);
    }
  }

  /** A part is kept exactly when some member is that Polygon or is a
      MultiPolygon holding it; every other member is dropped. */
  lemma {:induction false} PolygonalPartsMembers(geoms: seq<Geometry>, p: PolygonShape)
    ensures p in PolygonalParts(geoms) <==>
      exists i :: 0 <= i < |geoms| && (geoms[i] == Polygon(p) || (geoms[i].MultiPolygon? && p in geoms[i].parts))
    decreases |geoms|
  {
    if geoms != [] {
      var init := geoms[..|geoms| - 1];
      PolygonalPartsMembers(init, p);
      if p in PolygonalParts(init) {
        var i :| 0 <= i < |init| && (init[i] == Polygon(p) || (init[i].MultiPolygon? && p in init[i].parts));
        assert geoms[i] == init[i];
      }
      if exists i :: 0 <= i < |geoms| && (geoms[i] == Polygon(p) || (geoms[i].MultiPolygon? && p in geoms[i].parts)) {
        var i :| 0 <= i < |geoms| && (geoms[i] == Polygon(p) || (geoms[i].MultiPolygon? && p in geoms[i].parts));
        if i < |init| {
          assert init[i] == geoms[i];
        }
      }
    }
  }

  /** The loop of extract_multipolygon: append each Polygon member, extend
      by each MultiPolygon member's parts, ignore the rest. */
  method CollectPolygons(geoms: seq<Geometry>) returns (polygons: seq<PolygonShape>)
    ensures polygons == PolygonalParts(geoms)
  {
    polygons := [];
    var i := 0;
    while i < |geoms|
      invariant 0 <= i <= |geoms|
      invariant polygons == PolygonalParts(geoms[..i])
    {
      assert geoms[..i + 1][..i] == geoms[..i];
      match geoms[i] {
        case Polygon(p) =>
          polygons := polygons + [p];
        case MultiPolygon(ps) =>
          polygons := polygons + ps;
        case GeometryCollection(_) =>
        case Other(_) =>
      }
      i := i + 1;
    }
    assert geoms[..i] == geoms;
  }

  /** extract_multipolygon: a GeometryCollection with polygonal parts
      becomes the MultiPolygon of those parts; anything else is returned
      unchanged. */
  function ExtractMultipolygon(g: Geometry): (r: Geometry)
    ensures r == g || (g.GeometryCollection? && PolygonalParts(g.geoms) != [] && r == MultiPolygon(PolygonalParts(g.geoms)))
    ensures !g.GeometryCollection? ==> r == g
    ensures r.GeometryCollection? ==> PolygonalParts(r.geoms) == []
  {
    match g
    case GeometryCollection(geoms) =>
      var polygons := PolygonalParts(geoms);
      if polygons != [] then MultiPolygon(polygons) else g
    case Polygon(_) => g
    case MultiPolygon(_) => g
    case Other(_) => g
  }

  /** Extracting twice is extracting once. */
  lemma ExtractMultipolygonIdempotent(g: Geometry)
    ensures ExtractMultipolygon(ExtractMultipolygon(g)) == ExtractMultipolygon(g)
  {
  }

  // ---------------------------------------------------------------------
  // total_area_for_buildings and buildings_for_msoa
  // ---------------------------------------------------------------------

  /** Sum of the areas of the buildings' exterior polygons, in list order. */
  function BuildingsArea(buildings: seq<LayerFeature>, area: Geometry -> real): real
    decreases |buildings|
  {
    if buildings == [] then 0.0
    else BuildingsArea(buildings[..|buildings| - 1], area) + area(PolygonOf(buildings[|buildings| - 1]))
  }

  /** total_area_for_buildings: the `+=` accumulator over the buildings. */
  method TotalAreaForBuildings(buildings: seq<LayerFeature>, area: Geometry -> real) returns (total: real)
    ensures total == BuildingsArea(buildings, area)
  {
    total := 0.0;
    var i := 0;
    while i < |buildings|
      invariant 0 <= i <= |buildings|
      invariant total == BuildingsArea(buildings[..i], area)
    {
      assert buildings[..i + 1][..i] == buildings[..i];
      total := total + area(PolygonOf(buildings[i]));
      i := i + 1;
    }
    assert buildings[..i] == buildings;
  }

  /** The area of a concatenation is the sum of the parts' areas; in
      particular appending one building adds exactly its area. */
  lemma {:induction false} BuildingsAreaAppend(a: seq<LayerFeature>, b: seq<LayerFeature>, area: Geometry -> real)
    ensures BuildingsArea(a + b, area) == BuildingsArea(a, area) + BuildingsArea(b, area)
    decreases |b|
  {
    if b == [] {
      assert a + b == a;
    } else {
      assert (a + b)[..|a + b| - 1] == a + b[..|b| - 1];
      BuildingsAreaAppend(a, b[..|b| - 1], area);
    }
  }

  /** Non-negative building areas give a non-negative total. */
  lemma {:induction false} BuildingsAreaNonNegative(buildings: seq<LayerFeature>, area: Geometry -> real)
    requires forall i :: 0 <= i < |buildings| ==> area(PolygonOf(buildings[i])) >= 0.0
    ensures BuildingsArea(buildings, area) >= 0.0
    decreases |buildings|
  {
    if buildings != [] {
      BuildingsAreaNonNegative(buildings[..|buildings| - 1], area);
    }
  }

  /** The candidates whose exterior polygon lies within `shape`, in input order. */
  function WithinFilter(candidates: seq<LayerFeature>, shape: Geometry, within: (Geometry, Geometry) -> bool): seq<LayerFeature>
    decreases |candidates|
  {
    if candidates == [] then []
    else
      var init := WithinFilter(candidates[..|candidates| - 1], shape, within);
      var last := candidates[|candidates| - 1];
      if within(PolygonOf(last), shape) then init + [last] else init
  }

  /** The filter keeps exactly the contained candidates... */
  lemma {:induction false} WithinFilterMembers(candidates: seq<LayerFeature>, shape: Geometry, within: (Geometry, Geometry) -> bool)
    ensures forall f :: f in WithinFilter(candidates, shape, within) <==> f in candidates && within(PolygonOf(f), shape)
    decreases |candidates|
  {
    if candidates != [] {
      var init := candidates[..|candidates| - 1];
      WithinFilterMembers(init, shape, within);
      assert candidates == init + [candidates[|candidates| - 1]];
    }
  }

  /** ...and keeps them in input order: filtering distributes over concatenation. */
  lemma {:induction false} WithinFilterAppend(a: seq<LayerFeature>, b: seq<LayerFeature>, shape: Geometry, within: (Geometry, Geometry) -> bool)
    ensures WithinFilter(a + b, shape, within) == WithinFilter(a, shape, within) + WithinFilter(b, shape, within)
    decreases |b|
  {
    if b == [] {
      assert a + b == a;
    } else {
      assert (a + b)[..|a + b| - 1] == a + b[..|b| - 1];
      WithinFilterAppend(a, b[..|b| - 1], shape, within);
    }
  }

  /** buildings_for_msoa: keep, in order, the candidate buildings (those the
      layer's bounding-box filter yields) whose polygon is within the MSOA
      shape; `count` tracks how many were kept. */
  method BuildingsForMsoa(msoaCoordinates: Ring, candidates: seq<LayerFeature>, within: (Geometry, Geometry) -> bool)
    returns (buildings: seq<LayerFeature>)
    ensures buildings == WithinFilter(candidates, Polygon(PolygonShape(msoaCoordinates, [])), within)
  {
    var count := 0;
    buildings := [];
    var msoaShape := Polygon(PolygonShape(msoaCoordinates, []));
    var i := 0;
    while i < |candidates|
      invariant 0 <= i <= |candidates|
      invariant buildings == WithinFilter(candidates[..i], msoaShape, within)
      invariant count == |buildings|
    {
      assert candidates[..i + 1][..i] == candidates[..i];
      var feature := candidates[i];
      if within(PolygonOf(feature), msoaShape) {
        count := count + 1;
        buildings := buildings + [feature];
      }
      i := i + 1;
    }
    assert candidates[..i] == candidates;
  }

  /** Adding a candidate never lowers the covered area when areas are
      non-negative: a contained building adds its area, any other adds nothing. */
  lemma CoverageMonotone(candidates: seq<LayerFeature>, extra: LayerFeature, shape: Geometry,
                         within: (Geometry, Geometry) -> bool, area: Geometry -> real)
    requires area(PolygonOf(extra)) >= 0.0
    ensures BuildingsArea(WithinFilter(candidates + [extra], shape, within), area) >= BuildingsArea(WithinFilter(candidates, shape, within), area)
    ensures within(PolygonOf(extra), shape) ==>
      BuildingsArea(WithinFilter(candidates + [extra], shape, within), area) == BuildingsArea(WithinFilter(candidates, shape, within), area) + area(PolygonOf(extra))
  {
    WithinFilterAppend(candidates, [extra], shape, within);
    var kept := WithinFilter(candidates, shape, within);
    if within(PolygonOf(extra), shape) {
      assert WithinFilter([extra], shape, within) == [extra] by {
        assert [extra][..0] == [];
      }
      BuildingsAreaAppend(kept, [extra], area);
      assert BuildingsArea([extra], area) == area(PolygonOf(extra)) by {
        assert [extra][..0] == [];
      }
    } else {
      assert WithinFilter([extra], shape, within) == [] by {
        assert [extra][..0] == [];
      }
      assert kept + [] == kept;
    }
  }

  /** building_area_for_msoa: buildings within the FULL boundary polygon (not
      the usable shape), then their total area. */
  method BuildingAreaForMsoa(boundary: Ring, candidates: seq<LayerFeature>,
                             within: (Geometry, Geometry) -> bool, area: Geometry -> real)
    returns (total: real)
    ensures total == BuildingsArea(WithinFilter(candidates, Polygon(PolygonShape(boundary, [])), within), area)
  {
    var buildings := BuildingsForMsoa(boundary, candidates, within);
    total := TotalAreaForBuildings(buildings, area);
  }

  // ---------------------------------------------------------------------
  // usable_shape_for_msoa
  // ---------------------------------------------------------------------

  /** The exclusion layers, in the order they are subtracted. */
  const ExclusionLayers: seq<string> := ["national_parks", "greenspace", "woodland"]

  /** The features of the named layers, layer after layer. */
  function LayerFeatures(names: seq<string>, featuresIn: string -> seq<LayerFeature>): seq<LayerFeature>
    decreases |names|
  {
    if names == [] then []
    else LayerFeatures(names[..|names| - 1], featuresIn) + featuresIn(names[|names| - 1])
  }

  /** Left fold of `difference`: each feature is subtracted from the shape
      left by the features before it. */
  function SubtractAll(shape: Geometry, features: seq<LayerFeature>, difference: (Geometry, Geometry) -> Geometry): Geometry
    decreases |features|
  {
    if features == [] then shape
    else difference(SubtractAll(shape, features[..|features| - 1], difference), PolygonOf(features[|features| - 1]))
  }

  /** Subtracting a concatenation is subtracting the second part from what the
      first part left: every layer works on the already reduced shape. */
  lemma {:induction false} SubtractAllAppend(shape: Geometry, a: seq<LayerFeature>, b: seq<LayerFeature>,
                                             difference: (Geometry, Geometry) -> Geometry)
    ensures SubtractAll(shape, a + b, difference) == SubtractAll(SubtractAll(shape, a, difference), b, difference)
    decreases |b|
  {
    if b == [] {
      assert a + b == a;
    } else {
      assert (a + b)[..|a + b| - 1] == a + b[..|b| - 1];
      SubtractAllAppend(shape, a, b[..|b| - 1], difference);
    }
  }

  /** usable_shape_for_msoa: start from the boundary polygon and, for each
      exclusion layer in order and each of its features, replace the shape by
      its difference with the feature's polygon. */
  method UsableShapeForMsoa(boundary: Ring, featuresIn: string -> seq<LayerFeature>,
                            difference: (Geometry, Geometry) -> Geometry)
    returns (polygon: Geometry)
    ensures polygon == SubtractAll(Polygon(PolygonShape(boundary, [])), LayerFeatures(ExclusionLayers, featuresIn), difference)
  {
    var start := Polygon(PolygonShape(boundary, []));
    polygon := start;
    var li := 0;
    while li < |ExclusionLayers|
      invariant 0 <= li <= |ExclusionLayers|
      invariant polygon == SubtractAll(start, LayerFeatures(ExclusionLayers[..li], featuresIn), difference)
    {
      var layer := featuresIn(ExclusionLayers[li]);
      ghost var done := LayerFeatures(ExclusionLayers[..li], featuresIn);
      var j := 0;
      assert done + layer[..j] == done;
      while j < |layer|
        invariant 0 <= j <= |layer|
        invariant polygon == SubtractAll(start, done + layer[..j], difference)
      {
        assert (done + layer[..j + 1])[..|done| + j] == done + layer[..j];
        polygon := difference(polygon, PolygonOf(layer[j]));
        j := j + 1;
      }
      assert ExclusionLayers[..li + 1][..li] == ExclusionLayers[..li];
      assert layer[..j] == layer;
      li := li + 1;
    }
    assert ExclusionLayers[..li] == ExclusionLayers;
  }

  /** With no exclusion features the boundary polygon comes back unchanged. */
  lemma NoExclusionsKeepBoundary(boundary: Ring, featuresIn: string -> seq<LayerFeature>,
                                 difference: (Geometry, Geometry) -> Geometry)
    requires forall name :: name in ExclusionLayers ==> featuresIn(name) == []
    ensures SubtractAll(Polygon(PolygonShape(boundary, [])), LayerFeatures(ExclusionLayers, featuresIn), difference)
         == Polygon(PolygonShape(boundary, []))
  {
    assert ExclusionLayers[..2][..1] == ExclusionLayers[..1];
    assert LayerFeatures(ExclusionLayers, featuresIn)
        == featuresIn("national_parks") + featuresIn("greenspace") + featuresIn("woodland") by {
      assert ExclusionLayers[..2] == ["national_parks", "greenspace"];
      assert ExclusionLayers[..2][..1] == ["national_parks"];
      assert ["national_parks"][..0] == [];
    }
  }

  /** The usable shape is the three layers subtracted one after the other. */
  lemma UsableShapeLayerByLayer(boundary: Ring, featuresIn: string -> seq<LayerFeature>,
                                difference: (Geometry, Geometry) -> Geometry)
    ensures SubtractAll(Polygon(PolygonShape(boundary, [])), LayerFeatures(ExclusionLayers, featuresIn), difference)
         == SubtractAll(SubtractAll(SubtractAll(Polygon(PolygonShape(boundary, [])),
              featuresIn("national_parks"), difference), featuresIn("greenspace"), difference), featuresIn("woodland"), difference)
  {
    var start := Polygon(PolygonShape(boundary, []));
    var np, gs, wd := featuresIn("national_parks"), featuresIn("greenspace"), featuresIn("woodland");
    assert LayerFeatures(ExclusionLayers, featuresIn) == np + gs + wd by {
      assert ExclusionLayers[..2] == ["national_parks", "greenspace"];
      assert ExclusionLayers[..2][..1] == ["national_parks"];
      assert ["national_parks"][..0] == [];
    }
    SubtractAllAppend(start, np + gs, wd, difference);
    SubtractAllAppend(start, np, gs, difference);
  }

  /** urban_area_for_msoa: the area of the usable shape. */
  method UrbanAreaForMsoa(boundary: Ring, featuresIn: string -> seq<LayerFeature>,
                          difference: (Geometry, Geometry) -> Geometry, area: Geometry -> real)
    returns (urbanArea: real)
    ensures urbanArea == area(SubtractAll(Polygon(PolygonShape(boundary, [])), LayerFeatures(ExclusionLayers, featuresIn), difference))
  {
    var shape := UsableShapeForMsoa(boundary, featuresIn, difference);
    urbanArea := area(shape);
  }

  // ---------------------------------------------------------------------
  // geometries_to_geojson
  // ---------------------------------------------------------------------

  /** geometries_to_geojson: one new feature per geometry, in order, holding
      the reprojected extracted geometry and empty properties. */
  method GeometriesToGeojson(geometries: seq<Geometry>, reproject: Geometry -> Geometry)
    returns (features: seq<Feature>)
    ensures |features| == |geometries|
    ensures forall i :: 0 <= i < |features| ==>
      fresh(features[i]) && features[i].geometry == reproject(ExtractMultipolygon(geometries[i])) && features[i].properties == map[]
    ensures forall i, j :: 0 <= i < j < |features| ==> features[i] != features[j]
  {
    var extracted := seq(|geometries|, i requires 0 <= i < |geometries| => ExtractMultipolygon(geometries[i]));
    features := [];
    var k := 0;
    while k < |extracted|
      invariant 0 <= k <= |extracted|
      invariant |features| == k
      invariant forall i :: 0 <= i < k ==>
        fresh(features[i]) && features[i].geometry == reproject(extracted[i]) && features[i].properties == map[]
      invariant forall i, j :: 0 <= i < j < k ==> features[i] != features[j]
    {
      var reprojectedGeom := reproject(extracted[k]);
      var feature := new Feature(reprojectedGeom);
      features := features + [feature];
      k := k + 1;
    }
  }
}
