# Densification map: a verified model of the density core

This project models, in Dafny, the core of a tool that estimates how many new
homes each statistical area (MSOA) of a city could take. The model covers four
parts:

- **Census readers** (`census/collate_dwelling_types.py`, `census/population.py`).
  They sum column 4 of a census CSV table over the rows of one area code. The
  header line is skipped. The dwelling reader also counts the detached and
  semi-detached houses, which are type codes 1 and 2. Each file also has a
  `get_all_msoas` function that returns the sorted distinct area codes. The two
  copies are identical, so the model defines it once, as
  `CensusRows.GetAllMsoas`. The citations point at the copy in
  `collate_dwelling_types.py`.
- **Geometry glue** (`zoomstack/parse_zoomstack_data.py`). This part covers
  five operations:
  - the usable shape: the boundary polygon with the national-park, greenspace
    and woodland features subtracted one at a time;
  - the buildings lying within the boundary;
  - the sum of those buildings' areas;
  - the flattening of a geometry collection to its polygonal parts;
  - the conversion of shapes to GeoJSON features.
  Shapely's `area`, `within` and `difference`, the layer's bounding-box filter
  and the reprojection are function parameters. The model proves the shape of
  each fold and filter, not any polygon geometry.
- **Density model** (`density.py`). It computes the target density with its
  dwelling-mix bands (above 0.4, below 0.1, otherwise) and the ×1.4 uplift for
  sparse coverage (below 0.2). It also computes the new-homes estimate, the
  derived display properties, the in-place merge of record fields and derived
  properties into the record's GeoJSON features, and the city-wide new-homes
  total.

Python floats are modelled as exact `real`s. A Python exception is a `Failure`
value of a `Result`:

- `StopIteration` on an empty CSV file becomes `MissingHeader`;
- `ZeroDivisionError` becomes `DivisionByZero`.

Modules: `Wrappers` (the `Result` type), `CensusRows`, `Dwellings`,
`Population`, `Geo` (geometry kinds, layer features, the mutable `Feature`
class), `Zoomstack` and `Density`.

Three consequences of the code are worth stating:

- Building coverage counts the buildings within the full boundary polygon,
  not the usable shape (`zoomstack/parse_zoomstack_data.py:326-331`; the TODO
  at lines 222-223 acknowledges this). So `CoverageFraction` may exceed 1, and
  the model never assumes otherwise.
- New homes always equal dwellings × (combined multiplier − 1). The combined
  multiplier is at least 1.1, so new homes are at least 0.1 × dwellings and
  never negative when the dwelling count is positive (`NewHomesFromMix`,
  `NewHomesBounds`).
- The band test is strict, so a detached fraction of 0.5 falls in the ×1.5
  band. A 1 m² area with 100 dwellings, 50 of them detached, fully built over,
  gets a target of 1,500,000 per hectare and 50 new homes (`WorkedExample`).

## Model

| member | source | states |
|---|---|---|
| CensusRows.ObservationTotalIsSumOfMatching | census/population.py:19-22 | the accumulated total is the sum of column 4 over exactly the rows whose column 0 equals the code |
| CensusRows.ObservationTotalAppend | census/collate_dwelling_types.py:27-29 | the per-code total over two concatenated row lists is the sum of their totals |
| CensusRows.OtherCodeRowIrrelevant | census/population.py:20-22 | inserting a row for a different code anywhere leaves the total unchanged |
| CensusRows.ObservationTotalPermutation | census/population.py:21-22 | any permutation of the rows has the same total, so row order does not matter |
| CensusRows.NoMatchTotalsZero | census/population.py:19-22 | a code with no matching row totals 0 |
| CensusRows.PrecedesIrreflexive | census/collate_dwelling_types.py:44 | no string sorts strictly before itself in Python's string order |
| CensusRows.PrecedesTransitive | census/collate_dwelling_types.py:44 | Python's string order is transitive |
| CensusRows.PrecedesTotal | census/collate_dwelling_types.py:44-45 | any two distinct strings are ordered one way or the other |
| CensusRows.AscendingIsDistinct | census/collate_dwelling_types.py:44-45 | a strictly ascending list has no duplicates |
| CensusRows.AscendingUnique | census/collate_dwelling_types.py:44 | two strictly ascending lists with the same elements are equal, so the sorted code list is determined by the set of codes |
| CensusRows.Insert | census/collate_dwelling_types.py:44 | inserting into an ascending list keeps it strictly ascending and adds exactly the new code |
| CensusRows.SortCodes | census/collate_dwelling_types.py:44-45 | `sorted(list(msoas))` is strictly ascending and holds exactly the set's codes |
| CensusRows.GetAllMsoas | census/collate_dwelling_types.py:36-45 | an empty file fails at the header; otherwise the result is strictly ascending and duplicate-free, and its elements are exactly the column-0 values of the data rows |
| Dwellings.GetMsoaDwellings | census/collate_dwelling_types.py:21-33 | an empty file fails at the header; otherwise the header is skipped, and the result carries the requested code, the per-code total and the detached count over the data rows |
| Dwellings.DetachedIsTotalOfDetachedRows | census/collate_dwelling_types.py:30-31 | the detached count is the per-code total restricted to the rows whose type code is 1 or 2 |
| Dwellings.DetachedAtMostTotal | census/collate_dwelling_types.py:29-31 | with non-negative observations, 0 ≤ detached_or_semi ≤ total_dwellings |
| Dwellings.UnknownCodeGivesZeroRecord | census/collate_dwelling_types.py:25-33 | a code with no data row yields the record (code, 0, 0) |
| Dwellings.BrightonMsoaDwellings | census/collate_dwelling_types.py:48-51 | one record per distinct code, in strictly ascending code order, each equal to the dwelling record for its code |
| Population.GetMsoaPopulation | census/population.py:15-24 | an empty file fails at the header; otherwise the header is skipped and the record carries the requested code and its column-4 total |
| Population.BrightonMsoaPopulation | census/population.py:39-42 | one record per distinct code, in strictly ascending code order, each equal to the population record for its code |
| Geo.Feature.constructor | zoomstack/parse_zoomstack_data.py:292-294 | a new feature holds the given geometry and empty properties |
| Zoomstack.CollectPolygons | zoomstack/parse_zoomstack_data.py:263-268 | the append/extend loop yields exactly the members' polygonal parts, in order |
| Zoomstack.PolygonalPartsAppend | zoomstack/parse_zoomstack_data.py:264-268 | the parts of concatenated member lists are the concatenated parts, so the original order is kept |
| Zoomstack.PolygonalPartsMembers | zoomstack/parse_zoomstack_data.py:265-268 | a polygon is kept iff some member is that Polygon or a MultiPolygon containing it; all other members are dropped |
| Zoomstack.ExtractMultipolygon | zoomstack/parse_zoomstack_data.py:256-276 | a collection with polygonal parts becomes their MultiPolygon; any other input, including a collection without polygonal parts, is returned unchanged; the result is never a collection with polygonal parts |
| Zoomstack.ExtractMultipolygonIdempotent | zoomstack/parse_zoomstack_data.py:269-276 | extracting twice equals extracting once |
| Zoomstack.TotalAreaForBuildings | zoomstack/parse_zoomstack_data.py:224-231 | the `+=` loop returns the sum of the buildings' polygon areas |
| Zoomstack.BuildingsAreaAppend | zoomstack/parse_zoomstack_data.py:225-229 | the area of concatenated building lists is the sum of their areas; appending one building adds exactly its area |
| Zoomstack.BuildingsAreaNonNegative | zoomstack/parse_zoomstack_data.py:224-231 | non-negative building areas give a non-negative total |
| Zoomstack.BuildingsForMsoa | zoomstack/parse_zoomstack_data.py:81-100 | the result is the candidates whose polygon is within the boundary shape, in input order; `count` equals the result length |
| Zoomstack.WithinFilterMembers | zoomstack/parse_zoomstack_data.py:96-98 | a feature is kept iff it is a candidate and its polygon is within the shape |
| Zoomstack.WithinFilterAppend | zoomstack/parse_zoomstack_data.py:93-98 | filtering concatenated candidate lists gives the concatenated results, so input order is kept |
| Zoomstack.CoverageMonotone | zoomstack/parse_zoomstack_data.py:93-99 | with non-negative areas, adding a candidate never lowers the covered area, and a contained one adds exactly its area |
| Zoomstack.BuildingAreaForMsoa | zoomstack/parse_zoomstack_data.py:326-331 | coverage is the area of the buildings within the full boundary polygon, not the usable shape |
| Zoomstack.UsableShapeForMsoa | zoomstack/parse_zoomstack_data.py:234-247 | the nested loops compute the left fold of `difference` over the features of national_parks, greenspace and woodland, in that order, starting from the boundary polygon |
| Zoomstack.SubtractAllAppend | zoomstack/parse_zoomstack_data.py:239-245 | subtracting a concatenation subtracts the second part from what the first part left, so each layer acts on the already reduced shape |
| Zoomstack.UsableShapeLayerByLayer | zoomstack/parse_zoomstack_data.py:238-246 | the usable shape is national_parks, then greenspace, then woodland, each subtracted from the previous result |
| Zoomstack.NoExclusionsKeepBoundary | zoomstack/parse_zoomstack_data.py:236-247 | with no exclusion features the boundary polygon is returned unchanged |
| Zoomstack.UrbanAreaForMsoa | zoomstack/parse_zoomstack_data.py:317-323 | the urban area is the area of the usable shape |
| Zoomstack.GeometriesToGeojson | zoomstack/parse_zoomstack_data.py:279-295 | exactly one new, distinct feature per input geometry, in order, each holding the reprojected extracted geometry and empty properties |
| Density.DwellingMixMultiplier | density.py:39-44 | the band multiplier is exactly one of 1.5, 1.1 and 1.25: 1.5 iff fraction > 0.4, 1.1 iff fraction < 0.1, so 0.4 and 0.1 themselves get 1.25 |
| Density.SparseUplift | density.py:46-48 | the uplift is 1.4 iff coverage < 0.2, else 1, so exactly 0.2 gets none |
| Density.CombinedMultiplierValues | density.py:39-50 | the combined multiplier is one of 1.1, 1.25, 1.5, 1.54, 1.75 and 2.1 |
| Density.TargetDensity | density.py:32-50 | the target density fails with a division by zero iff the urban area or the dwelling count is 0 |
| Density.TargetDensityIsScaledExisting | density.py:33-50 | target = (dwellings / (urban area / 10000)) × band multiplier × sparse uplift |
| Density.TargetAtLeastExisting | density.py:33-50 | with positive dwellings and area, 1.1 × existing density ≤ target ≤ 2.1 × existing density |
| Density.NewHomes | density.py:78-80 | `target * area_in_hectares - total_dwellings` fails iff the urban area or the dwelling count is 0 |
| Density.NewHomesFromMix | density.py:60-80 | new homes = dwellings × (combined multiplier − 1), independent of the area's size |
| Density.NewHomesIndependentOfArea | density.py:60-80 | two records with the same dwellings and the same coverage band give the same new homes, whatever their areas |
| Density.NewHomesBounds | density.py:39-80 | with positive dwellings, 0.1 × dwellings ≤ new homes ≤ 1.1 × dwellings |
| Density.DerivedProperties | density.py:52-82 | fails iff the urban area or the dwelling count is 0; otherwise holds exactly the nine display keys |
| Density.DisplayedDensityIsExistingDensity | density.py:60-81 | every display value: the area in hectares (m² / 10000); building coverage and detached share as 100 × the fractions that choose the bands; population per hectare and per dwelling; the dwelling density is the existing density inside the target; the displayed target and new homes are the model's; "dwellings" is the dwelling count |
| Density.RecordProperties | density.py:85-87 | the record dictionary holds every field except `geojson` |
| Density.MergedPropertiesRecoverRecord | density.py:92-97 | after the two updates every derived value wins on its key, every record field is present, and the dwelling and population counts are recovered exactly |
| Density.ToGeojsonFeature | density.py:84-99 | every feature of the record's collection ends with its old properties, then the record fields, then the derived properties; if the derived properties raise, the record fields are already merged; on success the same collection is returned |
| Density.TotalNewHomes | density.py:193-199 | the city-wide sum fails iff some record has a zero urban area or dwelling count |
| Density.TotalNewHomesBounds | density.py:193-199 | with positive dwellings everywhere, 0.1 × Σ dwellings ≤ total new homes ≤ 1.1 × Σ dwellings |
| Density.WorkedExample | density.py:32-80 | a 1 m² area, fully built over, with 100 dwellings of which 50 are detached gets a target of 1,500,000 per hectare and 50 new homes |

## Left out

- `app.py`: the Flask route and the folium map are presentation only.
- Fetching boundaries over HTTP (`fetch_brighton_shape`), the JSON file caches (`fetch_brighton_shape_cached`) and the reprojection of the boundary to the British National Grid are I/O and foreign libraries. The boundary ring is a parameter.
- `get_msoa_bounding_box` and fiona's `layer.filter(bbox=...)`: the bounding-box prefilter is a library call. The candidate buildings and the per-layer exclusion features are given as already filtered (`candidates`, `featuresIn`).
- Shapely's `area`, `within` and `difference` and rasterio's `transform_geom` are function parameters with no properties assumed. Polygon clipping is not modelled, and no geometry validity error is raised.
- Layer features are assumed to be polygons. For a MultiPolygon layer feature, `coordinates[0]` would mean something else; that case is not modelled.
- `write_geojson_for_buildings`, `write_geojson_for_msoas` and `geojson_for_msoa` write files or only wrap a feature list in a dictionary.
- Census file opening, CSV parsing and `int(...)` conversion: rows come already parsed, and the model's `Row` holds its category code and observation as integers. The readers read column 0 of every data row, but convert columns 2 and 4 only for rows of the requested code (`census/collate_dwelling_types.py:28-31`, `census/population.py:21-22`). So a blank line, a row with too few columns for the requested code, or a non-numeric cell in such a row raises in the original. A non-numeric cell in another area's row raises nothing. The model's `Row` cannot represent these rows, so none of these cases is modelled.
- File paths: `brighton_msoa_population` reads another folder than the dwelling reader. The model takes the rows as a parameter.
- `get_msoa_name` (a first-match CSV lookup) and `density_data_for_msoa` (assembly of one record from the readers) are file I/O glue. `get_msoa_data` is modelled only as its new-homes sum over given records (`TotalNewHomes`).
- `print_density_data`, the pickle cache (`get_msoa_data_cached`), timing and `main` are output and caching only.
- Floating point: all arithmetic is exact over `real`. The `.2f`/`.0f` formatting is kept as a `Display(amount, unit)` value, without rounding.
