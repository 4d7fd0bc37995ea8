/** density.py: the per-MSOA density record, its target density and new-homes
    estimate, the display properties derived from it, their merge into the
    record's GeoJSON features, and the city-wide new-homes total. Areas are
    square metres; floats are modelled as exact reals. */
module Density {
  import opened Wrappers
  import opened Geo
  import opened Dwellings

  /** MsoaDensityData: `geojson` is the FeatureCollection of the usable shape. */
  datatype MsoaDensityData = MsoaDensityData(
    msoaCode: string,
    msoaName: string,
    geojson: FeatureCollection,
    dwellingInfo: MsoaDwellings,
    urbanArea: real,
    buildingCoverageArea: real,
    population: int
  )

  /** Python's ZeroDivisionError. */
  datatype DensityError = DivisionByZero

  const SquareMetresPerHectare: real := 10000.0

  /** Both divisors of the model are non-zero. */
  predicate HasModel(d: MsoaDensityData) {
    d.urbanArea != 0.0 && d.dwellingInfo.totalDwellings != 0
  }

  // ---------------------------------------------------------------------
  // Reference definitions of the heuristic
  // ---------------------------------------------------------------------

  /** The dwelling-mix band: three exclusive bands with strict boundaries. */
  function DwellingMixMultiplier(detachedFraction: real): (m: real)
    ensures m == 1.5 || m == 1.1 || m == 1.25
    ensures m == 1.5 <==> detachedFraction > 0.4
    ensures m == 1.1 <==> detachedFraction < 0.1
  {
    if detachedFraction > 0.4 then 1.5
    else if detachedFraction < 0.1 then 1.1
    else 1.25
  }

  /** The sparse-footprint uplift, with a strict boundary at 0.2. */
  function SparseUplift(coverageFraction: real): (u: real)
    ensures u == 1.4 || u == 1.0
    ensures u == 1.4 <==> coverageFraction < 0.2
  {
    if coverageFraction < 0.2 then 1.4 else 1.0
  }

  /** Dwellings per hectare of usable area. */
  function ExistingDensity(d: MsoaDensityData): real
    requires d.urbanArea != 0.0
  {
    d.dwellingInfo.totalDwellings as real / (d.urbanArea / SquareMetresPerHectare)
  }

  function DetachedFraction(d: MsoaDensityData): real
    requires d.dwellingInfo.totalDwellings != 0
  {
    d.dwellingInfo.detachedOrSemi as real / d.dwellingInfo.totalDwellings as real
  }

  /** Building footprint over usable area; the footprint is measured against
      the full boundary, so this may exceed 1. */
  function CoverageFraction(d: MsoaDensityData): real
    requires d.urbanArea != 0.0
  {
    d.buildingCoverageArea / d.urbanArea
  }

  function CombinedMultiplier(d: MsoaDensityData): real
    requires HasModel(d)
  {
    DwellingMixMultiplier(DetachedFraction(d)) * SparseUplift(CoverageFraction(d))
  }

  /** The combined multiplier takes one of six values, from 1.1 to 2.1. */
  lemma CombinedMultiplierValues(d: MsoaDensityData)
    requires HasModel(d)
    ensures CombinedMultiplier(d) in {1.1, 1.25, 1.5, 1.54, 1.75, 2.1}
    ensures 1.1 <= CombinedMultiplier(d) <= 2.1
  {
    var m := DwellingMixMultiplier(DetachedFraction(d));
    var u := SparseUplift(CoverageFraction(d));
    assert m == 1.5 || m == 1.1 || m == 1.25;
    assert u == 1.4 || u == 1.0;
  }

  // ---------------------------------------------------------------------
  // MsoaDensityData.target_density and the new-homes estimate
  // ---------------------------------------------------------------------

  /** target_density, step by step as written: existing density, then the
      band by detached fraction, then the uplift when coverage is sparse.
      Either division by zero raises. */
  function TargetDensity(d: MsoaDensityData): (r: Result<real, DensityError>)
    ensures r.Success? <==> HasModel(d)
  {
    if d.urbanArea == 0.0 then Failure(DivisionByZero)
    else
      var existingDensity := d.dwellingInfo.totalDwellings as real / (d.urbanArea / 10000.0);
      if d.dwellingInfo.totalDwellings == 0 then Failure(DivisionByZero)
      else
        var detachedOrSemiPercent := d.dwellingInfo.detachedOrSemi as real / d.dwellingInfo.totalDwellings as real;
        var newDensity :=
          if detachedOrSemiPercent > 0.4 then existingDensity * 1.5
          else if detachedOrSemiPercent < 0.1 then existingDensity * 1.1
          else existingDensity * 1.25;
        var coveragePercent := d.buildingCoverageArea / d.urbanArea;
        Success(if coveragePercent < 0.2 then newDensity * 1.4 else newDensity)
  }

  /** The target is the existing density scaled by the band multiplier and
      the sparse uplift. */
  lemma TargetDensityIsScaledExisting(d: MsoaDensityData)
    requires HasModel(d)
    ensures TargetDensity(d).value == ExistingDensity(d) * CombinedMultiplier(d)
  {
    var e := ExistingDensity(d);
    var m := DwellingMixMultiplier(DetachedFraction(d));
    var u := SparseUplift(CoverageFraction(d));
    assert TargetDensity(d).value == e * m * u;
  }

  /** With positive dwellings and area the target lies between 1.1 and 2.1
      times the existing density. */
  lemma TargetAtLeastExisting(d: MsoaDensityData)
    requires d.dwellingInfo.totalDwellings > 0 && d.urbanArea > 0.0
    ensures 1.1 * ExistingDensity(d) <= TargetDensity(d).value <= 2.1 * ExistingDensity(d)
  {
    TargetDensityIsScaledExisting(d);
    CombinedMultiplierValues(d);
    var e := ExistingDensity(d);
    assert e > 0.0 by {
      var h := d.urbanArea / SquareMetresPerHectare;
      assert h > 0.0;
      assert e == d.dwellingInfo.totalDwellings as real / h;
    }
  }

  /** `target * area_in_hectares - total_dwellings` (density.py line 80, and
      each summand of the total in get_msoa_data). */
  function NewHomes(d: MsoaDensityData): (r: Result<real, DensityError>)
    ensures r.Success? <==> HasModel(d)
  {
    match TargetDensity(d)
    case Failure(e) => Failure(e)
    case Success(target) =>
      var areaInHectares := d.urbanArea / 10000.0;
      Success(target * areaInHectares - d.dwellingInfo.totalDwellings as real)
  }

  lemma DivideThenMultiply(t: real, h: real, m: real)
    requires h != 0.0
    ensures (t / h) * m * h == t * m
  {
    assert (t / h) * h == t;
    calc {
      (t / h) * m * h;
      ((t / h) * h) * m;
      t * m;
    }
  }

  /** New homes do not depend on the area: they are the dwellings times the
      combined multiplier minus one. */
  lemma NewHomesFromMix(d: MsoaDensityData)
    requires HasModel(d)
    ensures NewHomes(d).value == d.dwellingInfo.totalDwellings as real * (CombinedMultiplier(d) - 1.0)
  {
    TargetDensityIsScaledExisting(d);
    var t := d.dwellingInfo.totalDwellings as real;
    var h := d.urbanArea / SquareMetresPerHectare;
    assert h != 0.0;
    DivideThenMultiply(t, h, CombinedMultiplier(d));
  }

  /** Two records with the same dwellings and the same coverage band get the
      same new-homes estimate, whatever their areas. */
  lemma NewHomesIndependentOfArea(d1: MsoaDensityData, d2: MsoaDensityData)
    requires HasModel(d1) && HasModel(d2)
    requires d1.dwellingInfo == d2.dwellingInfo
    requires CoverageFraction(d1) < 0.2 <==> CoverageFraction(d2) < 0.2
    ensures NewHomes(d1) == NewHomes(d2)
  {
    NewHomesFromMix(d1);
    NewHomesFromMix(d2);
    assert SparseUplift(CoverageFraction(d1)) == SparseUplift(CoverageFraction(d2));
  }

  /** With positive dwellings the estimate lies between 0.1 and 1.1 times the
      dwellings; in particular it is never negative. */
  lemma NewHomesBounds(d: MsoaDensityData)
    requires d.dwellingInfo.totalDwellings > 0 && d.urbanArea != 0.0
    ensures 0.1 * d.dwellingInfo.totalDwellings as real <= NewHomes(d).value <= 1.1 * d.dwellingInfo.totalDwellings as real
  {
    NewHomesFromMix(d);
    CombinedMultiplierValues(d);
  }

  // ---------------------------------------------------------------------
  // derived_properties
  // ---------------------------------------------------------------------

  const DerivedKeys: set<string> := {
    "area", "building_coverage", "dwellings", "detached_or_semi_percent",
    "population_density", "occupation", "dwelling_density", "target_density", "new_homes"
  }

  /** derived_properties: the display values, one key at a time. Building
      coverage divides by the urban area and the detached percentage by the
      dwellings, so a zero in either raises before the dict is returned. */
  function DerivedProperties(d: MsoaDensityData): (r: Result<map<string, PropValue>, DensityError>)
    ensures r.Success? <==> HasModel(d)
    ensures r.Success? ==> r.value.Keys == DerivedKeys
  {
    if !HasModel(d) then Failure(DivisionByZero)
    else
      var areaInHectares := d.urbanArea / 10000.0;
      var total := d.dwellingInfo.totalDwellings;
      var target := TargetDensity(d).value;
      Success(map[
        "area" := Display(areaInHectares, "ha"),
        "building_coverage" := Display(d.buildingCoverageArea / d.urbanArea * 100.0, "%"),
        "dwellings" := Whole(total),
        "detached_or_semi_percent" := Display(d.dwellingInfo.detachedOrSemi as real / total as real * 100.0, "%"),
        "population_density" := Display(d.population as real / areaInHectares, "people / hectare"),
        "occupation" := Display(d.population as real / total as real, "people / dwelling"),
        "dwelling_density" := Display(total as real / areaInHectares, "dwellings / hectare"),
        "target_density" := Display(target, "dwellings / hectare"),
        "new_homes" := Display(target * areaInHectares - total as real, "new homes")
      ])
  }

  /** The displayed dwelling density is the existing density the target is
      scaled from, the displayed percentages are the fractions that choose
      the coverage and dwelling-mix bands, and the displayed target and new
      homes are the model's. */
  lemma DisplayedDensityIsExistingDensity(d: MsoaDensityData)
    requires HasModel(d)
    ensures DerivedProperties(d).value["area"] == Display(d.urbanArea / SquareMetresPerHectare, "ha")
    ensures DerivedProperties(d).value["building_coverage"] == Display(CoverageFraction(d) * 100.0, "%")
    ensures DerivedProperties(d).value["detached_or_semi_percent"] == Display(DetachedFraction(d) * 100.0, "%")
    ensures DerivedProperties(d).value["population_density"]
         == Display(d.population as real / (d.urbanArea / SquareMetresPerHectare), "people / hectare")
    ensures DerivedProperties(d).value["occupation"]
         == Display(d.population as real / d.dwellingInfo.totalDwellings as real, "people / dwelling")
    ensures DerivedProperties(d).value["dwelling_density"] == Display(ExistingDensity(d), "dwellings / hectare")
    ensures DerivedProperties(d).value["target_density"] == Display(ExistingDensity(d) * CombinedMultiplier(d), "dwellings / hectare")
    ensures DerivedProperties(d).value["new_homes"] == Display(NewHomes(d).value, "new homes")
    ensures DerivedProperties(d).value["dwellings"] == Whole(d.dwellingInfo.totalDwellings)
  {
    TargetDensityIsScaledExisting(d);
  }

  // ---------------------------------------------------------------------
  // to_geojson_feature
  // ---------------------------------------------------------------------

  /** asdict of a MsoaDwellings record. */
  function DwellingsDict(info: MsoaDwellings): map<string, PropValue> {
    map[
      "msoa_code" := Text(info.msoaCode),
      "total_dwellings" := Whole(info.totalDwellings),
      "detached_or_semi" := Whole(info.detachedOrSemi)
    ]
  }

  const RecordKeys: set<string> := {
    "msoa_code", "msoa_name", "dwelling_info", "urban_area", "building_coverage_area", "population"
  }

  /** `asdict(self)` with the `geojson` entry deleted: every other field. */
  function RecordProperties(d: MsoaDensityData): (p: map<string, PropValue>)
    ensures p.Keys == RecordKeys && "geojson" !in p
  {
    map[
      "msoa_code" := Text(d.msoaCode),
      "msoa_name" := Text(d.msoaName),
      "dwelling_info" := Object(DwellingsDict(d.dwellingInfo)),
      "urban_area" := Number(d.urbanArea),
      "building_coverage_area" := Number(d.buildingCoverageArea),
      "population" := Whole(d.population)
    ]
  }

  /** The properties a feature ends with: its own, then the record fields,
      then the derived values (later updates win on a shared key). */
  function MergedProperties(own: map<string, PropValue>, d: MsoaDensityData): map<string, PropValue>
    requires HasModel(d)
  {
    own + RecordProperties(d) + DerivedProperties(d).value
  }

  /** After the merge every derived value and every record field is present
      (no derived key collides with a record key), so the dwelling and
      population counts are recovered exactly from a feature. */
  lemma MergedPropertiesRecoverRecord(own: map<string, PropValue>, d: MsoaDensityData)
    requires HasModel(d)
    ensures MergedProperties(own, d).Keys == own.Keys + RecordKeys + DerivedKeys
    ensures forall k :: k in DerivedKeys ==> MergedProperties(own, d)[k] == DerivedProperties(d).value[k]
    ensures forall k :: k in RecordKeys ==> MergedProperties(own, d)[k] == RecordProperties(d)[k]
    ensures MergedProperties(own, d)["population"] == Whole(d.population)
    ensures MergedProperties(own, d)["dwelling_info"].Object?
    ensures MergedProperties(own, d)["dwelling_info"].fields["total_dwellings"] == Whole(d.dwellingInfo.totalDwellings)
    ensures MergedProperties(own, d)["dwelling_info"].fields["detached_or_semi"] == Whole(d.dwellingInfo.detachedOrSemi)
  {
    assert RecordKeys !! DerivedKeys;
  }

  /** to_geojson_feature: update every feature's properties with the record
      fields, then compute the derived properties and update every feature
      with them; the collection itself (same feature objects) is returned.
      When the derived properties raise, the first round of updates has
      already happened. Features listed twice are handled: updating a map
      twice with the same entries is updating it once. */
  method ToGeojsonFeature(d: MsoaDensityData) returns (r: Result<FeatureCollection, DensityError>)
    modifies d.geojson.features
    ensures r.Success? <==> HasModel(d)
    ensures r.Success? ==> r.value == d.geojson
    ensures forall f :: f in d.geojson.features ==>
      f.properties == if HasModel(d) then MergedProperties(old(f.properties), d)
                      else old(f.properties) + RecordProperties(d)
  {
    var properties := RecordProperties(d);
    var features := d.geojson.features;
    var i := 0;
    while i < |features|
      invariant 0 <= i <= |features|
      invariant forall f :: f in features ==>
        f.properties == if f in features[..i] then old(f.properties) + properties else old(f.properties)
    {
      assert features[..i + 1] == features[..i] + [features[i]];
      features[i].properties := features[i].properties + properties;
      i := i + 1;
    }
    assert features[..i] == features;
    var derived := DerivedProperties(d);
    if derived.Failure? {
      return Failure(derived.error);
    }
    var additionalProperties := derived.value;
    i := 0;
    while i < |features|
      invariant 0 <= i <= |features|
      invariant forall f :: f in features ==>
        f.properties == if f in features[..i] then old(f.properties) + properties + additionalProperties
                        else old(f.properties) + properties
    {
      assert features[..i + 1] == features[..i] + [features[i]];
      features[i].properties := features[i].properties + additionalProperties;
      i := i + 1;
    }
    assert features[..i] == features;
    return Success(d.geojson);
  }

  // ---------------------------------------------------------------------
  // get_msoa_data: total new homes over all records
  // ---------------------------------------------------------------------

  /** `sum(target * hectares - dwellings for d in out)`; one record without a
      model raises. */
  function TotalNewHomes(records: seq<MsoaDensityData>): (r: Result<real, DensityError>)
    ensures r.Success? <==> forall i :: 0 <= i < |records| ==> HasModel(records[i])
    decreases |records|
  {
    if records == [] then Success(0.0)
    else
      match TotalNewHomes(records[..|records| - 1])
      case Failure(e) => Failure(e)
      case Success(sum) =>
        match NewHomes(records[|records| - 1])
        case Failure(e) => Failure(e)
        case Success(n) => Success(sum + n)
  }

  function DwellingsSum(records: seq<MsoaDensityData>): int
    decreases |records|
  {
    if records == [] then 0
    else DwellingsSum(records[..|records| - 1]) + records[|records| - 1].dwellingInfo.totalDwellings
  }

  /** With positive dwellings everywhere the city-wide total lies between
      0.1 and 1.1 times all dwellings. */
  lemma {:induction false} TotalNewHomesBounds(records: seq<MsoaDensityData>)
    requires forall i :: 0 <= i < |records| ==> records[i].dwellingInfo.totalDwellings > 0 && records[i].urbanArea != 0.0
    ensures TotalNewHomes(records).Success?
    ensures 0.1 * DwellingsSum(records) as real <= TotalNewHomes(records).value <= 1.1 * DwellingsSum(records) as real
    decreases |records|
  {
    if records != [] {
      var init := records[..|records| - 1];
      TotalNewHomesBounds(init);
      NewHomesBounds(records[|records| - 1]);
    }
  }

  /** A unit-square area (1 m^2), fully built over, with 100 dwellings of
      which 50 detached or semi: the fraction 0.5 is above 0.4, so the band
      is 1.5 and there is no uplift. */
  lemma WorkedExample()
    ensures var d := MsoaDensityData("E02000001", "Example", FeatureCollection([]),
                                     MsoaDwellings("E02000001", 100, 50), 1.0, 1.0, 200);
      TargetDensity(d) == Success(1500000.0) && NewHomes(d) == Success(50.0)
  {
  }
}
