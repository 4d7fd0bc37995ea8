/** census/population.py: population per MSOA from the "sex" table
    (two rows per area, one per sex). */
module Population {
  import opened Wrappers
  import opened CensusRows

  datatype MsoaPopulation = MsoaPopulation(msoaCode: string, totalPopulation: int)

  /** The record get_msoa_population builds from the data rows (header excluded). */
  function PopulationFor(code: string, data: seq<Row>): MsoaPopulation {
    MsoaPopulation(code, ObservationTotal(data, code))
  }

  /** get_msoa_population: skip the header, then add column 4 of every row
      whose column 0 is `code`. */
  method GetMsoaPopulation(code: string, lines: seq<Row>) returns (r: Result<MsoaPopulation, CsvError>)
    ensures r.Failure? <==> |lines| == 0
    ensures r.Success? ==> r.value == PopulationFor(code, lines[1..])
  {
    if |lines| == 0 {
      return Failure(MissingHeader);
    }
    var totalPopulation := 0;
    var i := 1;
    while i < |lines|
      invariant 1 <= i <= |lines|
      invariant totalPopulation == ObservationTotal(lines[1..i], code)
    {
      assert lines[1..i + 1][..i - 1] == lines[1..i];
      if lines[i].area == code {
        totalPopulation := totalPopulation + lines[i].observation;
      }
      i := i + 1;
    }
    assert lines[1..i] == lines[1..];
    return Success(MsoaPopulation(code, totalPopulation));
  }

  /** brighton_msoa_population: one record per distinct code, in sorted code order. */
  method BrightonMsoaPopulation(lines: seq<Row>) returns (r: Result<seq<MsoaPopulation>, CsvError>)
    ensures r.Failure? <==> |lines| == 0
    ensures r.Success? ==> forall i, j :: 0 <= i < j < |r.value| ==> Precedes(r.value[i].msoaCode, r.value[j].msoaCode)
    ensures r.Success? ==> forall c :: c in AreaCodes(lines[1..]) <==> exists i :: 0 <= i < |r.value| && r.value[i].msoaCode == c
    ensures r.Success? ==> forall i :: 0 <= i < |r.value| ==> r.value[i] == PopulationFor(r.value[i].msoaCode, lines[1..])
  {
    var codes :- GetAllMsoas(lines);
    var records := seq(|codes|, i requires 0 <= i < |codes| => PopulationFor(codes[i], lines[1..]));
    forall c | c in AreaCodes(lines[1..]) ensures exists i :: 0 <= i < |records| && records[i].msoaCode == c {
      var i :| 0 <= i < |codes| && codes[i] == c;
      assert records[i].msoaCode == c;
    }
    return Success(records);
  }
}
