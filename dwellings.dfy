/** census/collate_dwelling_types.py: dwelling counts per MSOA from the
    "accommodation by type of dwelling" table. */
module Dwellings {
  import opened Wrappers
  import opened CensusRows

  /** Category codes (column 2) of detached and semi-detached houses. */
  const DetachedOrSemiLabels: seq<int> := [1, 2]

  datatype MsoaDwellings = MsoaDwellings(msoaCode: string, totalDwellings: int, detachedOrSemi: int)

  predicate IsDetachedOrSemi(row: Row) {
    row.categoryCode in DetachedOrSemiLabels
  }

  /** What a row adds to the detached-or-semi count of `code`. */
  function DetachedContribution(row: Row, code: string): int {
    if row.area == code && IsDetachedOrSemi(row) then row.observation else 0
  }

  /** Detached-or-semi accumulator over the data rows, in row order. */
  function DetachedTotal(rows: seq<Row>, code: string): int
    decreases |rows|
  {
    if rows == [] then 0
    else DetachedTotal(rows[..|rows| - 1], code) + DetachedContribution(rows[|rows| - 1], code)
  }

  /** The record get_msoa_dwellings builds from the data rows (header excluded). */
  function DwellingsFor(code: string, data: seq<Row>): MsoaDwellings {
    MsoaDwellings(code, ObservationTotal(data, code), DetachedTotal(data, code))
  }

  /** get_msoa_dwellings: skip the header, then add column 4 of every row for
      `code` to the total, and also to the detached count when its type code
      is 1 or 2. */
  method GetMsoaDwellings(code: string, lines: seq<Row>) returns (r: Result<MsoaDwellings, CsvError>)
    ensures r.Failure? <==> |lines| == 0
    ensures r.Success? ==> r.value == DwellingsFor(code, lines[1..])
  {
    if |lines| == 0 {
      return Failure(MissingHeader);
    }
    var totalDwellings := 0;
    var detachedOrSemi := 0;
    var i := 1;
    while i < |lines|
      invariant 1 <= i <= |lines|
      invariant totalDwellings == ObservationTotal(lines[1..i], code)
      invariant detachedOrSemi == DetachedTotal(lines[1..i], code)
    {
      var row := lines[i];
      assert lines[1..i + 1][..i - 1] == lines[1..i];
      if row.area == code {
        totalDwellings := totalDwellings + row.observation;
        if row.categoryCode in DetachedOrSemiLabels {
          detachedOrSemi := detachedOrSemi + row.observation;
        }
      }
      i := i + 1;
    }
    assert lines[1..i] == lines[1..];
    return Success(MsoaDwellings(code, totalDwellings, detachedOrSemi));
  }

  /** The rows whose type code is detached or semi-detached. */
  function DetachedOrSemiRows(rows: seq<Row>): (r: seq<Row>)
    ensures forall row :: row in r <==> row in rows && IsDetachedOrSemi(row)
    decreases |rows|
  {
    if rows == [] then []
    else if IsDetachedOrSemi(rows[|rows| - 1]) then DetachedOrSemiRows(rows[..|rows| - 1]) + [rows[|rows| - 1]]
    else DetachedOrSemiRows(rows[..|rows| - 1])
  }

  /** The detached count is the total for `code` restricted to rows of type 1 or 2. */
  lemma {:induction false} DetachedIsTotalOfDetachedRows(rows: seq<Row>, code: string)
    ensures DetachedTotal(rows, code) == ObservationTotal(DetachedOrSemiRows(rows), code)
    decreases |rows|
  {
    if rows != [] {
      var init := rows[..|rows| - 1];
      var last := rows[|rows| - 1];
      DetachedIsTotalOfDetachedRows(init, code);
      if IsDetachedOrSemi(last) {
        ObservationTotalAppend(DetachedOrSemiRows(init), [last], code);
        assert ObservationTotal([last], code) == Contribution(last, code) by {
          assert [last][..0] == [];
        }
      }
    }
  }

  /** With non-negative observations the detached count never exceeds the
      total: every detached addition is also a total addition. */
  lemma {:induction false} DetachedAtMostTotal(rows: seq<Row>, code: string)
    requires forall i :: 0 <= i < |rows| ==> rows[i].observation >= 0
    ensures 0 <= DetachedTotal(rows, code) <= ObservationTotal(rows, code)
    decreases |rows|
  {
    if rows != [] {
      DetachedAtMostTotal(rows[..|rows| - 1], code);
    }
  }

  /** A code with no data row gives a zero record that still carries the code. */
  lemma {:induction false} UnknownCodeGivesZeroRecord(code: string, data: seq<Row>)
    requires forall i :: 0 <= i < |data| ==> data[i].area != code
    ensures DwellingsFor(code, data) == MsoaDwellings(code, 0, 0)
    decreases |data|
  {
    if data != [] {
      UnknownCodeGivesZeroRecord(code, data[..|data| - 1]);
    }
  }

  /** brighton_msoa_dwellings: one record per distinct code, in sorted code order. */
  method BrightonMsoaDwellings(lines: seq<Row>) returns (r: Result<seq<MsoaDwellings>, CsvError>)
    ensures r.Failure? <==> |lines| == 0
    ensures r.Success? ==> forall i, j :: 0 <= i < j < |r.value| ==> Precedes(r.value[i].msoaCode, r.value[j].msoaCode)
    ensures r.Success? ==> forall c :: c in AreaCodes(lines[1..]) <==> exists i :: 0 <= i < |r.value| && r.value[i].msoaCode == c
    ensures r.Success? ==> forall i :: 0 <= i < |r.value| ==> r.value[i] == DwellingsFor(r.value[i].msoaCode, lines[1..])
  {
    var codes :- GetAllMsoas(lines);
    var records := seq(|codes|, i requires 0 <= i < |codes| => DwellingsFor(codes[i], lines[1..]));
    forall c | c in AreaCodes(lines[1..]) ensures exists i :: 0 <= i < |records| && records[i].msoaCode == c {
      var i :| 0 <= i < |codes| && codes[i] == c;
      assert records[i].msoaCode == c;
    }
    return Success(records);
  }
}
