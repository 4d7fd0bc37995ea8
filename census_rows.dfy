/** The census CSV files as the two census readers see them: a sequence of
    rows whose first line is a header, the column-4 observation sums, and
    the sorted list of distinct area codes (census/collate_dwelling_types.py
    and census/population.py share this code verbatim). */
module CensusRows {
  import opened Wrappers

  /** One data line of a census table. Column 0 is the MSOA code, column 2
      the category code and column 4 the observation (a count). */
  datatype Row = Row(
    area: string,        // column 0
    areaName: string,    // column 1
    categoryCode: int,   // column 2
    category: string,    // column 3
    observation: int     // column 4
  )

  /** Reading the header of an empty file raises StopIteration. */
  datatype CsvError = MissingHeader

  // ---------------------------------------------------------------------
  // Column-4 sums
  // ---------------------------------------------------------------------

  /** The observation a row adds for `code`: its column 4 when column 0 matches. */
  function Contribution(row: Row, code: string): int {
    if row.area == code then row.observation else 0
  }

  /** Sum of column 4 over the rows whose column 0 equals `code`, added in
      row order (the specification of the readers' accumulator loops). */
  function ObservationTotal(rows: seq<Row>, code: string): int
    decreases |rows|
  {
    if rows == [] then 0
    else ObservationTotal(rows[..|rows| - 1], code) + Contribution(rows[|rows| - 1], code)
  }

  /** The sum splits over a concatenation of row lists. */
  lemma {:induction false} ObservationTotalAppend(a: seq<Row>, b: seq<Row>, code: string)
    ensures ObservationTotal(a + b, code) == ObservationTotal(a, code) + ObservationTotal(b, code)
    decreases |b|
  {
    if b == [] {
      assert a + b == a;
    } else {
      var b' := b[..|b| - 1];
      assert (a + b)[..|a + b| - 1] == a + b';
      ObservationTotalAppend(a, b', code);
    }
  }

  /** Rows for other codes contribute nothing: the total over `rows` equals
      the total over only the matching rows. */
  function MatchingRows(rows: seq<Row>, code: string): (r: seq<Row>)
    ensures forall row :: row in r <==> row in rows && row.area == code
    decreases |rows|
  {
    if rows == [] then []
    else if rows[|rows| - 1].area == code then MatchingRows(rows[..|rows| - 1], code) + [rows[|rows| - 1]]
    else MatchingRows(rows[..|rows| - 1], code)
  }

  /** The total is the plain sum of column 4 over exactly the matching rows. */
  lemma {:induction false} ObservationTotalIsSumOfMatching(rows: seq<Row>, code: string)
    ensures ObservationTotal(rows, code) == SumObservations(MatchingRows(rows, code))
    decreases |rows|
  {
    if rows != [] {
      var init := rows[..|rows| - 1];
      ObservationTotalIsSumOfMatching(init, code);
      if rows[|rows| - 1].area == code {
        SumObservationsAppend(MatchingRows(init, code), [rows[|rows| - 1]]);
      }
    }
  }

  /** Plain sum of column 4 (no code filter). */
  function SumObservations(rows: seq<Row>): int
    decreases |rows|
  {
    if rows == [] then 0 else SumObservations(rows[..|rows| - 1]) + rows[|rows| - 1].observation
  }

  lemma {:induction false} SumObservationsAppend(a: seq<Row>, b: seq<Row>)
    ensures SumObservations(a + b) == SumObservations(a) + SumObservations(b)
    decreases |b|
  {
    if b == [] {
      assert a + b == a;
    } else {
      var b' := b[..|b| - 1];
      assert (a + b)[..|a + b| - 1] == a + b';
      SumObservationsAppend(a, b');
    }
  }

  /** Adding a row for a different code anywhere leaves the total unchanged. */
  lemma OtherCodeRowIrrelevant(before: seq<Row>, row: Row, after: seq<Row>, code: string)
    requires row.area != code
    ensures ObservationTotal(before + [row] + after, code) == ObservationTotal(before + after, code)
  {
    ObservationTotalAppend(before + [row], after, code);
    ObservationTotalAppend(before, [row], code);
    ObservationTotalAppend(before, after, code);
    assert ObservationTotal([row], code) == ObservationTotal([], code) + Contribution(row, code);
  }

  /** A code with no matching row totals 0. */
  lemma {:induction false} NoMatchTotalsZero(rows: seq<Row>, code: string)
    requires forall i :: 0 <= i < |rows| ==> rows[i].area != code
    ensures ObservationTotal(rows, code) == 0
    decreases |rows|
  {
    if rows != [] {
      NoMatchTotalsZero(rows[..|rows| - 1], code);
    }
  }

  /** Row order does not matter: any permutation of the rows has the same total. */
  lemma {:induction false} ObservationTotalPermutation(s: seq<Row>, t: seq<Row>, code: string)
    requires multiset(s) == multiset(t)
    ensures ObservationTotal(s, code) == ObservationTotal(t, code)
    decreases |s|
  {
    if s == [] {
      assert |t| == |multiset(t)| == 0;
    } else {
      var x := s[|s| - 1];
      var s' := s[..|s| - 1];
      assert s == s' + [x];
      assert x in multiset(t);
      var k :| 0 <= k < |t| && t[k] == x;
      var t' := t[..k] + t[k + 1..];
      assert t == t[..k] + [x] + t[k + 1..];
      assert multiset(t) == multiset(t[..k]) + multiset{x} + multiset(t[k + 1..]);
      assert multiset(s) == multiset(s') + multiset{x};
      assert multiset(t') == multiset(t[..k]) + multiset(t[k + 1..]);
      assert multiset(t') == multiset(t) - multiset{x};
      assert multiset(s') == multiset(s) - multiset{x};
      ObservationTotalPermutation(s', t', code);
      ObservationTotalAppend(t[..k] + [x], t[k + 1..], code);
      ObservationTotalAppend(t[..k], [x], code);
      ObservationTotalAppend(t[..k], t[k + 1..], code);
      assert ObservationTotal([x], code) == Contribution(x, code) by {
        assert [x][..0] == [];
      }
    }
  }

  // ---------------------------------------------------------------------
  // String order of Python's `sorted`: lexicographic by code point
  // ---------------------------------------------------------------------

  /** a < b in Python's string order. */
  predicate Precedes(a: string, b: string)
    decreases |a|
  {
    if |a| == 0 then |b| > 0
    else if |b| == 0 then false
    else a[0] < b[0] || (a[0] == b[0] && Precedes(a[1..], b[1..]))
  }

  lemma {:induction false} PrecedesIrreflexive(a: string)
    ensures !Precedes(a, a)
    decreases |a|
  {
    if |a| > 0 {
      PrecedesIrreflexive(a[1..]);
    }
  }

  lemma {:induction false} PrecedesTransitive(a: string, b: string, c: string)
    requires Precedes(a, b) && Precedes(b, c)
    ensures Precedes(a, c)
    decreases |a|
  {
    if |a| > 0 && |b| > 0 && |c| > 0 && a[0] == b[0] == c[0] {
      PrecedesTransitive(a[1..], b[1..], c[1..]);
    }
  }

  lemma {:induction false} PrecedesTotal(a: string, b: string)
    ensures a == b || Precedes(a, b) || Precedes(b, a)
    decreases |a|
  {
    if |a| > 0 && |b| > 0 && a[0] == b[0] {
      PrecedesTotal(a[1..], b[1..]);
      if a[1..] == b[1..] {
        assert a == [a[0]] + a[1..] && b == [b[0]] + b[1..];
      }
    }
  }

  /** Strictly ascending, hence duplicate-free. */
  predicate StrictlyAscending(s: seq<string>) {
    forall i, j :: 0 <= i < j < |s| ==> Precedes(s[i], s[j])
  }

  lemma AscendingIsDistinct(s: seq<string>)
    requires StrictlyAscending(s)
    ensures forall i, j :: 0 <= i < j < |s| ==> s[i] != s[j]
  {
    forall i, j | 0 <= i < j < |s| ensures s[i] != s[j] {
      PrecedesIrreflexive(s[i]);
    }
  }

  lemma PrecedesAsymmetric(a: string, b: string)
    ensures !(Precedes(a, b) && Precedes(b, a))
  {
    if Precedes(a, b) && Precedes(b, a) {
      PrecedesTransitive(a, b, a);
      PrecedesIrreflexive(a);
    }
  }

  /** In a strictly ascending list the head precedes every other element,
      so the tail holds exactly the elements other than the head. */
  lemma HeadIsLeast(s: seq<string>)
    requires StrictlyAscending(s) && s != []
    ensures forall c :: c in s && c != s[0] ==> Precedes(s[0], c)
    ensures forall c :: c in s[1..] <==> c in s && c != s[0]
  {
    forall c | c in s[1..] ensures c != s[0] {
      PrecedesIrreflexive(s[0]);
    }
    assert s == [s[0]] + s[1..];
  }

  /** Two strictly ascending lists with the same elements are the same list:
      the result of sorting a set is fully determined by the set. */
  lemma {:induction false} AscendingUnique(s: seq<string>, t: seq<string>)
    requires StrictlyAscending(s) && StrictlyAscending(t)
    requires forall c :: c in s <==> c in t
    ensures s == t
    decreases |s|
  {
    assert s != [] ==> s[0] in t;
    assert t != [] ==> t[0] in s;
    if s != [] {
      HeadIsLeast(s);
      HeadIsLeast(t);
      PrecedesAsymmetric(s[0], t[0]);
      assert s[0] == t[0];
      AscendingUnique(s[1..], t[1..]);
      assert s == [s[0]] + s[1..] && t == [t[0]] + t[1..];
    }
  }

  /** Places `x` into an ascending list (no-op when already present). */
  function Insert(s: seq<string>, x: string): (r: seq<string>)
    requires StrictlyAscending(s)
    ensures StrictlyAscending(r)
    ensures forall c :: c in r <==> c in s || c == x
    decreases |s|
  {
    if s == [] then [x]
    else if x == s[0] then s
    else if Precedes(x, s[0]) then
      assert StrictlyAscending([x] + s) by {
        forall j | 0 < j < |s| ensures Precedes(x, s[j]) {
          PrecedesTransitive(x, s[0], s[j]);
        }
      }
      [x] + s
    else
      PrecedesTotal(x, s[0]);
      var rest := Insert(s[1..], x);
      assert forall c :: c in rest ==> Precedes(s[0], c);
      [s[0]] + rest
  }

  /** The distinct column-0 values of the data rows. */
  function AreaCodes(data: seq<Row>): set<string> {
    set row | row in data :: row.area
  }

  /** Python's sorted(list(codes)): the ascending list of a finite set of codes. */
  method SortCodes(codes: set<string>) returns (sorted: seq<string>)
    ensures StrictlyAscending(sorted)
    ensures forall c :: c in sorted <==> c in codes
  {
    sorted := [];
    var remaining := codes;
    while remaining != {}
      invariant StrictlyAscending(sorted)
      invariant forall c :: c in codes <==> c in sorted || c in remaining
      decreases remaining
    {
      var c :| c in remaining;
      sorted := Insert(sorted, c);
      remaining := remaining - {c};
    }
  }

  /** get_all_msoas: skip the header, collect column 0 into a set, sort it. */
  method GetAllMsoas(lines: seq<Row>) returns (r: Result<seq<string>, CsvError>)
    ensures r.Failure? <==> |lines| == 0
    ensures r.Success? ==> StrictlyAscending(r.value)
    ensures r.Success? ==> forall c :: c in r.value <==> c in AreaCodes(lines[1..])
  {
    if |lines| == 0 {
      return Failure(MissingHeader);
    }
    var msoas: set<string> := {};
    var i := 1;
    while i < |lines|
      invariant 1 <= i <= |lines|
      invariant msoas == AreaCodes(lines[1..i])
    {
      assert lines[1..i + 1] == lines[1..i] + [lines[i]];
      msoas := msoas + {lines[i].area};
      i := i + 1;
    }
    assert lines[1..i] == lines[1..];
    var sorted := SortCodes(msoas);
    return Success(sorted);
  }
}
