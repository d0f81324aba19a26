/**
 * The table arithmetic of the monuments script: normalising the column
 * names of the loaded sheet, keeping the voivodeships whose 2025 count
 * beats both 2016 and 2024, and the per-row growth between two years.
 */
module Monuments {
  import opened Results
  import opened Whitespace
  import opened Series
  import opened Frame

  const Voivodeship := "VOIVODESHIP"
  const Year2016 := "YEAR 2016"
  const Year2024 := "YEAR 2024"
  const Year2025 := "YEAR 2025"

  // ---------------------------------------------------------------------
  // Loading
  // ---------------------------------------------------------------------

  lemma StripEach(header: seq<string>)
    ensures forall j :: 0 <= j < |header| ==> StrippedFrom(header[j], Strip(header[j]))
  {
    forall j | 0 <= j < |header| ensures StrippedFrom(header[j], Strip(header[j])) {
      StripDecomposes(header[j]);
    }
  }

  /**
   * The sheet as read (header names and rows, labelled 0, 1, ...), with
   * every column name stripped of surrounding whitespace; cells untouched.
   */
  function LoadMonumentsData(header: seq<string>, rows: seq<Row>): (t: Table)
    requires forall i :: 0 <= i < |rows| ==> |rows[i]| == |header|
    ensures WellFormed(t)
    ensures |t.header| == |header|
    ensures forall j :: 0 <= j < |header| ==> NoSurroundingSpace(t.header[j])
    ensures forall j :: 0 <= j < |header| ==> StrippedFrom(header[j], t.header[j])
    ensures t.rows == rows && t.index == RangeIndex(|rows|)
  {
    StripEach(header);
    Table(seq(|header|, j requires 0 <= j < |header| => Strip(header[j])), RangeIndex(|rows|), rows)
  }

  /** Normalising names that are already normalised changes nothing. */
  lemma LoadIdempotent(header: seq<string>, rows: seq<Row>)
    requires forall i :: 0 <= i < |rows| ==> |rows[i]| == |header|
    ensures LoadMonumentsData(LoadMonumentsData(header, rows).header, rows) == LoadMonumentsData(header, rows)
  {
    var once := LoadMonumentsData(header, rows).header;
    var twice := LoadMonumentsData(once, rows).header;
    forall j | 0 <= j < |header| ensures twice[j] == once[j] {
      StripIdempotent(header[j]);
    }
  }

  // ---------------------------------------------------------------------
  // Voivodeships with an increase
  // ---------------------------------------------------------------------

  /** The 2025 count of the row is strictly above both its 2016 and its 2024 count. */
  predicate Increased(header: seq<string>, row: Row) {
    match (CountIn(header, row, Year2025), CountIn(header, row, Year2016), CountIn(header, row, Year2024))
    case (Some(y2025), Some(y2016), Some(y2024)) => y2025 > y2016 && y2025 > y2024
    case _ => false
  }

  /**
   * `(df["YEAR 2025"] > df["YEAR 2016"]) & (df["YEAR 2025"] > df["YEAR 2024"])`,
   * failing at the first lookup or comparison that Python would fail at.
   */
  function IncreaseMask(t: Table): (r: Result<seq<bool>, Error>)
    requires WellFormed(t)
    ensures r.Success? <==> NumericColumn(t, Year2025) && NumericColumn(t, Year2016) && NumericColumn(t, Year2024)
    ensures r.Success? ==> |r.value| == |t.rows|
    ensures r.Success? ==> forall i :: 0 <= i < |t.rows| ==> (r.value[i] <==> Increased(t.header, t.rows[i]))
    ensures Year2025 !in t.header ==> r == Failure(MissingColumn(Year2025))
    ensures Year2025 in t.header && Year2016 !in t.header ==> r == Failure(MissingColumn(Year2016))
    ensures Year2025 in t.header && Year2016 in t.header && !(NumericColumn(t, Year2025) && NumericColumn(t, Year2016))
      ==> r == Failure(NonNumeric)
    ensures NumericColumn(t, Year2025) && NumericColumn(t, Year2016) && Year2024 !in t.header
      ==> r == Failure(MissingColumn(Year2024))
    ensures NumericColumn(t, Year2025) && NumericColumn(t, Year2016) && Year2024 in t.header && !NumericColumn(t, Year2024)
      ==> r == Failure(NonNumeric)
  {
    var y2025 :- Column(t, Year2025);
    var y2016 :- Column(t, Year2016);
    var aboveStart :- Greater(y2025, y2016);
    var y2024 :- Column(t, Year2024);
    var aboveLast :- Greater(y2025, y2024);
    Success(And(aboveStart, aboveLast))
  }

  /** `df[mask]`: the rows with an increase, with their labels, all columns kept. */
  function VoivodeshipsWithIncrease(t: Table): (r: Result<Table, Error>)
    requires WellFormed(t)
    ensures r.Success? <==> NumericColumn(t, Year2025) && NumericColumn(t, Year2016) && NumericColumn(t, Year2024)
    ensures r.Failure? ==> IncreaseMask(t) == Failure(r.error)
    ensures r.Success? ==> WellFormed(r.value) && r.value.header == t.header
    ensures r.Success? ==> |r.value.rows| <= |t.rows|
  {
    var mask :- IncreaseMask(t);
    Success(Table(t.header, Select(t.index, mask), Select(t.rows, mask)))
  }

  /** The filtered table is the selection of the mask, labels and rows alike. */
  lemma FilterSelects(t: Table)
    requires WellFormed(t) && VoivodeshipsWithIncrease(t).Success?
    ensures IncreaseMask(t).Success?
    ensures VoivodeshipsWithIncrease(t).value
      == Table(t.header, Select(t.index, IncreaseMask(t).value), Select(t.rows, IncreaseMask(t).value))
  {
  }

  /** A row is kept if and only if it shows an increase; ties drop it. */
  lemma FilterMembership(t: Table, row: Row)
    requires WellFormed(t) && VoivodeshipsWithIncrease(t).Success?
    ensures row in VoivodeshipsWithIncrease(t).value.rows <==> row in t.rows && Increased(t.header, row)
  {
    FilterSelects(t);
    var mask := IncreaseMask(t).value;
    SelectMembership(t.rows, mask, row);
  }

  /**
   * `f` holds the rows of `t` at the increasing positions `p`, with their
   * labels, and `p` lists exactly the positions whose row shows an increase.
   */
  ghost predicate KeptInOrder(t: Table, f: Table, p: seq<nat>) {
    && |p| == |f.rows| == |f.index|
    && StrictlyIncreasing(p)
    && (forall k :: 0 <= k < |p| ==> p[k] < |t.rows| <= |t.index| && f.rows[k] == t.rows[p[k]] && f.index[k] == t.index[p[k]])
    && (forall i :: 0 <= i < |t.rows| ==> (i in p <==> Increased(t.header, t.rows[i])))
  }

  /** Selecting by a mask that marks exactly the increases keeps the rows in order. */
  lemma SelectionKeptInOrder(t: Table, mask: seq<bool>, f: Table)
    requires WellFormed(t) && |mask| == |t.rows|
    requires forall i :: 0 <= i < |t.rows| ==> (mask[i] <==> Increased(t.header, t.rows[i]))
    requires f == Table(t.header, Select(t.index, mask), Select(t.rows, mask))
    ensures KeptInOrder(t, f, KeptIndices(mask))
  {
    SelectionPositions(t, mask, f);
    PositionsAreIncreases(t, mask);
  }

  lemma PositionsAreIncreases(t: Table, mask: seq<bool>)
    requires |mask| == |t.rows|
    requires forall i :: 0 <= i < |t.rows| ==> (mask[i] <==> Increased(t.header, t.rows[i]))
    ensures forall i :: 0 <= i < |t.rows| ==> (i in KeptIndices(mask) <==> Increased(t.header, t.rows[i]))
  {
  }

  lemma SelectionPositions(t: Table, mask: seq<bool>, f: Table)
    requires WellFormed(t) && |mask| == |t.rows|
    requires f == Table(t.header, Select(t.index, mask), Select(t.rows, mask))
    ensures var p := KeptIndices(mask);
      && |p| == |f.rows| == |f.index|
      && StrictlyIncreasing(p)
      && (forall k :: 0 <= k < |p| ==> p[k] < |t.rows| <= |t.index| && f.rows[k] == t.rows[p[k]] && f.index[k] == t.index[p[k]])
  {
  }

  /** The filtered table, its mask and the positions it keeps. */
  lemma FilterKeptInOrder(t: Table)
    requires WellFormed(t) && VoivodeshipsWithIncrease(t).Success?
    ensures IncreaseMask(t).Success?
    ensures KeptInOrder(t, VoivodeshipsWithIncrease(t).value, KeptIndices(IncreaseMask(t).value))
  {
    FilterSelects(t);
    SelectionKeptInOrder(t, IncreaseMask(t).value, VoivodeshipsWithIncrease(t).value);
  }

  /**
   * The kept rows are the rows with an increase, each with its own label,
   * in their original relative order.
   */
  lemma FilterIsOrderedSubsequence(t: Table)
    requires WellFormed(t) && VoivodeshipsWithIncrease(t).Success?
    ensures exists p :: KeptInOrder(t, VoivodeshipsWithIncrease(t).value, p)
  {
    FilterKeptInOrder(t);
  }

  /** On a freshly loaded sheet the labels of the kept rows are their positions in the sheet. */
  lemma FilterLabelsArePositions(header: seq<string>, rows: seq<Row>)
    requires forall i :: 0 <= i < |rows| ==> |rows[i]| == |header|
    requires VoivodeshipsWithIncrease(LoadMonumentsData(header, rows)).Success?
    ensures var f := VoivodeshipsWithIncrease(LoadMonumentsData(header, rows)).value;
      forall k :: 0 <= k < |f.rows| ==> 0 <= f.index[k] < |rows| && f.rows[k] == rows[f.index[k]]
  {
    var t := LoadMonumentsData(header, rows);
    FilterKeptInOrder(t);
    KeptLabelsArePositions(t, VoivodeshipsWithIncrease(t).value, KeptIndices(IncreaseMask(t).value));
  }

  lemma KeptLabelsArePositions(t: Table, f: Table, p: seq<nat>)
    requires KeptInOrder(t, f, p) && t.index == RangeIndex(|t.rows|)
    ensures forall k :: 0 <= k < |f.rows| ==> 0 <= f.index[k] < |t.rows| && f.rows[k] == t.rows[f.index[k]]
  {
    forall k | 0 <= k < |f.rows| ensures 0 <= f.index[k] < |t.rows| && f.rows[k] == t.rows[f.index[k]] {
      assert f.index[k] == t.index[p[k]] == p[k];
    }
  }

  /** Filtering the filtered table gives it back unchanged. */
  lemma FilterIdempotent(t: Table)
    requires WellFormed(t) && VoivodeshipsWithIncrease(t).Success?
    ensures var f := VoivodeshipsWithIncrease(t).value;
      VoivodeshipsWithIncrease(f) == Success(f)
  {
    FilterKeptInOrder(t);
    var p := KeptIndices(IncreaseMask(t).value);
    var f := VoivodeshipsWithIncrease(t).value;
    assert KeptInOrder(t, f, p);
    assert WellFormed(f) && f.header == t.header;
    forall k | 0 <= k < |f.rows| ensures Increased(f.header, f.rows[k]) {
      assert f.rows[k] == t.rows[p[k]] && p[k] in p;
    }
    assert NumericColumn(f, Year2025) && NumericColumn(f, Year2016) && NumericColumn(f, Year2024);
    FilterSelects(f);
    var again := IncreaseMask(f).value;
    SelectAll(f.rows, again);
    SelectAll(f.index, again);
  }

  // ---------------------------------------------------------------------
  // Growth
  // ---------------------------------------------------------------------

  /**
   * `(df[yearEnd] - df[yearStart]).to_numpy()`: one difference per row of
   * the whole table, in row order.
   */
  function ComputeGrowthArray(t: Table, yearStart: string := Year2016, yearEnd: string := Year2025): (r: Result<seq<int>, Error>)
    requires WellFormed(t)
    ensures r.Success? <==> NumericColumn(t, yearStart) && NumericColumn(t, yearEnd)
    ensures r.Success? ==> |r.value| == |t.rows|
    ensures r.Success? ==> forall i :: 0 <= i < |t.rows| ==>
      r.value[i] == CountIn(t.header, t.rows[i], yearEnd).value - CountIn(t.header, t.rows[i], yearStart).value
    ensures yearEnd !in t.header ==> r == Failure(MissingColumn(yearEnd))
    ensures yearEnd in t.header && yearStart !in t.header ==> r == Failure(MissingColumn(yearStart))
    ensures yearEnd in t.header && yearStart in t.header && r.Failure? ==> r.error == NonNumeric
  {
    var finish :- Column(t, yearEnd);
    var start :- Column(t, yearStart);
    Difference(finish, start)
  }

  /** Exchanging the two years negates every entry. */
  lemma GrowthSwapNegates(t: Table, a: string, b: string)
    requires WellFormed(t)
    ensures ComputeGrowthArray(t, a, b).Success? <==> ComputeGrowthArray(t, b, a).Success?
    ensures ComputeGrowthArray(t, a, b).Success? ==>
      var forward, backward := ComputeGrowthArray(t, a, b).value, ComputeGrowthArray(t, b, a).value;
      |forward| == |backward| && forall i :: 0 <= i < |forward| ==> backward[i] == -forward[i]
  {
  }

  /** Growth from a year to itself is zero in every row. */
  lemma GrowthSameColumnIsZero(t: Table, year: string)
    requires WellFormed(t) && NumericColumn(t, year)
    ensures ComputeGrowthArray(t, year, year) == Success(seq(|t.rows|, i => 0))
  {
    var g := ComputeGrowthArray(t, year, year).value;
    assert g == seq(|t.rows|, i => 0);
  }

  // ---------------------------------------------------------------------
  // A worked sheet
  // ---------------------------------------------------------------------

  const SampleRows: seq<Row> := [
    [Text("A"), Count(10), Count(12), Count(15)],
    [Text("B"), Count(20), Count(25), Count(18)],
    [Text("C"), Count(5), Count(5), Count(5)]
  ]

  /** A space on each side of a column name is removed by loading. */
  lemma SpacesAroundNameStripped()
    ensures Strip(" YEAR 2016 ") == Year2016
    ensures LoadMonumentsData([" YEAR 2016 "], []).header == [Year2016]
  {
    assert AllSpace(" ") && " YEAR 2016 " == " " + Year2016 + " ";
    StripUnique(" YEAR 2016 ", Year2016);
    LoadedSingleName(" YEAR 2016 ");
  }

  /** A trailing tab after a column name is removed by loading. */
  lemma TabAfterNameStripped()
    ensures Strip("YEAR 2025\t") == Year2025
    ensures LoadMonumentsData(["YEAR 2025\t"], []).header == [Year2025]
  {
    var none: string := [];
    assert AllSpace("\t") && AllSpace(none) && "YEAR 2025\t" == none + Year2025 + "\t";
    StripUnique("YEAR 2025\t", Year2025);
    LoadedSingleName("YEAR 2025\t");
  }

  /** A sheet with one column and no rows loads with that column's stripped name. */
  lemma LoadedSingleName(raw: string)
    ensures LoadMonumentsData([raw], []).header == [Strip(raw)]
  {
    var t := LoadMonumentsData([raw], []);
    assert t.header[0] == Strip(raw);
  }

  lemma ColumnNamesDistinct()
    ensures Voivodeship != Year2016 && Voivodeship != Year2024 && Voivodeship != Year2025
    ensures Year2016 != Year2024 && Year2016 != Year2025 && Year2024 != Year2025
  {
  }

  /** In the sample header the three year columns sit at positions 1, 2 and 3. */
  lemma SampleColumnPositions(header: seq<string>)
    requires |header| == 4
    requires header[0] == Voivodeship && header[1] == Year2016 && header[2] == Year2024 && header[3] == Year2025
    ensures IndexOf(header, Year2016) == Some(1)
    ensures IndexOf(header, Year2024) == Some(2)
    ensures IndexOf(header, Year2025) == Some(3)
  {
    ColumnNamesDistinct();
    assert header[1..][0] == Year2016;
    assert header[1..][1..][0] == Year2024;
    assert header[1..][1..][1..][0] == Year2025;
  }

  /** Row `i` holds the given 2016, 2024 and 2025 counts. */
  ghost predicate RowCounts(t: Table, i: nat, y2016: int, y2024: int, y2025: int) {
    && i < |t.rows|
    && CountIn(t.header, t.rows[i], Year2016) == Some(y2016)
    && CountIn(t.header, t.rows[i], Year2024) == Some(y2024)
    && CountIn(t.header, t.rows[i], Year2025) == Some(y2025)
  }

  lemma SampleRowCounts(t: Table, i: nat, y2016: int, y2024: int, y2025: int)
    requires i < |t.rows| && |t.rows[i]| == 4
    requires IndexOf(t.header, Year2016) == Some(1)
    requires IndexOf(t.header, Year2024) == Some(2)
    requires IndexOf(t.header, Year2025) == Some(3)
    requires t.rows[i][1] == Count(y2016) && t.rows[i][2] == Count(y2024) && t.rows[i][3] == Count(y2025)
    ensures RowCounts(t, i, y2016, y2024, y2025)
  {
  }

  /** The cells of the sample sheet, one by one. */
  ghost predicate SampleLayout(t: Table) {
    && WellFormed(t) && |t.rows| == 3 && |t.header| == 4
    && t.header[0] == Voivodeship && t.header[1] == Year2016 && t.header[2] == Year2024 && t.header[3] == Year2025
    && t.rows[0][1] == Count(10) && t.rows[0][2] == Count(12) && t.rows[0][3] == Count(15)
    && t.rows[1][1] == Count(20) && t.rows[1][2] == Count(25) && t.rows[1][3] == Count(18)
    && t.rows[2][1] == Count(5) && t.rows[2][2] == Count(5) && t.rows[2][3] == Count(5)
  }

  lemma SampleIsLaidOut(t: Table)
    requires t == Table([Voivodeship, Year2016, Year2024, Year2025], RangeIndex(3), SampleRows)
    ensures SampleLayout(t)
  {
  }

  /** The year counts of the sample sheet, row by row. */
  lemma SampleCounts(t: Table)
    requires SampleLayout(t)
    ensures RowCounts(t, 0, 10, 12, 15) && RowCounts(t, 1, 20, 25, 18) && RowCounts(t, 2, 5, 5, 5)
  {
    SampleColumnPositions(t.header);
    SampleRowCounts(t, 0, 10, 12, 15);
    SampleRowCounts(t, 1, 20, 25, 18);
    SampleRowCounts(t, 2, 5, 5, 5);
  }

  lemma NumericOfThree(t: Table, name: string)
    requires |t.rows| == 3
    requires CountIn(t.header, t.rows[0], name).Some?
    requires CountIn(t.header, t.rows[1], name).Some?
    requires CountIn(t.header, t.rows[2], name).Some?
    ensures NumericColumn(t, name)
  {
    assert name in t.header;
    forall i | 0 <= i < |t.rows| ensures CountIn(t.header, t.rows[i], name).Some? {
      assert i == 0 || i == 1 || i == 2;
    }
  }

  /** The sample sheet's mask keeps the first row only. */
  lemma SampleMask(t: Table)
    requires WellFormed(t) && |t.rows| == 3
    requires RowCounts(t, 0, 10, 12, 15) && RowCounts(t, 1, 20, 25, 18) && RowCounts(t, 2, 5, 5, 5)
    ensures IncreaseMask(t) == Success([true, false, false])
  {
    assert Increased(t.header, t.rows[0]) && !Increased(t.header, t.rows[1]) && !Increased(t.header, t.rows[2]);
    NumericOfThree(t, Year2025);
    NumericOfThree(t, Year2016);
    NumericOfThree(t, Year2024);
    var mask := IncreaseMask(t).value;
    assert mask[0] && !mask[1] && !mask[2];
    assert mask == [true, false, false];
  }

  /** The sample sheet's growth from 2016 to 2025, one entry per region. */
  lemma SampleGrowth(t: Table)
    requires WellFormed(t) && |t.rows| == 3
    requires RowCounts(t, 0, 10, 12, 15) && RowCounts(t, 1, 20, 25, 18) && RowCounts(t, 2, 5, 5, 5)
    ensures ComputeGrowthArray(t) == Success([5, -2, 0])
  {
    NumericOfThree(t, Year2025);
    NumericOfThree(t, Year2016);
    var g := ComputeGrowthArray(t).value;
    assert g[0] == 5 && g[1] == -2 && g[2] == 0;
    assert g == [5, -2, 0];
  }

  /** A mask marking only the first of three positions keeps the first element alone. */
  lemma SelectFirstOfThree<T>(xs: seq<T>, mask: seq<bool>)
    requires |xs| == 3 && mask == [true, false, false]
    ensures Select(xs, mask) == [xs[0]]
  {
    assert mask[..2] == [true, false] && mask[..2][..1] == [true];
    assert xs[..2][..1] == [xs[0]];
    calc {
      Select(xs, mask);
      Select(xs[..2], mask[..2]);
      Select(xs[..2][..1], mask[..2][..1]);
      Select([], []) + [xs[0]];
    }
  }

  /**
   * Three regions: A rises above both earlier years, B falls below 2024,
   * C stays level. Only A is kept (a tie is not an increase), with its
   * label 0, and the growth 2016 to 2025 is reported for all three, in
   * sheet order.
   */
  lemma ThreeRegions(t: Table)
    requires t == Table([Voivodeship, Year2016, Year2024, Year2025], RangeIndex(3), SampleRows)
    ensures WellFormed(t)
    ensures VoivodeshipsWithIncrease(t) == Success(Table(t.header, [0], [t.rows[0]]))
    ensures ComputeGrowthArray(t) == Success([5, -2, 0])
  {
    SampleIsLaidOut(t);
    SampleCounts(t);
    SampleMask(t);
    SampleGrowth(t);
    FilterSelects(t);
    SelectFirstOfThree(t.rows, [true, false, false]);
    SelectFirstOfThree(t.index, [true, false, false]);
  }
}
