/**
 * The loaded spreadsheet as a table: named columns, one row label per
 * row (the DataFrame index) and the rows themselves, plus lookups of a
 * column by name.
 */
module Frame {
  import opened Results
  import opened Series

  type Row = seq<Cell>

  /** Header names, row labels and rows, in spreadsheet order. */
  datatype Table = Table(header: seq<string>, index: seq<int>, rows: seq<Row>)

  /** Every row has one label and one cell per column. */
  predicate WellFormed(t: Table) {
    && |t.index| == |t.rows|
    && forall i :: 0 <= i < |t.rows| ==> |t.rows[i]| == |t.header|
  }

  /** Labels 0, 1, ..., n - 1: the default index of a freshly read sheet. */
  function RangeIndex(n: nat): (ix: seq<int>)
    ensures |ix| == n && forall i :: 0 <= i < n ==> ix[i] == i
  {
    seq(n, i => i)
  }

  /** Position of the first column called `name`, if there is one. */
  function IndexOf(header: seq<string>, name: string): (r: Option<nat>)
    ensures r.None? <==> name !in header
    ensures r.Some? ==> r.value < |header| && header[r.value] == name
    ensures r.Some? ==> forall k :: 0 <= k < r.value ==> header[k] != name
  {
    if |header| == 0 then None
    else if header[0] == name then Some(0)
    else match IndexOf(header[1..], name)
      case None => None
      case Some(k) => Some(k + 1)
  }

  /** `row[name]`: the cell of one row under the column called `name`. */
  function CellIn(header: seq<string>, row: Row, name: string): Option<Cell> {
    match IndexOf(header, name)
    case Some(j) => if j < |row| then Some(row[j]) else None
    case None => None
  }

  /** The count under column `name` in one row, if that cell holds a count. */
  function CountIn(header: seq<string>, row: Row, name: string): Option<int> {
    match CellIn(header, row, name)
    case Some(Count(n)) => Some(n)
    case _ => None
  }

  /** Column `name` exists and holds a count in every row. */
  predicate NumericColumn(t: Table, name: string) {
    && name in t.header
    && forall i :: 0 <= i < |t.rows| ==> CountIn(t.header, t.rows[i], name).Some?
  }

  /** `df[name]`: the whole column, row by row, or a KeyError when no column has that name. */
  function Column(t: Table, name: string): (r: Result<seq<Cell>, Error>)
    requires WellFormed(t)
    ensures r.Failure? <==> name !in t.header
    ensures r.Failure? ==> r.error == MissingColumn(name)
    ensures r.Success? ==> |r.value| == |t.rows|
    ensures r.Success? ==> forall i :: 0 <= i < |t.rows| ==> CellIn(t.header, t.rows[i], name) == Some(r.value[i])
    ensures r.Success? ==> (AllCounts(r.value) <==> NumericColumn(t, name))
  {
    match IndexOf(t.header, name)
    case None => Failure(MissingColumn(name))
    case Some(j) => Success(seq(|t.rows|, i requires 0 <= i < |t.rows| => t.rows[i][j]))
  }
}
