/**
 * The data shape of `formatTableData` in the chat page: a query result
 * `{columns, rows}` laid out vertically, one record per row, each record a
 * list of `column -> shown value` pairs. The markup around it is not modelled.
 */
module TableFormat {
  import opened Wrappers

  /** A cell as received from the server: `null`/`undefined`, or a value
    * whose `toString()` is `text`. */
  datatype Cell = Nullish | Value(text: string)

  /** One result row: a JSON object from column name to cell. */
  type Row = map<string, Cell>

  /** The `tableData` payload; either field may be missing. */
  datatype TableData = TableData(columns: Option<seq<string>>, rows: Option<seq<Row>>)

  /** One `column | value` line of a record. */
  datatype Entry = Entry(column: string, shown: string)

  /** One rendered row, headed "Record <number>". */
  datatype Record = Record(number: nat, entries: seq<Entry>)

  /** What is shown in place of an absent or empty value. */
  const Placeholder: string := "-"

  /** `row[column]?.toString() || '-'`: the value's string form, or the
    * placeholder when the value is absent, null/undefined or shows as "". */
  function Display(row: Row, column: string): (r: string)
    ensures r != ""
    ensures column in row && row[column].Value? && row[column].text != "" ==> r == row[column].text
    ensures column !in row || row[column].Nullish? || row[column].text == "" ==> r == Placeholder
  {
    if column in row && row[column].Value? && row[column].text != "" then row[column].text else Placeholder
  }

  /** The entries of one record: one per column, in column order. */
  function FormatRecord(columns: seq<string>, row: Row): (r: seq<Entry>)
    ensures |r| == |columns|
    ensures forall k :: 0 <= k < |columns| ==> r[k] == Entry(columns[k], Display(row, columns[k]))
  {
    if columns == [] then [] else [Entry(columns[0], Display(row, columns[0]))] + FormatRecord(columns[1..], row)
  }

  /** The records for `rows`, numbered from `first + 1` in row order. */
  function FormatRows(columns: seq<string>, rows: seq<Row>, first: nat): (r: seq<Record>)
    ensures |r| == |rows|
    ensures forall i :: 0 <= i < |rows| ==> r[i] == Record(first + i + 1, FormatRecord(columns, rows[i]))
  {
    if rows == [] then [] else [Record(first + 1, FormatRecord(columns, rows[0]))] + FormatRows(columns, rows[1..], first + 1)
  }

  /** `formatTableData(tableData)`: nothing (`null`) when the table, its
    * columns or its rows are missing or there are no rows; otherwise one
    * record per row, numbered from 1, each with one entry per column. An
    * empty column list is present (an empty array is truthy) and yields
    * records without entries. */
  function FormatTableData(table: Option<TableData>): (r: Option<seq<Record>>)
    ensures r.None? <==> table.None? || table.value.columns.None? || table.value.rows.None? || table.value.rows.value == []
    ensures r.Some? ==> |r.value| == |table.value.rows.value| > 0
    ensures r.Some? ==> forall i :: 0 <= i < |r.value| ==>
      r.value[i].number == i + 1 && |r.value[i].entries| == |table.value.columns.value|
    ensures r.Some? ==> forall i, k :: 0 <= i < |r.value| && 0 <= k < |table.value.columns.value| ==>
      r.value[i].entries[k] == Entry(table.value.columns.value[k], Display(table.value.rows.value[i], table.value.columns.value[k]))
  {
    match table
    case None => None
    case Some(TableData(columns, rows)) =>
      if columns.None? || rows.None? || rows.value == [] then None
      else Some(FormatRows(columns.value, rows.value, 0))
  }

  /** A one-column `id` result with three rows lays out as three records,
    * each showing its `id`. */
  lemma ThreeUsersTable()
    ensures FormatTableData(Some(TableData(Some(["id"]),
      Some([map["id" := Value("1")], map["id" := Value("2")], map["id" := Value("3")]])))) ==
      Some([Record(1, [Entry("id", "1")]), Record(2, [Entry("id", "2")]), Record(3, [Entry("id", "3")])])
  {
    var rows: seq<Row> := [map["id" := Value("1")], map["id" := Value("2")], map["id" := Value("3")]];
    var r := FormatRows(["id"], rows, 0);
    assert r[0] == Record(1, [Entry("id", "1")]);
    assert r[1] == Record(2, [Entry("id", "2")]);
    assert r[2] == Record(3, [Entry("id", "3")]);
    assert r == [Record(1, [Entry("id", "1")]), Record(2, [Entry("id", "2")]), Record(3, [Entry("id", "3")])];
  }

  /** In a formatted table, an entry shows the placeholder exactly when its
    * value is absent from the row, null/undefined, shows as the empty string,
    * or is itself the text "-"; every other value shows as its string form. */
  lemma {:induction false} PlaceholderOnlyForMissing(table: TableData, i: nat, k: nat)
    requires table.columns.Some? && table.rows.Some?
    requires i < |table.rows.value| && k < |table.columns.value|
    ensures FormatTableData(Some(table)).Some?
    ensures var column := table.columns.value[k];
            var row := table.rows.value[i];
            var shown := FormatTableData(Some(table)).value[i].entries[k].shown;
            (shown == Placeholder <==> (column !in row || row[column].Nullish? || row[column].text in {"", Placeholder}))
  {
  }
}
