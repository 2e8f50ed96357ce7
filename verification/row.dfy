/** One table row and the ways it is written back to a table file
    (src/row.rs).  A file writer is modelled as the text written so far; the
    writer's own I/O errors are not modelled. */
module Rows {
  import opened CustomErrors
  import opened Expressions
  import Csv

  /** The table's column order and the row's entries by column name; a column
      may have no entry. */
  datatype Row = Row(columns: seq<string>, values: map<string, string>)

  /** `Row::new`: the columns are copied and the entries kept as given. */
  function NewRow(columns: seq<string>, values: map<string, string>): (row: Row)
    ensures row.columns == columns && row.values == values
  {
    Row(columns, values)
  }

  predicate Distinct(s: seq<string>) {
    forall i, j :: 0 <= i < j < |s| ==> s[i] != s[j]
  }

  /** The text written for one column: its entry, or nothing when the row has
      none. */
  function ValueOf(values: map<string, string>, column: string): string {
    if column in values then values[column] else ""
  }

  /** The written fields of a row, in column order. */
  function Fields(row: Row): (fields: seq<string>)
    ensures |fields| == |row.columns|
    ensures forall i :: 0 <= i < |fields| ==> fields[i] == ValueOf(row.values, row.columns[i])
  {
    seq(|row.columns|, i requires 0 <= i < |row.columns| => ValueOf(row.values, row.columns[i]))
  }

  /** The line a row occupies in a table file: the fields joined by commas and
      terminated by a newline. */
  function RowLine(row: Row): string
    requires |row.columns| > 0
  {
    Csv.Join(Fields(row)) + "\n"
  }

  /** `write_row`: appends the row to what the writer already holds, one
      column at a time, each value followed by a comma or, after the last
      column, by a newline. */
  method WriteRow(row: Row, writer: string) returns (written: string)
    requires |row.columns| > 0
    ensures written == writer + RowLine(row)
  {
    var fields := Fields(row);
    var lastIndex := |row.columns| - 1;
    var actualIndex := 0;
    written := writer;
    while actualIndex < |row.columns|
      invariant 0 <= actualIndex <= |row.columns|
      invariant actualIndex == 0 ==> written == writer
      invariant 0 < actualIndex < |row.columns| ==> written == writer + Csv.Join(fields[..actualIndex]) + ","
      invariant actualIndex == |row.columns| ==> written == writer + RowLine(row)
    {
      var value := ValueOf(row.values, row.columns[actualIndex]);
      if actualIndex > 0 {
        assert fields[..actualIndex + 1] == fields[..actualIndex] + [value];
        Csv.JoinSnoc(fields[..actualIndex], value);
      } else {
        assert fields[..1] == [value];
      }
      written := written + value;
      if actualIndex != lastIndex {
        written := written + ",";
      } else {
        assert fields[..actualIndex + 1] == fields;
        written := written + "\n";
      }
      actualIndex := actualIndex + 1;
    }
  }

  /** The entries an UPDATE assigns may only name columns of the table. */
  predicate UpdatesKnown(row: Row, updates: map<string, string>) {
    forall column | column in updates.Keys :: column in row.columns
  }

  /** What a row operation that writes leads to: the text written, an error,
      or the panic of `columns.len() - 1` underflowing for a row without
      columns (the behaviour of a debug build). */
  datatype Written = Wrote(text: string) | Refused(error: CustomError) | Underflow

  /** `update_row`: rejects an assignment to a column the table does not have;
      otherwise writes the row exactly as it was.  Neither the assignments nor
      the condition change what is written.  The check of the assignments
      comes first, so a row without columns underflows only when there is
      nothing to assign. */
  function UpdateRow(row: Row, updates: map<string, string>, condition: Expression): (r: Written)
    ensures r.Refused? <==> exists column :: column in updates && column !in row.columns
    ensures r.Refused? ==> r.error == InvalidColumn("Column does not exist")
    ensures r.Underflow? <==> row.columns == [] && updates == map[]
    ensures r.Wrote? ==> |row.columns| > 0 && r.text == RowLine(row)
  {
    if !UpdatesKnown(row, updates) then Refused(InvalidColumn("Column does not exist"))
    else if |row.columns| == 0 then Underflow
    else Wrote(RowLine(row))
  }

  /** `delete_row`: succeeds and writes nothing, whatever the row and the
      condition. */
  function DeleteRow(row: Row, condition: Expression): (r: Result<string>)
    ensures r.Ok? && r.value == ""
  {
    Ok("")
  }

  /** `select_row`: succeeds without output, whatever the row, the selected
      columns and the condition. */
  function SelectRow(row: Row, columns: seq<string>, condition: Expression): (r: Result<()>)
    ensures r.Ok?
  {
    Ok(())
  }

  /** The row operations of UPDATE, DELETE and SELECT never look at the
      condition: they behave the same even for a condition whose evaluation
      against the row would fail. */
  lemma {:induction false} ConditionIgnored(row: Row, updates: map<string, string>, c1: Expression, c2: Expression, columns: seq<string>)
    ensures UpdateRow(row, updates, c1) == UpdateRow(row, updates, c2)
    ensures DeleteRow(row, c1) == DeleteRow(row, c2)
    ensures SelectRow(row, columns, c1) == SelectRow(row, columns, c2)
  {
  }

  /** The map built by inserting `keys[i] := vals[i]` for each position in
      turn, so that a later position overwrites an earlier one with the same
      key. */
  function Bind(keys: seq<string>, vals: seq<string>): map<string, string>
    requires |vals| <= |keys|
    decreases |vals|
  {
    if vals == [] then map[]
    else Bind(keys, vals[..|vals| - 1])[keys[|vals| - 1] := vals[|vals| - 1]]
  }

  /** Exactly the keys at the bound positions get an entry. */
  lemma {:induction false} BindKeys(keys: seq<string>, vals: seq<string>)
    requires |vals| <= |keys|
    ensures Bind(keys, vals).Keys == set i | 0 <= i < |vals| :: keys[i]
    decreases |vals|
  {
    if vals != [] {
      var n := |vals| - 1;
      BindKeys(keys, vals[..n]);
      assert (set i | 0 <= i < |vals| :: keys[i]) == (set i | 0 <= i < n :: keys[i]) + {keys[n]};
    }
  }

  /** Whatever the keys, a key holds the value bound at its last position:
      a later binding of the same key overwrites an earlier one. */
  lemma {:induction false} BindLast(keys: seq<string>, vals: seq<string>, j: nat)
    requires |vals| <= |keys| && j < |vals|
    requires forall k :: j < k < |vals| ==> keys[k] != keys[j]
    ensures keys[j] in Bind(keys, vals) && Bind(keys, vals)[keys[j]] == vals[j]
    decreases |vals|
  {
    var n := |vals| - 1;
    if j < n {
      BindLast(keys, vals[..n], j);
      assert keys[n] != keys[j];
      assert vals[..n][j] == vals[j];
    }
  }

  /** With distinct keys every position's value survives. */
  lemma {:induction false} BindLookup(keys: seq<string>, vals: seq<string>, i: nat)
    requires |vals| <= |keys| && Distinct(keys) && i < |vals|
    ensures keys[i] in Bind(keys, vals) && Bind(keys, vals)[keys[i]] == vals[i]
    decreases |vals|
  {
    var n := |vals| - 1;
    if i < n {
      BindLookup(keys, vals[..n], i);
      assert keys[i] != keys[n];
      assert vals[..n][i] == vals[i];
    }
  }
}
