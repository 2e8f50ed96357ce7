/** Reading one line of a table file into a row (src/row_parser.rs). */
module RowParser {
  import opened CustomErrors
  import opened Expressions
  import opened Rows
  import Csv

  /** `parse_row`: the line's comma-separated fields, paired with the columns
      by position; a line with a different number of fields is rejected. */
  function ParseRow(columns: seq<string>, line: string): (r: Result<Row>)
    ensures r.Ok? <==> |Csv.Split(line)| == |columns|
    ensures r.Err? ==> r.error == InvalidTable("Columns size missmatch")
    ensures r.Ok? ==> r.value.columns == columns
    ensures r.Ok? ==> r.value.values.Keys == set c | c in columns
  {
    var values := Csv.Split(line);
    if |values| != |columns| then Err(InvalidTable("Columns size missmatch"))
    else
      var row := NewRow(columns, Bind(columns, values));
      BindKeys(columns, values);
      assert forall c :: c in columns <==> exists i :: 0 <= i < |columns| && columns[i] == c;
      Ok(row)
  }

  /** With distinct column names, each column holds the field at its position. */
  lemma {:induction false} ParseRowFields(columns: seq<string>, line: string)
    requires Distinct(columns) && |Csv.Split(line)| == |columns|
    ensures Fields(ParseRow(columns, line).value) == Csv.Split(line)
  {
    var fields := Csv.Split(line);
    var row := ParseRow(columns, line).value;
    forall i | 0 <= i < |columns|
      ensures Fields(row)[i] == fields[i]
    {
      BindLookup(columns, fields, i);
    }
  }

  /** Whatever the column names, a column's field is the line's field at the
      last position carrying that name, as repeated `HashMap::insert` leaves
      it. */
  lemma {:induction false} ParseRowLastWins(columns: seq<string>, line: string, i: nat, j: nat)
    requires |Csv.Split(line)| == |columns| && i < |columns| && j < |columns|
    requires columns[j] == columns[i]
    requires forall k :: j < k < |columns| ==> columns[k] != columns[i]
    ensures Fields(ParseRow(columns, line).value)[i] == Csv.Split(line)[j]
  {
    BindLast(columns, Csv.Split(line), j);
  }

  /** Parsing a line and writing the row back reproduces the line, now
      newline-terminated, as long as the header names are distinct. */
  lemma {:induction false} ParseWriteRoundTrip(columns: seq<string>, line: string)
    requires Distinct(columns) && |Csv.Split(line)| == |columns|
    ensures |columns| > 0
    ensures RowLine(ParseRow(columns, line).value) == line + "\n"
  {
    ParseRowFields(columns, line);
    Csv.JoinSplit(line);
  }

  /** Writing a row whose fields contain no comma and parsing the line back
      under the same columns gives each column its field back. */
  lemma {:induction false} WriteParseRoundTrip(row: Row)
    requires |row.columns| > 0 && Distinct(row.columns)
    requires forall i :: 0 <= i < |row.columns| ==> Csv.NoComma(Fields(row)[i])
    ensures ParseRow(row.columns, Csv.Join(Fields(row))).Ok?
    ensures Fields(ParseRow(row.columns, Csv.Join(Fields(row))).value) == Fields(row)
  {
    Csv.SplitJoin(Fields(row));
    ParseRowFields(row.columns, Csv.Join(Fields(row)));
  }

  /** A line that is empty parses only under a single column. */
  lemma {:induction false} EmptyLine(columns: seq<string>)
    ensures ParseRow(columns, "").Ok? <==> |columns| == 1
  {
  }

  /** With duplicate header names the later field wins the shared key, so the
      row written back differs from the line read. */
  lemma {:induction false} DuplicateColumnsLoseFields()
    ensures ParseRow(["a", "a"], "1,2").Ok?
    ensures RowLine(ParseRow(["a", "a"], "1,2").value) == "2,2\n"
  {
    var fields := Csv.Split("1,2");
    assert fields == ["1", "2"] by {
      Csv.SplitNoComma("2");
      Csv.SplitFirst("1", "2");
      assert "1" + "," + "2" == "1,2";
    }
    var row := ParseRow(["a", "a"], "1,2").value;
    assert row.values == map["a" := "2"];
    assert Fields(row) == ["2", "2"];
  }

  /** An UPDATE of known columns writes each parsed line back verbatim. */
  lemma {:induction false} UpdateRewritesLineVerbatim(columns: seq<string>, line: string, updates: map<string, string>, condition: Expression)
    requires Distinct(columns) && |Csv.Split(line)| == |columns|
    requires forall c | c in updates.Keys :: c in columns
    ensures |columns| > 0
    ensures UpdateRow(ParseRow(columns, line).value, updates, condition) == Wrote(line + "\n")
  {
    ParseWriteRoundTrip(columns, line);
  }
}
