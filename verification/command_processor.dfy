/** Running one command against a directory of tables
    (src/command_processer.rs).  The directory is a map from table name to
    the text of its `<name>.csv` file; what a command leaves behind is the
    directory afterwards, an error, or a panic. */
module CommandProcessor {
  import opened CustomErrors
  import opened Tokenizer
  import opened Expressions
  import opened CommandParser
  import opened Rows
  import opened RowParser
  import opened TextLines
  import Csv

  /** Table name to file text. */
  type Directory = map<string, string>

  /** What running a command leads to. */
  datatype Outcome =
    | Completed(files: Directory)
    | Failed(error: CustomError)
    | Panicked

  /** `find_table_csv`: the table's file, if the directory holds one. */
  function FindTable(dir: Directory, table: string): (r: Result<string>)
    ensures r.Ok? <==> table in dir
    ensures r.Ok? ==> r.value == dir[table]
    ensures r.Err? ==> r.error == InvalidTable("File not found")
  {
    if table in dir then Ok(dir[table]) else Err(InvalidTable("File not found"))
  }

  //
  // Copying a table
  //

  /** Every line has as many fields as the first (the header). */
  predicate SameArity(lines: seq<string>) {
    forall i :: 0 <= i < |lines| ==> |Csv.Split(lines[i])| == |Csv.Split(lines[0])|
  }

  /** The header's column names; none for an empty file. */
  function Header(lines: seq<string>): (columns: seq<string>)
    ensures lines != [] ==> |columns| > 0
  {
    if lines == [] then [] else Csv.Split(lines[0])
  }

  /** The text written for one line: the line parsed into a row under the
      columns and written back.  A line of the wrong arity, or a table
      without columns, writes nothing here; `copy_table` never gets that
      far with one. */
  function CopiedLine(columns: seq<string>, line: string): string {
    var row := ParseRow(columns, line);
    if row.Ok? && |columns| > 0 then RowLine(row.value) else ""
  }

  /** The text written for the lines, one after another. */
  function CopiedText(columns: seq<string>, lines: seq<string>): string {
    if lines == [] then "" else CopiedLine(columns, lines[0]) + CopiedText(columns, lines[1..])
  }

  lemma {:induction false} CopiedTextSnoc(columns: seq<string>, lines: seq<string>, line: string)
    ensures CopiedText(columns, lines + [line]) == CopiedText(columns, lines) + CopiedLine(columns, line)
    decreases |lines|
  {
    if lines == [] {
      assert [] + [line] == [line];
    } else {
      assert (lines + [line])[1..] == lines[1..] + [line];
      CopiedTextSnoc(columns, lines[1..], line);
    }
  }

  /** The first `i` lines have the header's arity and `written` is what
      copying them writes. */
  predicate CopiedUpTo(lines: seq<string>, i: nat, written: string) {
    && 0 < i <= |lines|
    && (forall k :: 0 <= k < i ==> |Csv.Split(lines[k])| == |Header(lines)|)
    && written == CopiedText(Header(lines), lines[..i])
  }

  lemma {:induction false} CopyFirst(lines: seq<string>)
    requires lines != []
    ensures CopiedUpTo(lines, 1, CopiedLine(Header(lines), lines[0]))
  {
    assert lines[..1] == [lines[0]];
    assert CopiedText(Header(lines), [lines[0]]) == CopiedLine(Header(lines), lines[0]) + CopiedText(Header(lines), []);
  }

  lemma {:induction false} CopyStep(lines: seq<string>, i: nat, written: string)
    requires i < |lines| && CopiedUpTo(lines, i, written) && |Csv.Split(lines[i])| == |Header(lines)|
    ensures CopiedUpTo(lines, i + 1, written + CopiedLine(Header(lines), lines[i]))
  {
    var columns := Header(lines);
    assert lines[..i + 1] == lines[..i] + [lines[i]];
    CopiedTextSnoc(columns, lines[..i], lines[i]);
    assert written + CopiedLine(columns, lines[i]) == CopiedText(columns, lines[..i + 1]);
  }

  lemma {:induction false} CopyDone(lines: seq<string>, written: string)
    requires CopiedUpTo(lines, |lines|, written)
    ensures SameArity(lines) && written == CopiedText(Header(lines), lines)
  {
    assert lines[..|lines|] == lines;
  }

  /** A line whose arity differs from the header's. */
  lemma {:induction false} ArityBreak(lines: seq<string>, i: nat)
    requires i < |lines| && |Csv.Split(lines[i])| != |Header(lines)|
    ensures !SameArity(lines)
  {
  }

  /** One pass of the loop in `copy_table`: the line is parsed into a row
      under the header's columns and written after what is already there. */
  method CopyLine(lines: seq<string>, i: nat, columns: seq<string>, written: string) returns (r: Result<string>)
    requires i < |lines| && columns == Header(lines)
    requires i == 0 ==> written == ""
    requires i > 0 ==> CopiedUpTo(lines, i, written)
    ensures r.Err? <==> |Csv.Split(lines[i])| != |columns|
    ensures r.Err? ==> r.error == InvalidTable("Columns size missmatch") && !SameArity(lines)
    ensures r.Ok? ==> CopiedUpTo(lines, i + 1, r.value)
  {
    var row :- ParseRow(columns, lines[i]);
    if i == 0 {
      CopyFirst(lines);
    } else {
      CopyStep(lines, i, written);
    }
    var next := WriteRow(row, written);
    assert RowLine(row) == CopiedLine(columns, lines[i]);
    return Ok(next);
  }

  /** `copy_table`: the file is read line by line; the first line names the
      columns, and every line, the header included, is parsed into a row and
      written out.  A line whose field count differs from the header's stops
      the copy with an error.  The result is the columns and the text
      written. */
  method CopyTable(text: string) returns (r: Result<(seq<string>, string)>)
    ensures r.Ok? <==> SameArity(Lines(text))
    ensures r.Err? ==> r.error == InvalidTable("Columns size missmatch")
    ensures r.Ok? ==> r.value.0 == Header(Lines(text))
    ensures r.Ok? ==> r.value.1 == CopiedText(Header(Lines(text)), Lines(text))
  {
    r := CopyLines(Lines(text));
  }

  /** The loop of `copy_table` over the lines already read. */
  method CopyLines(lines: seq<string>) returns (r: Result<(seq<string>, string)>)
    ensures r.Ok? <==> SameArity(lines)
    ensures r.Err? ==> r.error == InvalidTable("Columns size missmatch")
    ensures r.Ok? ==> r.value.0 == Header(lines)
    ensures r.Ok? ==> r.value.1 == CopiedText(Header(lines), lines)
  {
    var columns: seq<string> := [];
    var written := "";
    var firstLine := true;
    var i := 0;
    while i < |lines|
      invariant 0 <= i <= |lines|
      invariant firstLine <==> i == 0
      invariant i == 0 ==> columns == [] && written == ""
      invariant i > 0 ==> columns == Header(lines) && CopiedUpTo(lines, i, written)
    {
      if firstLine {
        firstLine := false;
        columns := Csv.Split(lines[i]);
      }
      written :- CopyLine(lines, i, columns, written);
      i := i + 1;
    }
    if i > 0 {
      CopyDone(lines, written);
    }
    return Ok((columns, written));
  }

  /** With distinct header names, copying a table writes its lines back,
      each newline-terminated. */
  lemma {:induction false} CopyReproducesLines(columns: seq<string>, lines: seq<string>)
    requires |columns| > 0 && Distinct(columns)
    requires forall i :: 0 <= i < |lines| ==> |Csv.Split(lines[i])| == |columns|
    ensures CopiedText(columns, lines) == Unlines(lines)
    decreases |lines|
  {
    if lines != [] {
      ParseWriteRoundTrip(columns, lines[0]);
      CopyReproducesLines(columns, lines[1..]);
    }
  }

  //
  // INSERT
  //

  /** The text written for the new rows, each under the table's columns. */
  function AppendedText(columns: seq<string>, values: seq<map<string, string>>): string
    requires |columns| > 0
  {
    if values == [] then "" else RowLine(NewRow(columns, values[0])) + AppendedText(columns, values[1..])
  }

  lemma {:induction false} AppendedTextSnoc(columns: seq<string>, values: seq<map<string, string>>, value: map<string, string>)
    requires |columns| > 0
    ensures AppendedText(columns, values + [value]) == AppendedText(columns, values) + RowLine(NewRow(columns, value))
    decreases |values|
  {
    if values == [] {
      assert [] + [value] == [value];
    } else {
      assert (values + [value])[1..] == values[1..] + [value];
      AppendedTextSnoc(columns, values[1..], value);
    }
  }

  /** The `for new_value in values` loop: each new row written after what
      the copy wrote.  Under no columns the first row panics, as
      `write_row` subtracts one from a zero length. */
  method AppendRows(columns: seq<string>, values: seq<map<string, string>>, copied: string) returns (written: string, panicked: bool)
    ensures panicked <==> |columns| == 0 && |values| > 0
    ensures !panicked && |columns| > 0 ==> written == copied + AppendedText(columns, values)
    ensures !panicked && |columns| == 0 ==> written == copied
  {
    written := copied;
    if |columns| == 0 {
      return written, |values| > 0;
    }
    var k := 0;
    while k < |values|
      invariant 0 <= k <= |values|
      invariant written == copied + AppendedText(columns, values[..k])
    {
      var newRow := NewRow(columns, values[k]);
      written := WriteRow(newRow, written);
      assert values[..k + 1] == values[..k] + [values[k]];
      AppendedTextSnoc(columns, values[..k], values[k]);
      k := k + 1;
    }
    assert values[..k] == values;
    return written, false;
  }

  /** The file an INSERT leaves: the table copied, then the new rows. */
  function InsertedText(text: string, values: seq<map<string, string>>): string
    requires SameArity(Lines(text)) && Lines(text) != []
  {
    var lines := Lines(text);
    CopiedText(Header(lines), lines) + AppendedText(Header(lines), values)
  }

  /** For a table file whose header names are distinct, whose lines all
      have the header's arity, and which is written with '\n' line ends and
      a final '\n', an INSERT leaves the file's text as it was and appends
      one line per new row. */
  lemma {:induction false} InsertAppends(text: string, values: seq<map<string, string>>)
    requires SameArity(Lines(text)) && Lines(text) != [] && Distinct(Header(Lines(text)))
    requires forall k :: 0 <= k < |text| ==> text[k] != '\r'
    requires text[|text| - 1] == '\n'
    ensures InsertedText(text, values) == text + AppendedText(Header(Lines(text)), values)
  {
    var lines := Lines(text);
    CopyReproducesLines(Header(lines), lines);
    UnlinesLines(text);
  }

  /** Every way `process_insert` can end: parse and lookup errors passed
      through, an arity mismatch in the file, the panic of an insertion into
      an empty file, and otherwise the table's file replaced by its copy
      followed by the new rows. */
  predicate InsertOutcome(ts: seq<Token>, dir: Directory, r: Outcome) {
    && (ParseInsert(ts).Err? ==> r == Failed(ParseInsert(ts).error))
    && (ParseInsert(ts).Ok? && ParseInsert(ts).value.table !in dir ==> r == Failed(InvalidTable("File not found")))
    && (r.Failed? && ParseInsert(ts).Ok? && ParseInsert(ts).value.table in dir ==>
          !SameArity(Lines(dir[ParseInsert(ts).value.table])) && r.error == InvalidTable("Columns size missmatch"))
    && (r.Panicked? <==>
          ParseInsert(ts).Ok? && ParseInsert(ts).value.table in dir && Lines(dir[ParseInsert(ts).value.table]) == [] && |ParseInsert(ts).value.values| > 0)
    && (r.Completed? ==>
          var cmd := ParseInsert(ts).value;
          && ParseInsert(ts).Ok? && cmd.table in dir && SameArity(Lines(dir[cmd.table]))
          && (Lines(dir[cmd.table]) == [] ==> r.files == dir[cmd.table := ""])
          && (Lines(dir[cmd.table]) != [] ==> r.files == dir[cmd.table := InsertedText(dir[cmd.table], cmd.values)]))
  }

  /** `process_insert`: parse, find the table, copy it to a new file, write
      the new rows after it, and put the new file in the old one's place. */
  method ProcessInsert(ts: seq<Token>, dir: Directory) returns (r: Outcome)
    ensures InsertOutcome(ts, dir, r)
  {
    var parsed := ParseInsert(ts);
    if parsed.Err? {
      return Failed(parsed.error);
    }
    var cmd := parsed.value;
    var found := FindTable(dir, cmd.table);
    if found.Err? {
      return Failed(found.error);
    }
    var copied := CopyTable(found.value);
    if copied.Err? {
      return Failed(copied.error);
    }
    var columns := copied.value.0;
    var written, panicked := AppendRows(columns, cmd.values, copied.value.1);
    if panicked {
      return Panicked;
    }
    return Completed(dir[cmd.table := written]);
  }

  //
  // UPDATE, DELETE, SELECT
  //

  /** `process_update`: parse and find the table; nothing is written. */
  function ProcessUpdate(ts: seq<Token>, dir: Directory): (r: Outcome)
    ensures r.Completed? <==> ParseUpdate(ts).Ok? && ParseUpdate(ts).value.table in dir
    ensures r.Completed? ==> r.files == dir
    ensures ParseUpdate(ts).Err? ==> r == Failed(ParseUpdate(ts).error)
    ensures ParseUpdate(ts).Ok? && ParseUpdate(ts).value.table !in dir ==> r == Failed(InvalidTable("File not found"))
  {
    match ParseUpdate(ts)
    case Err(e) => Failed(e)
    case Ok(cmd) =>
      match FindTable(dir, cmd.table)
      case Err(e) => Failed(e)
      case Ok(_) => Completed(dir)
  }

  /** `process_delete`: parse and find the table; nothing is written. */
  function ProcessDelete(ts: seq<Token>, dir: Directory): (r: Outcome)
    ensures r.Completed? <==> ParseDelete(ts).Ok? && ParseDelete(ts).value.table in dir
    ensures r.Completed? ==> r.files == dir
    ensures ParseDelete(ts).Err? ==> r == Failed(ParseDelete(ts).error)
    ensures ParseDelete(ts).Ok? && ParseDelete(ts).value.table !in dir ==> r == Failed(InvalidTable("File not found"))
  {
    match ParseDelete(ts)
    case Err(e) => Failed(e)
    case Ok(cmd) =>
      match FindTable(dir, cmd.table)
      case Err(e) => Failed(e)
      case Ok(_) => Completed(dir)
  }

  /** `process_select`: parse and find the table; nothing is written or
      shown. */
  function ProcessSelect(ts: seq<Token>, dir: Directory): (r: Outcome)
    ensures r.Completed? <==> ParseSelect(ts).Ok? && ParseSelect(ts).value.table in dir
    ensures r.Completed? ==> r.files == dir
    ensures ParseSelect(ts).Err? ==> r == Failed(ParseSelect(ts).error)
    ensures ParseSelect(ts).Ok? && ParseSelect(ts).value.table !in dir ==> r == Failed(InvalidTable("File not found"))
  {
    match ParseSelect(ts)
    case Err(e) => Failed(e)
    case Ok(cmd) =>
      match FindTable(dir, cmd.table)
      case Err(e) => Failed(e)
      case Ok(_) => Completed(dir)
  }

  //
  // Dispatch
  //

  /** The commands `process_command` runs. */
  const Commands: set<string> := {"INSERT", "UPDATE", "DELETE", "SELECT"}

  /** `process_command`: tokenize the command text, then dispatch on its
      first token, which must be one of the four command keywords. */
  method ProcessCommand(command: string, dir: Directory) returns (r: Outcome)
    ensures Tokenize(command).Err? ==> r == Failed(Tokenize(command).error)
    ensures Tokenize(command).Ok? && (Tokenize(command).value == [] || !Tokenize(command).value[0].Keyword?) ==>
              r == Failed(InvalidSyntax("Usage: <COMMAND> <...>"))
    ensures Tokenize(command).Ok? && Tokenize(command).value != [] && Tokenize(command).value[0].Keyword? &&
            Tokenize(command).value[0].text !in Commands ==>
              r == Failed(InvalidSyntax("Invalid command: " + Tokenize(command).value[0].text))
    ensures Tokenize(command).Ok? && Tokenize(command).value != [] && Tokenize(command).value[0] == Keyword("INSERT") ==>
              InsertOutcome(Tokenize(command).value, dir, r)
    ensures Tokenize(command).Ok? && Tokenize(command).value != [] && Tokenize(command).value[0] == Keyword("UPDATE") ==>
              r == ProcessUpdate(Tokenize(command).value, dir)
    ensures Tokenize(command).Ok? && Tokenize(command).value != [] && Tokenize(command).value[0] == Keyword("DELETE") ==>
              r == ProcessDelete(Tokenize(command).value, dir)
    ensures Tokenize(command).Ok? && Tokenize(command).value != [] && Tokenize(command).value[0] == Keyword("SELECT") ==>
              r == ProcessSelect(Tokenize(command).value, dir)
    ensures r.Panicked? ==> Tokenize(command).Ok? && Tokenize(command).value != [] && Tokenize(command).value[0] == Keyword("INSERT")
    ensures r.Completed? && Tokenize(command).value[0] != Keyword("INSERT") ==> r.files == dir
    ensures r.Completed? ==> Tokenize(command).Ok? && Tokenize(command).value != [] && Tokenize(command).value[0].text in Commands
    ensures r.Completed? ==> r.files.Keys == dir.Keys
  {
    var tokenized := Tokenize(command);
    if tokenized.Err? {
      return Failed(tokenized.error);
    }
    var ts := tokenized.value;
    if ts != [] && ts[0].Keyword? {
      var keyword := ts[0].text;
      if keyword == "INSERT" {
        r := ProcessInsert(ts, dir);
      } else if keyword == "UPDATE" {
        r := ProcessUpdate(ts, dir);
      } else if keyword == "DELETE" {
        r := ProcessDelete(ts, dir);
      } else if keyword == "SELECT" {
        r := ProcessSelect(ts, dir);
      } else {
        r := Failed(InvalidSyntax("Invalid command: " + keyword));
      }
    } else {
      r := Failed(InvalidSyntax("Usage: <COMMAND> <...>"));
    }
  }
}
