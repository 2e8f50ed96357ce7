/** Token sequences to command descriptors (src/command_parser.rs).  Each
    parser receives the whole token sequence whose first token is the command
    keyword (already checked by the dispatcher, so it is skipped unseen), and
    walks it with the cursor (tokens, pos) the way the source walks its
    peekable iterator.  Where the source fills `&mut` out-parameters and
    returns `Result<(), CustomError>`, the model returns the filled values
    inside the result; on an error the out-parameters are never read. */
module CommandParser {
  import opened CustomErrors
  import opened Tokenizer
  import opened Expressions
  import opened ExpressionParser
  import Rows

  /** What each parser fills in.  SELECT's `columns` is empty for `*`; its
      `orderBy` pairs a column with "ASC" or "DESC". */
  datatype Command =
    | Insert(table: string, columns: seq<string>, values: seq<map<string, string>>)
    | Update(table: string, setValues: map<string, string>, condition: Expression)
    | Delete(table: string, condition: Expression)
    | Select(columns: seq<string>, table: string, condition: Expression, orderBy: seq<(string, string)>)

  predicate IsKeywordAt(ts: seq<Token>, pos: nat, k: string) {
    pos < |ts| && ts[pos] == Keyword(k)
  }

  predicate IsAnyKeywordAt(ts: seq<Token>, pos: nat) {
    pos < |ts| && ts[pos].Keyword?
  }

  /** A token a table may be named by. */
  predicate IsNameToken(t: Token) {
    t.Identifier? || t.String?
  }

  /** A token a value may be written as. */
  predicate IsLiteralToken(t: Token) {
    t.Integer? || t.String?
  }

  /** Every key of a row names one of the columns. */
  predicate KeysWithin(row: map<string, string>, columns: seq<string>) {
    forall c | c in row.Keys :: c in columns
  }

  /** The command's last token is a ';'. */
  predicate EndsWithSemicolon(ts: seq<Token>) {
    |ts| > 0 && ts[|ts| - 1] == Symbol(';')
  }

  /** Where a parser starts: just past the command keyword, if there is one. */
  function Skip(ts: seq<Token>): (pos: nat)
    ensures pos <= |ts| && pos <= 1
    ensures |ts| > 0 ==> pos == 1
  {
    if |ts| > 0 then 1 else 0
  }

  /** `CustomError::error_invalid_syntax`, which every parser calls for its
      errors: an InvalidSyntax error carrying the message. */
  function SyntaxError<T>(message: string): Result<T> {
    Err(InvalidSyntax(message))
  }

  //
  // Shared pieces
  //

  /** A table name: an identifier or a quoted string, else `message`. */
  function TableName(ts: seq<Token>, pos: nat, message: string): (r: Result<(string, nat)>)
    requires pos <= |ts|
    ensures r.Ok? <==> pos < |ts| && IsNameToken(ts[pos])
    ensures r.Ok? ==> r.value == (ts[pos].text, pos + 1)
    ensures r.Err? ==> r.error == InvalidSyntax(message)
  {
    if pos < |ts| && IsNameToken(ts[pos]) then Ok((ts[pos].text, pos + 1))
    else SyntaxError(message)
  }

  /** `check_ending_with_semicolon`: the command must end with a ';' exactly
      here. */
  function CheckEndingWithSemicolon(ts: seq<Token>, pos: nat): (r: Result<()>)
    requires pos <= |ts|
    ensures r.Ok? <==> pos == |ts| - 1 && ts[pos] == Symbol(';')
    ensures r.Err? && IsSymbolAt(ts, pos, ';') ==> r.error == InvalidSyntax("Tokens found after ';'")
    ensures r.Err? && !IsSymbolAt(ts, pos, ';') ==> r.error == InvalidSyntax("Expected ';' at the end of the command")
  {
    if IsSymbolAt(ts, pos, ';') then
      if pos + 1 < |ts| then SyntaxError("Tokens found after ';'") else Ok(())
    else SyntaxError("Expected ';' at the end of the command")
  }

  /** `parse_condition`: a WHERE condition that must be followed by a ';'
      ending the command. */
  function ParseCondition(ts: seq<Token>, pos: nat): (r: Result<Expression>)
    requires pos <= |ts|
    ensures r.Ok? ==> EndsWithSemicolon(ts) && ComparisonLeaves(r.value)
    ensures r.Ok? ==> ParseExpression(ts, pos) == Ok((r.value, |ts| - 1))
  {
    var (condition, next) :- ParseExpression(ts, pos);
    if IsSymbolAt(ts, next, ';') then
      if next + 1 < |ts| then SyntaxError("Tokens found after ';'") else Ok(condition)
    else SyntaxError("Expected ';' after WHERE condition")
  }

  //
  // INSERT INTO <table> (<column>, ...) VALUES (<value>, ...), ...;
  //

  function ParseInsert(ts: seq<Token>): (r: Result<Command>)
    ensures r.Ok? ==> r.value.Insert? && IsKeywordAt(ts, 1, "INTO")
    ensures r.Ok? ==> 2 < |ts| && IsNameToken(ts[2]) && r.value.table == ts[2].text
    ensures r.Ok? ==> EndsWithSemicolon(ts)
  {
    var pos := Skip(ts);
    if IsKeywordAt(ts, pos, "INTO") then ParseInsertFromInto(ts, pos + 1)
    else SyntaxError("Expected INTO after INSERT")
  }

  function ParseInsertFromInto(ts: seq<Token>, pos: nat): (r: Result<Command>)
    requires pos <= |ts|
    ensures r.Ok? ==> r.value.Insert? && pos < |ts| && IsNameToken(ts[pos]) && r.value.table == ts[pos].text
    ensures r.Ok? ==> EndsWithSemicolon(ts)
  {
    var (table, p1) :- TableName(ts, pos, "Expected table name after INTO");
    var (columns, p2) :- ParseInsertColumns(ts, p1);
    var (values, p3) :- ParseValues(ts, p2, columns);
    var _ :- CheckEndingWithSemicolon(ts, p3);
    Ok(Insert(table, columns, values))
  }

  /** The identifier tokens' names, in order. */
  function Names(u: seq<Token>): (names: seq<string>)
    ensures |names| <= |u|
  {
    if u == [] then []
    else (if u[0].Identifier? then [u[0].text] else []) + Names(u[1..])
  }

  /** The literal tokens' texts, in order. */
  function Texts(u: seq<Token>): (texts: seq<string>)
    ensures |texts| <= |u|
  {
    if u == [] then []
    else (if IsLiteralToken(u[0]) then [u[0].text] else []) + Texts(u[1..])
  }

  /** `parse_insert_into_columns`: an optional parenthesised column list. */
  function ParseInsertColumns(ts: seq<Token>, pos: nat): (r: Result<(seq<string>, nat)>)
    requires pos <= |ts|
    ensures r.Ok? ==> pos <= r.value.1 <= |ts|
    ensures !IsSymbolAt(ts, pos, '(') ==> r == Ok(([], pos))
    ensures r.Ok? && IsSymbolAt(ts, pos, '(') ==> pos < r.value.1
  {
    if IsSymbolAt(ts, pos, '(') then ParseColumnList(ts, pos + 1, []) else Ok(([], pos))
  }

  /** The loop after '(': identifiers are collected and commas skipped until
      ')' or the end of the input; anything else is an error. */
  function ParseColumnList(ts: seq<Token>, pos: nat, columns: seq<string>): (r: Result<(seq<string>, nat)>)
    requires pos <= |ts|
    ensures r.Ok? ==> pos <= r.value.1 <= |ts|
    ensures r.Ok? ==> r.value.1 == |ts| || (pos < r.value.1 && ts[r.value.1 - 1] == Symbol(')'))
    ensures r.Err? ==> r.error == InvalidSyntax("Expected column name or ')' after '('")
    decreases |ts| - pos
  {
    if pos == |ts| then Ok((columns, pos))
    else
      var t := ts[pos];
      if t.Identifier? then ParseColumnList(ts, pos + 1, columns + [t.text])
      else if t == Symbol(')') then Ok((columns, pos + 1))
      else if t == Symbol(',') then ParseColumnList(ts, pos + 1, columns)
      else SyntaxError("Expected column name or ')' after '('")
  }

  /** The columns collected are the identifiers in the consumed range. */
  lemma {:induction false} ColumnListNames(ts: seq<Token>, pos: nat, columns: seq<string>)
    requires pos <= |ts|
    ensures var r := ParseColumnList(ts, pos, columns);
            r.Ok? ==> r.value.0 == columns + Names(ts[pos..r.value.1])
    decreases |ts| - pos
  {
    if pos < |ts| {
      var t := ts[pos];
      if t.Identifier? {
        ColumnListNames(ts, pos + 1, columns + [t.text]);
        var r := ParseColumnList(ts, pos + 1, columns + [t.text]);
        if r.Ok? {
          NamesStep(ts, pos, r.value.1);
        }
      } else if t == Symbol(')') {
        NamesStep(ts, pos, pos + 1);
      } else if t == Symbol(',') {
        ColumnListNames(ts, pos + 1, columns);
        var r := ParseColumnList(ts, pos + 1, columns);
        if r.Ok? {
          NamesStep(ts, pos, r.value.1);
        }
      }
    }
  }

  /** After '(' the columns are the identifiers up to the end of the list. */
  lemma {:induction false} InsertColumnsNames(ts: seq<Token>, pos: nat)
    requires pos <= |ts|
    ensures var r := ParseInsertColumns(ts, pos);
            r.Ok? && IsSymbolAt(ts, pos, '(') ==> r.value.0 == Names(ts[pos + 1..r.value.1])
  {
    if IsSymbolAt(ts, pos, '(') {
      ColumnListNames(ts, pos + 1, []);
    }
  }

  /** `parse_values`: the keyword VALUES, then comma-separated value lists. */
  function ParseValues(ts: seq<Token>, pos: nat, columns: seq<string>): (r: Result<(seq<map<string, string>>, nat)>)
    requires pos <= |ts|
    ensures r.Ok? ==> pos < r.value.1 <= |ts| && IsKeywordAt(ts, pos, "VALUES") && !IsSymbolAt(ts, r.value.1, ',')
    ensures !IsKeywordAt(ts, pos, "VALUES") ==> r == SyntaxError("Expected VALUES after column names")
  {
    if IsKeywordAt(ts, pos, "VALUES") then
      var (first, p) :- ParseValue(ts, pos + 1, columns);
      ParseValuesTail(ts, p, columns, first)
    else SyntaxError("Expected VALUES after column names")
  }

  /** The `while peek == ','` loop of `parse_values`. */
  function ParseValuesTail(ts: seq<Token>, pos: nat, columns: seq<string>, values: seq<map<string, string>>): (r: Result<(seq<map<string, string>>, nat)>)
    requires pos <= |ts|
    ensures r.Ok? ==> pos <= r.value.1 <= |ts| && !IsSymbolAt(ts, r.value.1, ',') && values <= r.value.0
    decreases |ts| - pos
  {
    if IsSymbolAt(ts, pos, ',') then
      var (more, p) :- ParseValue(ts, pos + 1, columns);
      ParseValuesTail(ts, p, columns, values + more)
    else Ok((values, pos))
  }

  /** `parse_value`: one optional parenthesised value list, giving the row it
      pushes (none when the input ends before ')'): literal `k`, counting
      from 0, is stored under `columns[k]`. */
  function ParseValue(ts: seq<Token>, pos: nat, columns: seq<string>): (r: Result<(seq<map<string, string>>, nat)>)
    requires pos <= |ts|
    ensures r.Ok? ==> pos <= r.value.1 <= |ts| && |r.value.0| <= 1
    ensures !IsSymbolAt(ts, pos, '(') ==> r == Ok(([], pos))
  {
    if IsSymbolAt(ts, pos, '(') then
      var (placed, next) :- ParseValueItems(ts, pos + 1, columns, []);
      if placed.Some? then
        Ok(([Rows.Bind(columns, placed.value)], next))
      else Ok(([], next))
    else Ok(([], pos))
  }

  /** The loop after '(': literals are collected, at most one per column,
      commas are skipped, and ')' closes the list.  `placed` holds the
      literals collected so far; the result is None when the input ends
      before ')'. */
  function ParseValueItems(ts: seq<Token>, pos: nat, columns: seq<string>, placed: seq<string>): (r: Result<(Option<seq<string>>, nat)>)
    requires pos <= |ts| && |placed| <= |columns|
    ensures r.Ok? ==> pos <= r.value.1 <= |ts|
    ensures r.Ok? && r.value.0.None? ==> r.value.1 == |ts|
    ensures r.Ok? && r.value.0.Some? ==>
              && pos < r.value.1 && ts[r.value.1 - 1] == Symbol(')')
              && |placed| <= |r.value.0.value| <= |columns|
    ensures r.Err? ==> r.error == InvalidSyntax("Too many values for columns") || r.error == InvalidSyntax("Expected value or ')' after '('")
    decreases |ts| - pos
  {
    if pos == |ts| then Ok((None, pos))
    else
      var t := ts[pos];
      if IsLiteralToken(t) then
        if |placed| >= |columns| then SyntaxError("Too many values for columns")
        else ParseValueItems(ts, pos + 1, columns, placed + [t.text])
      else if t == Symbol(',') then ParseValueItems(ts, pos + 1, columns, placed)
      else if t == Symbol(')') then Ok((Some(placed), pos + 1))
      else SyntaxError("Expected value or ')' after '('")
  }

  /** A closed list's values are the literals in the consumed range, after
      those already placed. */
  lemma {:induction false} ValueItemsTexts(ts: seq<Token>, pos: nat, columns: seq<string>, placed: seq<string>)
    requires pos <= |ts| && |placed| <= |columns|
    ensures var r := ParseValueItems(ts, pos, columns, placed);
            r.Ok? && r.value.0.Some? ==> r.value.0.value == placed + Texts(ts[pos..r.value.1])
    decreases |ts| - pos
  {
    if pos < |ts| {
      var t := ts[pos];
      if IsLiteralToken(t) {
        if |placed| < |columns| {
          ValueItemsTexts(ts, pos + 1, columns, placed + [t.text]);
          var r := ParseValueItems(ts, pos + 1, columns, placed + [t.text]);
          if r.Ok? && r.value.0.Some? {
            TextsStep(ts, pos, r.value.1, placed);
          }
        }
      } else if t == Symbol(',') {
        ValueItemsTexts(ts, pos + 1, columns, placed);
        var r := ParseValueItems(ts, pos + 1, columns, placed);
        if r.Ok? && r.value.0.Some? {
          TextsStep(ts, pos, r.value.1, placed);
        }
      } else if t == Symbol(')') {
        TextsStep(ts, pos, pos + 1, placed);
        assert Texts(ts[pos + 1..pos + 1]) == [];
        assert placed + [] == placed;
      }
    }
  }

  lemma {:induction false} BindWithin(columns: seq<string>, values: seq<string>)
    requires |values| <= |columns|
    ensures KeysWithin(Rows.Bind(columns, values), columns)
  {
    Rows.BindKeys(columns, values);
    forall c | c in Rows.Bind(columns, values).Keys
      ensures c in columns
    {
      var i :| 0 <= i < |values| && columns[i] == c;
    }
  }

  predicate AllWithin(values: seq<map<string, string>>, columns: seq<string>) {
    forall i :: 0 <= i < |values| ==> KeysWithin(values[i], columns)
  }

  /** A parsed value list only fills columns of the column list. */
  lemma {:induction false} ValueWithin(ts: seq<Token>, pos: nat, columns: seq<string>)
    requires pos <= |ts|
    ensures ParseValue(ts, pos, columns).Ok? ==> AllWithin(ParseValue(ts, pos, columns).value.0, columns)
  {
    if IsSymbolAt(ts, pos, '(') {
      var items := ParseValueItems(ts, pos + 1, columns, []);
      if items.Ok? && items.value.0.Some? {
        BindWithin(columns, items.value.0.value);
      }
    }
  }

  lemma {:induction false} ValuesTailWithin(ts: seq<Token>, pos: nat, columns: seq<string>, values: seq<map<string, string>>)
    requires pos <= |ts| && AllWithin(values, columns)
    ensures ParseValuesTail(ts, pos, columns, values).Ok? ==> AllWithin(ParseValuesTail(ts, pos, columns, values).value.0, columns)
    decreases |ts| - pos
  {
    if IsSymbolAt(ts, pos, ',') {
      var r := ParseValue(ts, pos + 1, columns);
      if r.Ok? {
        ValueWithin(ts, pos + 1, columns);
        ValuesTailWithin(ts, r.value.1, columns, values + r.value.0);
      }
    }
  }

  lemma {:induction false} ValuesWithin(ts: seq<Token>, pos: nat, columns: seq<string>)
    requires pos <= |ts|
    ensures ParseValues(ts, pos, columns).Ok? ==> AllWithin(ParseValues(ts, pos, columns).value.0, columns)
  {
    if IsKeywordAt(ts, pos, "VALUES") {
      var r := ParseValue(ts, pos + 1, columns);
      if r.Ok? {
        ValueWithin(ts, pos + 1, columns);
        ValuesTailWithin(ts, r.value.1, columns, r.value.0);
      }
    }
  }

  /** Every row an INSERT parses to has entries only for the columns the
      statement lists: extra values are refused, never stored under some
      other name. */
  lemma {:induction false} InsertWithinColumns(ts: seq<Token>)
    ensures ParseInsert(ts).Ok? ==> AllWithin(ParseInsert(ts).value.values, ParseInsert(ts).value.columns)
  {
    var pos := Skip(ts);
    if IsKeywordAt(ts, pos, "INTO") {
      var name := TableName(ts, pos + 1, "Expected table name after INTO");
      if name.Ok? {
        var cols := ParseInsertColumns(ts, name.value.1);
        if cols.Ok? {
          ValuesWithin(ts, cols.value.1, cols.value.0);
        }
      }
    }
  }

  lemma {:induction false} TextsStep(ts: seq<Token>, pos: nat, end: nat, placed: seq<string>)
    requires pos < end <= |ts|
    ensures placed + Texts(ts[pos..end]) == (if IsLiteralToken(ts[pos]) then placed + [ts[pos].text] else placed) + Texts(ts[pos + 1..end])
  {
    assert ts[pos..end][1..] == ts[pos + 1..end];
  }

  lemma {:induction false} NamesStep(ts: seq<Token>, pos: nat, end: nat)
    requires pos < end <= |ts|
    ensures Names(ts[pos..end]) == (if ts[pos].Identifier? then [ts[pos].text] else []) + Names(ts[pos + 1..end])
  {
    assert ts[pos..end][1..] == ts[pos + 1..end];
  }

  //
  // UPDATE <table> SET <column> = <value>, ... [WHERE <condition>];
  //

  function ParseUpdate(ts: seq<Token>): (r: Result<Command>)
    ensures r.Ok? ==> r.value.Update? && 2 < |ts| && IsNameToken(ts[1]) && r.value.table == ts[1].text
    ensures r.Ok? ==> ts[2] == Keyword("SET") && |r.value.setValues| > 0
    ensures r.Ok? ==> ComparisonLeaves(r.value.condition) || r.value.condition == True
  {
    var pos := Skip(ts);
    var (table, p1) :- TableName(ts, pos, "Expected table name after UPDATE");
    if IsKeywordAt(ts, p1, "SET") then
      var (setValues, condition) :- ParseUpdateSetValues(ts, p1 + 1, True);
      Ok(Update(table, setValues, condition))
    else SyntaxError("Expected SET after table name")
  }

  /** `parse_update_set_values`: the assignments, then WHERE with its
      condition, or ';' ending the command.  Any other keyword ends the
      command without a ';' check, keeping the condition given. */
  function ParseUpdateSetValues(ts: seq<Token>, pos: nat, condition: Expression): (r: Result<(map<string, string>, Expression)>)
    requires pos <= |ts|
    ensures r.Ok? ==> |r.value.0| > 0
    ensures r.Ok? ==> r.value.1 == condition || ComparisonLeaves(r.value.1)
  {
    var (first, p) :- ParseSetValue(ts, pos, map[]);
    var (setValues, p2) :- ParseSetValuesTail(ts, p, first);
    if IsAnyKeywordAt(ts, p2) then
      if ts[p2].text == "WHERE" then
        var c :- ParseCondition(ts, p2 + 1);
        Ok((setValues, c))
      else Ok((setValues, condition))
    else if IsSymbolAt(ts, p2, ';') then
      if p2 + 1 < |ts| then SyntaxError("Tokens found after ';'") else Ok((setValues, condition))
    else SyntaxError("Expected WHERE or ';' after set values")
  }

  /** The `while peek == ','` loop over further assignments. */
  function ParseSetValuesTail(ts: seq<Token>, pos: nat, setValues: map<string, string>): (r: Result<(map<string, string>, nat)>)
    requires pos <= |ts|
    ensures r.Ok? ==> pos <= r.value.1 <= |ts| && !IsSymbolAt(ts, r.value.1, ',') && setValues.Keys <= r.value.0.Keys
    decreases |ts| - pos
  {
    if IsSymbolAt(ts, pos, ',') then
      var (more, p) :- ParseSetValue(ts, pos + 1, setValues);
      ParseSetValuesTail(ts, p, more)
    else Ok((setValues, pos))
  }

  /** `parse_set_value`: `<column> = <literal>`, stored over any earlier
      assignment to the same column. */
  function ParseSetValue(ts: seq<Token>, pos: nat, setValues: map<string, string>): (r: Result<(map<string, string>, nat)>)
    requires pos <= |ts|
    ensures r.Ok? <==> pos + 2 < |ts| && ts[pos].Identifier? && ts[pos + 1] == ComparisonOperator("=") && IsLiteralToken(ts[pos + 2])
    ensures r.Ok? ==> r.value == (setValues[ts[pos].text := ts[pos + 2].text], pos + 3)
    ensures !(pos < |ts| && ts[pos].Identifier?) ==> r == SyntaxError("Expected column name to set value after SET")
  {
    if !(pos < |ts| && ts[pos].Identifier?) then
      SyntaxError("Expected column name to set value after SET")
    else if !(pos + 1 < |ts| && ts[pos + 1] == ComparisonOperator("=")) then
      SyntaxError("Expected '=' after column name")
    else if !(pos + 2 < |ts| && IsLiteralToken(ts[pos + 2])) then
      SyntaxError("Expected value after '='")
    else Ok((setValues[ts[pos].text := ts[pos + 2].text], pos + 3))
  }

  //
  // DELETE <table> [WHERE <condition>];
  //

  /** `parse_delete`: the table name comes right after DELETE (there is no
      FROM); then WHERE with its condition, or ';' ending the command.  Any
      other keyword ends the command without a ';' check. */
  function ParseDelete(ts: seq<Token>): (r: Result<Command>)
    ensures r.Ok? ==> r.value.Delete? && 1 < |ts| && IsNameToken(ts[1]) && r.value.table == ts[1].text
    ensures r.Ok? && r.value.condition != True ==> EndsWithSemicolon(ts) && IsKeywordAt(ts, 2, "WHERE")
    ensures r.Ok? && IsSymbolAt(ts, 2, ';') ==> |ts| == 3 && r.value.condition == True
  {
    var pos := Skip(ts);
    var (table, p1) :- TableName(ts, pos, "Expected table name after DELETE");
    if IsAnyKeywordAt(ts, p1) then
      if ts[p1].text == "WHERE" then
        var c :- ParseCondition(ts, p1 + 1);
        Ok(Delete(table, c))
      else Ok(Delete(table, True))
    else if IsSymbolAt(ts, p1, ';') then
      if p1 + 1 < |ts| then SyntaxError("Tokens found after ';'") else Ok(Delete(table, True))
    else SyntaxError("Expected WHERE or ';' after table name")
  }

  //
  // SELECT <columns> FROM <table> [WHERE <condition>] [ORDER BY <column> [DESC], ...];
  //

  function ParseSelect(ts: seq<Token>): (r: Result<Command>)
    ensures r.Ok? ==> r.value.Select? && EndsWithSemicolon(ts)
    ensures r.Ok? ==> forall i :: 0 <= i < |r.value.orderBy| ==> r.value.orderBy[i].1 in {"ASC", "DESC"}
  {
    var pos := Skip(ts);
    var (columns, p1) :- ParseSelectColumns(ts, pos);
    var (table, p2) :- TableName(ts, p1, "Expected table name after FROM");
    var (condition, p3) :- if IsKeywordAt(ts, p2, "WHERE") then ParseExpression(ts, p2 + 1) else Ok((True, p2));
    var (orderBy, p4) :- ParseOrderClause(ts, p3);
    var _ :- CheckEndingWithSemicolon(ts, p4);
    Ok(Select(columns, table, condition, orderBy))
  }

  /** `parse_select` read off from the results of its steps. */
  lemma {:induction false} SelectSteps(ts: seq<Token>, columns: seq<string>, p1: nat, table: string, p2: nat, condition: Expression, p3: nat, orderBy: seq<(string, string)>, p4: nat)
    requires |ts| > 0 && ParseSelectColumns(ts, 1) == Ok((columns, p1))
    requires TableName(ts, p1, "Expected table name after FROM") == Ok((table, p2))
    requires (if IsKeywordAt(ts, p2, "WHERE") then ParseExpression(ts, p2 + 1) else Ok((True, p2))) == Ok((condition, p3))
    requires ParseOrderClause(ts, p3) == Ok((orderBy, p4)) && CheckEndingWithSemicolon(ts, p4) == Ok(())
    ensures ParseSelect(ts) == Ok(Select(columns, table, condition, orderBy))
  {
    assert Skip(ts) == 1;
  }

  /** The optional `ORDER BY` clause. */
  function ParseOrderClause(ts: seq<Token>, pos: nat): (r: Result<(seq<(string, string)>, nat)>)
    requires pos <= |ts|
    ensures r.Ok? ==> pos <= r.value.1 <= |ts|
    ensures r.Ok? ==> forall i :: 0 <= i < |r.value.0| ==> r.value.0[i].1 in {"ASC", "DESC"}
    ensures !IsKeywordAt(ts, pos, "ORDER") ==> r == Ok(([], pos))
    ensures IsKeywordAt(ts, pos, "ORDER") && !IsKeywordAt(ts, pos + 1, "BY") ==> r == SyntaxError("Expected BY after ORDER")
  {
    if IsKeywordAt(ts, pos, "ORDER") then
      if IsKeywordAt(ts, pos + 1, "BY") then ParseOrder(ts, pos + 2)
      else SyntaxError("Expected BY after ORDER")
    else Ok(([], pos))
  }

  /** `parse_select_columns`: `*` directly followed by FROM selects every
      column.  Otherwise identifiers are collected (commas skipped) up to
      FROM, and the token right after FROM is consumed as well. */
  function ParseSelectColumns(ts: seq<Token>, pos: nat): (r: Result<(seq<string>, nat)>)
    requires pos <= |ts|
    ensures r.Ok? ==> pos <= r.value.1 <= |ts|
    ensures IsSymbolAt(ts, pos, '*') && IsKeywordAt(ts, pos + 1, "FROM") ==> r == Ok(([], pos + 2))
  {
    if IsSymbolAt(ts, pos, '*') && IsAnyKeywordAt(ts, pos + 1) then
      if ts[pos + 1].text == "FROM" then Ok(([], pos + 2))
      else SyntaxError("Expected FROM <tablename> after '*'")
    else
      var start := if IsSymbolAt(ts, pos, '*') then pos + 1 else pos;
      ParseSelectColumnList(ts, start, [])
  }

  /** The `while let Some(token) = iter.next()` loop of the column list. */
  function ParseSelectColumnList(ts: seq<Token>, pos: nat, columns: seq<string>): (r: Result<(seq<string>, nat)>)
    requires pos <= |ts|
    ensures r.Ok? ==> pos <= r.value.1 <= |ts|
    ensures r.Err? ==> r.error == InvalidSyntax("Expected column name or FROM <tablename> after column names")
    decreases |ts| - pos
  {
    if pos == |ts| then Ok((columns, pos))
    else
      var t := ts[pos];
      if t.Identifier? then ParseSelectColumnList(ts, pos + 1, columns + [t.text])
      else if t == Keyword("FROM") then
        // the token after FROM is skipped too
        Ok((columns, if pos + 1 < |ts| then pos + 2 else pos + 1))
      else if t == Symbol(',') then ParseSelectColumnList(ts, pos + 1, columns)
      else SyntaxError("Expected column name or FROM <tablename> after column names")
  }

  /** `parse_order`: one or more comma-separated ordering columns. */
  function ParseOrder(ts: seq<Token>, pos: nat): (r: Result<(seq<(string, string)>, nat)>)
    requires pos <= |ts|
    ensures r.Ok? ==> pos < r.value.1 <= |ts| && |r.value.0| > 0 && !IsSymbolAt(ts, r.value.1, ',')
    ensures r.Ok? ==> forall i :: 0 <= i < |r.value.0| ==> r.value.0[i].1 in {"ASC", "DESC"}
  {
    var (first, p) :- ParseOrderByColumn(ts, pos);
    ParseOrderTail(ts, p, [first])
  }

  function ParseOrderTail(ts: seq<Token>, pos: nat, orderBy: seq<(string, string)>): (r: Result<(seq<(string, string)>, nat)>)
    requires pos <= |ts|
    requires forall i :: 0 <= i < |orderBy| ==> orderBy[i].1 in {"ASC", "DESC"}
    ensures r.Ok? ==> pos <= r.value.1 <= |ts| && orderBy <= r.value.0 && !IsSymbolAt(ts, r.value.1, ',')
    ensures r.Ok? ==> forall i :: 0 <= i < |r.value.0| ==> r.value.0[i].1 in {"ASC", "DESC"}
    decreases |ts| - pos
  {
    if IsSymbolAt(ts, pos, ',') then
      var (item, p) :- ParseOrderByColumn(ts, pos + 1);
      ParseOrderTail(ts, p, orderBy + [item])
    else Ok((orderBy, pos))
  }

  /** `parse_order_by_column`: a column, optionally followed by DESC; any
      other keyword there is an error, and no keyword means ascending. */
  function ParseOrderByColumn(ts: seq<Token>, pos: nat): (r: Result<((string, string), nat)>)
    requires pos <= |ts|
    ensures r.Ok? ==> pos < |ts| && ts[pos].Identifier? && r.value.0.0 == ts[pos].text
    ensures r.Ok? ==> (r.value.0.1 == "DESC" <==> IsKeywordAt(ts, pos + 1, "DESC"))
    ensures r.Ok? ==> r.value.0.1 in {"ASC", "DESC"}
    ensures r.Ok? ==> r.value.1 == pos + (if r.value.0.1 == "DESC" then 2 else 1)
    ensures pos < |ts| && ts[pos].Identifier? && IsAnyKeywordAt(ts, pos + 1) && ts[pos + 1].text != "DESC" ==>
              r == SyntaxError("Expected DESC or nothing after column name")
  {
    if !(pos < |ts| && ts[pos].Identifier?) then
      SyntaxError("Expected column name after ORDER BY or ','")
    else if IsAnyKeywordAt(ts, pos + 1) then
      if ts[pos + 1].text == "DESC" then Ok(((ts[pos].text, "DESC"), pos + 2))
      else SyntaxError("Expected DESC or nothing after column name")
    else Ok(((ts[pos].text, "ASC"), pos + 1))
  }
}
