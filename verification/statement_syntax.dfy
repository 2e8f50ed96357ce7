/** UPDATE, DELETE and SELECT written out as token sequences, with the proofs
    that their parsers read back what these printers write and the lemmas
    that pin down the forms the parsers accept besides
    (src/command_parser.rs). */
module StatementSyntax {
  import opened CustomErrors
  import opened Tokenizer
  import opened Expressions
  import opened ExpressionParser
  import opened CommandParser
  import opened CommandSyntax

  //
  // WHERE clauses
  //

  /** A condition that can be written out: absent, or built from
      comparisons. */
  predicate WhereFits(where: Option<Expression>) {
    where.Some? ==> ComparisonLeaves(where.value)
  }

  /** `WHERE <condition>`, or nothing. */
  function WhereTokens(where: Option<Expression>): seq<Token>
    requires WhereFits(where)
  {
    if where.Some? then [Keyword("WHERE")] + Unparse(where.value) else []
  }

  /** The condition a command carries when its WHERE clause is `where`:
      without one, the condition that holds for every row. */
  function ConditionOf(where: Option<Expression>): Expression {
    if where.Some? then where.value else True
  }

  /** The WHERE clause laid out from `pos`; without one, the token there is
      not the keyword WHERE. */
  predicate WhereLaidOut(ts: seq<Token>, pos: nat, where: Option<Expression>)
    requires WhereFits(where)
  {
    if where.Some? then IsKeywordAt(ts, pos, "WHERE") && At(ts, pos + 1, Unparse(where.value))
    else !IsKeywordAt(ts, pos, "WHERE")
  }

  /** A printed condition directly followed by the final ';' is read as
      the command's condition. */
  lemma {:induction false} ConditionParses(ts: seq<Token>, pos: nat, e: Expression)
    requires ComparisonLeaves(e) && At(ts, pos, Unparse(e))
    requires pos + |Unparse(e)| == |ts| - 1 && ts[|ts| - 1] == Symbol(';')
    ensures ParseCondition(ts, pos) == Ok(e)
  {
    ParseUnparse(e, ts, pos);
  }

  /** A WHERE clause written before a closing ';'. */
  lemma {:induction false} WhereLaidOutAt(ts: seq<Token>, pos: nat, where: Option<Expression>)
    requires WhereFits(where) && At(ts, pos, WhereTokens(where) + [Symbol(';')])
    ensures WhereLaidOut(ts, pos, where) && IsSymbolAt(ts, pos + |WhereTokens(where)|, ';')
  {
    AtConcat(ts, pos, WhereTokens(where), [Symbol(';')]);
    AtToken(ts, pos + |WhereTokens(where)|, Symbol(';'));
    if where.Some? {
      AtCons(ts, pos, Keyword("WHERE"), Unparse(where.value));
    }
  }

  //
  // DELETE <table> [WHERE <condition>];
  //

  /** `DELETE <table> [WHERE <condition>] ;` */
  function DeleteTokens(table: string, where: Option<Expression>): seq<Token>
    requires WhereFits(where)
  {
    [Keyword("DELETE"), Identifier(table)] + (WhereTokens(where) + [Symbol(';')])
  }

  predicate DeleteLaidOut(ts: seq<Token>, table: string, where: Option<Expression>)
    requires WhereFits(where)
  {
    && |ts| == 3 + |WhereTokens(where)|
    && ts[0] == Keyword("DELETE") && ts[1] == Identifier(table)
    && WhereLaidOut(ts, 2, where) && ts[|ts| - 1] == Symbol(';')
  }

  lemma {:induction false} DeleteLayout(table: string, where: Option<Expression>)
    requires WhereFits(where)
    ensures DeleteLaidOut(DeleteTokens(table, where), table, where)
  {
    var ts := DeleteTokens(table, where);
    var rest := WhereTokens(where) + [Symbol(';')];
    assert ts[0] == Keyword("DELETE") && ts[1] == Identifier(table);
    assert ts[2..] == rest;
    WhereLaidOutAt(ts, 2, where);
  }

  lemma {:induction false} DeleteParses(ts: seq<Token>, table: string, where: Option<Expression>)
    requires WhereFits(where) && DeleteLaidOut(ts, table, where)
    ensures ParseDelete(ts) == Ok(Delete(table, ConditionOf(where)))
  {
    if where.Some? {
      ConditionParses(ts, 3, where.value);
    }
  }

  /** A DELETE written out and parsed back gives the table and the
      condition, or the condition true for every row when there is no
      WHERE clause. */
  lemma {:induction false} DeleteRoundTrip(table: string, where: Option<Expression>)
    requires WhereFits(where)
    ensures ParseDelete(DeleteTokens(table, where)) == Ok(Delete(table, ConditionOf(where)))
  {
    DeleteLayout(table, where);
    DeleteParses(DeleteTokens(table, where), table, where);
  }

  /** `DELETE FROM t;` is rejected: FROM stands where the table name is
      expected. */
  lemma {:induction false} DeleteFromRejected(table: string)
    ensures ParseDelete([Keyword("DELETE"), Keyword("FROM"), Identifier(table), Symbol(';')])
            == Err(InvalidSyntax("Expected table name after DELETE"))
  {
  }

  /** After the table name, any keyword other than WHERE ends the DELETE:
      what follows is never looked at, and every row matches. */
  lemma {:induction false} DeleteIgnoresTrailingKeyword(table: string, k: string, rest: seq<Token>)
    requires k != "WHERE"
    ensures ParseDelete([Keyword("DELETE"), Identifier(table), Keyword(k)] + rest) == Ok(Delete(table, True))
  {
    var ts := [Keyword("DELETE"), Identifier(table), Keyword(k)] + rest;
    assert ts[1] == Identifier(table) && ts[2] == Keyword(k);
  }

  //
  // UPDATE <table> SET <column> = <value>, ... [WHERE <condition>];
  //

  /** Assignments `c = v` pair a column name with a literal. */
  predicate AssignmentsFit(pairs: seq<(string, Token)>) {
    forall i :: 0 <= i < |pairs| ==> IsLiteralToken(pairs[i].1)
  }

  /** The assignments applied in order on top of `setValues`; a later
      assignment to the same column wins. */
  function Assign(setValues: map<string, string>, pairs: seq<(string, Token)>): map<string, string>
    requires AssignmentsFit(pairs)
    decreases |pairs|
  {
    if pairs == [] then setValues
    else Assign(setValues[pairs[0].0 := pairs[0].1.text], pairs[1..])
  }

  /** `, c = v` for each further assignment. */
  function SetTail(pairs: seq<(string, Token)>): seq<Token> {
    if pairs == [] then []
    else [Symbol(','), Identifier(pairs[0].0), ComparisonOperator("="), pairs[0].1] + SetTail(pairs[1..])
  }

  /** `UPDATE <table> SET c1 = v1, … [WHERE <condition>] ;` */
  function UpdateTokens(table: string, pairs: seq<(string, Token)>, where: Option<Expression>): seq<Token>
    requires pairs != [] && WhereFits(where)
  {
    [Keyword("UPDATE"), Identifier(table), Keyword("SET"), Identifier(pairs[0].0), ComparisonOperator("="), pairs[0].1]
      + (SetTail(pairs[1..]) + (WhereTokens(where) + [Symbol(';')]))
  }

  predicate SetTailLaidOut(ts: seq<Token>, pos: nat, pairs: seq<(string, Token)>, end: nat)
    decreases |pairs|
  {
    if pairs == [] then pos == end
    else
      && pos + 3 < |ts| && ts[pos] == Symbol(',') && ts[pos + 1] == Identifier(pairs[0].0)
      && ts[pos + 2] == ComparisonOperator("=") && ts[pos + 3] == pairs[0].1
      && SetTailLaidOut(ts, pos + 4, pairs[1..], end)
  }

  lemma {:induction false} AtFour(ts: seq<Token>, pos: nat, a: Token, b: Token, c: Token, d: Token, v: seq<Token>)
    requires At(ts, pos, [a, b, c, d] + v)
    ensures pos + 3 < |ts| && ts[pos] == a && ts[pos + 1] == b && ts[pos + 2] == c && ts[pos + 3] == d
    ensures At(ts, pos + 4, v)
  {
    AtConcat(ts, pos, [a, b, c, d], v);
    assert ts[pos..pos + 4] == [a, b, c, d];
    assert ts[pos] == ts[pos..pos + 4][0] && ts[pos + 1] == ts[pos..pos + 4][1];
    assert ts[pos + 2] == ts[pos..pos + 4][2] && ts[pos + 3] == ts[pos..pos + 4][3];
  }

  lemma {:induction false} SetTailLaidOutAt(ts: seq<Token>, pos: nat, pairs: seq<(string, Token)>)
    requires At(ts, pos, SetTail(pairs))
    ensures SetTailLaidOut(ts, pos, pairs, pos + |SetTail(pairs)|)
    decreases |pairs|
  {
    if pairs != [] {
      AtFour(ts, pos, Symbol(','), Identifier(pairs[0].0), ComparisonOperator("="), pairs[0].1, SetTail(pairs[1..]));
      SetTailLaidOutAt(ts, pos + 4, pairs[1..]);
    }
  }

  /** One further assignment is stored and the loop moves past it. */
  lemma {:induction false} SetTailStep(ts: seq<Token>, pos: nat, setValues: map<string, string>)
    requires pos + 3 < |ts| && ts[pos] == Symbol(',') && ts[pos + 1].Identifier?
    requires ts[pos + 2] == ComparisonOperator("=") && IsLiteralToken(ts[pos + 3])
    ensures ParseSetValuesTail(ts, pos, setValues) == ParseSetValuesTail(ts, pos + 4, setValues[ts[pos + 1].text := ts[pos + 3].text])
  {
  }

  lemma {:induction false} SetTailParses(ts: seq<Token>, pos: nat, setValues: map<string, string>, pairs: seq<(string, Token)>, end: nat)
    requires AssignmentsFit(pairs) && pos <= |ts| && SetTailLaidOut(ts, pos, pairs, end)
    requires end <= |ts| && !IsSymbolAt(ts, end, ',')
    ensures ParseSetValuesTail(ts, pos, setValues) == Ok((Assign(setValues, pairs), end))
    decreases |pairs|
  {
    if pairs != [] {
      assert IsLiteralToken(pairs[0].1);
      SetTailStep(ts, pos, setValues);
      assert AssignmentsFit(pairs[1..]);
      SetTailParses(ts, pos + 4, setValues[pairs[0].0 := pairs[0].1.text], pairs[1..], end);
    }
  }

  predicate UpdateLaidOut(ts: seq<Token>, table: string, pairs: seq<(string, Token)>, where: Option<Expression>, mid: nat)
    requires pairs != [] && WhereFits(where)
  {
    && mid + |WhereTokens(where)| == |ts| - 1 && 6 <= mid
    && ts[0] == Keyword("UPDATE") && ts[1] == Identifier(table) && ts[2] == Keyword("SET")
    && ts[3] == Identifier(pairs[0].0) && ts[4] == ComparisonOperator("=") && ts[5] == pairs[0].1
    && SetTailLaidOut(ts, 6, pairs[1..], mid)
    && WhereLaidOut(ts, mid, where) && ts[|ts| - 1] == Symbol(';')
  }

  lemma {:induction false} UpdateLayout(table: string, pairs: seq<(string, Token)>, where: Option<Expression>)
    requires pairs != [] && WhereFits(where)
    ensures UpdateLaidOut(UpdateTokens(table, pairs, where), table, pairs, where, 6 + |SetTail(pairs[1..])|)
  {
    var ts := UpdateTokens(table, pairs, where);
    var rest := WhereTokens(where) + [Symbol(';')];
    UpdateFromParts(ts, table, pairs[0], SetTail(pairs[1..]), rest);
    SetTailLaidOutAt(ts, 6, pairs[1..]);
    WhereLaidOutAt(ts, 6 + |SetTail(pairs[1..])|, where);
  }

  lemma {:induction false} UpdateFromParts(ts: seq<Token>, table: string, first: (string, Token), tail: seq<Token>, rest: seq<Token>)
    requires ts == [Keyword("UPDATE"), Identifier(table), Keyword("SET"), Identifier(first.0), ComparisonOperator("="), first.1] + (tail + rest)
    ensures ts[0] == Keyword("UPDATE") && ts[1] == Identifier(table) && ts[2] == Keyword("SET")
    ensures ts[3] == Identifier(first.0) && ts[4] == ComparisonOperator("=") && ts[5] == first.1
    ensures At(ts, 6, tail) && At(ts, 6 + |tail|, rest)
  {
    assert ts[6..] == tail + rest;
    AtConcat(ts, 6, tail, rest);
  }

  /** UPDATE, the table, SET and assignments that parse, then the clause
      that closes the command. */
  lemma {:induction false} UpdateCombine(ts: seq<Token>, table: string, setValues: map<string, string>, condition: Expression, p: nat)
    requires 3 <= p <= |ts| && ts[0] == Keyword("UPDATE") && ts[1] == Identifier(table) && ts[2] == Keyword("SET")
    requires ParseUpdateSetValues(ts, 3, True) == Ok((setValues, condition))
    ensures ParseUpdate(ts) == Ok(Update(table, setValues, condition))
  {
  }

  lemma {:induction false} SetValuesClose(ts: seq<Token>, setValues: map<string, string>, where: Option<Expression>, mid: nat)
    requires 6 <= mid < |ts| && WhereFits(where) && WhereLaidOut(ts, mid, where)
    requires mid + |WhereTokens(where)| == |ts| - 1 && ts[|ts| - 1] == Symbol(';')
    requires ParseSetValue(ts, 3, map[]).Ok? && ParseSetValuesTail(ts, 6, ParseSetValue(ts, 3, map[]).value.0) == Ok((setValues, mid))
    requires ParseSetValue(ts, 3, map[]).value.1 == 6
    ensures ParseUpdateSetValues(ts, 3, True) == Ok((setValues, ConditionOf(where)))
  {
    var first := ParseSetValue(ts, 3, map[]).value.0;
    assert ParseSetValue(ts, 3, map[]) == Ok((first, 6));
    if where.Some? {
      assert ts[mid] == Keyword("WHERE");
      ConditionParses(ts, mid + 1, where.value);
      SetValuesThenWhere(ts, first, setValues, mid, where.value);
    } else {
      assert mid == |ts| - 1 && ts[mid] == Symbol(';');
      SetValuesThenEnd(ts, first, setValues, mid);
    }
  }

  /** Assignments followed by WHERE and a condition. */
  lemma {:induction false} SetValuesThenWhere(ts: seq<Token>, first: map<string, string>, setValues: map<string, string>, mid: nat, e: Expression)
    requires 6 <= mid < |ts| && ParseSetValue(ts, 3, map[]) == Ok((first, 6))
    requires ParseSetValuesTail(ts, 6, first) == Ok((setValues, mid))
    requires ts[mid] == Keyword("WHERE") && ParseCondition(ts, mid + 1) == Ok(e)
    ensures ParseUpdateSetValues(ts, 3, True) == Ok((setValues, e))
  {
    assert IsAnyKeywordAt(ts, mid) && ts[mid].text == "WHERE";
  }

  /** Assignments followed directly by the final ';'. */
  lemma {:induction false} SetValuesThenEnd(ts: seq<Token>, first: map<string, string>, setValues: map<string, string>, mid: nat)
    requires 6 <= mid < |ts| && ParseSetValue(ts, 3, map[]) == Ok((first, 6))
    requires ParseSetValuesTail(ts, 6, first) == Ok((setValues, mid))
    requires mid == |ts| - 1 && ts[mid] == Symbol(';')
    ensures ParseUpdateSetValues(ts, 3, True) == Ok((setValues, True))
  {
    assert !IsAnyKeywordAt(ts, mid) && IsSymbolAt(ts, mid, ';');
  }

  lemma {:induction false} UpdateParses(ts: seq<Token>, table: string, pairs: seq<(string, Token)>, where: Option<Expression>, mid: nat)
    requires pairs != [] && AssignmentsFit(pairs) && WhereFits(where)
    requires UpdateLaidOut(ts, table, pairs, where, mid)
    ensures ParseUpdate(ts) == Ok(Update(table, Assign(map[], pairs), ConditionOf(where)))
  {
    var first := map[][pairs[0].0 := pairs[0].1.text];
    assert IsLiteralToken(pairs[0].1);
    assert ParseSetValue(ts, 3, map[]) == Ok((first, 6));
    assert AssignmentsFit(pairs[1..]);
    SetTailParses(ts, 6, first, pairs[1..], mid);
    SetValuesClose(ts, Assign(first, pairs[1..]), where, mid);
    UpdateCombine(ts, table, Assign(map[], pairs), ConditionOf(where), 6);
  }

  /** An UPDATE written out and parsed back gives the table, the
      assignments applied in order (a later one to the same column
      overriding an earlier one), and the condition, or the condition true
      for every row when there is no WHERE clause. */
  lemma {:induction false} UpdateRoundTrip(table: string, pairs: seq<(string, Token)>, where: Option<Expression>)
    requires pairs != [] && AssignmentsFit(pairs) && WhereFits(where)
    ensures ParseUpdate(UpdateTokens(table, pairs, where)) == Ok(Update(table, Assign(map[], pairs), ConditionOf(where)))
  {
    UpdateLayout(table, pairs, where);
    UpdateParses(UpdateTokens(table, pairs, where), table, pairs, where, 6 + |SetTail(pairs[1..])|);
  }

  /** Exactly the assigned columns get a value, and each gets the value of
      its last assignment. */
  lemma {:induction false} AssignMeaning(setValues: map<string, string>, pairs: seq<(string, Token)>)
    requires AssignmentsFit(pairs)
    ensures Assign(setValues, pairs).Keys == setValues.Keys + set i | 0 <= i < |pairs| :: pairs[i].0
    ensures forall i :: 0 <= i < |pairs| && LastAssignment(pairs, i) ==> Assign(setValues, pairs)[pairs[i].0] == pairs[i].1.text
    decreases |pairs|
  {
    if pairs != [] {
      var next := setValues[pairs[0].0 := pairs[0].1.text];
      var rest := pairs[1..];
      AssignMeaning(next, rest);
      assert (set i | 0 <= i < |pairs| :: pairs[i].0) == {pairs[0].0} + set i | 0 <= i < |rest| :: rest[i].0 by {
        forall i | 0 < i < |pairs| ensures pairs[i].0 == rest[i - 1].0 { }
        forall i | 0 <= i < |rest| ensures rest[i].0 == pairs[i + 1].0 { }
      }
      forall i | 0 <= i < |pairs| && LastAssignment(pairs, i)
        ensures Assign(setValues, pairs)[pairs[i].0] == pairs[i].1.text
      {
        if i == 0 {
          forall k | 0 <= k < |rest| ensures rest[k].0 != pairs[0].0 {
            assert rest[k] == pairs[k + 1];
          }
          AssignUntouched(next, rest, pairs[0].0);
        } else {
          assert rest[i - 1] == pairs[i];
          assert LastAssignment(rest, i - 1) by {
            forall j | i - 1 < j < |rest| ensures rest[j].0 != rest[i - 1].0 {
              assert rest[j] == pairs[j + 1];
            }
          }
        }
      }
    }
  }

  /** A column no assignment names keeps its value. */
  lemma {:induction false} AssignUntouched(setValues: map<string, string>, pairs: seq<(string, Token)>, column: string)
    requires AssignmentsFit(pairs) && column in setValues
    requires forall k :: 0 <= k < |pairs| ==> pairs[k].0 != column
    ensures column in Assign(setValues, pairs) && Assign(setValues, pairs)[column] == setValues[column]
    decreases |pairs|
  {
    if pairs != [] {
      AssignUntouched(setValues[pairs[0].0 := pairs[0].1.text], pairs[1..], column);
    }
  }

  /** No later assignment names the column of assignment `i`. */
  predicate LastAssignment(pairs: seq<(string, Token)>, i: nat)
    requires i < |pairs|
  {
    forall j :: i < j < |pairs| ==> pairs[j].0 != pairs[i].0
  }

  /** After the assignments, any keyword other than WHERE ends the UPDATE:
      what follows is never looked at, and every row matches. */
  lemma {:induction false} UpdateIgnoresTrailingKeyword(table: string, column: string, value: Token, k: string, rest: seq<Token>)
    requires IsLiteralToken(value) && k != "WHERE"
    ensures ParseUpdate([Keyword("UPDATE"), Identifier(table), Keyword("SET"), Identifier(column), ComparisonOperator("="), value, Keyword(k)] + rest)
            == Ok(Update(table, map[column := value.text], True))
  {
    var ts := [Keyword("UPDATE"), Identifier(table), Keyword("SET"), Identifier(column), ComparisonOperator("="), value, Keyword(k)] + rest;
    assert ts[..7] == [Keyword("UPDATE"), Identifier(table), Keyword("SET"), Identifier(column), ComparisonOperator("="), value, Keyword(k)];
    assert ts[1] == Identifier(table) && ts[2] == Keyword("SET") && ts[6] == Keyword(k);
    assert ParseSetValue(ts, 3, map[]) == Ok((map[column := value.text], 6));
    assert ParseSetValuesTail(ts, 6, map[column := value.text]) == Ok((map[column := value.text], 6));
  }

  //
  // SELECT <columns> FROM <table> [WHERE <condition>] [ORDER BY <column> [DESC], ...];
  //

  /** The direction an ordering column gets: DESC when written, ASC by
      default. */
  function Direction(descending: bool): string {
    if descending then "DESC" else "ASC"
  }

  /** `c` or `c DESC`. */
  function ItemTokens(item: (string, bool)): seq<Token> {
    [Identifier(item.0)] + (if item.1 then [Keyword("DESC")] else [])
  }

  /** `, c [DESC]` for each further ordering column. */
  function OrderTail(items: seq<(string, bool)>): seq<Token> {
    if items == [] then [] else [Symbol(',')] + (ItemTokens(items[0]) + OrderTail(items[1..]))
  }

  /** `ORDER BY c1 [DESC], …`, or nothing. */
  function OrderTokens(items: seq<(string, bool)>): seq<Token> {
    if items == [] then [] else [Keyword("ORDER"), Keyword("BY")] + (ItemTokens(items[0]) + OrderTail(items[1..]))
  }

  /** The ordering the parser records: each column with its direction. */
  function OrderPairs(items: seq<(string, bool)>): (pairs: seq<(string, string)>)
    ensures |pairs| == |items|
  {
    if items == [] then [] else [(items[0].0, Direction(items[0].1))] + OrderPairs(items[1..])
  }

  /** What follows the table: `[WHERE …] [ORDER BY …] ;` */
  function SelectTail(where: Option<Expression>, items: seq<(string, bool)>): seq<Token>
    requires WhereFits(where)
  {
    WhereTokens(where) + (OrderTokens(items) + [Symbol(';')])
  }

  /** `SELECT * FROM <table> …` */
  function SelectAllTokens(table: string, where: Option<Expression>, items: seq<(string, bool)>): seq<Token>
    requires WhereFits(where)
  {
    [Keyword("SELECT"), Symbol('*'), Keyword("FROM"), Identifier(table)] + SelectTail(where, items)
  }

  /** `SELECT <names> FROM <skipped> <table> …`: with a column list, the
      token right after FROM is passed over and the table name is read from
      the token after it. */
  function SelectListTokens(names: seq<Token>, skipped: Token, table: string, where: Option<Expression>, items: seq<(string, bool)>): seq<Token>
    requires WhereFits(where)
  {
    [Keyword("SELECT")] + (names + ([Keyword("FROM"), skipped, Identifier(table)] + SelectTail(where, items)))
  }

  function ItemLength(item: (string, bool)): nat {
    if item.1 then 2 else 1
  }

  /** One ordering column laid out at `pos`; an ascending one is followed by
      a token that is not a keyword. */
  predicate ItemLaidOut(ts: seq<Token>, pos: nat, item: (string, bool)) {
    && pos < |ts| && ts[pos] == Identifier(item.0)
    && (item.1 ==> IsKeywordAt(ts, pos + 1, "DESC"))
    && (!item.1 ==> !IsAnyKeywordAt(ts, pos + 1))
  }

  predicate OrderTailLaidOut(ts: seq<Token>, pos: nat, items: seq<(string, bool)>, end: nat)
    decreases |items|
  {
    if items == [] then pos == end
    else
      && IsSymbolAt(ts, pos, ',') && ItemLaidOut(ts, pos + 1, items[0])
      && OrderTailLaidOut(ts, pos + 1 + ItemLength(items[0]), items[1..], end)
  }

  predicate OrderLaidOut(ts: seq<Token>, pos: nat, items: seq<(string, bool)>, end: nat) {
    if items == [] then pos == end && !IsKeywordAt(ts, pos, "ORDER")
    else
      && IsKeywordAt(ts, pos, "ORDER") && IsKeywordAt(ts, pos + 1, "BY")
      && ItemLaidOut(ts, pos + 2, items[0])
      && OrderTailLaidOut(ts, pos + 2 + ItemLength(items[0]), items[1..], end)
  }

  /** An ordering column written before a token that is not a keyword. */
  lemma {:induction false} ItemLaidOutAt(ts: seq<Token>, pos: nat, item: (string, bool), v: seq<Token>)
    requires At(ts, pos, ItemTokens(item) + v)
    requires pos + ItemLength(item) < |ts| && !ts[pos + ItemLength(item)].Keyword?
    ensures ItemLaidOut(ts, pos, item) && |ItemTokens(item)| == ItemLength(item)
    ensures At(ts, pos + ItemLength(item), v)
  {
    AtConcat(ts, pos, ItemTokens(item), v);
    AtFirst(ts, pos, ItemTokens(item));
    if item.1 {
      AtFirst(ts, pos + 1, ItemTokens(item)[1..]);
    }
  }

  /** The token after an ordering list written before ';' is ',' or that
      ';'. */
  lemma {:induction false} AfterItem(ts: seq<Token>, pos: nat, items: seq<(string, bool)>, end: nat)
    requires At(ts, pos, OrderTail(items)) && end == pos + |OrderTail(items)| && IsSymbolAt(ts, end, ';')
    ensures pos < |ts| && !ts[pos].Keyword?
  {
    if items != [] {
      AtCons(ts, pos, Symbol(','), ItemTokens(items[0]) + OrderTail(items[1..]));
    }
  }

  lemma {:induction false} OrderTailLaidOutAt(ts: seq<Token>, pos: nat, items: seq<(string, bool)>, end: nat)
    requires At(ts, pos, OrderTail(items)) && end == pos + |OrderTail(items)| && IsSymbolAt(ts, end, ';')
    ensures OrderTailLaidOut(ts, pos, items, end)
    decreases |items|
  {
    if items != [] {
      var rest := OrderTail(items[1..]);
      AtCons(ts, pos, Symbol(','), ItemTokens(items[0]) + rest);
      AtConcat(ts, pos + 1, ItemTokens(items[0]), rest);
      AfterItem(ts, pos + 1 + |ItemTokens(items[0])|, items[1..], end);
      ItemLaidOutAt(ts, pos + 1, items[0], rest);
      OrderTailLaidOutAt(ts, pos + 1 + ItemLength(items[0]), items[1..], end);
    }
  }

  lemma {:induction false} OrderLaidOutAt(ts: seq<Token>, pos: nat, items: seq<(string, bool)>, end: nat)
    requires At(ts, pos, OrderTokens(items)) && end == pos + |OrderTokens(items)| && IsSymbolAt(ts, end, ';')
    ensures OrderLaidOut(ts, pos, items, end)
  {
    if items != [] {
      var rest := OrderTail(items[1..]);
      OrderHeadAt(ts, pos, ItemTokens(items[0]) + rest);
      AtConcat(ts, pos + 2, ItemTokens(items[0]), rest);
      AfterItem(ts, pos + 2 + |ItemTokens(items[0])|, items[1..], end);
      ItemLaidOutAt(ts, pos + 2, items[0], rest);
      OrderTailLaidOutAt(ts, pos + 2 + ItemLength(items[0]), items[1..], end);
    }
  }

  lemma {:induction false} OrderHeadAt(ts: seq<Token>, pos: nat, v: seq<Token>)
    requires At(ts, pos, [Keyword("ORDER"), Keyword("BY")] + v)
    ensures IsKeywordAt(ts, pos, "ORDER") && IsKeywordAt(ts, pos + 1, "BY") && At(ts, pos + 2, v)
  {
    assert [Keyword("ORDER"), Keyword("BY")] + v == [Keyword("ORDER")] + ([Keyword("BY")] + v);
    AtCons(ts, pos, Keyword("ORDER"), [Keyword("BY")] + v);
    AtCons(ts, pos + 1, Keyword("BY"), v);
  }

  /** An ordering column is read with its direction. */
  lemma {:induction false} ItemParses(ts: seq<Token>, pos: nat, item: (string, bool))
    requires ItemLaidOut(ts, pos, item)
    ensures ParseOrderByColumn(ts, pos) == Ok(((item.0, Direction(item.1)), pos + ItemLength(item)))
  {
  }

  lemma {:induction false} OrderTailStep(ts: seq<Token>, pos: nat, orderBy: seq<(string, string)>, item: (string, string), next: nat)
    requires pos < |ts| && IsSymbolAt(ts, pos, ',') && ParseOrderByColumn(ts, pos + 1) == Ok((item, next))
    requires forall i :: 0 <= i < |orderBy| ==> orderBy[i].1 in {"ASC", "DESC"}
    ensures ParseOrderTail(ts, pos, orderBy) == ParseOrderTail(ts, next, orderBy + [item])
  {
  }

  lemma {:induction false} OrderTailParses(ts: seq<Token>, pos: nat, orderBy: seq<(string, string)>, items: seq<(string, bool)>, end: nat)
    requires pos <= |ts| && OrderTailLaidOut(ts, pos, items, end) && end <= |ts| && !IsSymbolAt(ts, end, ',')
    requires forall i :: 0 <= i < |orderBy| ==> orderBy[i].1 in {"ASC", "DESC"}
    ensures ParseOrderTail(ts, pos, orderBy) == Ok((orderBy + OrderPairs(items), end))
    decreases |items|
  {
    if items == [] {
      assert orderBy + OrderPairs(items) == orderBy;
    } else {
      var item := (items[0].0, Direction(items[0].1));
      ItemParses(ts, pos + 1, items[0]);
      OrderTailStep(ts, pos, orderBy, item, pos + 1 + ItemLength(items[0]));
      OrderTailParses(ts, pos + 1 + ItemLength(items[0]), orderBy + [item], items[1..], end);
      SnocAppend(orderBy, item, OrderPairs(items[1..]));
    }
  }

  /** An ORDER BY clause is read column by column, in order. */
  lemma {:induction false} OrderParses(ts: seq<Token>, pos: nat, items: seq<(string, bool)>, end: nat)
    requires pos <= |ts| && OrderLaidOut(ts, pos, items, end) && IsSymbolAt(ts, end, ';')
    ensures ParseOrderClause(ts, pos) == Ok((OrderPairs(items), end))
  {
    if items != [] {
      var item := (items[0].0, Direction(items[0].1));
      ItemParses(ts, pos + 2, items[0]);
      OrderTailParses(ts, pos + 2 + ItemLength(items[0]), [item], items[1..], end);
      OrderOpen(ts, pos, item, pos + 2 + ItemLength(items[0]), OrderPairs(items), end);
    }
  }

  lemma {:induction false} OrderOpen(ts: seq<Token>, pos: nat, item: (string, string), next: nat, orderBy: seq<(string, string)>, end: nat)
    requires IsKeywordAt(ts, pos, "ORDER") && IsKeywordAt(ts, pos + 1, "BY")
    requires ParseOrderByColumn(ts, pos + 2) == Ok((item, next))
    requires item.1 in {"ASC", "DESC"} && ParseOrderTail(ts, next, [item]) == Ok((orderBy, end))
    ensures ParseOrderClause(ts, pos) == Ok((orderBy, end))
  {
  }

  /** What follows the table, laid out from `pos` up to the final ';'. */
  predicate SelectTailLaidOut(ts: seq<Token>, pos: nat, where: Option<Expression>, items: seq<(string, bool)>)
    requires WhereFits(where)
  {
    && pos + |WhereTokens(where)| < |ts|
    && WhereLaidOut(ts, pos, where)
    && OrderLaidOut(ts, pos + |WhereTokens(where)|, items, |ts| - 1)
    && ts[|ts| - 1] == Symbol(';')
  }

  lemma {:induction false} SelectTailLaidOutAt(ts: seq<Token>, pos: nat, where: Option<Expression>, items: seq<(string, bool)>)
    requires WhereFits(where) && At(ts, pos, SelectTail(where, items)) && pos + |SelectTail(where, items)| == |ts|
    ensures SelectTailLaidOut(ts, pos, where, items)
  {
    var w, o := WhereTokens(where), OrderTokens(items);
    var mid, end := pos + |w|, pos + |w| + |o|;
    AtConcat(ts, pos, w, o + [Symbol(';')]);
    AtConcat(ts, mid, o, [Symbol(';')]);
    AtToken(ts, end, Symbol(';'));
    OrderLaidOutAt(ts, mid, items, end);
    WhereBeforeOrder(ts, pos, where, items);
    TailLaidOutFrom(ts, pos, where, items, mid, end);
  }

  /** The three parts of a SELECT tail, each in place, make up the whole tail. */
  lemma {:induction false} TailLaidOutFrom(ts: seq<Token>, pos: nat, where: Option<Expression>, items: seq<(string, bool)>, mid: nat, end: nat)
    requires WhereFits(where) && mid == pos + |WhereTokens(where)| && mid <= end && end + 1 == |ts|
    requires WhereLaidOut(ts, pos, where) && OrderLaidOut(ts, mid, items, end) && ts[end] == Symbol(';')
    ensures SelectTailLaidOut(ts, pos, where, items)
  {
  }

  /** A WHERE clause written before an ORDER BY clause and the final ';'. */
  lemma {:induction false} WhereBeforeOrder(ts: seq<Token>, pos: nat, where: Option<Expression>, items: seq<(string, bool)>)
    requires WhereFits(where) && At(ts, pos, WhereTokens(where))
    requires At(ts, pos + |WhereTokens(where)|, OrderTokens(items))
    requires IsSymbolAt(ts, pos + |WhereTokens(where)| + |OrderTokens(items)|, ';')
    ensures WhereLaidOut(ts, pos, where)
  {
    if where.Some? {
      AtCons(ts, pos, Keyword("WHERE"), Unparse(where.value));
    } else {
      OrderNotWhere(ts, pos, items);
    }
  }

  /** An ORDER BY clause or the final ';' does not start with WHERE. */
  lemma {:induction false} OrderNotWhere(ts: seq<Token>, pos: nat, items: seq<(string, bool)>)
    requires At(ts, pos, OrderTokens(items)) && IsSymbolAt(ts, pos + |OrderTokens(items)|, ';')
    ensures !IsKeywordAt(ts, pos, "WHERE")
  {
    if items != [] {
      OrderHeadAt(ts, pos, ItemTokens(items[0]) + OrderTail(items[1..]));
    }
  }

  /** The condition step of `parse_select`: the WHERE clause, if there is one,
      read up to the next clause. */
  predicate WhereParsed(ts: seq<Token>, pos: nat, condition: Expression, next: nat)
    requires pos <= |ts|
  {
    (if IsKeywordAt(ts, pos, "WHERE") then ParseExpression(ts, pos + 1) else Ok((True, pos))) == Ok((condition, next))
  }

  lemma {:induction false} SelectWhereParses(ts: seq<Token>, pos: nat, where: Option<Expression>, items: seq<(string, bool)>, next: nat)
    requires WhereFits(where) && SelectTailLaidOut(ts, pos, where, items)
    requires next == pos + |WhereTokens(where)|
    ensures WhereParsed(ts, pos, ConditionOf(where), next)
  {
    if where.Some? {
      var e := where.value;
      assert |WhereTokens(where)| == 1 + |Unparse(e)|;
      TailStops(ts, next, items);
      assert IsKeywordAt(ts, pos, "WHERE") && At(ts, pos + 1, Unparse(e));
      WhereSomeParses(ts, pos, e, next);
    } else {
      assert !IsKeywordAt(ts, pos, "WHERE") && next == pos;
    }
  }

  /** What follows the WHERE clause of a SELECT ends an expression. */
  lemma {:induction false} TailStops(ts: seq<Token>, next: nat, items: seq<(string, bool)>)
    requires next < |ts| && OrderLaidOut(ts, next, items, |ts| - 1) && ts[|ts| - 1] == Symbol(';')
    ensures CanStop(ts, next)
  {
    if items != [] {
      assert IsKeywordAt(ts, next, "ORDER");
    } else {
      assert next == |ts| - 1;
    }
  }

  /** `WHERE` and a printed condition, ending where an expression can stop. */
  lemma {:induction false} WhereSomeParses(ts: seq<Token>, pos: nat, e: Expression, next: nat)
    requires ComparisonLeaves(e) && pos < |ts| && IsKeywordAt(ts, pos, "WHERE") && At(ts, pos + 1, Unparse(e))
    requires next == pos + 1 + |Unparse(e)| && CanStop(ts, next)
    ensures WhereParsed(ts, pos, e, next)
  {
    ParseUnparseTo(e, ts, pos + 1, next);
  }

  /** `parse_select` put together from its steps. */
  lemma {:induction false} SelectCombine(ts: seq<Token>, columns: seq<string>, p1: nat, table: string, condition: Expression, p3: nat, orderBy: seq<(string, string)>)
    requires |ts| > 0 && p1 < |ts| && ParseSelectColumns(ts, 1) == Ok((columns, p1)) && ts[p1] == Identifier(table)
    requires p1 + 1 <= p3 <= |ts| && WhereParsed(ts, p1 + 1, condition, p3)
    requires ParseOrderClause(ts, p3) == Ok((orderBy, |ts| - 1)) && ts[|ts| - 1] == Symbol(';')
    ensures ParseSelect(ts) == Ok(Select(columns, table, condition, orderBy))
  {
    assert TableName(ts, p1, "Expected table name after FROM") == Ok((table, p1 + 1));
    assert CheckEndingWithSemicolon(ts, |ts| - 1) == Ok(());
    SelectSteps(ts, columns, p1, table, p1 + 1, condition, p3, orderBy, |ts| - 1);
  }

  lemma {:induction false} SelectTailParses(ts: seq<Token>, columns: seq<string>, p1: nat, table: string, where: Option<Expression>, items: seq<(string, bool)>)
    requires WhereFits(where) && |ts| > 0 && p1 < |ts|
    requires ParseSelectColumns(ts, 1) == Ok((columns, p1)) && ts[p1] == Identifier(table)
    requires SelectTailLaidOut(ts, p1 + 1, where, items)
    ensures ParseSelect(ts) == Ok(Select(columns, table, ConditionOf(where), OrderPairs(items)))
  {
    var p3 := p1 + 1 + |WhereTokens(where)|;
    SelectWhereParses(ts, p1 + 1, where, items, p3);
    SelectOrderParses(ts, p1 + 1, where, items, p3);
    SelectCombine(ts, columns, p1, table, ConditionOf(where), p3, OrderPairs(items));
  }

  /** The ordering step of `parse_select`, read back. */
  lemma {:induction false} SelectOrderParses(ts: seq<Token>, pos: nat, where: Option<Expression>, items: seq<(string, bool)>, next: nat)
    requires WhereFits(where) && SelectTailLaidOut(ts, pos, where, items)
    requires next == pos + |WhereTokens(where)|
    ensures pos <= next <= |ts| && ts[|ts| - 1] == Symbol(';')
    ensures ParseOrderClause(ts, next) == Ok((OrderPairs(items), |ts| - 1))
  {
    var end := |ts| - 1;
    TailOrderPart(ts, pos, where, items, next, end);
    OrderParses(ts, next, items, end);
  }

  /** The ORDER BY part of a SELECT tail, read on its own. */
  lemma {:induction false} TailOrderPart(ts: seq<Token>, pos: nat, where: Option<Expression>, items: seq<(string, bool)>, next: nat, end: nat)
    requires WhereFits(where) && SelectTailLaidOut(ts, pos, where, items)
    requires next == pos + |WhereTokens(where)| && end + 1 == |ts|
    ensures next <= |ts| && OrderLaidOut(ts, next, items, end) && IsSymbolAt(ts, end, ';')
  {
  }

  lemma {:induction false} SelectAllLayout(table: string, where: Option<Expression>, items: seq<(string, bool)>)
    requires WhereFits(where)
    ensures var ts := SelectAllTokens(table, where, items);
            |ts| > 4 && ts[1] == Symbol('*') && ts[2] == Keyword("FROM") && ts[3] == Identifier(table)
            && SelectTailLaidOut(ts, 4, where, items)
  {
    var ts := SelectAllTokens(table, where, items);
    SelectAllHead(ts, table, SelectTail(where, items));
    SelectTailLaidOutAt(ts, 4, where, items);
  }

  /** The four tokens `SELECT * FROM <table>` in front of the tail. */
  lemma {:induction false} SelectAllHead(ts: seq<Token>, table: string, tail: seq<Token>)
    requires ts == [Keyword("SELECT"), Symbol('*'), Keyword("FROM"), Identifier(table)] + tail
    ensures ts[1] == Symbol('*') && ts[2] == Keyword("FROM") && ts[3] == Identifier(table)
    ensures At(ts, 4, tail) && 4 + |tail| == |ts|
  {
    assert ts[4..] == tail;
  }

  /** `SELECT * FROM <table> [WHERE …] [ORDER BY …];` written out and parsed
      back gives no column list (every column), the table, the condition
      (true for every row without WHERE) and the ordering columns in order,
      each ascending unless written with DESC. */
  lemma {:induction false} SelectAllRoundTrip(table: string, where: Option<Expression>, items: seq<(string, bool)>)
    requires WhereFits(where)
    ensures ParseSelect(SelectAllTokens(table, where, items)) == Ok(Select([], table, ConditionOf(where), OrderPairs(items)))
  {
    var ts := SelectAllTokens(table, where, items);
    SelectAllLayout(table, where, items);
    SelectTailParses(ts, [], 3, table, where, items);
  }

  /** Column names and commas up to FROM are collected, commas skipped
      wherever they stand, and the token after FROM is consumed with it. */
  lemma {:induction false} SelectColumnListParses(ts: seq<Token>, pos: nat, columns: seq<string>, u: seq<Token>)
    requires NameList(u) && At(ts, pos, u) && IsKeywordAt(ts, pos + |u|, "FROM") && pos + |u| + 1 < |ts|
    ensures ParseSelectColumnList(ts, pos, columns) == Ok((columns + Names(u), pos + |u| + 2))
    decreases |u|
  {
    if u == [] {
      assert columns + Names(u) == columns;
    } else {
      AtFirst(ts, pos, u);
      assert NameList(u[1..]);
      if u[0].Identifier? {
        SelectColumnListParses(ts, pos + 1, columns + [u[0].text], u[1..]);
        assert Names(u) == [u[0].text] + Names(u[1..]);
        assert columns + [u[0].text] + Names(u[1..]) == columns + Names(u);
      } else {
        SelectColumnListParses(ts, pos + 1, columns, u[1..]);
        assert Names(u) == Names(u[1..]);
      }
    }
  }

  lemma {:induction false} SelectListLayout(names: seq<Token>, skipped: Token, table: string, where: Option<Expression>, items: seq<(string, bool)>)
    requires WhereFits(where)
    ensures var ts := SelectListTokens(names, skipped, table, where, items);
            && |ts| > 3 + |names| && At(ts, 1, names) && ts[1 + |names|] == Keyword("FROM")
            && ts[3 + |names|] == Identifier(table) && SelectTailLaidOut(ts, 4 + |names|, where, items)
  {
    var ts := SelectListTokens(names, skipped, table, where, items);
    SelectListFromParts(ts, names, skipped, table, SelectTail(where, items));
    SelectTailLaidOutAt(ts, 4 + |names|, where, items);
  }

  lemma {:induction false} SelectListFromParts(ts: seq<Token>, names: seq<Token>, skipped: Token, table: string, tail: seq<Token>)
    requires ts == [Keyword("SELECT")] + (names + ([Keyword("FROM"), skipped, Identifier(table)] + tail))
    ensures |ts| == 4 + |names| + |tail| && At(ts, 1, names) && At(ts, 4 + |names|, tail)
    ensures ts[1 + |names|] == Keyword("FROM") && ts[3 + |names|] == Identifier(table)
  {
    var rest := [Keyword("FROM"), skipped, Identifier(table)] + tail;
    assert ts[1..] == names + rest;
    AtConcat(ts, 1, names, rest);
    assert ts[1 + |names|..] == rest;
    assert ts[4 + |names|..] == tail;
  }

  lemma {:induction false} SelectListColumns(ts: seq<Token>, names: seq<Token>)
    requires NameList(names) && At(ts, 1, names) && IsKeywordAt(ts, 1 + |names|, "FROM") && 2 + |names| < |ts|
    ensures ParseSelectColumns(ts, 1) == Ok((Names(names), 3 + |names|))
  {
    SelectColumnListParses(ts, 1, [], names);
    assert [] + Names(names) == Names(names);
    if names != [] {
      AtFirst(ts, 1, names);
    }
  }

  /** `SELECT <names> FROM <skipped> <table> …` written out and parsed back
      gives the listed column names in order, the table named by the token
      after `skipped`, the condition and the ordering: with a column list
      the token right after FROM never names the table. */
  lemma {:induction false} SelectListRoundTrip(names: seq<Token>, skipped: Token, table: string, where: Option<Expression>, items: seq<(string, bool)>)
    requires NameList(names) && WhereFits(where)
    ensures ParseSelect(SelectListTokens(names, skipped, table, where, items))
            == Ok(Select(Names(names), table, ConditionOf(where), OrderPairs(items)))
  {
    var ts := SelectListTokens(names, skipped, table, where, items);
    SelectListLayout(names, skipped, table, where, items);
    SelectListColumns(ts, names);
    SelectTailParses(ts, Names(names), 3 + |names|, table, where, items);
  }

  /** `SELECT a FROM t;` is rejected: the table name is read from the token
      after `t`, which is the ';'. */
  lemma {:induction false} SelectListMissesTable(column: string, table: string)
    ensures ParseSelect([Keyword("SELECT"), Identifier(column), Keyword("FROM"), Identifier(table), Symbol(';')])
            == Err(InvalidSyntax("Expected table name after FROM"))
  {
    var ts := [Keyword("SELECT"), Identifier(column), Keyword("FROM"), Identifier(table), Symbol(';')];
    assert ParseSelectColumnList(ts, 2, [column]) == Ok(([column], 4));
    assert [] + [ts[1].text] == [column];
    assert ParseSelectColumnList(ts, 1, []) == Ok(([column], 4));
    assert ParseSelectColumns(ts, 1) == Ok(([column], 4));
  }
}
