/** The command grammar written out as token sequences, and the proofs that
    each command parser reads back what these printers write.  The printers
    produce the forms documented in src/command_parser.rs; the round-trip
    lemmas state that the parsers invert them, and the quirk lemmas state
    where the parsers accept or reject other forms. */
module CommandSyntax {
  import opened CustomErrors
  import opened Tokenizer
  import opened Expressions
  import opened ExpressionParser
  import opened CommandParser
  import Rows

  //
  // Lists inside parentheses
  //

  /** Column-list contents: identifiers, with commas anywhere among them. */
  predicate NameList(u: seq<Token>) {
    forall k :: 0 <= k < |u| ==> u[k].Identifier? || u[k] == Symbol(',')
  }

  /** Value-list contents: literals, with commas anywhere among them. */
  predicate ItemList(u: seq<Token>) {
    forall k :: 0 <= k < |u| ==> IsLiteralToken(u[k]) || u[k] == Symbol(',')
  }

  /** `t1 , t2 , … , tn`. */
  function CommaList(items: seq<Token>): seq<Token> {
    if |items| <= 1 then items else [items[0], Symbol(',')] + CommaList(items[1..])
  }

  function IdentifierTokens(names: seq<string>): (u: seq<Token>)
    ensures |u| == |names|
  {
    if names == [] then [] else [Identifier(names[0])] + IdentifierTokens(names[1..])
  }

  lemma {:induction false} AtCons(ts: seq<Token>, pos: nat, t: Token, u: seq<Token>)
    requires At(ts, pos, [t] + u)
    ensures pos < |ts| && ts[pos] == t && At(ts, pos + 1, u)
  {
    AtConcat(ts, pos, [t], u);
    AtToken(ts, pos, t);
  }

  lemma {:induction false} AtFirst(ts: seq<Token>, pos: nat, u: seq<Token>)
    requires u != [] && At(ts, pos, u)
    ensures pos < |ts| && ts[pos] == u[0] && At(ts, pos + 1, u[1..])
  {
    assert u == [u[0]] + u[1..];
    AtCons(ts, pos, u[0], u[1..]);
  }

  /** Identifiers and commas up to ')' are collected whole: the commas are
      skipped wherever they stand. */
  lemma {:induction false} ColumnListParses(ts: seq<Token>, pos: nat, columns: seq<string>, u: seq<Token>)
    requires NameList(u) && At(ts, pos, u) && IsSymbolAt(ts, pos + |u|, ')')
    ensures ParseColumnList(ts, pos, columns) == Ok((columns + Names(u), pos + |u| + 1))
    decreases |u|
  {
    if u == [] {
      assert columns + Names(u) == columns;
    } else {
      AtFirst(ts, pos, u);
      assert NameList(u[1..]);
      if u[0].Identifier? {
        ColumnListParses(ts, pos + 1, columns + [u[0].text], u[1..]);
        assert Names(u) == [u[0].text] + Names(u[1..]);
        assert columns + [u[0].text] + Names(u[1..]) == columns + Names(u);
      } else {
        ColumnListParses(ts, pos + 1, columns, u[1..]);
        assert Names(u) == Names(u[1..]);
      }
    }
  }

  /** Literals and commas up to ')' are collected whole, each literal in the
      next free position. */
  lemma {:induction false} ValueItemsParse(ts: seq<Token>, pos: nat, columns: seq<string>, placed: seq<string>, u: seq<Token>)
    requires ItemList(u) && |placed| + |Texts(u)| <= |columns|
    requires At(ts, pos, u) && IsSymbolAt(ts, pos + |u|, ')')
    ensures ParseValueItems(ts, pos, columns, placed) == Ok((Some(placed + Texts(u)), pos + |u| + 1))
    decreases |u|
  {
    if u == [] {
      ItemsClose(ts, pos, columns, placed);
      assert placed + Texts(u) == placed;
    } else {
      AtFirst(ts, pos, u);
      assert ItemList(u[1..]);
      var placed' := if IsLiteralToken(u[0]) then placed + [u[0].text] else placed;
      assert placed' + Texts(u[1..]) == placed + Texts(u) by {
        assert Texts(u) == (if IsLiteralToken(u[0]) then [u[0].text] else []) + Texts(u[1..]);
      }
      ItemsStep(ts, pos, columns, placed);
      ValueItemsParse(ts, pos + 1, columns, placed', u[1..]);
    }
  }

  /** One literal or comma inside a value list. */
  lemma {:induction false} ItemsStep(ts: seq<Token>, pos: nat, columns: seq<string>, placed: seq<string>)
    requires pos < |ts| && (IsLiteralToken(ts[pos]) || ts[pos] == Symbol(','))
    requires IsLiteralToken(ts[pos]) ==> |placed| < |columns|
    requires |placed| <= |columns|
    ensures ParseValueItems(ts, pos, columns, placed)
         == ParseValueItems(ts, pos + 1, columns, if IsLiteralToken(ts[pos]) then placed + [ts[pos].text] else placed)
  {
  }

  lemma {:induction false} ItemsClose(ts: seq<Token>, pos: nat, columns: seq<string>, placed: seq<string>)
    requires |placed| <= |columns| && IsSymbolAt(ts, pos, ')')
    ensures ParseValueItems(ts, pos, columns, placed) == Ok((Some(placed), pos + 1))
  {
  }

  /** `c1 , … , cn` is a column list naming exactly `c1 … cn`. */
  lemma {:induction false} CommaListNames(names: seq<string>)
    ensures NameList(CommaList(IdentifierTokens(names)))
    ensures Names(CommaList(IdentifierTokens(names))) == names
    decreases |names|
  {
    var u := CommaList(IdentifierTokens(names));
    if |names| > 1 {
      CommaListNames(names[1..]);
      assert IdentifierTokens(names)[1..] == IdentifierTokens(names[1..]);
      var rest := CommaList(IdentifierTokens(names[1..]));
      assert u == [Identifier(names[0]), Symbol(',')] + rest;
      assert u[2..] == rest && u[1..] == [Symbol(',')] + rest;
      assert Names(u) == [names[0]] + Names(u[1..]);
      assert Names(u[1..]) == Names(rest);
      assert names == [names[0]] + names[1..];
    } else if |names| == 1 {
      assert names[1..] == [];
      assert IdentifierTokens(names) == [Identifier(names[0])] + IdentifierTokens([]);
      assert u == [Identifier(names[0])];
      assert Names(u) == [names[0]] + Names(u[1..]);
      assert u[1..] == [];
    }
  }

  //
  // INSERT
  //

  /** Each value tuple holds only literals and commas, and no more literals
      than there are columns. */
  predicate TuplesFit(tuples: seq<seq<Token>>, columns: seq<string>) {
    forall i :: 0 <= i < |tuples| ==> ItemList(tuples[i]) && |Texts(tuples[i])| <= |columns|
  }

  /** The rows an INSERT of these tuples pushes: each tuple's literals bound
      to the columns in order. */
  function RowMaps(columns: seq<string>, tuples: seq<seq<Token>>): seq<map<string, string>>
    requires TuplesFit(tuples, columns)
  {
    if tuples == [] then [] else [Rows.Bind(columns, Texts(tuples[0]))] + RowMaps(columns, tuples[1..])
  }

  /** `, (u2) , (u3) …` after the first tuple. */
  function TuplesTail(tuples: seq<seq<Token>>): seq<Token> {
    if tuples == [] then [] else [Symbol(',')] + (Paren(tuples[0]) + TuplesTail(tuples[1..]))
  }

  /** `(u1) , (u2) …`. */
  function Tuples(tuples: seq<seq<Token>>): seq<Token> {
    if tuples == [] then [] else Paren(tuples[0]) + TuplesTail(tuples[1..])
  }

  /** `INSERT INTO t (names) VALUES (u1), (u2), …;` */
  function InsertTokens(table: string, names: seq<Token>, tuples: seq<seq<Token>>): seq<Token> {
    [Keyword("INSERT"), Keyword("INTO"), Identifier(table)]
      + (Paren(names) + (([Keyword("VALUES")] + Tuples(tuples)) + [Symbol(';')]))
  }

  /** `( u )` lies in `ts` at `pos`. */
  predicate ParenAt(ts: seq<Token>, pos: nat, u: seq<Token>) {
    IsSymbolAt(ts, pos, '(') && At(ts, pos + 1, u) && IsSymbolAt(ts, pos + 1 + |u|, ')')
  }

  /** A parenthesised column list is read back as the names in it. */
  lemma {:induction false} ColumnsParse(ts: seq<Token>, pos: nat, u: seq<Token>)
    requires NameList(u) && ParenAt(ts, pos, u)
    ensures ParseInsertColumns(ts, pos) == Ok((Names(u), pos + |u| + 2))
  {
    var names, next := Names(u), pos + |u| + 2;
    ColumnListParses(ts, pos + 1, [], u);
    var r := ParseColumnList(ts, pos + 1, []);
    assert r == Ok(([] + names, next));
    assert [] + names == names;
    OpenColumns(ts, pos, names, next);
  }

  lemma {:induction false} OpenColumns(ts: seq<Token>, pos: nat, columns: seq<string>, next: nat)
    requires pos < |ts| && IsSymbolAt(ts, pos, '(') && ParseColumnList(ts, pos + 1, []) == Ok((columns, next))
    ensures ParseInsertColumns(ts, pos) == Ok((columns, next))
  {
  }

  /** A parenthesised value list pushes the row binding its literals to the
      columns in order. */
  lemma {:induction false} TupleParses(ts: seq<Token>, pos: nat, columns: seq<string>, u: seq<Token>)
    requires ItemList(u) && |Texts(u)| <= |columns| && ParenAt(ts, pos, u)
    ensures ParseValue(ts, pos, columns) == Ok(([Rows.Bind(columns, Texts(u))], pos + |u| + 2))
  {
    var texts := Texts(u);
    ValueItemsParse(ts, pos + 1, columns, [], u);
    assert [] + texts == texts;
    assert ParseValueItems(ts, pos + 1, columns, []) == Ok((Some(texts), pos + |u| + 2));
    OpenTuple(ts, pos, columns, texts, pos + |u| + 2);
  }

  lemma {:induction false} OpenTuple(ts: seq<Token>, pos: nat, columns: seq<string>, placed: seq<string>, next: nat)
    requires pos < |ts| && IsSymbolAt(ts, pos, '(') && ParseValueItems(ts, pos + 1, columns, []) == Ok((Some(placed), next))
    ensures ParseValue(ts, pos, columns) == Ok(([Rows.Bind(columns, placed)], next))
  {
  }

  /** The tuples after the first lie in `ts` from `pos`, each preceded by a
      comma, and end at `end`. */
  predicate TailLaidOut(ts: seq<Token>, pos: nat, tuples: seq<seq<Token>>, end: nat)
    decreases |tuples|
  {
    if tuples == [] then end == pos
    else IsSymbolAt(ts, pos, ',') && ParenAt(ts, pos + 1, tuples[0])
         && TailLaidOut(ts, pos + 3 + |tuples[0]|, tuples[1..], end)
  }

  lemma {:induction false} TailLaidOutAt(ts: seq<Token>, pos: nat, tuples: seq<seq<Token>>)
    requires At(ts, pos, TuplesTail(tuples))
    ensures TailLaidOut(ts, pos, tuples, pos + |TuplesTail(tuples)|)
    decreases |tuples|
  {
    if tuples != [] {
      var rest := TuplesTail(tuples[1..]);
      assert TuplesTail(tuples) == [Symbol(',')] + (Paren(tuples[0]) + rest);
      AtTokenParen(ts, pos, Symbol(','), tuples[0], rest);
      TailLaidOutAt(ts, pos + 3 + |tuples[0]|, tuples[1..]);
    }
  }

  /** `( u ) v` at `pos`. */
  lemma {:induction false} AtParenThen(ts: seq<Token>, pos: nat, u: seq<Token>, v: seq<Token>)
    requires At(ts, pos, Paren(u) + v)
    ensures ParenAt(ts, pos, u) && At(ts, pos + 2 + |u|, v)
  {
    AtConcat(ts, pos, Paren(u), v);
    AtParen(ts, pos, u);
  }

  /** `t ( u ) v` at `pos`. */
  lemma {:induction false} AtTokenParen(ts: seq<Token>, pos: nat, t: Token, u: seq<Token>, v: seq<Token>)
    requires At(ts, pos, [t] + (Paren(u) + v))
    ensures pos < |ts| && ts[pos] == t && ParenAt(ts, pos + 1, u) && At(ts, pos + 3 + |u|, v)
    ensures |[t] + (Paren(u) + v)| == 3 + |u| + |v|
  {
    AtCons(ts, pos, t, Paren(u) + v);
    AtParenThen(ts, pos + 1, u, v);
  }

  lemma {:induction false} TailStep(ts: seq<Token>, pos: nat, columns: seq<string>, values: seq<map<string, string>>, more: seq<map<string, string>>, next: nat)
    requires pos <= |ts| && IsSymbolAt(ts, pos, ',')
    requires ParseValue(ts, pos + 1, columns) == Ok((more, next))
    ensures next <= |ts|
    ensures ParseValuesTail(ts, pos, columns, values) == ParseValuesTail(ts, next, columns, values + more)
  {
  }

  lemma {:induction false} SnocAppend<T>(xs: seq<T>, x: T, ys: seq<T>)
    ensures xs + [x] + ys == xs + ([x] + ys)
  {
  }

  /** Comma-separated tuples after the first are pushed in order. */
  lemma {:induction false} TuplesTailParses(ts: seq<Token>, pos: nat, columns: seq<string>, values: seq<map<string, string>>, tuples: seq<seq<Token>>, end: nat)
    requires TuplesFit(tuples, columns)
    requires pos <= |ts| && TailLaidOut(ts, pos, tuples, end) && !IsSymbolAt(ts, end, ',')
    ensures ParseValuesTail(ts, pos, columns, values) == Ok((values + RowMaps(columns, tuples), end))
    decreases |tuples|
  {
    if tuples == [] {
      assert values + RowMaps(columns, tuples) == values;
    } else {
      var next := pos + 3 + |tuples[0]|;
      var row := Rows.Bind(columns, Texts(tuples[0]));
      assert TuplesFit(tuples[1..], columns);
      TupleParses(ts, pos + 1, columns, tuples[0]);
      TailStep(ts, pos, columns, values, [row], next);
      TuplesTailParses(ts, next, columns, values + [row], tuples[1..], end);
      SnocAppend(values, row, RowMaps(columns, tuples[1..]));
    }
  }

  /** VALUES and then the tuples lie in `ts` from `pos` and end at `end`. */
  predicate ValuesLaidOut(ts: seq<Token>, pos: nat, tuples: seq<seq<Token>>, end: nat) {
    && IsKeywordAt(ts, pos, "VALUES")
    && if tuples == [] then end == pos + 1
       else ParenAt(ts, pos + 1, tuples[0]) && TailLaidOut(ts, pos + 3 + |tuples[0]|, tuples[1..], end)
  }

  lemma {:induction false} ValuesLaidOutAt(ts: seq<Token>, pos: nat, tuples: seq<seq<Token>>)
    requires At(ts, pos, [Keyword("VALUES")] + Tuples(tuples))
    ensures ValuesLaidOut(ts, pos, tuples, pos + 1 + |Tuples(tuples)|)
  {
    if tuples == [] {
      AtCons(ts, pos, Keyword("VALUES"), []);
    } else {
      ValuesSomeAt(ts, pos, tuples);
    }
  }

  lemma {:induction false} ValuesSomeAt(ts: seq<Token>, pos: nat, tuples: seq<seq<Token>>)
    requires tuples != [] && At(ts, pos, [Keyword("VALUES")] + (Paren(tuples[0]) + TuplesTail(tuples[1..])))
    ensures ValuesLaidOut(ts, pos, tuples, pos + 3 + |tuples[0]| + |TuplesTail(tuples[1..])|)
  {
    var rest := TuplesTail(tuples[1..]);
    ValuesFirstAt(ts, pos, tuples[0], rest);
    TailLaidOutAt(ts, pos + 3 + |tuples[0]|, tuples[1..]);
  }

  lemma {:induction false} ValuesFirstAt(ts: seq<Token>, pos: nat, u: seq<Token>, rest: seq<Token>)
    requires At(ts, pos, [Keyword("VALUES")] + (Paren(u) + rest))
    ensures IsKeywordAt(ts, pos, "VALUES") && ParenAt(ts, pos + 1, u) && At(ts, pos + 3 + |u|, rest)
  {
    AtTokenParen(ts, pos, Keyword("VALUES"), u, rest);
  }

  /** VALUES followed by tuples and then ';' gives one row per tuple, in
      order. */
  lemma {:induction false} ValuesParse(ts: seq<Token>, pos: nat, columns: seq<string>, tuples: seq<seq<Token>>, end: nat)
    requires TuplesFit(tuples, columns)
    requires pos <= |ts| && ValuesLaidOut(ts, pos, tuples, end) && IsSymbolAt(ts, end, ';')
    ensures ParseValues(ts, pos, columns) == Ok((RowMaps(columns, tuples), end))
  {
    if tuples == [] {
      assert ParseValue(ts, pos + 1, columns) == Ok(([], pos + 1));
      assert ParseValuesTail(ts, pos + 1, columns, []) == Ok(([], pos + 1));
    } else {
      var row := Rows.Bind(columns, Texts(tuples[0]));
      TupleParses(ts, pos + 1, columns, tuples[0]);
      assert TuplesFit(tuples[1..], columns);
      TuplesTailParses(ts, pos + 3 + |tuples[0]|, columns, [row], tuples[1..], end);
    }
  }

  /** The parts of an INSERT statement laid out in `ts`. */
  predicate InsertLaidOut(ts: seq<Token>, table: string, names: seq<Token>, tuples: seq<seq<Token>>) {
    && |ts| >= 3 + |names| + 2 + 1
    && ts[0] == Keyword("INSERT") && ts[1] == Keyword("INTO") && ts[2] == Identifier(table)
    && ParenAt(ts, 3, names)
    && ValuesLaidOut(ts, 5 + |names|, tuples, |ts| - 1)
    && ts[|ts| - 1] == Symbol(';')
  }

  lemma {:induction false} InsertLayout(table: string, names: seq<Token>, tuples: seq<seq<Token>>)
    ensures InsertLaidOut(InsertTokens(table, names, tuples), table, names, tuples)
  {
    var ts := InsertTokens(table, names, tuples);
    var head := [Keyword("INSERT"), Keyword("INTO"), Identifier(table)];
    var vals := [Keyword("VALUES")] + Tuples(tuples);
    LaidOutFromParts(ts, head, names, vals, table, tuples);
  }

  lemma {:induction false} LaidOutFromParts(ts: seq<Token>, head: seq<Token>, names: seq<Token>, vals: seq<Token>, table: string, tuples: seq<seq<Token>>)
    requires head == [Keyword("INSERT"), Keyword("INTO"), Identifier(table)]
    requires vals == [Keyword("VALUES")] + Tuples(tuples)
    requires ts == head + (Paren(names) + (vals + [Symbol(';')]))
    ensures InsertLaidOut(ts, table, names, tuples)
  {
    assert ts[0] == Keyword("INSERT") && ts[1] == Keyword("INTO") && ts[2] == Identifier(table);
    assert ts[3..] == Paren(names) + (vals + [Symbol(';')]);
    assert At(ts, 3, Paren(names) + (vals + [Symbol(';')]));
    AtParenThen(ts, 3, names, vals + [Symbol(';')]);
    AtConcat(ts, 5 + |names|, vals, [Symbol(';')]);
    AtToken(ts, 5 + |names| + |vals|, Symbol(';'));
    ValuesLaidOutAt(ts, 5 + |names|, tuples);
  }

  /** INSERT INTO, the table, then a column list and values that parse. */
  lemma {:induction false} InsertCombine(ts: seq<Token>, table: string, columns: seq<string>, values: seq<map<string, string>>, p: nat)
    requires 3 <= p < |ts| && ts[0] == Keyword("INSERT") && ts[1] == Keyword("INTO") && ts[2] == Identifier(table)
    requires ParseInsertColumns(ts, 3) == Ok((columns, p))
    requires ParseValues(ts, p, columns) == Ok((values, |ts| - 1)) && ts[|ts| - 1] == Symbol(';')
    ensures ParseInsert(ts) == Ok(Insert(table, columns, values))
  {
  }

  lemma {:induction false} InsertParses(ts: seq<Token>, table: string, names: seq<Token>, tuples: seq<seq<Token>>)
    requires NameList(names) && TuplesFit(tuples, Names(names))
    requires InsertLaidOut(ts, table, names, tuples)
    ensures ParseInsert(ts) == Ok(Insert(table, Names(names), RowMaps(Names(names), tuples)))
  {
    ColumnsParse(ts, 3, names);
    ValuesParse(ts, 5 + |names|, Names(names), tuples, |ts| - 1);
    InsertCombine(ts, table, Names(names), RowMaps(Names(names), tuples), 5 + |names|);
  }

  /** An INSERT written out and parsed back gives the table, the column
      names in order, and for every tuple, in order, the row binding its
      literals to the columns by position; commas inside the parentheses
      may stand anywhere. */
  lemma {:induction false} InsertRoundTrip(table: string, names: seq<Token>, tuples: seq<seq<Token>>)
    requires NameList(names) && TuplesFit(tuples, Names(names))
    ensures ParseInsert(InsertTokens(table, names, tuples)) == Ok(Insert(table, Names(names), RowMaps(Names(names), tuples)))
  {
    InsertLayout(table, names, tuples);
    InsertParses(InsertTokens(table, names, tuples), table, names, tuples);
  }

  /** With the columns written `c1, …, cn` they are read back exactly. */
  lemma {:induction false} InsertColumnsRoundTrip(table: string, columns: seq<string>, tuples: seq<seq<Token>>)
    requires TuplesFit(tuples, columns)
    ensures ParseInsert(InsertTokens(table, CommaList(IdentifierTokens(columns)), tuples)) == Ok(Insert(table, columns, RowMaps(columns, tuples)))
  {
    CommaListNames(columns);
    InsertRoundTrip(table, CommaList(IdentifierTokens(columns)), tuples);
  }
}
