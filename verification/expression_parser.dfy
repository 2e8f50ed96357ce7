/** Recursive-descent parser for WHERE conditions (src/expression_parser.rs).
    Precedence, loosest first: OR, AND, NOT, primary.  The token cursor is
    the pair (tokens, pos); every parser returns the tree together with the
    position just past what it consumed.  Termination: the remaining token
    count, then a precedence level, decreases on every call. */
module ExpressionParser {
  import opened CustomErrors
  import opened Tokenizer
  import opened Expressions

  /** The tree shapes the parser builds: every leaf is a comparison. */
  predicate ComparisonLeaves(e: Expression) {
    match e
    case True => false
    case And(left, right) => ComparisonLeaves(left) && ComparisonLeaves(right)
    case Or(left, right) => ComparisonLeaves(left) && ComparisonLeaves(right)
    case Not(right) => ComparisonLeaves(right)
    case Comparison(_, _, _) => true
  }

  predicate IsLogical(ts: seq<Token>, pos: nat, word: string) {
    pos < |ts| && ts[pos] == LogicalOperator(word)
  }

  predicate IsSymbolAt(ts: seq<Token>, pos: nat, c: char) {
    pos < |ts| && ts[pos] == Symbol(c)
  }

  /** Where a parsed condition may end: at the end of input, or before a token
      that can not continue it (anything but AND and OR). */
  predicate CanStop(ts: seq<Token>, pos: nat) {
    !IsLogical(ts, pos, "AND") && !IsLogical(ts, pos, "OR")
  }

  predicate IsOperandToken(t: Token) {
    t.Identifier? || t.String? || t.Integer?
  }

  /** The token an operand is written as. */
  function OperandToken(o: Operand): (t: Token)
    ensures IsOperandToken(t)
  {
    match o
    case Column(name) => Identifier(name)
    case String(text) => Token.String(text)
    case Integer(text) => Token.Integer(text)
  }

  /** Debug rendering of a token, as it appears in "Invalid operand" messages. */
  function DebugToken(t: Token): string {
    match t
    case Keyword(k) => "Keyword(\"" + k + "\")"
    case LogicalOperator(k) => "LogicalOperator(\"" + k + "\")"
    case ComparisonOperator(k) => "ComparisonOperator(\"" + k + "\")"
    case Identifier(k) => "Identifier(\"" + k + "\")"
    case String(k) => "String(\"" + k + "\")"
    case Integer(k) => "Integer(\"" + k + "\")"
    case Symbol(c) => "Symbol('" + [c] + "')"
  }

  function ParseExpression(ts: seq<Token>, pos: nat): (r: Result<(Expression, nat)>)
    requires pos <= |ts|
    ensures r.Ok? ==> pos < r.value.1 <= |ts| && ComparisonLeaves(r.value.0) && CanStop(ts, r.value.1)
    decreases |ts| - pos, 6
  {
    ParseOr(ts, pos)
  }

  /** and_expr ( OR and_expr )*, left-associative. */
  function ParseOr(ts: seq<Token>, pos: nat): (r: Result<(Expression, nat)>)
    requires pos <= |ts|
    ensures r.Ok? ==> pos < r.value.1 <= |ts| && ComparisonLeaves(r.value.0) && CanStop(ts, r.value.1)
    decreases |ts| - pos, 5
  {
    var (left, next) :- ParseAnd(ts, pos);
    ParseOrTail(ts, next, left)
  }

  /** The `while let Some(OR)` loop of the OR level, with the tree so far. */
  function ParseOrTail(ts: seq<Token>, pos: nat, left: Expression): (r: Result<(Expression, nat)>)
    requires pos <= |ts| && ComparisonLeaves(left) && !IsLogical(ts, pos, "AND")
    ensures r.Ok? ==> pos <= r.value.1 <= |ts| && ComparisonLeaves(r.value.0) && CanStop(ts, r.value.1)
    decreases |ts| - pos, 4
  {
    if IsLogical(ts, pos, "OR") then
      var (right, next) :- ParseAnd(ts, pos + 1);
      ParseOrTail(ts, next, Or(left, right))
    else
      Ok((left, pos))
  }

  /** not_expr ( AND not_expr )*, left-associative. */
  function ParseAnd(ts: seq<Token>, pos: nat): (r: Result<(Expression, nat)>)
    requires pos <= |ts|
    ensures r.Ok? ==> pos < r.value.1 <= |ts| && ComparisonLeaves(r.value.0) && !IsLogical(ts, r.value.1, "AND")
    decreases |ts| - pos, 3
  {
    var (left, next) :- ParseNot(ts, pos);
    ParseAndTail(ts, next, left)
  }

  function ParseAndTail(ts: seq<Token>, pos: nat, left: Expression): (r: Result<(Expression, nat)>)
    requires pos <= |ts| && ComparisonLeaves(left)
    ensures r.Ok? ==> pos <= r.value.1 <= |ts| && ComparisonLeaves(r.value.0) && !IsLogical(ts, r.value.1, "AND")
    decreases |ts| - pos, 2
  {
    if IsLogical(ts, pos, "AND") then
      var (right, next) :- ParseNot(ts, pos + 1);
      ParseAndTail(ts, next, And(left, right))
    else
      Ok((left, pos))
  }

  /** NOT applies to exactly one primary. */
  function ParseNot(ts: seq<Token>, pos: nat): (r: Result<(Expression, nat)>)
    requires pos <= |ts|
    ensures r.Ok? ==> pos < r.value.1 <= |ts| && ComparisonLeaves(r.value.0)
    decreases |ts| - pos, 1
  {
    if IsLogical(ts, pos, "NOT") then
      var (e, next) :- ParsePrimary(ts, pos + 1);
      Ok((Not(e), next))
    else
      ParsePrimary(ts, pos)
  }

  /** ( expr ) or a comparison. */
  function ParsePrimary(ts: seq<Token>, pos: nat): (r: Result<(Expression, nat)>)
    requires pos <= |ts|
    ensures r.Ok? ==> pos < r.value.1 <= |ts| && ComparisonLeaves(r.value.0)
    ensures r.Ok? && IsSymbolAt(ts, pos, '(') ==> pos + 2 < r.value.1 && IsSymbolAt(ts, r.value.1 - 1, ')')
    decreases |ts| - pos, 0
  {
    if IsSymbolAt(ts, pos, '(') then
      var (e, next) :- ParseExpression(ts, pos + 1);
      if IsSymbolAt(ts, next, ')') then Ok((e, next + 1))
      else Err(InvalidSyntax("Missing closing ')'"))
    else
      ParseComparison(ts, pos)
  }

  /** A parenthesised expression not followed by ')' is an error. */
  lemma {:induction false} PrimaryUnclosed(ts: seq<Token>, pos: nat)
    requires IsSymbolAt(ts, pos, '(')
    requires ParseExpression(ts, pos + 1).Ok? && !IsSymbolAt(ts, ParseExpression(ts, pos + 1).value.1, ')')
    ensures ParsePrimary(ts, pos) == Err(InvalidSyntax("Missing closing ')'"))
  {
  }

  /** operand ComparisonOperator operand; anything else is "Invalid expression". */
  function ParseComparison(ts: seq<Token>, pos: nat): (r: Result<(Expression, nat)>)
    requires pos <= |ts|
    ensures r.Ok? ==>
              && r.value.1 == pos + 3 <= |ts|
              && r.value.0.Comparison?
              && ts[pos] == OperandToken(r.value.0.lhs)
              && ts[pos + 1] == ComparisonOperator(r.value.0.operator)
              && ts[pos + 2] == OperandToken(r.value.0.rhs)
    ensures pos == |ts| || !IsOperandToken(ts[pos]) ==> r == Err(InvalidSyntax("Invalid expression"))
    ensures pos < |ts| && IsOperandToken(ts[pos]) && (pos + 1 == |ts| || !ts[pos + 1].ComparisonOperator?) ==>
              r == Err(InvalidSyntax("Invalid expression"))
  {
    if pos < |ts| && IsOperandToken(ts[pos]) then
      var (lhs, next) := ParseOperand(ts, pos).value;
      if next < |ts| && ts[next].ComparisonOperator? then
        var (rhs, last) :- ParseOperand(ts, next + 1);
        Ok((Comparison(lhs, ts[next].text, rhs), last))
      else
        Err(InvalidSyntax("Invalid expression"))
    else
      Err(InvalidSyntax("Invalid expression"))
  }

  /** Identifier, String and Integer tokens become Column, String and Integer
      operands with their text unchanged. */
  function ParseOperand(ts: seq<Token>, pos: nat): (r: Result<(Operand, nat)>)
    requires pos <= |ts|
    ensures r.Ok? <==> pos < |ts| && IsOperandToken(ts[pos])
    ensures r.Ok? ==> r.value.1 == pos + 1 && OperandToken(r.value.0) == ts[pos]
    ensures pos == |ts| ==> r == Err(InvalidSyntax("No operand provided"))
  {
    if pos < |ts| then
      match ts[pos]
      case Identifier(s) => Ok((Column(s), pos + 1))
      case String(s) => Ok((Operand.String(s), pos + 1))
      case Integer(s) => Ok((Operand.Integer(s), pos + 1))
      case other => Err(InvalidSyntax("Invalid operand " + DebugToken(other)))
    else
      Err(InvalidSyntax("No operand provided"))
  }

  //
  // Round trip with a fully parenthesised printer
  //

  function Paren(u: seq<Token>): seq<Token> {
    [Symbol('(')] + u + [Symbol(')')]
  }

  /** Prints a parser-shaped condition back to tokens, parenthesising every
      operand of AND, OR and NOT. */
  function Unparse(e: Expression): seq<Token>
    requires ComparisonLeaves(e)
  {
    match e
    case Comparison(lhs, operator, rhs) => [OperandToken(lhs), ComparisonOperator(operator), OperandToken(rhs)]
    case And(left, right) => Paren(Unparse(left)) + [LogicalOperator("AND")] + Paren(Unparse(right))
    case Or(left, right) => Paren(Unparse(left)) + [LogicalOperator("OR")] + Paren(Unparse(right))
    case Not(right) => [LogicalOperator("NOT")] + Paren(Unparse(right))
  }

  /** The tokens from `pos` on start with `u`. */
  predicate At(ts: seq<Token>, pos: nat, u: seq<Token>) {
    pos + |u| <= |ts| && ts[pos..pos + |u|] == u
  }

  lemma {:induction false} AtConcat(ts: seq<Token>, pos: nat, u: seq<Token>, v: seq<Token>)
    requires At(ts, pos, u + v)
    ensures At(ts, pos, u) && At(ts, pos + |u|, v)
  {
    assert ts[pos..pos + |u|] == ts[pos..pos + |u| + |v|][..|u|];
    assert ts[pos + |u|..pos + |u| + |v|] == ts[pos..pos + |u| + |v|][|u|..];
  }

  lemma {:induction false} AtToken(ts: seq<Token>, pos: nat, t: Token)
    requires At(ts, pos, [t])
    ensures pos < |ts| && ts[pos] == t
  {
    assert ts[pos] == ts[pos..pos + 1][0];
  }

  lemma {:induction false} AtComparison(e: Expression, ts: seq<Token>, pos: nat)
    requires e.Comparison? && At(ts, pos, Unparse(e))
    ensures ParseNot(ts, pos) == Ok((e, pos + 3))
  {
    var u := Unparse(e);
    assert ts[pos] == u[0] && ts[pos + 1] == u[1] && ts[pos + 2] == u[2] by {
      assert ts[pos..pos + 3] == u;
    }
  }

  lemma {:induction false} ParenPrimary(e: Expression, ts: seq<Token>, pos: nat, end: nat)
    requires ComparisonLeaves(e) && At(ts, pos, Paren(Unparse(e))) && end == pos + |Unparse(e)| + 2
    ensures ParsePrimary(ts, pos) == Ok((e, end))
    decreases e, 3
  {
    AtParen(ts, pos, Unparse(e));
    ParseUnparse(e, ts, pos + 1);
  }

  /** The two parenthesised operands of a printed AND or OR, each read as
      a primary. */
  lemma {:induction false} BothPrimaries(e: Expression, ts: seq<Token>, pos: nat, mid: nat, end: nat)
    requires (e.And? || e.Or?) && ComparisonLeaves(e) && At(ts, pos, Unparse(e))
    requires mid == pos + |Unparse(e.left)| + 2 && end == pos + |Unparse(e)|
    ensures mid < |ts| && ts[mid] == LogicalOperator(if e.And? then "AND" else "OR")
    ensures IsSymbolAt(ts, pos, '(') && IsSymbolAt(ts, mid + 1, '(')
    ensures ParsePrimary(ts, pos) == Ok((e.left, mid))
    ensures ParsePrimary(ts, mid + 1) == Ok((e.right, end))
    decreases e, 0
  {
    OperandsLaidOut(e, ts, pos, mid, end);
    ParenPrimary(e.left, ts, pos, mid);
    ParenPrimary(e.right, ts, mid + 1, end);
  }

  lemma {:induction false} OperandsLaidOut(e: Expression, ts: seq<Token>, pos: nat, mid: nat, end: nat)
    requires (e.And? || e.Or?) && ComparisonLeaves(e) && At(ts, pos, Unparse(e))
    requires mid == pos + |Unparse(e.left)| + 2 && end == pos + |Unparse(e)|
    ensures mid < |ts| && ts[mid] == LogicalOperator(if e.And? then "AND" else "OR")
    ensures IsSymbolAt(ts, pos, '(') && IsSymbolAt(ts, mid + 1, '(')
    ensures At(ts, pos, Paren(Unparse(e.left))) && At(ts, mid + 1, Paren(Unparse(e.right)))
    ensures end == mid + 1 + |Unparse(e.right)| + 2
  {
    var ua, ub := Unparse(e.left), Unparse(e.right);
    var t := LogicalOperator(if e.And? then "AND" else "OR");
    assert Unparse(e) == Paren(ua) + [t] + Paren(ub);
    BinarySplit(ts, pos, ua, t, ub);
  }

  /** Two parenthesised primaries joined by AND. */
  lemma {:induction false} AndOfPrimaries(ts: seq<Token>, pos: nat, mid: nat, end: nat, a: Expression, b: Expression)
    requires pos <= |ts| && mid < |ts| && ts[mid] == LogicalOperator("AND") && CanStop(ts, end)
    requires IsSymbolAt(ts, pos, '(') && IsSymbolAt(ts, mid + 1, '(')
    requires ParsePrimary(ts, pos) == Ok((a, mid)) && ParsePrimary(ts, mid + 1) == Ok((b, end))
    ensures ParseExpression(ts, pos) == Ok((And(a, b), end))
  {
    assert ParseNot(ts, pos) == Ok((a, mid));
    assert ParseNot(ts, mid + 1) == Ok((b, end));
    assert ParseAndTail(ts, end, And(a, b)) == Ok((And(a, b), end));
    assert ParseAndTail(ts, mid, a) == Ok((And(a, b), end));
    assert ParseAnd(ts, pos) == Ok((And(a, b), end));
    assert ParseOrTail(ts, end, And(a, b)) == Ok((And(a, b), end));
  }

  /** Two parenthesised primaries joined by OR. */
  lemma {:induction false} OrOfPrimaries(ts: seq<Token>, pos: nat, mid: nat, end: nat, a: Expression, b: Expression)
    requires pos <= |ts| && mid < |ts| && ts[mid] == LogicalOperator("OR") && CanStop(ts, end)
    requires IsSymbolAt(ts, pos, '(') && IsSymbolAt(ts, mid + 1, '(')
    requires ParsePrimary(ts, pos) == Ok((a, mid)) && ParsePrimary(ts, mid + 1) == Ok((b, end))
    ensures ParseExpression(ts, pos) == Ok((Or(a, b), end))
  {
    assert ParseNot(ts, pos) == Ok((a, mid));
    assert ParseAnd(ts, pos) == Ok((a, mid));
    assert ParseNot(ts, mid + 1) == Ok((b, end));
    assert ParseAnd(ts, mid + 1) == Ok((b, end));
    assert ParseOrTail(ts, end, Or(a, b)) == Ok((Or(a, b), end));
    assert ParseOrTail(ts, mid, a) == Ok((Or(a, b), end));
  }

  /** NOT before a parenthesised primary. */
  lemma {:induction false} NotOfPrimary(ts: seq<Token>, pos: nat, end: nat, a: Expression)
    requires pos < |ts| && ts[pos] == LogicalOperator("NOT") && CanStop(ts, end)
    requires ParsePrimary(ts, pos + 1) == Ok((a, end))
    ensures ParseExpression(ts, pos) == Ok((Not(a), end))
  {
    assert ParseNot(ts, pos) == Ok((Not(a), end));
    assert ParseAndTail(ts, end, Not(a)) == Ok((Not(a), end));
    assert ParseAnd(ts, pos) == Ok((Not(a), end));
    assert ParseOrTail(ts, end, Not(a)) == Ok((Not(a), end));
  }

  lemma {:induction false} UnparseNot(a: Expression, ts: seq<Token>, pos: nat)
    requires ComparisonLeaves(a) && At(ts, pos, Unparse(Not(a))) && CanStop(ts, pos + |Unparse(Not(a))|)
    ensures ParseExpression(ts, pos) == Ok((Not(a), pos + |Unparse(Not(a))|))
    decreases Not(a), 1
  {
    AtConcat(ts, pos, [LogicalOperator("NOT")], Paren(Unparse(a)));
    AtToken(ts, pos, LogicalOperator("NOT"));
    var end := pos + |Unparse(Not(a))|;
    assert Unparse(Not(a)) == [LogicalOperator("NOT")] + Paren(Unparse(a));
    ParenPrimary(a, ts, pos + 1, end);
    NotOfPrimary(ts, pos, end, a);
  }

  /** Splits `( u ) t ( v )` at `pos` into its parts. */
  lemma {:induction false} AtBinary(ts: seq<Token>, pos: nat, u: seq<Token>, t: Token, v: seq<Token>)
    requires At(ts, pos, Paren(u) + [t] + Paren(v))
    ensures At(ts, pos, Paren(u)) && At(ts, pos + |u| + 3, Paren(v))
    ensures pos + |u| + 2 < |ts| && ts[pos + |u| + 2] == t
  {
    AtConcat(ts, pos, Paren(u) + [t], Paren(v));
    AtConcat(ts, pos, Paren(u), [t]);
    AtToken(ts, pos + |u| + 2, t);
  }

  /** The parts of `( u ) t ( v )` at `pos` that the parsers look at. */
  lemma {:induction false} BinarySplit(ts: seq<Token>, pos: nat, u: seq<Token>, t: Token, v: seq<Token>)
    requires At(ts, pos, Paren(u) + [t] + Paren(v))
    ensures |Paren(u) + [t] + Paren(v)| == |u| + |v| + 5
    ensures At(ts, pos, Paren(u)) && At(ts, pos + |u| + 3, Paren(v))
    ensures IsSymbolAt(ts, pos, '(') && IsSymbolAt(ts, pos + |u| + 3, '(')
    ensures pos + |u| + 2 < |ts| && ts[pos + |u| + 2] == t
  {
    AtBinary(ts, pos, u, t, v);
    AtParen(ts, pos, u);
    AtParen(ts, pos + |u| + 3, v);
  }

  lemma {:induction false} AtParen(ts: seq<Token>, pos: nat, u: seq<Token>)
    requires At(ts, pos, Paren(u))
    ensures IsSymbolAt(ts, pos, '(') && At(ts, pos + 1, u) && IsSymbolAt(ts, pos + 1 + |u|, ')')
  {
    AtConcat(ts, pos, [Symbol('(')] + u, [Symbol(')')]);
    AtConcat(ts, pos, [Symbol('(')], u);
    AtToken(ts, pos, Symbol('('));
    AtToken(ts, pos + 1 + |u|, Symbol(')'));
  }

  lemma {:induction false} UnparseAnd(a: Expression, b: Expression, ts: seq<Token>, pos: nat)
    requires ComparisonLeaves(a) && ComparisonLeaves(b)
    requires At(ts, pos, Unparse(And(a, b))) && CanStop(ts, pos + |Unparse(And(a, b))|)
    ensures ParseExpression(ts, pos) == Ok((And(a, b), pos + |Unparse(And(a, b))|))
    decreases And(a, b), 1
  {
    var mid, end := pos + |Unparse(a)| + 2, pos + |Unparse(And(a, b))|;
    BothPrimaries(And(a, b), ts, pos, mid, end);
    AndOfPrimaries(ts, pos, mid, end, a, b);
  }

  lemma {:induction false} UnparseOr(a: Expression, b: Expression, ts: seq<Token>, pos: nat)
    requires ComparisonLeaves(a) && ComparisonLeaves(b)
    requires At(ts, pos, Unparse(Or(a, b))) && CanStop(ts, pos + |Unparse(Or(a, b))|)
    ensures ParseExpression(ts, pos) == Ok((Or(a, b), pos + |Unparse(Or(a, b))|))
    decreases Or(a, b), 1
  {
    var mid, end := pos + |Unparse(a)| + 2, pos + |Unparse(Or(a, b))|;
    BothPrimaries(Or(a, b), ts, pos, mid, end);
    OrOfPrimaries(ts, pos, mid, end, a, b);
  }

  /** Printing a condition and parsing it again gives back the same tree, and
      the cursor stops right after the printed tokens, provided they are not
      followed by AND or OR (which would extend the condition). */
  lemma {:induction false} ParseUnparse(e: Expression, ts: seq<Token>, pos: nat)
    requires ComparisonLeaves(e) && At(ts, pos, Unparse(e)) && CanStop(ts, pos + |Unparse(e)|)
    ensures ParseExpression(ts, pos) == Ok((e, pos + |Unparse(e)|))
    decreases e, 2
  {
    match e
    case Comparison(_, _, _) =>
      AtComparison(e, ts, pos);
      assert |Unparse(e)| == 3;
      assert ParseAndTail(ts, pos + 3, e) == Ok((e, pos + 3));
      assert ParseAnd(ts, pos) == Ok((e, pos + 3));
      assert ParseOrTail(ts, pos + 3, e) == Ok((e, pos + 3));
    case Not(a) => UnparseNot(a, ts, pos);
    case And(a, b) => UnparseAnd(a, b, ts, pos);
    case Or(a, b) => UnparseOr(a, b, ts, pos);
  }

  /** ParseUnparse, with the end of the printed tokens named. */
  lemma {:induction false} ParseUnparseTo(e: Expression, ts: seq<Token>, pos: nat, end: nat)
    requires ComparisonLeaves(e) && At(ts, pos, Unparse(e)) && end == pos + |Unparse(e)| && CanStop(ts, end)
    ensures ParseExpression(ts, pos) == Ok((e, end))
  {
    ParseUnparse(e, ts, pos);
  }

  //
  // Precedence and associativity, on comparisons a, b, c written without
  // parentheses
  //

  lemma {:induction false} ExpressionStep(ts: seq<Token>, pos: nat, left: Expression, next: nat)
    requires pos <= |ts| && ParseAnd(ts, pos) == Ok((left, next))
    ensures ParseExpression(ts, pos) == ParseOrTail(ts, next, left)
  {
  }

  lemma {:induction false} AndStep(ts: seq<Token>, pos: nat, left: Expression, next: nat)
    requires pos <= |ts| && ParseNot(ts, pos) == Ok((left, next))
    ensures ParseAnd(ts, pos) == ParseAndTail(ts, next, left)
  {
  }

  lemma {:induction false} OrTailStep(ts: seq<Token>, pos: nat, left: Expression, right: Expression, next: nat)
    requires pos < |ts| && ComparisonLeaves(left) && ts[pos] == LogicalOperator("OR")
    requires ParseAnd(ts, pos + 1) == Ok((right, next))
    ensures ParseOrTail(ts, pos, left) == ParseOrTail(ts, next, Or(left, right))
  {
  }

  lemma {:induction false} AndTailStep(ts: seq<Token>, pos: nat, left: Expression, right: Expression, next: nat)
    requires pos < |ts| && ComparisonLeaves(left) && ts[pos] == LogicalOperator("AND")
    requires ParseNot(ts, pos + 1) == Ok((right, next))
    ensures ParseAndTail(ts, pos, left) == ParseAndTail(ts, next, And(left, right))
  {
  }

  /** `a OR b AND c` is `a OR (b AND c)`. */
  lemma {:induction false} OrBindsLooserThanAnd(a: Expression, b: Expression, c: Expression)
    requires a.Comparison? && b.Comparison? && c.Comparison?
    ensures var ts := Unparse(a) + [LogicalOperator("OR")] + Unparse(b) + [LogicalOperator("AND")] + Unparse(c);
            ParseExpression(ts, 0) == Ok((Or(a, And(b, c)), 11))
  {
    var ts := Unparse(a) + [LogicalOperator("OR")] + Unparse(b) + [LogicalOperator("AND")] + Unparse(c);
    assert ts[0..3] == Unparse(a) && ts[4..7] == Unparse(b) && ts[8..11] == Unparse(c);
    AtComparison(a, ts, 0);
    AtComparison(b, ts, 4);
    AtComparison(c, ts, 8);
    assert ParseAnd(ts, 0) == Ok((a, 3));
    assert ParseAndTail(ts, 7, b) == Ok((And(b, c), 11));
    assert ParseAnd(ts, 4) == Ok((And(b, c), 11));
    assert ParseOrTail(ts, 3, a) == Ok((Or(a, And(b, c)), 11));
  }

  /** `a AND b OR c` is `(a AND b) OR c`. */
  lemma {:induction false} AndBindsTighterThanOr(a: Expression, b: Expression, c: Expression)
    requires a.Comparison? && b.Comparison? && c.Comparison?
    ensures var ts := Unparse(a) + [LogicalOperator("AND")] + Unparse(b) + [LogicalOperator("OR")] + Unparse(c);
            ParseExpression(ts, 0) == Ok((Or(And(a, b), c), 11))
  {
    var ts := Unparse(a) + [LogicalOperator("AND")] + Unparse(b) + [LogicalOperator("OR")] + Unparse(c);
    assert ts[0..3] == Unparse(a) && ts[4..7] == Unparse(b) && ts[8..11] == Unparse(c);
    AtComparison(a, ts, 0);
    AtComparison(b, ts, 4);
    AtComparison(c, ts, 8);
    assert ParseAndTail(ts, 7, And(a, b)) == Ok((And(a, b), 7));
    assert ParseAndTail(ts, 3, a) == Ok((And(a, b), 7));
    assert ParseAnd(ts, 0) == Ok((And(a, b), 7));
    assert ParseAnd(ts, 8) == Ok((c, 11));
    assert ParseOrTail(ts, 7, And(a, b)) == Ok((Or(And(a, b), c), 11));
  }

  /** `a AND b AND c` is `(a AND b) AND c`. */
  lemma {:induction false} AndIsLeftAssociative(a: Expression, b: Expression, c: Expression)
    requires a.Comparison? && b.Comparison? && c.Comparison?
    ensures var ts := Unparse(a) + [LogicalOperator("AND")] + Unparse(b) + [LogicalOperator("AND")] + Unparse(c);
            ParseExpression(ts, 0) == Ok((And(And(a, b), c), 11))
  {
    var ts := Unparse(a) + [LogicalOperator("AND")] + Unparse(b) + [LogicalOperator("AND")] + Unparse(c);
    ChainLaidOut(a, "AND", b, c);
    AndChain(ts, a, b, c);
  }

  /** `a AND b AND c` in a token list already known to hold its three
      comparisons and two operators. */
  lemma {:induction false} AndChain(ts: seq<Token>, a: Expression, b: Expression, c: Expression)
    requires |ts| == 11 && ComparisonLeaves(a) && ComparisonLeaves(b)
    requires ts[3] == LogicalOperator("AND") && ts[7] == LogicalOperator("AND")
    requires ParseNot(ts, 0) == Ok((a, 3)) && ParseNot(ts, 4) == Ok((b, 7)) && ParseNot(ts, 8) == Ok((c, 11))
    ensures ParseExpression(ts, 0) == Ok((And(And(a, b), c), 11))
  {
    AndStep(ts, 0, a, 3);
    AndTailStep(ts, 3, a, b, 7);
    AndTailStep(ts, 7, And(a, b), c, 11);
    ExpressionStep(ts, 0, And(And(a, b), c), 11);
  }

  /** Where the comparisons and operators of `a op b op c` sit. */
  lemma {:induction false} ChainLaidOut(a: Expression, op: string, b: Expression, c: Expression)
    requires a.Comparison? && b.Comparison? && c.Comparison?
    ensures var ts := Unparse(a) + [LogicalOperator(op)] + Unparse(b) + [LogicalOperator(op)] + Unparse(c);
            |ts| == 11 && ts[3] == LogicalOperator(op) && ts[7] == LogicalOperator(op) &&
            ParseNot(ts, 0) == Ok((a, 3)) && ParseNot(ts, 4) == Ok((b, 7)) && ParseNot(ts, 8) == Ok((c, 11))
  {
    var ts := Unparse(a) + [LogicalOperator(op)] + Unparse(b) + [LogicalOperator(op)] + Unparse(c);
    assert ts[0..3] == Unparse(a) && ts[4..7] == Unparse(b) && ts[8..11] == Unparse(c);
    AtComparison(a, ts, 0);
    AtComparison(b, ts, 4);
    AtComparison(c, ts, 8);
  }

  /** `a OR b OR c` is `(a OR b) OR c`. */
  lemma {:induction false} OrIsLeftAssociative(a: Expression, b: Expression, c: Expression)
    requires a.Comparison? && b.Comparison? && c.Comparison?
    ensures var ts := Unparse(a) + [LogicalOperator("OR")] + Unparse(b) + [LogicalOperator("OR")] + Unparse(c);
            ParseExpression(ts, 0) == Ok((Or(Or(a, b), c), 11))
  {
    var ts := Unparse(a) + [LogicalOperator("OR")] + Unparse(b) + [LogicalOperator("OR")] + Unparse(c);
    ChainLaidOut(a, "OR", b, c);
    OrChain(ts, a, b, c);
  }

  /** `a OR b OR c` in a token list already known to hold its three
      comparisons and two operators. */
  lemma {:induction false} OrChain(ts: seq<Token>, a: Expression, b: Expression, c: Expression)
    requires |ts| == 11 && ComparisonLeaves(a) && ComparisonLeaves(b)
    requires ts[3] == LogicalOperator("OR") && ts[7] == LogicalOperator("OR")
    requires ParseNot(ts, 0) == Ok((a, 3)) && ParseNot(ts, 4) == Ok((b, 7)) && ParseNot(ts, 8) == Ok((c, 11))
    ensures ParseExpression(ts, 0) == Ok((Or(Or(a, b), c), 11))
  {
    AndStep(ts, 0, a, 3);
    AndStep(ts, 4, b, 7);
    AndStep(ts, 8, c, 11);
    ExpressionStep(ts, 0, a, 3);
    OrTailStep(ts, 3, a, b, 7);
    OrTailStep(ts, 7, Or(a, b), c, 11);
  }


  /** `NOT a AND b` is `(NOT a) AND b`: NOT takes one primary only. */
  lemma {:induction false} NotTakesOnePrimary(a: Expression, b: Expression)
    requires a.Comparison? && b.Comparison?
    ensures var ts := [LogicalOperator("NOT")] + Unparse(a) + [LogicalOperator("AND")] + Unparse(b);
            ParseExpression(ts, 0) == Ok((And(Not(a), b), 8))
  {
    var ts := [LogicalOperator("NOT")] + Unparse(a) + [LogicalOperator("AND")] + Unparse(b);
    assert ts[1..4] == Unparse(a) && ts[5..8] == Unparse(b);
    AtComparison(a, ts, 1);
    AtComparison(b, ts, 5);
    assert ParsePrimary(ts, 1) == Ok((a, 4));
    assert ParseNot(ts, 0) == Ok((Not(a), 4));
    AndStep(ts, 0, Not(a), 4);
    AndTailStep(ts, 4, Not(a), b, 8);
    assert ParseAnd(ts, 0) == Ok((And(Not(a), b), 8));
    ExpressionStep(ts, 0, And(Not(a), b), 8);
  }


  /** `NOT NOT a` is rejected: the operand of NOT must be a primary. */
  lemma {:induction false} DoubleNotRejected(a: Expression)
    requires a.Comparison?
    ensures var ts := [LogicalOperator("NOT"), LogicalOperator("NOT")] + Unparse(a);
            ParseExpression(ts, 0) == Err(InvalidSyntax("Invalid expression"))
  {
    var ts := [LogicalOperator("NOT"), LogicalOperator("NOT")] + Unparse(a);
    assert ts[1] == LogicalOperator("NOT");
    assert ParseComparison(ts, 1) == Err(InvalidSyntax("Invalid expression"));
    assert ParsePrimary(ts, 1) == Err(InvalidSyntax("Invalid expression"));
    assert ParseNot(ts, 0) == Err(InvalidSyntax("Invalid expression"));
    assert ParseAnd(ts, 0) == Err(InvalidSyntax("Invalid expression"));
  }

  /** An opening parenthesis whose condition is not followed by `)`. */
  lemma {:induction false} UnclosedParenthesisRejected(a: Expression)
    requires a.Comparison?
    ensures ParseExpression([Symbol('(')] + Unparse(a), 0) == Err(InvalidSyntax("Missing closing ')'"))
  {
    var ts := [Symbol('(')] + Unparse(a);
    assert ts[1..4] == Unparse(a);
    ParseUnparse(a, ts, 1);
    PrimaryUnclosed(ts, 0);
    assert ParseNot(ts, 0) == Err(InvalidSyntax("Missing closing ')'"));
    assert ParseAnd(ts, 0) == Err(InvalidSyntax("Missing closing ')'"));
  }

}
