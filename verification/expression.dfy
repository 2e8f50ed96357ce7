/** WHERE-condition trees and their evaluation against one row
    (src/expression.rs).  Values are text throughout: every comparison,
    integer literals included, is a lexicographic comparison of strings. */
module Expressions {
  import opened CustomErrors

  datatype Operand =
    | Column(name: string)
    | String(text: string)
    | Integer(text: string)

  datatype Expression =
    | True
    | And(left: Expression, right: Expression)
    | Or(left: Expression, right: Expression)
    | Not(right: Expression)
    | Comparison(lhs: Operand, operator: string, rhs: Operand)

  /** The six operators the evaluator knows. */
  const KnownOperators: set<string> := {"=", "!=", ">", "<", ">=", "<="}

  datatype Ordering = Less | Equal | Greater

  /** Rust's `Ord` on `String`: lexicographic on the UTF-8 bytes, which orders
      strings exactly as lexicographic order on their code points does. */
  function Compare(a: string, b: string): Ordering
    decreases |a|
  {
    if a == [] then (if b == [] then Equal else Less)
    else if b == [] then Greater
    else if a[0] < b[0] then Less
    else if a[0] > b[0] then Greater
    else Compare(a[1..], b[1..])
  }

  /** The value an operand stands for in a row: a column's entry, or a
      literal's own text. */
  function EvaluateOperand(operand: Operand, row: map<string, string>): (r: Result<string>)
    ensures operand.Column? ==> (r.Ok? <==> operand.name in row)
    ensures r.Ok? && operand.Column? ==> r.value == row[operand.name]
    ensures !operand.Column? ==> r == Ok(operand.text)
    ensures r.Err? ==> r.error == GenericError("Column not found: " + operand.name)
  {
    match operand
    case Column(name) =>
      if name in row then Ok(row[name]) else Err(GenericError("Column not found: " + name))
    case String(value) => Ok(value)
    case Integer(value) => Ok(value)
  }

  /** One comparison between two values already looked up. */
  function ApplyOperator(operator: string, l: string, r: string): Result<bool> {
    match operator
    case "=" => Ok(l == r)
    case "!=" => Ok(l != r)
    case ">" => Ok(Compare(l, r) == Greater)
    case "<" => Ok(Compare(l, r) == Less)
    case ">=" => Ok(Compare(l, r) == Greater || Compare(l, r) == Equal)
    case "<=" => Ok(Compare(l, r) == Less || Compare(l, r) == Equal)
    case _ => Err(GenericError("Invalid operator: " + operator))
  }

  /** Recursive walk: both children of And/Or are always evaluated, left first,
      so an error on either side is the result. */
  function EvaluateExpression(e: Expression, row: map<string, string>): (r: Result<bool>)
    ensures e.True? ==> r == Ok(true)
    ensures e.Comparison? && EvaluateOperand(e.lhs, row).Ok? && EvaluateOperand(e.rhs, row).Ok? ==>
              r == ApplyOperator(e.operator, EvaluateOperand(e.lhs, row).value, EvaluateOperand(e.rhs, row).value)
    ensures r.Err? ==> r.error.GenericError?
  {
    match e
    case True => Ok(true)
    case And(left, right) =>
      var l :- EvaluateExpression(left, row);
      var r :- EvaluateExpression(right, row);
      Ok(l && r)
    case Or(left, right) =>
      var l :- EvaluateExpression(left, row);
      var r :- EvaluateExpression(right, row);
      Ok(l || r)
    case Not(right) =>
      var r :- EvaluateExpression(right, row);
      Ok(!r)
    case Comparison(lhs, operator, rhs) =>
      var l :- EvaluateOperand(lhs, row);
      var r :- EvaluateOperand(rhs, row);
      ApplyOperator(operator, l, r)
  }

  /** The columns a condition mentions. */
  function ColumnsOf(e: Expression): set<string> {
    match e
    case True => {}
    case And(left, right) => ColumnsOf(left) + ColumnsOf(right)
    case Or(left, right) => ColumnsOf(left) + ColumnsOf(right)
    case Not(right) => ColumnsOf(right)
    case Comparison(lhs, _, rhs) => OperandColumns(lhs) + OperandColumns(rhs)
  }

  function OperandColumns(o: Operand): set<string> {
    if o.Column? then {o.name} else {}
  }

  /** Every comparison in the tree uses one of the six known operators. */
  predicate OperatorsKnown(e: Expression) {
    match e
    case True => true
    case And(left, right) => OperatorsKnown(left) && OperatorsKnown(right)
    case Or(left, right) => OperatorsKnown(left) && OperatorsKnown(right)
    case Not(right) => OperatorsKnown(right)
    case Comparison(_, operator, _) => operator in KnownOperators
  }

  //
  // Properties of the string order
  //

  lemma {:induction false} CompareEqual(a: string, b: string)
    ensures Compare(a, b) == Equal <==> a == b
    decreases |a|
  {
    if a != [] && b != [] && a[0] == b[0] {
      CompareEqual(a[1..], b[1..]);
      assert a == [a[0]] + a[1..] && b == [b[0]] + b[1..];
    }
  }

  lemma {:induction false} CompareFlip(a: string, b: string)
    ensures Compare(a, b) == Less <==> Compare(b, a) == Greater
    decreases |a|
  {
    if a != [] && b != [] && a[0] == b[0] {
      CompareFlip(a[1..], b[1..]);
    }
  }

  lemma {:induction false} CompareTransitive(a: string, b: string, c: string)
    requires Compare(a, b) == Less && Compare(b, c) == Less
    ensures Compare(a, c) == Less
    decreases |a|
  {
    if a != [] && b != [] && c != [] && a[0] == b[0] && b[0] == c[0] {
      CompareTransitive(a[1..], b[1..], c[1..]);
    }
  }

  /** `!=` is the negation of `=`; `>=` and `<=` are the strict comparison or
      equality; `<` and `>` are mirror images; exactly one of `<`, `=`, `>`
      holds. */
  lemma {:induction false} OperatorRelations(a: string, b: string)
    ensures ApplyOperator("!=", a, b) == Ok(!ApplyOperator("=", a, b).value)
    ensures ApplyOperator(">=", a, b) == Ok(ApplyOperator(">", a, b).value || ApplyOperator("=", a, b).value)
    ensures ApplyOperator("<=", a, b) == Ok(ApplyOperator("<", a, b).value || ApplyOperator("=", a, b).value)
    ensures ApplyOperator("<", a, b) == ApplyOperator(">", b, a)
    ensures ApplyOperator("<", a, b).value || ApplyOperator("=", a, b).value || ApplyOperator(">", a, b).value
    ensures !(ApplyOperator("<", a, b).value && ApplyOperator(">", a, b).value)
  {
    CompareEqual(a, b);
    CompareFlip(a, b);
  }

  /** No numeric comparison anywhere: the literal `10` sorts before `9`. */
  lemma {:induction false} IntegersCompareAsText(row: map<string, string>)
    ensures EvaluateExpression(Comparison(Integer("10"), "<", Integer("9")), row) == Ok(true)
  {
    assert Compare("10", "9") == Less;
  }

  //
  // Properties of the evaluator
  //

  /** Evaluation succeeds exactly when every mentioned column is present in the
      row and every operator is one of the six known ones. */
  lemma {:induction false} EvaluateDefined(e: Expression, row: map<string, string>)
    ensures EvaluateExpression(e, row).Ok? <==> ColumnsOf(e) <= row.Keys && OperatorsKnown(e)
  {
    match e
    case True =>
    case And(left, right) =>
      EvaluateDefined(left, row);
      EvaluateDefined(right, row);
    case Or(left, right) =>
      EvaluateDefined(left, row);
      EvaluateDefined(right, row);
    case Not(right) =>
      EvaluateDefined(right, row);
    case Comparison(lhs, operator, rhs) =>
  }

  /** The outcome depends only on the columns the condition mentions. */
  lemma {:induction false} EvaluateLocal(e: Expression, row1: map<string, string>, row2: map<string, string>)
    requires forall c :: c in ColumnsOf(e) ==> (c in row1 <==> c in row2)
    requires forall c :: c in ColumnsOf(e) && c in row1 ==> row1[c] == row2[c]
    ensures EvaluateExpression(e, row1) == EvaluateExpression(e, row2)
  {
    match e
    case True =>
    case And(left, right) =>
      EvaluateLocal(left, row1, row2);
      EvaluateLocal(right, row1, row2);
    case Or(left, right) =>
      EvaluateLocal(left, row1, row2);
      EvaluateLocal(right, row1, row2);
    case Not(right) =>
      EvaluateLocal(right, row1, row2);
    case Comparison(lhs, operator, rhs) =>
  }

  /** And, Or and Not combine their children's truth values as in boolean
      logic whenever both children evaluate; an error on either side is the
      result, the left one first, even where the other side would decide the
      outcome. */
  lemma {:induction false} Connectives(a: Expression, b: Expression, row: map<string, string>)
    ensures EvaluateExpression(True, row) == Ok(true)
    ensures EvaluateExpression(a, row).Ok? && EvaluateExpression(b, row).Ok? ==>
              && EvaluateExpression(And(a, b), row) == Ok(EvaluateExpression(a, row).value && EvaluateExpression(b, row).value)
              && EvaluateExpression(Or(a, b), row) == Ok(EvaluateExpression(a, row).value || EvaluateExpression(b, row).value)
    ensures EvaluateExpression(a, row).Err? ==>
              && EvaluateExpression(And(a, b), row) == EvaluateExpression(a, row)
              && EvaluateExpression(Or(a, b), row) == EvaluateExpression(a, row)
              && EvaluateExpression(Not(a), row) == EvaluateExpression(a, row)
    ensures EvaluateExpression(a, row).Ok? && EvaluateExpression(b, row).Err? ==>
              && EvaluateExpression(And(a, b), row) == EvaluateExpression(b, row)
              && EvaluateExpression(Or(a, b), row) == EvaluateExpression(b, row)
    ensures EvaluateExpression(a, row).Ok? ==> EvaluateExpression(Not(a), row) == Ok(!EvaluateExpression(a, row).value)
  {
  }
}
