/** The error taxonomy of the engine (src/custom_error.rs) and the result
    type every parsing and processing step returns. */
module CustomErrors {

  /** The four error kinds; each carries a free-form message. */
  datatype CustomError =
    | InvalidTable(message: string)
    | InvalidColumn(message: string)
    | InvalidSyntax(message: string)
    | GenericError(message: string)

  /** Rust's `Result<T, CustomError>`, usable with `:-`. */
  datatype Result<+T> = Ok(value: T) | Err(error: CustomError) {
    predicate IsFailure() {
      Err?
    }

    function PropagateFailure<U>(): Result<U>
      requires Err?
    {
      Err(error)
    }

    function Extract(): T
      requires Ok?
    {
      value
    }
  }

  datatype Option<+T> = None | Some(value: T)

  const TablePrefix: string := "INVALID_TABLE: "
  const ColumnPrefix: string := "INVALID_COLUMN: "
  const SyntaxPrefix: string := "INVALID_SYNTAX: "
  const GenericPrefix: string := "ERROR: "

  /** The `Display` prefix that announces an error's kind. */
  function KindPrefix(e: CustomError): string {
    match e
    case InvalidTable(_) => TablePrefix
    case InvalidColumn(_) => ColumnPrefix
    case InvalidSyntax(_) => SyntaxPrefix
    case GenericError(_) => GenericPrefix
  }

  /** The text the program prints for an error: the kind's prefix, then the
      message verbatim. */
  function Display(e: CustomError): (s: string)
    ensures |s| > |e.message|
    ensures s[|s| - |e.message|..] == e.message
  {
    var s := KindPrefix(e) + e.message;
    assert s[|KindPrefix(e)|..] == e.message;
    s
  }

  /** The error can be read back from its displayed text, so no two errors
      display alike. */
  lemma {:induction false} DisplayParses(e: CustomError)
    ensures ParseDisplay(Display(e)) == Some(e)
  {
    var p, s := KindPrefix(e), Display(e);
    assert s == p + e.message;
    assert s[..|p|] == p;
    assert s[|p|..] == e.message;
    match e
    case InvalidTable(_) =>
    case InvalidColumn(_) =>
      assert s[8] == p[8] == 'C';
    case InvalidSyntax(_) =>
      assert s[8] == p[8] == 'S';
    case GenericError(_) =>
      assert s[0] == p[0] == 'E';
  }

  predicate HasPrefix(s: string, p: string) {
    |p| <= |s| && s[..|p|] == p
  }

  /** Recovers an error from its displayed text, or None when the text does
      not start with one of the four prefixes. */
  function ParseDisplay(s: string): Option<CustomError> {
    if HasPrefix(s, TablePrefix) then Some(InvalidTable(s[|TablePrefix|..]))
    else if HasPrefix(s, ColumnPrefix) then Some(InvalidColumn(s[|ColumnPrefix|..]))
    else if HasPrefix(s, SyntaxPrefix) then Some(InvalidSyntax(s[|SyntaxPrefix|..]))
    else if HasPrefix(s, GenericPrefix) then Some(GenericError(s[|GenericPrefix|..]))
    else None
  }
}
