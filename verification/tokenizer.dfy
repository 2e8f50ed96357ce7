/** The hand-written lexer (src/tokenizer.rs): command text to a flat
    sequence of tokens.  Each `TokenizeX` helper takes the remaining input
    (the peekable character iterator) and returns the token together with
    what is left of the input.  Unicode character classes are modelled by
    their ASCII members. */
module Tokenizer {
  import opened CustomErrors

  datatype Token =
    | Keyword(text: string)
    | LogicalOperator(text: string)
    | ComparisonOperator(text: string)
    | Identifier(text: string)
    | String(text: string)
    | Integer(text: string)
    | Symbol(ch: char)

  const Keywords: set<string> :=
    {"INSERT", "UPDATE", "DELETE", "SELECT", "FROM", "WHERE", "SET", "INTO", "VALUES", "ORDER", "BY", "DESC"}
  const LogicalOperators: set<string> := {"AND", "OR", "NOT"}
  /** The operator spellings the lexer can produce; `!=` is not among them. */
  const ComparisonOperators: set<string> := {"=", "<", "<=", ">", ">="}

  predicate IsWhitespace(c: char) {
    c == ' ' || c == '\t' || c == '\n' || c == '\U{000B}' || c == '\U{000C}' || c == '\r'
  }

  predicate IsDigit(c: char) {
    '0' <= c <= '9'
  }

  predicate IsAlphabetic(c: char) {
    'a' <= c <= 'z' || 'A' <= c <= 'Z'
  }

  predicate IsAlphanumeric(c: char) {
    IsAlphabetic(c) || IsDigit(c)
  }

  predicate IsComparisonStart(c: char) {
    c == '=' || c == '<' || c == '>'
  }

  predicate IsSymbol(c: char) {
    c == ',' || c == '(' || c == ')' || c == ';' || c == '*'
  }

  /** Characters the main loop knows what to do with. */
  predicate IsLexical(c: char) {
    IsWhitespace(c) || IsDigit(c) || IsAlphabetic(c) || c == '\'' || IsComparisonStart(c) || IsSymbol(c)
  }

  predicate NotQuote(c: char) {
    c != '\''
  }

  function ToUpper(c: char): char {
    if 'a' <= c <= 'z' then (c as int - 32) as char else c
  }

  function Upper(s: string): (u: string)
    ensures |u| == |s|
  {
    seq(|s|, i requires 0 <= i < |s| => ToUpper(s[i]))
  }

  /** Length of the longest prefix of `chars` whose characters all satisfy `p`. */
  function Span(chars: string, p: char -> bool): (n: nat)
    ensures n <= |chars|
    ensures forall i :: 0 <= i < n ==> p(chars[i])
    ensures n == |chars| || !p(chars[n])
    decreases |chars|
  {
    if chars == [] || !p(chars[0]) then 0 else 1 + Span(chars[1..], p)
  }

  predicate AllDigits(s: string) {
    forall i :: 0 <= i < |s| ==> IsDigit(s[i])
  }

  predicate AllAlphanumeric(s: string) {
    forall i :: 0 <= i < |s| ==> IsAlphanumeric(s[i])
  }

  /** A digit run: the token holds exactly the digits, and scanning stops at
      the first non-digit (so `12ab` splits into `12` and `ab`). */
  function TokenizeInteger(chars: string): (r: (Token, string))
    ensures r.0.Integer? && chars == r.0.text + r.1
    ensures AllDigits(r.0.text)
    ensures r.1 == [] || !IsDigit(r.1[0])
    ensures chars != [] && IsDigit(chars[0]) ==> |r.1| < |chars|
  {
    var n := Span(chars, IsDigit);
    assert chars == chars[..n] + chars[n..];
    (Integer(chars[..n]), chars[n..])
  }

  /** How an alphanumeric word is classified once read. */
  function WordToken(word: string): Token {
    var upper := Upper(word);
    if upper in Keywords then Keyword(upper)
    else if upper in LogicalOperators then LogicalOperator(upper)
    else Identifier(word)
  }

  /** An alphanumeric run, looked up upper-cased among the keywords and the
      logical operators; an identifier keeps its original casing. */
  function TokenizeWord(chars: string): (r: (Token, string))
    ensures |r.1| <= |chars| && r.1 == chars[|chars| - |r.1|..]
    ensures AllAlphanumeric(chars[..|chars| - |r.1|])
    ensures r.1 == [] || !IsAlphanumeric(r.1[0])
    ensures var word := chars[..|chars| - |r.1|];
            && (r.0.Keyword? <==> Upper(word) in Keywords)
            && (r.0.LogicalOperator? <==> Upper(word) !in Keywords && Upper(word) in LogicalOperators)
            && (r.0.Keyword? || r.0.LogicalOperator? || r.0.Identifier?)
            && (r.0.Identifier? ==> r.0.text == word)
            && (!r.0.Identifier? ==> r.0.text == Upper(word))
    ensures chars != [] && IsAlphanumeric(chars[0]) ==> |r.1| < |chars|
  {
    var n := Span(chars, IsAlphanumeric);
    assert chars[|chars| - |chars[n..]|..] == chars[n..];
    (WordToken(chars[..n]), chars[n..])
  }

  /** A quoted string: the opening quote is skipped, everything up to the next
      quote is collected, and that quote is consumed.  There are no escapes;
      an unterminated string yields what was collected, without error. */
  function TokenizeString(chars: string): (r: (Token, string))
    ensures r.0.String? && forall i :: 0 <= i < |r.0.text| ==> r.0.text[i] != '\''
    ensures chars == [] ==> r.0.text == [] && r.1 == []
    ensures chars != [] ==>
              || chars == chars[..1] + r.0.text + "'" + r.1
              || (chars == chars[..1] + r.0.text && r.1 == [])
    ensures chars != [] ==> |r.1| < |chars|
  {
    var body := if chars == [] then [] else chars[1..];
    var n := Span(body, NotQuote);
    if n < |body| then
      assert chars != [] ==> chars == chars[..1] + body[..n] + "'" + body[n + 1..];
      (String(body[..n]), body[n + 1..])
    else
      assert chars != [] ==> chars == chars[..1] + body[..n];
      (String(body[..n]), [])
  }

  /** `=` alone, or `<` / `>` optionally followed by one `=`. */
  function TokenizeComparisonOperator(chars: string): (r: (Token, string))
    ensures r.0.ComparisonOperator? && chars == r.0.text + r.1
    ensures r.0.text == [] || r.0.text in ComparisonOperators
    ensures r.0.text == [] <==> chars == [] || !IsComparisonStart(chars[0])
    ensures chars != [] && chars[0] == '=' ==> r.0.text == "="
    ensures |r.0.text| == 2 <==> |chars| >= 2 && chars[0] != '=' && IsComparisonStart(chars[0]) && chars[1] == '='
  {
    if chars != [] && chars[0] == '=' then
      assert chars == [chars[0]] + chars[1..];
      (ComparisonOperator("="), chars[1..])
    else if chars != [] && (chars[0] == '>' || chars[0] == '<') then
      if |chars| > 1 && chars[1] == '=' then
        var op := if chars[0] == '>' then ">=" else "<=";
        assert chars == op + chars[2..];
        (ComparisonOperator(op), chars[2..])
      else
        var op := if chars[0] == '>' then ">" else "<";
        assert chars == op + chars[1..];
        (ComparisonOperator(op), chars[1..])
    else
      (ComparisonOperator(""), chars)
  }

  /** The shape of every token the lexer can produce. */
  predicate WellFormed(t: Token) {
    match t
    case Keyword(k) => k in Keywords
    case LogicalOperator(k) => k in LogicalOperators
    case ComparisonOperator(op) => op in ComparisonOperators
    case Identifier(w) =>
      && |w| > 0 && IsAlphabetic(w[0]) && AllAlphanumeric(w)
      && Upper(w) !in Keywords && Upper(w) !in LogicalOperators
    case String(s) => forall i :: 0 <= i < |s| ==> s[i] != '\''
    case Integer(d) => |d| > 0 && AllDigits(d)
    case Symbol(c) => IsSymbol(c)
  }

  function Cons(t: Token, r: Result<seq<Token>>): Result<seq<Token>> {
    if r.Ok? then Ok([t] + r.value) else r
  }

  /** What the main loop promises about reading `chars` with result `r`:
      well-formed tokens, success on known characters, and an error that
      names an unknown character of the input. */
  predicate Reads(chars: string, r: Result<seq<Token>>) {
    && (r.Ok? ==> forall t :: t in r.value ==> WellFormed(t))
    && ((forall c :: c in chars ==> IsLexical(c)) ==> r.Ok?)
    && (r.Err? ==> exists c :: c in chars && !IsLexical(c) && r.error == InvalidSyntax("Invalid syntax near: " + [c]))
  }

  /** A step that reads `t` (or nothing) and leaves a suffix keeps the promise. */
  lemma {:induction false} StepReads(t: Option<Token>, chars: string, rest: string, r: Result<seq<Token>>)
    requires chars != [] && IsLexical(chars[0]) && |rest| < |chars| && rest == chars[|chars| - |rest|..]
    requires t.Some? ==> WellFormed(t.value)
    requires Reads(rest, r)
    ensures t.None? ==> Reads(chars, r)
    ensures t.Some? ==> Reads(chars, Cons(t.value, r))
  {
    assert forall c :: c in rest ==> c in chars;
  }

  /** The main loop: whitespace is skipped, every other branch reads one token,
      and every branch consumes at least one character.  Any character that
      cannot start a token aborts with InvalidSyntax naming it. */
  function Tokenize(chars: string): (r: Result<seq<Token>>)
    ensures r.Ok? ==> forall t :: t in r.value ==> WellFormed(t)
    ensures (forall c :: c in chars ==> IsLexical(c)) ==> r.Ok?
    ensures r.Err? ==> exists c :: c in chars && !IsLexical(c) && r.error == InvalidSyntax("Invalid syntax near: " + [c])
    decreases |chars|
  {
    if chars == [] then Ok([])
    else
      var ch := chars[0];
      if IsWhitespace(ch) then
        StepReads(None, chars, chars[1..], Tokenize(chars[1..]));
        Tokenize(chars[1..])
      else if IsDigit(ch) then
        var (t, rest) := TokenizeInteger(chars);
        assert rest == chars[|t.text|..];
        StepReads(Some(t), chars, rest, Tokenize(rest));
        Cons(t, Tokenize(rest))
      else if IsAlphabetic(ch) then
        var (t, rest) := TokenizeWord(chars);
        StepReads(Some(t), chars, rest, Tokenize(rest));
        Cons(t, Tokenize(rest))
      else if ch == '\'' then
        var (t, rest) := TokenizeString(chars);
        StepReads(Some(t), chars, rest, Tokenize(rest));
        Cons(t, Tokenize(rest))
      else if IsComparisonStart(ch) then
        var (t, rest) := TokenizeComparisonOperator(chars);
        assert rest == chars[|t.text|..];
        StepReads(Some(t), chars, rest, Tokenize(rest));
        Cons(t, Tokenize(rest))
      else if IsSymbol(ch) then
        StepReads(Some(Symbol(ch)), chars, chars[1..], Tokenize(chars[1..]));
        Cons(Symbol(ch), Tokenize(chars[1..]))
      else
        assert ch in chars;
        Err(InvalidSyntax("Invalid syntax near: " + [ch]))
  }

  /** Canonical spelling of one token: what a user would type for it. */
  function Render(t: Token): string {
    match t
    case Keyword(k) => k
    case LogicalOperator(k) => k
    case ComparisonOperator(op) => op
    case Identifier(w) => w
    case String(s) => "'" + s + "'"
    case Integer(d) => d
    case Symbol(c) => [c]
  }

  /** Canonical spelling of a token sequence, one space after every token. */
  function RenderAll(ts: seq<Token>): string {
    if ts == [] then "" else Render(ts[0]) + " " + RenderAll(ts[1..])
  }

  lemma {:induction false} SpanOfPrefix(a: string, b: string, p: char -> bool)
    requires forall i :: 0 <= i < |a| ==> p(a[i])
    requires b == [] || !p(b[0])
    ensures Span(a + b, p) == |a|
    decreases |a|
  {
    if a == [] {
      assert a + b == b;
    } else {
      assert (a + b)[1..] == a[1..] + b;
      SpanOfPrefix(a[1..], b, p);
    }
  }

  lemma {:induction false} KeywordShape(k: string)
    requires k in Keywords || k in LogicalOperators
    ensures |k| > 0 && IsAlphabetic(k[0]) && AllAlphanumeric(k) && Upper(k) == k
  {
  }

  /** Any whitespace character before the rest of the input produces no
      token. */
  lemma {:induction false} SkipWhitespace(c: char, rest: string)
    requires IsWhitespace(c)
    ensures Tokenize([c] + rest) == Tokenize(rest)
  {
    assert ([c] + rest)[1..] == rest;
  }

  lemma {:induction false} SkipSpace(rest: string)
    ensures Tokenize(" " + rest) == Tokenize(rest)
  {
    SkipWhitespace(' ', rest);
  }

  /** Reading a word followed by a space. */
  lemma {:induction false} WordFollowedBySpace(w: string, rest: string)
    requires |w| > 0 && IsAlphabetic(w[0]) && AllAlphanumeric(w)
    ensures Tokenize(w + " " + rest) == Cons(WordToken(w), Tokenize(rest))
  {
    var chars := w + " " + rest;
    assert chars == w + (" " + rest);
    SpanOfPrefix(w, " " + rest, IsAlphanumeric);
    assert chars[..|w|] == w;
    assert chars[|w|..] == " " + rest;
    assert TokenizeWord(chars) == (WordToken(w), " " + rest);
    WordStep(chars);
    SkipSpace(rest);
  }

  /** The main loop's branch for a word. */
  lemma {:induction false} WordStep(chars: string)
    requires chars != [] && IsAlphabetic(chars[0])
    ensures var (t, rest) := TokenizeWord(chars);
            Tokenize(chars) == Cons(t, Tokenize(rest))
  {
    var c := chars[0];
    assert !IsWhitespace(c) && !IsDigit(c);
  }

  lemma {:induction false} IntegerFollowedBySpace(d: string, rest: string)
    requires |d| > 0 && AllDigits(d)
    ensures Tokenize(d + " " + rest) == Cons(Integer(d), Tokenize(rest))
  {
    var chars := d + " " + rest;
    assert chars == d + (" " + rest);
    SpanOfPrefix(d, " " + rest, IsDigit);
    assert chars[..|d|] == d;
    assert chars[|d|..] == " " + rest;
    assert TokenizeInteger(chars) == (Integer(d), " " + rest);
    IntegerStep(chars);
    SkipSpace(rest);
  }

  /** The main loop's branch for a number. */
  lemma {:induction false} IntegerStep(chars: string)
    requires chars != [] && IsDigit(chars[0])
    ensures var (t, rest) := TokenizeInteger(chars);
            Tokenize(chars) == Cons(t, Tokenize(rest))
  {
    assert !IsWhitespace(chars[0]);
  }

  lemma {:induction false} StringFollowedBySpace(s: string, rest: string)
    requires forall i :: 0 <= i < |s| ==> s[i] != '\''
    ensures Tokenize("'" + s + "'" + " " + rest) == Cons(String(s), Tokenize(rest))
  {
    var chars := "'" + s + "'" + " " + rest;
    QuotedString(s, " " + rest);
    assert chars == "'" + s + "'" + (" " + rest);
    StringStep(chars);
    SkipSpace(rest);
  }

  /** The main loop's branch for a quoted string. */
  lemma {:induction false} StringStep(chars: string)
    requires chars != [] && chars[0] == '\''
    ensures var (t, rest) := TokenizeString(chars);
            Tokenize(chars) == Cons(t, Tokenize(rest))
  {
    var c := chars[0];
    assert !IsWhitespace(c) && !IsDigit(c) && !IsAlphabetic(c);
  }

  /** A quoted text without inner quotes is read up to its closing quote. */
  lemma {:induction false} QuotedString(s: string, rest: string)
    requires forall i :: 0 <= i < |s| ==> s[i] != '\''
    ensures TokenizeString("'" + s + "'" + rest) == (String(s), rest)
  {
    var chars := "'" + s + "'" + rest;
    var body := chars[1..];
    assert body == s + ("'" + rest);
    SpanOfPrefix(s, "'" + rest, NotQuote);
    assert body[..|s|] == s;
    assert body[|s| + 1..] == rest;
  }

  lemma {:induction false} OperatorFollowedBySpace(op: string, rest: string)
    requires op in ComparisonOperators
    ensures Tokenize(op + " " + rest) == Cons(ComparisonOperator(op), Tokenize(rest))
  {
    var chars := op + " " + rest;
    assert chars[0] == op[0];
    if |op| == 2 {
      assert chars[1] == '=';
      assert chars[2..] == " " + rest;
    } else {
      assert chars[1..] == " " + rest;
    }
    assert TokenizeComparisonOperator(chars) == (ComparisonOperator(op), " " + rest);
    OperatorStep(chars);
    SkipSpace(rest);
  }

  /** The main loop's branch for a comparison operator. */
  lemma {:induction false} OperatorStep(chars: string)
    requires chars != [] && IsComparisonStart(chars[0])
    ensures var (t, rest) := TokenizeComparisonOperator(chars);
            Tokenize(chars) == Cons(t, Tokenize(rest))
  {
    var c := chars[0];
    assert !IsWhitespace(c) && !IsDigit(c) && !IsAlphabetic(c) && c != '\'';
  }

  lemma {:induction false} SymbolFollowedBySpace(c: char, rest: string)
    requires IsSymbol(c)
    ensures Tokenize([c] + " " + rest) == Cons(Symbol(c), Tokenize(rest))
  {
    var chars := [c] + " " + rest;
    assert chars[1..] == " " + rest;
    SymbolStep(chars);
    SkipSpace(rest);
  }

  /** The main loop's branch for a one-character symbol. */
  lemma {:induction false} SymbolStep(chars: string)
    requires chars != [] && IsSymbol(chars[0])
    ensures Tokenize(chars) == Cons(Symbol(chars[0]), Tokenize(chars[1..]))
  {
    var c := chars[0];
    assert !IsWhitespace(c) && !IsDigit(c) && !IsAlphabetic(c) && c != '\'' && !IsComparisonStart(c);
  }

  /** One well-formed token, spelled canonically and followed by a space, is
      read back as itself, and the lexer then carries on with the rest. */
  lemma {:induction false} TokenizeRenderOne(t: Token, rest: string)
    requires WellFormed(t)
    ensures Tokenize(Render(t) + " " + rest) == Cons(t, Tokenize(rest))
  {
    if t.Keyword? || t.LogicalOperator? || t.Identifier? {
      TokenizeRenderWord(t, rest);
    } else if t.Integer? || t.String? {
      TokenizeRenderLiteral(t, rest);
    } else {
      TokenizeRenderPunctuation(t, rest);
    }
  }

  lemma {:induction false} TokenizeRenderWord(t: Token, rest: string)
    requires WellFormed(t) && (t.Keyword? || t.LogicalOperator? || t.Identifier?)
    ensures Tokenize(Render(t) + " " + rest) == Cons(t, Tokenize(rest))
  {
    match t
    case Keyword(k) =>
      KeywordFollowedBySpace(k, rest);
    case LogicalOperator(k) =>
      LogicalFollowedBySpace(k, rest);
    case Identifier(w) =>
      WordFollowedBySpace(w, rest);
  }

  lemma {:induction false} KeywordFollowedBySpace(k: string, rest: string)
    requires k in Keywords
    ensures Tokenize(k + " " + rest) == Cons(Keyword(k), Tokenize(rest))
  {
    KeywordShape(k);
    WordFollowedBySpace(k, rest);
  }

  lemma {:induction false} LogicalFollowedBySpace(k: string, rest: string)
    requires k in LogicalOperators
    ensures Tokenize(k + " " + rest) == Cons(LogicalOperator(k), Tokenize(rest))
  {
    KeywordShape(k);
    LogicalNotKeyword(k);
    WordFollowedBySpace(k, rest);
  }

  /** No logical operator is spelled like a keyword. */
  lemma {:induction false} LogicalNotKeyword(k: string)
    requires k in LogicalOperators
    ensures k !in Keywords
  {
    if k == "AND" {
      assert k !in Keywords;
    } else if k == "OR" {
      assert k !in Keywords;
    } else {
      assert k !in Keywords;
    }
  }

  lemma {:induction false} TokenizeRenderLiteral(t: Token, rest: string)
    requires WellFormed(t) && (t.Integer? || t.String?)
    ensures Tokenize(Render(t) + " " + rest) == Cons(t, Tokenize(rest))
  {
    match t
    case Integer(d) =>
      IntegerFollowedBySpace(d, rest);
    case String(s) =>
      StringFollowedBySpace(s, rest);
  }

  lemma {:induction false} TokenizeRenderPunctuation(t: Token, rest: string)
    requires WellFormed(t) && (t.ComparisonOperator? || t.Symbol?)
    ensures Tokenize(Render(t) + " " + rest) == Cons(t, Tokenize(rest))
  {
    match t
    case ComparisonOperator(op) =>
      OperatorFollowedBySpace(op, rest);
    case Symbol(c) =>
      SymbolFollowedBySpace(c, rest);
  }

  /** Stability of the lexer: re-reading the canonical spelling of any
      sequence of well-formed tokens gives back exactly that sequence. */
  lemma {:induction false} TokenizeRenderAll(ts: seq<Token>)
    requires forall t :: t in ts ==> WellFormed(t)
    ensures Tokenize(RenderAll(ts)) == Ok(ts)
    decreases |ts|
  {
    if ts != [] {
      TokenizeRenderOne(ts[0], RenderAll(ts[1..]));
      TokenizeRenderAll(ts[1..]);
      assert [ts[0]] + ts[1..] == ts;
    }
  }

  //
  // Where a failure happens
  //

  /** Cutting the input anywhere after its leading run leaves the same run. */
  lemma {:induction false} SpanCut(chars: string, f: char -> bool, m: nat)
    requires Span(chars, f) <= m <= |chars|
    ensures Span(chars[..m], f) == Span(chars, f)
    decreases |chars|
  {
    if chars != [] && f(chars[0]) {
      assert chars[..m][1..] == chars[1..][..m - 1];
      SpanCut(chars[1..], f, m - 1);
    } else if m > 0 {
      assert chars[..m][0] == chars[0];
    }
  }

  /** Cutting the input anywhere after a digit run leaves the same rest. */
  lemma {:induction false} IntegerPrefix(chars: string, m: nat, p: string)
    requires Span(chars, IsDigit) <= m <= |chars| && p == chars[..m]
    ensures TokenizeInteger(p).1 == p[Span(chars, IsDigit)..]
  {
    SpanCut(chars, IsDigit, m);
  }

  /** Cutting the input anywhere after a word leaves the same rest. */
  lemma {:induction false} WordPrefix(chars: string, m: nat, p: string)
    requires Span(chars, IsAlphanumeric) <= m <= |chars| && p == chars[..m]
    ensures TokenizeWord(p).1 == p[Span(chars, IsAlphanumeric)..]
  {
    SpanCut(chars, IsAlphanumeric, m);
  }

  /** Cutting the input anywhere after a closed string leaves the same rest. */
  lemma {:induction false} StringPrefix(chars: string, k: nat, m: nat, p: string)
    requires chars != [] && k == Span(chars[1..], NotQuote) && k + 1 < |chars|
    requires k + 2 <= m <= |chars| && p == chars[..m]
    ensures TokenizeString(p).1 == p[k + 2..]
  {
    var body, pbody := chars[1..], p[1..];
    assert pbody == body[..m - 1];
    SpanCut(body, NotQuote, m - 1);
    assert pbody[k + 1..] == p[k + 2..];
  }

  /** Cutting the input anywhere after an operator leaves the same operator. */
  lemma {:induction false} OperatorPrefix(chars: string, n: nat, m: nat, p: string)
    requires chars != [] && IsComparisonStart(chars[0])
    requires n == |TokenizeComparisonOperator(chars).0.text| && n <= m <= |chars| && p == chars[..m]
    ensures TokenizeComparisonOperator(p).1 == p[n..]
  {
    assert p[0] == chars[0];
    assert |p| > 1 ==> p[1] == chars[1];
  }

  /** One turn of the main loop on input that starts with a character it
      knows: the token read, if any, and the input left after it. */
  function Step(chars: string): (r: (Option<Token>, string))
    requires chars != [] && IsLexical(chars[0])
    ensures |r.1| < |chars| && r.1 == chars[|chars| - |r.1|..]
  {
    var ch := chars[0];
    if IsWhitespace(ch) then (None, chars[1..])
    else if IsDigit(ch) then
      var (t, rest) := TokenizeInteger(chars);
      assert chars == t.text + rest;
      (Some(t), rest)
    else if IsAlphabetic(ch) then
      var (t, rest) := TokenizeWord(chars);
      (Some(t), rest)
    else if ch == '\'' then
      var (t, rest) := TokenizeString(chars);
      assert chars[..1] + t.text + "'" + rest == (chars[..1] + t.text + "'") + rest;
      assert chars[..1] + t.text == chars[..1] + t.text + [];
      (Some(t), rest)
    else if IsComparisonStart(ch) then
      var (t, rest) := TokenizeComparisonOperator(chars);
      assert chars == t.text + rest;
      (Some(t), rest)
    else (Some(Symbol(ch)), chars[1..])
  }

  /** The main loop takes one step and reads on from what is left. */
  lemma {:induction false} StepTokenize(chars: string)
    requires chars != [] && IsLexical(chars[0])
    ensures Step(chars).0.None? ==> Tokenize(chars) == Tokenize(Step(chars).1)
    ensures Step(chars).0.Some? ==> Tokenize(chars) == Cons(Step(chars).0.value, Tokenize(Step(chars).1))
  {
  }

  /** Cutting the input anywhere after the first step's token leaves the same
      step, provided a string token was closed. */
  lemma {:induction false} StepPrefix(chars: string, n: nat, m: nat, p: string)
    requires chars != [] && IsLexical(chars[0]) && Step(chars).1 != []
    requires n == |chars| - |Step(chars).1| && n <= m <= |chars| && p == chars[..m]
    ensures p != [] && IsLexical(p[0])
    ensures Step(p).1 == p[n..]
  {
    var ch := chars[0];
    assert p[0] == ch;
    if IsWhitespace(ch) {
      assert Step(p).1 == p[1..];
    } else if IsDigit(ch) {
      DigitStepPrefix(chars, n, m, p);
    } else if IsAlphabetic(ch) {
      WordStepPrefix(chars, n, m, p);
    } else if ch == '\'' {
      StringStepPrefix(chars, n, m, p);
    } else if IsComparisonStart(ch) {
      OperatorStepPrefix(chars, n, m, p);
    } else {
      assert Step(p).1 == p[1..];
    }
  }

  lemma {:induction false} DigitStepPrefix(chars: string, n: nat, m: nat, p: string)
    requires chars != [] && IsDigit(chars[0]) && Step(chars).1 != []
    requires n == |chars| - |Step(chars).1| && n <= m <= |chars| && p == chars[..m] && p != [] && p[0] == chars[0]
    ensures Step(p).1 == p[n..]
  {
    assert Step(chars).1 == TokenizeInteger(chars).1 == chars[Span(chars, IsDigit)..];
    IntegerPrefix(chars, m, p);
    assert Step(p).1 == TokenizeInteger(p).1;
  }

  lemma {:induction false} WordStepPrefix(chars: string, n: nat, m: nat, p: string)
    requires chars != [] && IsAlphabetic(chars[0]) && Step(chars).1 != []
    requires n == |chars| - |Step(chars).1| && n <= m <= |chars| && p == chars[..m] && p != [] && p[0] == chars[0]
    ensures Step(p).1 == p[n..]
  {
    assert Step(chars).1 == TokenizeWord(chars).1 == chars[Span(chars, IsAlphanumeric)..];
    WordPrefix(chars, m, p);
    assert Step(p).1 == TokenizeWord(p).1;
  }

  lemma {:induction false} StringStepPrefix(chars: string, n: nat, m: nat, p: string)
    requires chars != [] && chars[0] == '\'' && Step(chars).1 != []
    requires n == |chars| - |Step(chars).1| && n <= m <= |chars| && p == chars[..m] && p != [] && p[0] == chars[0]
    ensures Step(p).1 == p[n..]
  {
    var k := Span(chars[1..], NotQuote);
    assert Step(chars).1 == TokenizeString(chars).1;
    assert k < |chars[1..]| && TokenizeString(chars).1 == chars[1..][k + 1..];
    StringPrefix(chars, k, m, p);
    assert Step(p).1 == TokenizeString(p).1;
  }

  lemma {:induction false} OperatorStepPrefix(chars: string, n: nat, m: nat, p: string)
    requires chars != [] && IsComparisonStart(chars[0]) && Step(chars).1 != []
    requires n == |chars| - |Step(chars).1| && n <= m <= |chars| && p == chars[..m] && p != [] && p[0] == chars[0]
    ensures Step(p).1 == p[n..]
  {
    var op := TokenizeComparisonOperator(chars).0.text;
    assert Step(chars).1 == TokenizeComparisonOperator(chars).1 && chars == op + Step(chars).1;
    OperatorPrefix(chars, |op|, m, p);
    assert Step(p).1 == TokenizeComparisonOperator(p).1;
  }

  /** If the input after the first step reads without error up to `j`, so
      does the whole input up to the same place. */
  lemma {:induction false} PrefixReads(chars: string, n: nat, j: nat)
    requires chars != [] && IsLexical(chars[0]) && Step(chars).1 != []
    requires n == |chars| - |Step(chars).1| && j < |Step(chars).1|
    requires Tokenize(Step(chars).1[..j]).Ok?
    ensures n + j < |chars| && chars[n + j] == Step(chars).1[j]
    ensures Tokenize(chars[..n + j]).Ok?
  {
    var rest, p := Step(chars).1, chars[..n + j];
    StepPrefix(chars, n, n + j, p);
    SliceOfSlice(chars, n, j);
    ReadsAfterStep(p, rest[..j]);
  }

  lemma {:induction false} SliceOfSlice(chars: string, n: nat, j: nat)
    requires n + j <= |chars|
    ensures chars[..n + j][n..] == chars[n..][..j]
  {
  }

  /** Input whose first step leaves something readable is readable. */
  lemma {:induction false} ReadsAfterStep(chars: string, left: string)
    requires chars != [] && IsLexical(chars[0]) && left == Step(chars).1 && Tokenize(left).Ok?
    ensures Tokenize(chars).Ok?
  {
    StepTokenize(chars);
  }

  /** If the input after the first step fails to read up to and including
      `j`, so does the whole input up to the same place. */
  lemma {:induction false} PrefixFails(chars: string, n: nat, j: nat)
    requires chars != [] && IsLexical(chars[0]) && Step(chars).1 != []
    requires n == |chars| - |Step(chars).1| && j < |Step(chars).1|
    requires Tokenize(Step(chars).1[..j + 1]).Err?
    ensures Tokenize(chars[..n + j + 1]).Err?
  {
    var rest, p := Step(chars).1, chars[..n + j + 1];
    StepPrefix(chars, n, n + j + 1, p);
    SliceOfSlice(chars, n, j + 1);
    StepErr(p, rest[..j + 1]);
  }

  /** Input whose first step leaves something unreadable is unreadable. */
  lemma {:induction false} StepErr(chars: string, left: string)
    requires chars != [] && IsLexical(chars[0]) && left == Step(chars).1 && Tokenize(left).Err?
    ensures Tokenize(chars).Err?
  {
    StepTokenize(chars);
  }

  /** A failure names the first unknown character the loop reaches outside a
      string: all the input before it is read without error, and reading up
      to and including it fails. */
  lemma {:induction false} TokenizeFailsAtFirst(chars: string)
    ensures Tokenize(chars).Err? ==>
              exists i :: 0 <= i < |chars| && !IsLexical(chars[i]) &&
                Tokenize(chars[..i]).Ok? && Tokenize(chars[..i + 1]).Err? &&
                Tokenize(chars).error == InvalidSyntax("Invalid syntax near: " + [chars[i]])
    decreases |chars|
  {
    if Tokenize(chars).Err? {
      if !IsLexical(chars[0]) {
        assert chars[..0] == [];
        assert Tokenize(chars[..0]).Ok?;
        assert chars[..1] == [chars[0]];
      } else {
        var rest := Step(chars).1;
        StepTokenize(chars);
        TokenizeFailsAtFirst(rest);
        var j :| 0 <= j < |rest| && !IsLexical(rest[j]) &&
                 Tokenize(rest[..j]).Ok? && Tokenize(rest[..j + 1]).Err? &&
                 Tokenize(rest).error == InvalidSyntax("Invalid syntax near: " + [rest[j]]);
        PrefixReads(chars, |chars| - |rest|, j);
        PrefixFails(chars, |chars| - |rest|, j);
      }
    }
  }
}
