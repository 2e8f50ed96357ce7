# sql_rustico, modelled in Dafny

sql_rustico is a small SQL engine over CSV files. It is invoked with a
directory and one command string. The command is turned into tokens, and
the tokens into one of four commands: INSERT, UPDATE, DELETE or SELECT. A
WHERE clause becomes an expression tree. The table is found as
`<table>.csv` somewhere under the directory. INSERT rewrites the table
through a temporary file: it copies every line of the file, then appends
one line per inserted tuple.

This project models that pipeline from the command text to the resulting
files. It is one Dafny module per source file:

- `CustomErrors` (custom_error.rs): the four error kinds and their
  `Display` text, plus the `Result`/`Option` types used everywhere.
- `Tokenizer` (tokenizer.rs): the character-level tokenizer, working on
  the remaining input the way the source's `Peekable<Chars>` does.
- `Expressions` and `ExpressionParser` (expression.rs,
  expression_parser.rs): the WHERE tree, its evaluation against a row, and
  the recursive-descent parser. The parser walks a cursor `(tokens, pos)`.
- `CommandParser` (command_parser.rs): the INSERT, UPDATE, DELETE and
  SELECT parsers. Each returns the values the source writes into its
  `&mut` out-parameters.
- `CommandSyntax` and `StatementSyntax`: the grammar each parser accepts,
  written as token-sequence printers, with parse round trips. They also
  state the parsers' quirks as lemmas.
- `Rows` and `RowParser` (row.rs, row_parser.rs): a row, how it is written
  as a CSV line, and how a line is read back into a row.
- `Csv` and `TextLines`: Rust's `str::split(",")` and `BufRead::lines`,
  the two library routines the file handling relies on.
- `CommandProcessor` (command_processer.rs): command dispatch, table
  lookup, `copy_table`, and the INSERT append loop.

A writer is modelled as the text written so far. The directory is a map
from table name to file text. Running a command ends in one of three
outcomes: the files afterwards, an error, or a panic.

The model keeps the source's behaviour where it departs from the intended
SQL meaning. Each departure is stated as a lemma:

- SELECT with a column list skips the token that follows FROM, so
  `SELECT a FROM t ;` is rejected (`StatementSyntax.SelectListMissesTable`).
  `SELECT a FROM x t ;` reads table `t`.
- `DELETE FROM t` is rejected: the table name is expected right after
  DELETE.
- An UPDATE or DELETE followed by a keyword other than WHERE is accepted
  without a condition, and the tokens after that keyword are never
  examined.
- `update_row` checks the updated columns and then writes the row
  unchanged. `delete_row` and `select_row` do nothing.
- UPDATE, DELETE and SELECT only parse and look up the table. They leave
  every file as it was.
- Comparisons are on text, so `10 < 9` holds.

Where the descriptive documentation of the project and the code disagree,
the model follows the code:

- A run of digits followed by letters becomes an Integer token and then a
  separate word token, not one Identifier.
- UPDATE does not apply its assignments, DELETE does not filter, and
  SELECT prints nothing.
- INSERT does not append to the file in place. It rebuilds the file from
  a copy, so a final line without '\n' gains one and a "\r\n" ending
  becomes "\n".

## Model

| member | source | states |
|---|---|---|
| CustomErrors.Display | src/custom_error.rs:11-20 | The text ends with the message, after a non-empty kind prefix. |
| CustomErrors.DisplayParses | src/custom_error.rs:11-20 | The error can be read back from its text, kind and message, so no two errors share a display. |
| Tokenizer.TokenizeInteger | src/tokenizer.rs:14-25 | Takes the longest run of leading digits. The token's text followed by the remaining input is the original input. |
| Tokenizer.TokenizeWord | src/tokenizer.rs:28-50 | Takes the longest alphanumeric run. It is a Keyword exactly when its upper-case form is one of the twelve keywords. It is a LogicalOperator exactly when it is AND, OR or NOT and not a keyword. Otherwise it is an Identifier keeping the original case. |
| Tokenizer.TokenizeString | src/tokenizer.rs:52-65 | The string text holds no quote. The input is the opening quote, the text, and then the closing quote and the rest, or the text runs to the end of the input. |
| Tokenizer.TokenizeComparisonOperator | src/tokenizer.rs:67-87 | The operator text plus the rest is the input. `=` is taken alone. `>` or `<` absorbs a following `=`. Any other character gives the empty operator. |
| Tokenizer.Tokenize | src/tokenizer.rs:89-116 | Every token produced is well formed. Input made only of characters the tokenizer knows always succeeds. A failure names a character it does not know, in "Invalid syntax near: c". |
| Tokenizer.TokenizeFailsAtFirst | src/tokenizer.rs:89-116 | A failure names the first unknown character the loop reaches outside a string: the input before that character is read without error, and the input up to and including it fails. |
| Tokenizer.TokenizeRenderAll | src/tokenizer.rs:89-116 | Rendering well-formed tokens with a space after each, then tokenizing, gives back the same tokens. |
| Tokenizer.TokenizeRenderOne | src/tokenizer.rs:93-112 | One rendered token followed by a space is read back as that token, and then the rest is read on. |
| Tokenizer.SkipWhitespace | src/tokenizer.rs:94-96 | A leading whitespace character, any of space, tab, newline, carriage return, vertical tab and form feed, produces no token. |
| Expressions.EvaluateOperand | src/expression.rs:74-91 | A column operand succeeds exactly when the row has that column, and yields its value. The error is "Column not found: name". Literals yield their own text. |
| Expressions.EvaluateExpression | src/expression.rs:32-72 | `True` holds. A comparison of two found operands is the operator applied to their values. Every failure is a GenericError: a missing column or an unknown operator. The connectives are pinned down by Connectives. |
| Expressions.EvaluateDefined | src/expression.rs:32-72 | Evaluation succeeds exactly when every column the expression mentions is in the row and every operator is one of the six known ones. |
| Expressions.EvaluateLocal | src/expression.rs:32-72 | Two rows that agree on the columns an expression mentions evaluate it to the same result. |
| Expressions.Connectives | src/expression.rs:37-51 | AND, OR and NOT compute the boolean connectives of their operands. The first failing operand's error is returned, the left one first. The condition `True` holds for every row. |
| Expressions.OperatorRelations | src/expression.rs:59-65 | `!=` is the negation of `=`. `>=` is `>` or `=`, and `<=` is `<` or `=`. `<` is `>` with the operands swapped. Exactly one of `<`, `=` and `>` holds. |
| Expressions.CompareEqual | src/expression.rs:60 | String comparison reports Equal exactly for equal strings. |
| Expressions.CompareFlip | src/expression.rs:62-63 | a is below b exactly when b is above a. |
| Expressions.CompareTransitive | src/expression.rs:62-65 | Lexicographic "less than" is transitive. |
| Expressions.IntegersCompareAsText | src/expression.rs:57-63 | Integer operands compare as text: `10 < 9` evaluates to true. |
| ExpressionParser.ParseOperand | src/expression_parser.rs:110-126 | Succeeds exactly on an Identifier, String or Integer token and consumes that one token. At the end of input the error is "No operand provided". |
| ExpressionParser.ParseComparison | src/expression_parser.rs:82-108 | A comparison is exactly operand, comparison operator, operand, which is three tokens. Input that does not start with an operand, or lacks the operator, fails with "Invalid expression". |
| ExpressionParser.ParsePrimary | src/expression_parser.rs:65-80 | A parenthesised primary that succeeds ends just after its closing parenthesis, with at least one token inside. |
| ExpressionParser.PrimaryUnclosed | src/expression_parser.rs:68-77 | A parenthesised expression not followed by `)` fails with "Missing closing ')'". |
| ExpressionParser.ParseNot | src/expression_parser.rs:50-63 | A successful parse consumes at least one token and yields a tree whose leaves are comparisons. |
| ExpressionParser.ParseAnd | src/expression_parser.rs:31-48 | The AND loop stops only at a token that is not AND. |
| ExpressionParser.ParseExpression | src/expression_parser.rs:6-29 | A successful parse consumes at least one token. It stops at the end, or at a token that is neither AND nor OR. |
| ExpressionParser.ParseOr | src/expression_parser.rs:12-29 | A successful parse consumes at least one token and leaves only comparison leaves. It stops at the end, or at a token that is neither AND nor OR. |
| ExpressionParser.ParseUnparse | src/expression_parser.rs:6-80 | Printing any expression tree (fully parenthesised) and parsing the printed tokens gives back the same tree, consuming exactly those tokens. |
| ExpressionParser.OrBindsLooserThanAnd | src/expression_parser.rs:12-48 | `a OR b AND c` parses as `a OR (b AND c)`. |
| ExpressionParser.AndBindsTighterThanOr | src/expression_parser.rs:12-48 | `a AND b OR c` parses as `(a AND b) OR c`. |
| ExpressionParser.AndIsLeftAssociative | src/expression_parser.rs:31-48 | `a AND b AND c` parses as `(a AND b) AND c`. |
| ExpressionParser.OrIsLeftAssociative | src/expression_parser.rs:12-29 | `a OR b OR c` parses as `(a OR b) OR c`. |
| ExpressionParser.NotTakesOnePrimary | src/expression_parser.rs:50-63 | NOT applies to the next primary only: `NOT a AND b` is `(NOT a) AND b`. |
| ExpressionParser.DoubleNotRejected | src/expression_parser.rs:50-63 | `NOT NOT a` fails with "Invalid expression", because NOT is followed by a primary, never by another NOT. |
| ExpressionParser.UnclosedParenthesisRejected | src/expression_parser.rs:68-77 | `( a` with nothing after it fails with "Missing closing ')'". |
| CommandParser.TableName | src/command_parser.rs:38-45 | A table name is an Identifier or a String token. Anything else fails with the caller's message. |
| CommandParser.CheckEndingWithSemicolon | src/command_parser.rs:324-336 | Succeeds exactly when the cursor is on a final `;`. Otherwise the error is "Tokens found after ';'" or "Expected ';' at the end of the command". |
| CommandParser.ParseCondition | src/command_parser.rs:227-245 | Success means the expression runs up to a final `;`, and the command ends there. |
| CommandParser.ParseInsert | src/command_parser.rs:12-30 | An accepted INSERT has INTO second and a table name third, names that table, and ends with `;`. |
| CommandParser.ParseInsertFromInto | src/command_parser.rs:32-50 | An accepted rest of an INSERT starts with the table name, an Identifier or String token, names that table, and ends with `;`. |
| CommandParser.ParseInsertColumns | src/command_parser.rs:52-78 | Without `(` the column list is empty and nothing is consumed. With `(` at least that token is consumed. |
| CommandParser.InsertColumnsNames | src/command_parser.rs:52-78 | After `(` the columns are the identifiers in the consumed range. Commas are skipped, and a missing `)` is accepted at the end of input. |
| CommandParser.ParseColumnList | src/command_parser.rs:58-75 | The consumed range ends after `)` or at the end of input. Any other token fails with "Expected column name or ')' after '('". |
| CommandParser.ColumnListNames | src/command_parser.rs:58-75 | The columns read are those collected before plus the identifiers in the consumed range, in order. |
| CommandParser.ParseValues | src/command_parser.rs:80-100 | VALUES is required ("Expected VALUES after column names"). Tuples are read while a comma follows. |
| CommandParser.ParseValueItems | src/command_parser.rs:111-131 | A closed tuple ends after `)` and never has more values than there are columns. An unclosed one runs to the end of input. Otherwise the error is "Too many values for columns" or "Expected value or ')' after '('". |
| CommandParser.ValueItemsTexts | src/command_parser.rs:111-131 | A closed tuple's values are those placed before plus the literals in the consumed range, in order. |
| CommandParser.ParseValue | src/command_parser.rs:102-134 | Without `(` nothing is read. A tuple yields at most one row, and no row when the closing `)` is missing. |
| CommandParser.InsertWithinColumns | src/command_parser.rs:113-118 | Every row an accepted INSERT carries maps only columns from its own column list. |
| CommandParser.ParseUpdate | src/command_parser.rs:142-167 | An accepted UPDATE names its table second, has SET third, and assigns at least one column. |
| CommandParser.ParseSetValue | src/command_parser.rs:196-225 | Succeeds exactly on identifier, `=`, literal. It records that column with the literal's text, over any earlier value. |
| CommandParser.ParseSetValuesTail | src/command_parser.rs:175-178 | Assignments are read while a comma follows. Columns already assigned stay assigned. |
| CommandParser.ParseUpdateSetValues | src/command_parser.rs:169-194 | At least one assignment is made. The condition is the one parsed after WHERE, or left unchanged. |
| CommandParser.ParseDelete | src/command_parser.rs:253-282 | An accepted DELETE names the token after DELETE as its table. A condition is present only after WHERE. `DELETE t ;` must end there. |
| CommandParser.ParseSelect | src/command_parser.rs:290-322 | An accepted SELECT ends with `;`, and every ORDER BY direction is ASC or DESC. |
| CommandParser.ParseSelectColumns | src/command_parser.rs:338-352 | `* FROM` yields no columns, meaning every column. |
| CommandParser.ParseSelectColumnList | src/command_parser.rs:353-378 | Any token other than an identifier, comma or FROM fails with "Expected column name or FROM <tablename> after column names". |
| CommandParser.ParseOrderClause | src/command_parser.rs:307-319 | Without ORDER nothing is read. ORDER without BY fails with "Expected BY after ORDER". |
| CommandParser.ParseOrderByColumn | src/command_parser.rs:408-431 | A column name then an optional DESC. The direction is DESC exactly when DESC follows, and ASC otherwise. Any other keyword after the name fails with "Expected DESC or nothing after column name". |
| CommandParser.ParseOrder | src/command_parser.rs:396-406 | At least one ORDER BY item is read, and more while a comma follows. |
| CommandSyntax.InsertRoundTrip | src/command_parser.rs:12-134 | `INSERT INTO t ( names ) VALUES tuples ;` parses to table t, the listed names, and one row per tuple. Each row maps the i-th column to the i-th literal of its tuple. |
| CommandSyntax.InsertColumnsRoundTrip | src/command_parser.rs:12-134 | The same round trip, stated over a plain list of column names written with commas between them. |
| CommandSyntax.ColumnListParses | src/command_parser.rs:58-75 | A list of identifiers and commas closed by `)` yields its identifiers in order. |
| CommandSyntax.ValueItemsParse | src/command_parser.rs:111-131 | A list of literals and commas closed by `)` yields its literals in order. |
| CommandSyntax.CommaListNames | src/command_parser.rs:58-68 | Names written with commas between them read back as the same names. |
| StatementSyntax.DeleteRoundTrip | src/command_parser.rs:253-282 | `DELETE t [WHERE e] ;` parses to table t with condition e, or with True when WHERE is absent. |
| StatementSyntax.DeleteFromRejected | src/command_parser.rs:259-267 | `DELETE FROM t ;` fails with "Expected table name after DELETE". |
| StatementSyntax.DeleteIgnoresTrailingKeyword | src/command_parser.rs:268-272 | `DELETE t K ...` with any keyword K other than WHERE is accepted with no condition, whatever follows K. |
| StatementSyntax.ConditionParses | src/command_parser.rs:227-245 | A printed expression followed by a final `;` parses back to that expression. |
| StatementSyntax.UpdateRoundTrip | src/command_parser.rs:142-225 | `UPDATE t SET c1 = v1, ... [WHERE e] ;` parses to table t, the assignments folded left to right, and condition e or True. |
| StatementSyntax.AssignMeaning | src/command_parser.rs:174-178 | The assigned columns are those already set plus every column assigned. A column assigned more than once keeps its last value. |
| StatementSyntax.UpdateIgnoresTrailingKeyword | src/command_parser.rs:179-183 | An UPDATE whose assignments are followed by a keyword other than WHERE is accepted with no condition, whatever follows. |
| StatementSyntax.SelectAllRoundTrip | src/command_parser.rs:290-322 | `SELECT * FROM t [WHERE e] [ORDER BY items] ;` parses to every column of t, with the condition and with the items as (column, ASC/DESC) pairs. |
| StatementSyntax.SelectListRoundTrip | src/command_parser.rs:290-394 | `SELECT names FROM x t ...` parses to those names and table t. The token x right after FROM is skipped, whatever it is. |
| StatementSyntax.SelectListMissesTable | src/command_parser.rs:358-361 | `SELECT a FROM t ;` fails with "Expected table name after FROM", because t is skipped. |
| StatementSyntax.OrderParses | src/command_parser.rs:307-319 | `ORDER BY items` yields one (column, direction) pair per item, in order. |
| Csv.SplitShape | src/row_parser.rs:6 | There is one more field than there are commas, and no field contains a comma. |
| Csv.JoinSplit | src/row_parser.rs:6 | Joining the fields with commas gives back the line. |
| Csv.SplitJoin | src/row.rs:36-40 | Comma-free fields joined with commas split back into the same fields. |
| Rows.NewRow | src/row.rs:21-23 | The row keeps the given columns and entries. |
| Rows.Fields | src/row.rs:29-35 | One field per column, in column order. Each field is the row's entry for that column, or empty when it has none. |
| Rows.WriteRow | src/row.rs:26-44 | Appends the fields in column order, separated by commas and ended by a newline. |
| Rows.UpdateRow | src/row.rs:47-57 | Fails with "Column does not exist" exactly when some updated column is not a column of the row, which includes any assignment to a row without columns. A row without columns and with nothing to assign underflows in `write_row`. Otherwise it writes the row as it was, ignoring the new values. |
| Rows.DeleteRow | src/row.rs:59-64 | Writes nothing and succeeds. |
| Rows.SelectRow | src/row.rs:66-68 | Always succeeds. |
| Rows.ConditionIgnored | src/row.rs:47-68 | Changing the condition does not change what update, delete or select do. |
| Rows.BindLookup | src/command_parser.rs:113-118 | Binding values to distinct columns in order maps each column to its value. |
| Rows.BindLast | src/row_parser.rs:13-15 | Whatever the keys, a key is bound to the value at its last position, because later insertions overwrite earlier ones. |
| RowParser.ParseRow | src/row_parser.rs:5-18 | Succeeds exactly when the line has as many fields as there are columns, and then maps every column. Otherwise it fails with "Columns size missmatch". |
| RowParser.ParseRowFields | src/row_parser.rs:5-18 | With distinct columns, the parsed row's fields are the line's fields. |
| RowParser.ParseRowLastWins | src/row_parser.rs:5-18 | With any column names, a column's field is the line's field at the last position with that name. |
| RowParser.ParseWriteRoundTrip | src/row_parser.rs:5-18 | With distinct columns, writing a parsed line gives back the line and a newline. |
| RowParser.WriteParseRoundTrip | src/row.rs:26-44 | A row whose fields contain no commas, written and parsed again, has the same fields. |
| RowParser.EmptyLine | src/row_parser.rs:6-11 | An empty line parses exactly when the table has one column. |
| RowParser.DuplicateColumnsLoseFields | src/row_parser.rs:13-15 | With a repeated column name the last value wins: the line `1,2` under columns `a,a` is written back as `2,2`. |
| RowParser.UpdateRewritesLineVerbatim | src/row.rs:47-57 | Updating a parsed line on known columns writes the original line back unchanged. |
| TextLines.LinesUnlines | src/command_processer.rs:201 | Reading newline-terminated lines that contain no line break gives back those lines. |
| TextLines.UnlinesLines | src/command_processer.rs:201 | A text with no '\r' that is empty or ends with a newline is its lines, each followed by a newline. |
| CommandProcessor.FindTable | src/command_processer.rs:131-188 | Finds the table exactly when the directory holds it. Otherwise it fails with InvalidTable "File not found". |
| CommandProcessor.CopyTable | src/command_processer.rs:190-218 | Succeeds exactly when every line has as many fields as the header line. The columns returned are the header's fields. The copy is every line re-written as a row, and empty for an empty file. Otherwise it fails with "Columns size missmatch". |
| CommandProcessor.CopyLines | src/command_processer.rs:197-217 | The loop over the lines: the first line's fields become the columns, and every line, the first included, is parsed under them and written. It stops at the first arity mismatch with "Columns size missmatch". |
| CommandProcessor.CopyLine | src/command_processer.rs:207-214 | One line is copied exactly when its arity matches the header. A mismatch means the file cannot be copied. |
| CommandProcessor.CopyReproducesLines | src/command_processer.rs:190-218 | With distinct header names, the copy of the lines is the lines themselves, each followed by a newline. |
| CommandProcessor.AppendRows | src/command_processer.rs:68-71 | Appends one written row per inserted tuple in order. It panics exactly when the table has no columns and there is something to insert, as a debug build does. |
| CommandProcessor.InsertAppends | src/command_processer.rs:51-76 | For a table with distinct header names, no '\r' and a final newline, INSERT leaves the file as it was followed by one line per tuple. |
| CommandProcessor.ProcessInsert | src/command_processer.rs:51-76 | Parse and lookup errors are returned unchanged. An arity mismatch in the file fails with "Columns size missmatch". Inserting into an empty file panics, as a debug build does. Otherwise only the table's file changes, to the copy followed by the new rows. |
| CommandProcessor.ProcessUpdate | src/command_processer.rs:98-105 | Completes exactly when the command parses and the table exists, and then changes no file. Errors are passed through. |
| CommandProcessor.ProcessDelete | src/command_processer.rs:107-113 | Completes exactly when the command parses and the table exists, and then changes no file. Errors are passed through. |
| CommandProcessor.ProcessSelect | src/command_processer.rs:115-129 | Completes exactly when the command parses and the table exists, and then changes no file. Errors are passed through. |
| CommandProcessor.ProcessCommand | src/command_processer.rs:21-49 | A tokenizer error is returned unchanged. A command that does not start with a keyword fails with "Usage: <COMMAND> <...>". A keyword that is not one of the four commands fails with "Invalid command: K". INSERT, UPDATE, DELETE and SELECT each end exactly as their own processor does. Only INSERT can panic or change a file, and no command adds or removes a table. |

## Left out

- File-system I/O is not modelled: opening, creating, reading, writing, removing and renaming files, and the "Couldn't ..." errors those steps report. The writer's `write!` errors are left out too.
- The temporary `_tmp.csv` file is not modelled: its path arithmetic, the name clash with a table called `_tmp`, and the file left behind when INSERT fails midway. INSERT is modelled as replacing the table's text in one step.
- CommandProcessor.FindTable: the recursive directory walk is a map lookup. The walk's order, nested directories, entries that cannot be read, and non-UTF-8 paths are not modelled.
- src/main.rs is not part of this model. It passes two arguments to the one-argument `process_command`, and it would index `args[2]` even when too few arguments were given.
- Reading a file that is not valid UTF-8 is not modelled. A table file's text is a Dafny string.
- Tokenizer: `is_whitespace`, `is_digit`, `is_alphabetic`, `is_alphanumeric` and `to_uppercase` are modelled on ASCII. Unicode letters, digits and case mappings beyond ASCII are not.
- HashMap iteration order is not modelled: rows and assignments are Dafny maps. Nothing observable in the model depends on that order.
- Rows.WriteRow: requires at least one column, because the source computes `columns.len() - 1`, which underflows for an empty header. The processor models that case as a panic (CommandProcessor.AppendRows), and Rows.UpdateRow as an underflow.
- The model follows a debug build, where the `usize` subtraction `columns.len() - 1` panics for an empty header. In a release build it wraps around instead: the loop over no columns writes nothing, so an INSERT into an empty file completes and leaves the file empty.
- `CustomError::error_invalid_syntax` is called by every parser for its errors but is not defined in any source file. The model assumes it builds `CustomError::InvalidSyntax` with the given message (CommandParser.SyntaxError).
- Tokenizer.TokenizeRenderAll: the round trip is stated for tokens rendered with one space after each. Other spacings are not covered.
- CommandParser.ParseSelect: the contract states only the final `;` and the directions. The full meaning of an accepted SELECT is given by StatementSyntax.SelectAllRoundTrip and StatementSyntax.SelectListRoundTrip, for the commands those printers produce.
- CommandParser.ParseUpdate: the contract states the table, SET and a non-empty assignment set. The full meaning is given by StatementSyntax.UpdateRoundTrip for printed commands whose values are literals.
- ExpressionParser.ParseUnparse: the round trip is stated for the fully parenthesised printing of a tree, where every AND and OR operand is in parentheses. Unparenthesised input is covered only by the precedence and associativity lemmas.
- The "Invalid operand" message of `parse_operand` includes Rust's `Debug` rendering of the token, such as `Keyword("FROM")`. The model writes the text between the quotes as it is; the escaping `Debug` applies to quotes, backslashes and control characters is not modelled.
