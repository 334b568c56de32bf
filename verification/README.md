# mini_compilador in Dafny

A model of the expression-language pipeline of `mini_compilador.py.py`:
the regex-table lexer, the recursive-descent `Parser`, and the tree-walking
evaluator `eval_ast`. The stages are pure functions here. Text goes to
tokens, tokens go to a tree, and a tree plus a store go to a value plus
the updated store. Every failure is a `Result` error carrying what the
source's exception reports.

Modules:

- `Chars`: the character classes behind `\d`, `[a-zA-Z_]`, `\w` and `\s`
  below U+0080, and decimal numerals (`DecimalValue`, `Show`).
- `Tokens`, `Results`, `Ast`: tokens (kind plus exact text), the errors of
  the three stages, and the four node shapes NUM, ID, ASSIGN and BIN_OP.
- `Lexer`: the `TOKENS` priority table as data, with each regex written as
  a `F R*` pattern. `Scan` does one step of the scan loop: try the entries
  in order and keep the first match, longest within its own class.
  `LexWith` and `Lex` run the loop.
- `LexerProperties`: the lexer's partition, totality and first-match
  properties.
- `LexerInverse`: the lexer's inverse. Writing lexemes that do not run
  into one another and lexing the text gives the lexemes back.
- `Parser`: `peek`, `eat`, `parse`, `expr`, `term` and `factor`. The parser
  object's cursor becomes an explicit position, and the `while` loops
  become the tail-recursive `ExprTail` and `TermTail`.
- `ParserProperties`: full consumption, transparent parentheses, and
  independence from what follows a parsed expression.
- `Printer`: a fully parenthesising printer for trees. It is the partner
  of the parser (parsing undoes printing) and of the lexer (its tokens lex
  back as they are).
- `Precedence`: precedence and left grouping on whole trees. Every stream
  without `(` parses to a tree of the unbracketed shape. A second printer
  writes the parentheses precedence and left grouping need, plus
  parentheses around every assignment below the top, and its output
  parses back to the tree it printed.
- `Evaluator` and `EvaluatorProperties`: `eval_ast` with Python's numbers.
  `+`, `-` and `*` of two `int`s give an `int`, and `/` always gives a
  float. A float is modelled by the exact rational it approximates. The
  properties include a reference semantics on exact numbers, the store an
  assignment leaves, and left-to-right evaluation.
- `Pipeline`: lexer, then parser, then evaluator, as the example driver
  chains them.
- `Scenarios`: concrete runs from text to value. They include the driver's
  `x = 3 + 5 * (2 - 1)`.

Two consequences of the code shape the model:

- FACTOR accepts `ID = EXPR` and `( EXPR )` wherever a factor may stand,
  so an assignment can be an operand. `(x = 1) + 2` parses as a sum whose
  left operand is an assignment (`Scenarios.AssignedOperandRuns`), and
  `1 + x = 2` parses as `1 + (x = 2)`.
- `/` is Python true division, so `7 / 2` is `3.5`
  (`Scenarios.QuotientRuns`). The model keeps integers and floats apart.

## Model

| member | source | states |
|---|---|---|
| Lexer.TableDenotesLexemes | mini_compilador.py.py:7-18 | each entry's pattern matches exactly the lexemes of its kind: digit runs, `[a-zA-Z_]\w*`, the single operator or parenthesis character, whitespace runs |
| Lexer.SpanIsLongestRun | mini_compilador.py.py:8-17 | the `*`/`+` repetition is greedy: every character of the span is in the class, and the one after it (if any) is not |
| Lexer.RunIsSpan | mini_compilador.py.py:8-17 | conversely, a run of the class that stops at the end or at a character outside it is exactly the span |
| Lexer.MatchLengthMatches | mini_compilador.py.py:27-30 | what `regex.match(code, pos)` matches is in the pattern's language |
| Lexer.MatchIsLongest | mini_compilador.py.py:27-30 | no longer prefix from `pos` is in the pattern's language; when nothing matched, no non-empty prefix is |
| Lexer.FirstMatchIsFirst | mini_compilador.py.py:26-34 | every entry tried before the chosen one (every entry, when none is chosen) matches nothing at the cursor |
| Lexer.FirstMatchFindsMatch | mini_compilador.py.py:26-34 | the entry chosen comes no later than any entry that matches |
| Lexer.FirstMatchAt | mini_compilador.py.py:26-34 | when entries `i..j-1` match nothing and entry `j` matches, entry `j` is chosen |
| Lexer.ScanCutsLexeme | mini_compilador.py.py:28-30 | the text a match cuts from the input is a lexeme of the matched kind |
| LexerProperties.PartitionsStep | mini_compilador.py.py:29-34 | one emitted token, or one dropped SPACE match, keeps the partition property of the rest of the scan |
| LexerProperties.LexWithPartitions | mini_compilador.py.py:24-37 | for any table whose patterns denote lexemes, a successful scan's tokens spell the input with whitespace deleted, and each is a non-SPACE lexeme of its kind |
| LexerProperties.LexPartitions | mini_compilador.py.py:20-37 | lexer partition: the tokens concatenate to the source with every whitespace character removed, and none has kind SPACE |
| LexerProperties.NoMatchAtUnlexable | mini_compilador.py.py:7-18 | at a character that is not a digit, letter, `_`, operator, parenthesis or whitespace, no entry of the table matches |
| LexerProperties.MatchAtLexable | mini_compilador.py.py:7-18 | at every such character some entry matches |
| LexerProperties.TableCovers | mini_compilador.py.py:7-18 | the table matches at a position exactly when the character there is lexable |
| LexerProperties.StopsStep | mini_compilador.py.py:29-34 | consuming a match never skips an unlexable character, and the scan from after it fails or succeeds as the whole does |
| LexerProperties.UnmatchedStops | mini_compilador.py.py:35-36 | a position where nothing matches is the first unlexable one, and the loop fails there |
| LexerProperties.LexWithStopsAtFirstUnlexable | mini_compilador.py.py:24-37 | for a table that denotes lexemes and covers the lexable characters, the scan succeeds iff no unlexable character follows, and otherwise fails with the suffix from the first one |
| LexerProperties.LexSucceedsIffLexable | mini_compilador.py.py:20-37 | lexer totality: `lexer(code)` succeeds iff every character is lexable; on failure the error carries the suffix starting at the first unlexable character, and everything before it is lexable |
| LexerProperties.ScanAtDigit | mini_compilador.py.py:8-9 | at a digit NUM wins over ID, and takes the whole maximal digit run |
| LexerProperties.ScanAtIdStart | mini_compilador.py.py:9 | at a letter or `_` the ID entry is chosen, and takes the whole run of word characters, digits included |
| LexerProperties.BlankSkipsOtherEntries | mini_compilador.py.py:7-17 | at whitespace every entry before SPACE fails |
| LexerProperties.ScanAtSpace | mini_compilador.py.py:17 | at whitespace SPACE is chosen and takes the whole whitespace run |
| LexerProperties.SpaceRunIsDropped | mini_compilador.py.py:31-33 | a whitespace run is consumed whole and emits nothing |
| LexerProperties.NumberThenIdentifier | mini_compilador.py.py:8-9 | `12ab` lexes as NUM `12` then ID `ab`, not as one identifier |
| LexerProperties.SeparatorIsBlank | mini_compilador.py.py:17-33 | `1` followed by the information separator U+001C lexes as NUM `1` alone: the separator is blank to `\s+` and dropped |
| LexerProperties.UnknownSymbolRejected | mini_compilador.py.py:35-36 | `x @ 1` is rejected at `@`, carrying `@ 1` |
| LexerInverse.ScanAtSymbol | mini_compilador.py.py:10-16 | at an operator or parenthesis character its own entry is chosen, with length one |
| LexerInverse.ScanAtNumber | mini_compilador.py.py:8 | a digit run written at the cursor and not followed by a digit is cut whole as NUM |
| LexerInverse.ScanAtIdentifier | mini_compilador.py.py:9 | an identifier not followed by a word character is cut whole as ID |
| LexerInverse.ScanAtBlank | mini_compilador.py.py:17 | a whitespace run not followed by whitespace is cut whole as SPACE |
| LexerInverse.ScanAtLexeme | mini_compilador.py.py:26-34 | any lexeme written at the cursor and not extended by the next character is cut whole, with its own kind |
| LexerInverse.TableCutsLexemes | mini_compilador.py.py:26-34 | the same, stated for the table as a whole |
| LexerInverse.LexWithConcat | mini_compilador.py.py:24-37 | scanning the text of separated lexemes gives them back with the SPACE ones dropped |
| LexerInverse.LexConcat | mini_compilador.py.py:20-37 | the inverse of the lexer: lexing the concatenation of separated lexemes gives them back, minus the SPACE ones |
| LexerInverse.StripAppend | mini_compilador.py.py:31-32 | dropping SPACE tokens commutes with concatenation |
| LexerInverse.LaidOutIsSeparated | mini_compilador.py.py:31-32 | emittable tokens with single spaces between some of them are separated lexemes whose non-SPACE ones are the tokens |
| LexerInverse.LexLaidOut | mini_compilador.py.py:20-37 | lexing tokens laid out with optional single spaces, none running into the next, gives exactly the tokens back |
| Parser.ParseExpr | mini_compilador.py.py:68-73 | EXPR consumes at least one token and stays within the stream, fails only with a syntax error, and builds NUM nodes only from NUM tokens |
| Parser.ExprTail | mini_compilador.py.py:70-72 | the additive loop never moves the cursor back or past the end, and fails only with a syntax error |
| Parser.ParseTerm | mini_compilador.py.py:75-80 | TERM consumes at least one token, and fails only with a syntax error |
| Parser.TermTail | mini_compilador.py.py:77-79 | the multiplicative loop never moves the cursor back or past the end, and fails only with a syntax error |
| Parser.ParseFactor | mini_compilador.py.py:82-100 | FACTOR consumes at least one token, and fails only with a syntax error |
| Parser.Parse | mini_compilador.py.py:62-66 | a successful parse has a non-empty stream and has consumed every token; a failure is a syntax error |
| ParserProperties.EatPastEnd | mini_compilador.py.py:52-60 | past the end, `peek` yields the EOF sentinel, so `eat` of any real kind fails |
| ParserProperties.EatConsumesOne | mini_compilador.py.py:55-59 | a successful `eat` returns the current token and advances by exactly one |
| ParserProperties.ParseEmpty | mini_compilador.py.py:99-100 | the empty stream is rejected, because the EOF sentinel cannot start a factor |
| ParserProperties.EmbedExpr | mini_compilador.py.py:68-100 | an EXPR parses the same inside a longer stream when what follows it cannot continue it |
| ParserProperties.EmbedFactor | mini_compilador.py.py:82-100 | the same for FACTOR |
| ParserProperties.TrailingTokensRejected | mini_compilador.py.py:62-66 | a whole expression followed by a token that cannot continue it is rejected with "tokens left over" |
| ParserProperties.ParenthesesAreTransparent | mini_compilador.py.py:94-98 | `( EXPR )` yields the inner node itself, with no wrapper node, and consumes both parentheses |
| ParserProperties.ParenthesesKeepParse | mini_compilador.py.py:94-98 | parenthesising a whole expression does not change its tree |
| ParserProperties.AtomFactor | mini_compilador.py.py:84-93 | a NUM token, or an ID token not followed by `=`, is a NUM or ID leaf consuming one token |
| ParserProperties.AtomTerm | mini_compilador.py.py:75-80 | such a leaf not followed by `*`, `/` or `=` is a whole TERM |
| Printer.FactorRoundTrip | mini_compilador.py.py:82-100 | the printed tokens of any tree parse back as that tree, as one FACTOR, wherever they occur and whatever follows except `=` |
| Printer.AssignmentRoundTrip | mini_compilador.py.py:87-92 | `( ID = value )` parses as the assignment node, given that the value does |
| Printer.BinaryRoundTrip | mini_compilador.py.py:94-98 | `( left op right )` parses as the binary node, given that its operands do |
| Printer.ParseUnparse | mini_compilador.py.py:62-100 | parsing undoes printing, for every tree |
| Printer.UnparseRelexable | mini_compilador.py.py:7-18 | the printed tokens of a printable tree are non-SPACE lexemes, none running into the next |
| Precedence.ExprUnbracketed | mini_compilador.py.py:68-73 | in a stream without `(`, every EXPR the parser builds, from any position, has the unbracketed shape: no operand of a `*` or `/` node is a `+` or `-` node, the right operand of a `+` or `-` node is never one, and the right operand of a `*` or `/` node is never a binary node |
| Precedence.ExprTailUnbracketed | mini_compilador.py.py:70-72 | the additive loop keeps that shape: it only ever puts a TERM, never a sum, to the right of `+` or `-` |
| Precedence.TermUnbracketed | mini_compilador.py.py:75-80 | in such a stream every TERM has the unbracketed shape and is not a `+` or `-` node |
| Precedence.TermTailUnbracketed | mini_compilador.py.py:77-79 | the multiplicative loop keeps that shape: both operands of each node it builds are free of sums, and the right one is a FACTOR |
| Precedence.FactorUnbracketed | mini_compilador.py.py:82-93 | in such a stream every FACTOR is a leaf or an assignment whose value has the unbracketed shape, never a binary node |
| Precedence.ParseUnbracketed | mini_compilador.py.py:62-100 | precedence and left grouping for every token stream without `(`: whatever it parses to has the unbracketed shape |
| Precedence.ExprTokensParse | mini_compilador.py.py:68-73 | a tree written as an EXPR by `ExprTokens`, anywhere in a stream and followed by anything but `=`, `*` or `/`, is read back by EXPR, which reaches its additive loop holding exactly that tree at the end of the tree's tokens |
| Precedence.TermTokensParse | mini_compilador.py.py:75-80 | the same for TERM, followed by anything but `=` |
| Precedence.FactorTokensParse | mini_compilador.py.py:82-98 | the same for FACTOR: a leaf, or a parenthesised assignment or binary node, parses as one FACTOR spanning its tokens |
| Precedence.ExprTokensRoundTrip | mini_compilador.py.py:62-100 | parsing undoes `ExprTokens`, which parenthesises only for precedence, left grouping and assignments below the top, for every tree |
| Precedence.TermTokensRoundTrip | mini_compilador.py.py:62-100 | the same for a tree written as a TERM |
| Precedence.MinimalRoundTrip | mini_compilador.py.py:62-100 | the same for the printed stream, which writes a top-level assignment bare, as in `x = 1 + 2` |
| Precedence.ExprTokensBare | mini_compilador.py.py:68-100 | that printer's EXPR output has no `(` exactly when the tree has the unbracketed shape and assigns nothing |
| Precedence.ParenFreeSpelling | mini_compilador.py.py:62-100 | a tree that some stream without `(` parses to has the unbracketed shape; a tree without assignments has such a stream exactly when the printer writes it without `(` |
| Precedence.AdditiveChainFoldsLeft | mini_compilador.py.py:68-73 | left-associativity of `+` and `-` for any operand trees: `a - b - c` parses as `(a - b) - c`, and any chain of operands joined by additive operators as its left fold |
| Precedence.MultiplicativeChainFoldsLeft | mini_compilador.py.py:75-80 | the same for `*` and `/` |
| Precedence.ProductBindsTighterOnTheRight | mini_compilador.py.py:68-80 | precedence for any operand trees: in `x + y * z` the product is the right operand of the sum |
| Precedence.ProductBindsTighterOnTheLeft | mini_compilador.py.py:68-80 | precedence for any operand trees: in `x * y + z` the product is the left operand of the sum |
| Evaluator.Apply | mini_compilador.py.py:124-127 | one operator: it fails iff it is `/` with a zero right operand; otherwise its number is the exact result, and it is an `int` iff both operands are and the operator is not `/` |
| Evaluator.Eval | mini_compilador.py.py:106-129 | the store after evaluation has the incoming names plus the assigned ones, and names not assigned keep their values; division by zero needs a `/` in the tree, and a bad literal needs a non-numeral NUM node |
| EvaluatorProperties.EvalIsExact | mini_compilador.py.py:111-127 | against a reference semantics on exact numbers, the evaluator succeeds exactly when it does, fails with the same error, and computes the same number and store; the reference threads the store in the same order, so this checks the integer and float tagging and the arithmetic, not the order |
| EvaluatorProperties.IntegersStayIntegers | mini_compilador.py.py:111-126 | without `/`, an integer store gives an integer value and leaves an integer store |
| EvaluatorProperties.EvalTotal | mini_compilador.py.py:106-127 | a tree with numeral literals and no `/` always evaluates |
| EvaluatorProperties.VariableReads | mini_compilador.py.py:113-114 | an ID node reads the name's stored value, or the integer 0 when the name was never assigned, and leaves the store alone |
| EvaluatorProperties.AssignmentStores | mini_compilador.py.py:115-119 | ASSIGN returns its value's value; the store afterwards is the store its value left, with the name bound to that value, so every other name the value does not assign keeps its old value |
| EvaluatorProperties.BinaryThreadsStore | mini_compilador.py.py:120-127 | BIN_OP evaluates the left operand against the incoming store, then the right operand against the store the left one produced, then the operator; it fails exactly when one of these steps fails, and a failing left operand decides the error |
| EvaluatorProperties.DivisionByZeroFails | mini_compilador.py.py:127 | `/` by a zero, integer or float, is an error |
| EvaluatorProperties.QuotientIsFloat | mini_compilador.py.py:127 | `6 / 3` is the float 2.0, not the integer 2 |
| EvaluatorProperties.ReadBeforeAssignment | mini_compilador.py.py:121-124 | the left operand is evaluated first: in `x + (x = 3)` the read sees the old (absent) value |
| EvaluatorProperties.AssignmentBeforeRead | mini_compilador.py.py:121-124 | the right operand sees the left one's assignment: `(x = 3) + x` is 6 |
| Pipeline.LexedNumerals | mini_compilador.py.py:8 | every NUM token the lexer emits is a decimal numeral |
| Pipeline.OperatorText | mini_compilador.py.py:71-72 | an operator token's text is the operator's symbol, so a BIN_OP node that records the operator loses nothing |
| Pipeline.RunErrors | mini_compilador.py.py:35-36 | a run fails in the lexer iff some character is unlexable, and never with a malformed literal |
| Pipeline.PrintRoundTrip | mini_compilador.py.py:138-150 | for a printable tree, the printed text lexes to the printed tokens, parses to the tree, and runs to the tree's evaluation |
| Pipeline.NumeralRuns | mini_compilador.py.py:111-112 | any digit string runs to the integer it denotes and leaves the store unchanged |
| Pipeline.ShowRuns | mini_compilador.py.py:111-112 | the numeral of any natural number runs back to that number |
| Pipeline.RunLaidOut | mini_compilador.py.py:138-150 | running the laid-out text of spaceable tokens is parsing the tokens and evaluating the tree |
| Scenarios.DriverParse | mini_compilador.py.py:87-92 | `x = 3 + 5 * (2 - 1)` parses as an assignment whose value is the whole sum |
| Scenarios.DriverRuns | mini_compilador.py.py:135-151 | the driver's input runs to 8 and leaves `x` bound to 8 |
| Scenarios.ChainRuns | mini_compilador.py.py:68-73 | `8 - 3 - 2` runs to 3 |
| Scenarios.PrecedenceRuns | mini_compilador.py.py:68-80 | `2 + 3 * 4` runs to 14 |
| Scenarios.GroupingRuns | mini_compilador.py.py:94-98 | `(2 + 3) * 4` runs to 20 |
| Scenarios.UnassignedRuns | mini_compilador.py.py:113-114 | `y + 1` against an empty store runs to 1 |
| Scenarios.ZeroDivisorRuns | mini_compilador.py.py:127 | `1 / 0` is a division-by-zero error |
| Scenarios.QuotientRuns | mini_compilador.py.py:127 | `7 / 2` runs to the float 3.5 |
| Scenarios.AssignedOperandRuns | mini_compilador.py.py:94-98 | `(x = 1) + 2` runs to 3 and binds `x` to 1 |
| Scenarios.MissingValueRuns | mini_compilador.py.py:99-100 | `x = ` fails because the EOF sentinel cannot start the value |
| Scenarios.TrailingParse | mini_compilador.py.py:64-65 | the tokens of `1 + 1 2` are rejected with "tokens left over" |
| Scenarios.TrailingRuns | mini_compilador.py.py:64-65 | `1 + 1 2` fails with "tokens left over" |

## Left out

- Store mutation on failure: `eval_ast` updates the caller's dict in
  place, so assignments made before an error stay visible to the caller.
  `Eval` returns the store only on success and drops it with the error.
- Unicode character classes: on a `str`, Python's `\d`, `\w` and `\s`
  also match digits, letters and spaces above U+007F, such as U+0660 or
  U+00A0. The model's classes (`Chars`) stop at U+007F.
- `int()` leniency: `int` would also accept signs, underscores and
  surrounding spaces. The lexer only ever hands it digit runs
  (`Pipeline.LexedNumerals`). The model's evaluator rejects any other text
  with `InvalidLiteral`, which no run reaches (`Pipeline.RunErrors`).
- Float rounding: a float is modelled by the exact rational number it
  approximates. There is no rounding, no overflow to `inf`, and no
  float-specific division-by-zero message. The distinction between `int`
  and float results is kept.
- Apply: Python raises `OverflowError` when `/` meets an `int` too large
  for a float, as in `N / 1` with `N` a 400-digit literal, or when such an
  `int` meets a float, as in `N * (1 / 1)`. The model returns the exact
  value.
- DivisionByZeroFails: which divisions fail depends on float rounding.
  `1 / (1/49*49 - 1)` is a `DivisionByZero` in the model, whose divisor is
  exactly 0, while Python divides by about -1.1e-16 and gives
  -9007199254740992.0. `1 / ((1/X)/X)` with a 201-digit `X` divides in the
  model, while in Python the divisor underflows to 0.0 and the division
  raises `ZeroDivisionError`.
- Eval: a NUM node of more than 4300 digits raises `ValueError` at
  `int(node[1])` in the CPython versions named under NumeralRuns; the
  model's `Eval` returns its integer. `OverflowError` (see Apply) and
  `RecursionError` (see Recursion depth) are not modelled either.
- EvalTotal: "always evaluates" holds in the model only. In Python such a
  tree can still fail by the 4300-digit limit, by `RecursionError` on deep
  trees, and by `OverflowError` when a float from the store meets a
  400-digit literal under `*`, as in `x * N` after `x = 1 / 2`.
- Recursion depth: `eval_ast` recurses into the left operand, so a chain
  of about 1000 operators such as `1+1+...+1` raises `RecursionError` in
  Python. The parser spends three frames per parenthesis, so about 330
  nested parentheses do too. The model has no depth limit. `Eval`,
  `Parse`, `Printer.ParseUnparse` and the `Precedence` round trips hold
  for trees of any depth.
- NumeralRuns: CPython 3.11, and 3.10.7, 3.9.14, 3.8.14 and 3.7.14 where
  the limit was backported, refuse `int()` of a string of more than 4300
  digits with `ValueError`. The model runs a digit string of any
  length to the integer it denotes.
- ShowRuns: the same limit; the numeral of a number with more than 4300
  digits runs back to it in the model only.
- RunErrors: the same limit; in those CPython versions a run does fail on
  a literal, one of more than 4300 digits, which the model never does.
- AdditiveChainFoldsLeft: the operands are written by `ExprTokens` and
  `TermTokens`. A stream that wraps an operand in more
  parentheses than it needs, or ends in a bare assignment as `1 + x = 2`
  does, is not covered. For every stream without `(`,
  `Precedence.ParseUnbracketed` states the shape of the tree, though not
  the tree itself.
- MultiplicativeChainFoldsLeft: the same restriction on the operands.
- ProductBindsTighterOnTheRight: the same restriction on the operands.
- ProductBindsTighterOnTheLeft: the same restriction on the operands.
- ExprTokensBare: it says when the printer's output has no `(`, not that
  each `(` it writes is needed. Every assignment below the top is written
  in parentheses, even where it could stand bare: `1 + x = 2` parses to
  the tree the printer writes as `1 + ( x = 2 )`, and `x = y = 1` to the
  one `Minimal` writes as `x = ( y = 1 )`. `ParenFreeSpelling` states
  necessity for trees without assignments, and for the tree as a whole
  rather than for each parenthesis.
- BIN_OP nodes store the operator rather than its token text. The two
  carry the same information (`Pipeline.OperatorText`).
- The `ValueError` branch for an unknown node and the implicit `None` for
  an unknown operator: the parser builds neither, and the `Expr` datatype
  has no such values.
- Exception classes and message strings: errors are `Result` constructors
  that carry the same data (the unconsumed suffix, the expected kind and
  the found token, the unexpected token).
- The regex recompilation on every loop iteration: a performance detail
  with no observable effect.
- The `env=None` default: `Run` and `Eval` take the store explicitly, and
  the scenarios pass the empty map.
- The `__main__` printing of tokens, tree, result and store: presentation
  only. The driver's computation is `Scenarios.DriverRuns`.
- `api_a.py` (a web route returning a fixed list) and `api_b.py` (an HTTP
  request and printing) are not part of this model.
- Python's `re` engine in general: only the ten patterns of the table are
  modelled, each as a first character class followed by a repeated class.
