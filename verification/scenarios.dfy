/** Whole runs of concrete source text, from characters to value and
    store. Each source is given as its tokens and where the spaces go; the
    text they lay out is checked against the source string, and the run is
    assembled from the lexer's inverse, the parse and the evaluation. */
module Scenarios {
  import opened Chars
  import opened Tokens
  import opened Results
  import opened Ast
  import opened Lexer
  import opened LexerInverse
  import opened Parser
  import opened ParserProperties
  import opened Evaluator
  import opened Pipeline
  import opened Printer
  import opened Precedence

  /** A one-digit numeral is the digit's value. */
  lemma OneDigit(c: char)
    requires IsDigit(c)
    ensures DecimalValue([c]) == DigitValue(c)
  {
    assert [c][..0] == [];
  }

  /** `x = 3 + 5 * (2 - 1)`, the example driver's input. */
  function DriverTokens(): seq<Token> {
    [Token(Id, "x"), Token(Assign, "="), Token(Num, "3"), Token(Plus, "+"), Token(Num, "5"), Token(Times, "*"),
     Token(LParen, "("), Token(Num, "2"), Token(Minus, "-"), Token(Num, "1"), Token(RParen, ")")]
  }

  function DriverGaps(): seq<bool> {
    [true, true, true, true, true, true, false, true, true, false, false]
  }

  function DriverTree(): Expr {
    Assignment("x", Binary(Add, Number("3"), Binary(Multiply, Number("5"), Binary(Subtract, Number("2"), Number("1")))))
  }

  lemma DriverText()
    ensures Layout(DriverTokens(), DriverGaps(), 0) == "x = 3 + 5 * (2 - 1)"
  {
    assert Layout(DriverTokens(), DriverGaps(), 6) == "(2 - 1)";
  }

  lemma DriverSpaceable()
    ensures Spaceable(DriverTokens(), DriverGaps(), 0)
  {
  }

  lemma DriverDifference()
    ensures ParseExpr(DriverTokens(), 7) == Ok(Parsed(Binary(Subtract, Number("2"), Number("1")), 10))
  {
    var ts := DriverTokens();
    assert ParseTerm(ts, 7) == Ok(Parsed(Number("2"), 8));
    assert ParseTerm(ts, 9) == Ok(Parsed(Number("1"), 10));
  }

  lemma DriverProduct()
    ensures ParseTerm(DriverTokens(), 4)
         == Ok(Parsed(Binary(Multiply, Number("5"), Binary(Subtract, Number("2"), Number("1"))), 11))
  {
    DriverDifference();
    var ts := DriverTokens();
    assert ParseFactor(ts, 6) == Ok(Parsed(Binary(Subtract, Number("2"), Number("1")), 11));
    assert ParseFactor(ts, 4) == Ok(Parsed(Number("5"), 5));
  }

  lemma DriverSum()
    ensures ParseExpr(DriverTokens(), 2) == Ok(Parsed(DriverTree().value, 11))
  {
    DriverProduct();
    var ts := DriverTokens();
    assert ParseTerm(ts, 2) == Ok(Parsed(Number("3"), 3));
  }

  /** The assignment's value is the whole of `3 + 5 * (2 - 1)`. */
  lemma DriverParse()
    ensures Parse(DriverTokens()) == Ok(DriverTree())
  {
    DriverSum();
    var ts := DriverTokens();
    assert ParseFactor(ts, 0) == Ok(Parsed(DriverTree(), 11));
    WholeFactorIsParse(ts, DriverTree());
  }

  lemma DriverEval()
    ensures Eval(DriverTree(), map[]) == Ok(Evaluated(Int(8), map["x" := Int(8)]))
  {
    OneDigit('1');
    OneDigit('2');
    OneDigit('3');
    OneDigit('5');
  }

  /** The driver's run returns 8 and leaves `x` bound to 8. */
  lemma DriverRuns()
    ensures Run("x = 3 + 5 * (2 - 1)", map[]) == Ok(Evaluated(Int(8), map["x" := Int(8)]))
  {
    DriverText();
    DriverSpaceable();
    DriverParse();
    DriverEval();
    RunLaidOut(DriverTokens(), DriverGaps(), DriverTree(), map[]);
  }

  /** `8 - 3 - 2` is `(8 - 3) - 2`, which is 3, not 7: subtraction groups to the left. */
  function ChainTokens(): seq<Token> {
    [Token(Num, "8"), Token(Minus, "-"), Token(Num, "3"), Token(Minus, "-"), Token(Num, "2")]
  }

  function ChainGaps(): seq<bool> {
    [true, true, true, true, false]
  }

  function ChainTree(): Expr {
    Binary(Subtract, Binary(Subtract, Number("8"), Number("3")), Number("2"))
  }

  lemma ChainText()
    ensures Layout(ChainTokens(), ChainGaps(), 0) == "8 - 3 - 2"
  {
  }

  lemma ChainSpaceable()
    ensures Spaceable(ChainTokens(), ChainGaps(), 0)
  {
  }

  lemma ChainParse()
    ensures Parse(ChainTokens()) == Ok(ChainTree())
  {
    var rest := [(Subtract, Number("3")), (Subtract, Number("2"))];
    AdditiveChainFoldsLeft(Number("8"), rest);
    assert rest[..1] == [(Subtract, Number("3"))];
    assert Fold(Number("8"), rest) == ChainTree();
    assert SumChain(Number("8"), rest) == ChainTokens();
  }

  lemma ChainEval()
    ensures Eval(ChainTree(), map[]) == Ok(Evaluated(Int(3), map[]))
  {
    OneDigit('8');
    OneDigit('3');
    OneDigit('2');
  }

  lemma ChainRuns()
    ensures Run("8 - 3 - 2", map[]) == Ok(Evaluated(Int(3), map[]))
  {
    ChainText();
    ChainSpaceable();
    ChainParse();
    ChainEval();
    RunLaidOut(ChainTokens(), ChainGaps(), ChainTree(), map[]);
  }

  /** `2 + 3 * 4` is 14: the product is taken first. */
  function PrecedenceTokens(): seq<Token> {
    [Token(Num, "2"), Token(Plus, "+"), Token(Num, "3"), Token(Times, "*"), Token(Num, "4")]
  }

  function PrecedenceGaps(): seq<bool> {
    [true, true, true, true, false]
  }

  function PrecedenceTree(): Expr {
    Binary(Add, Number("2"), Binary(Multiply, Number("3"), Number("4")))
  }

  lemma PrecedenceText()
    ensures Layout(PrecedenceTokens(), PrecedenceGaps(), 0) == "2 + 3 * 4"
  {
  }

  lemma PrecedenceSpaceable()
    ensures Spaceable(PrecedenceTokens(), PrecedenceGaps(), 0)
  {
  }

  lemma PrecedenceParse()
    ensures Parse(PrecedenceTokens()) == Ok(PrecedenceTree())
  {
    ProductBindsTighterOnTheRight(Number("2"), Add, Number("3"), Multiply, Number("4"));
    assert ExprTokens(Number("2")) + [OperatorToken(Add)] + TermTokens(Number("3")) + [OperatorToken(Multiply)]
      + FactorTokens(Number("4")) == PrecedenceTokens();
  }

  lemma PrecedenceEval()
    ensures Eval(PrecedenceTree(), map[]) == Ok(Evaluated(Int(14), map[]))
  {
    OneDigit('2');
    OneDigit('3');
    OneDigit('4');
  }

  lemma PrecedenceRuns()
    ensures Run("2 + 3 * 4", map[]) == Ok(Evaluated(Int(14), map[]))
  {
    PrecedenceText();
    PrecedenceSpaceable();
    PrecedenceParse();
    PrecedenceEval();
    RunLaidOut(PrecedenceTokens(), PrecedenceGaps(), PrecedenceTree(), map[]);
  }

  /** `(2 + 3) * 4` is 20: parentheses override precedence. */
  function GroupingTokens(): seq<Token> {
    [Token(LParen, "("), Token(Num, "2"), Token(Plus, "+"), Token(Num, "3"), Token(RParen, ")"),
     Token(Times, "*"), Token(Num, "4")]
  }

  function GroupingGaps(): seq<bool> {
    [false, true, true, false, true, true, false]
  }

  function GroupingTree(): Expr {
    Binary(Multiply, Binary(Add, Number("2"), Number("3")), Number("4"))
  }

  lemma GroupingText()
    ensures Layout(GroupingTokens(), GroupingGaps(), 0) == "(2 + 3) * 4"
  {
  }

  lemma GroupingSpaceable()
    ensures Spaceable(GroupingTokens(), GroupingGaps(), 0)
  {
  }

  lemma GroupingParse()
    ensures Parse(GroupingTokens()) == Ok(GroupingTree())
  {
    var ts := GroupingTokens();
    var sum := Binary(Add, Number("2"), Number("3"));
    AtomTerm(ts, 1);
    AtomTerm(ts, 3);
    assert ExprTail(ts, sum, 4) == Ok(Parsed(sum, 4));
    assert ParseExpr(ts, 1) == Ok(Parsed(sum, 4));
    assert ParseFactor(ts, 0) == Ok(Parsed(sum, 5));
    AtomFactor(ts, 6);
    assert TermTail(ts, GroupingTree(), 7) == Ok(Parsed(GroupingTree(), 7));
    assert ParseTerm(ts, 0) == Ok(Parsed(GroupingTree(), 7));
    WholeTermIsParse(ts, GroupingTree());
  }

  lemma GroupingEval()
    ensures Eval(GroupingTree(), map[]) == Ok(Evaluated(Int(20), map[]))
  {
    OneDigit('2');
    OneDigit('3');
    OneDigit('4');
  }

  lemma GroupingRuns()
    ensures Run("(2 + 3) * 4", map[]) == Ok(Evaluated(Int(20), map[]))
  {
    GroupingText();
    GroupingSpaceable();
    GroupingParse();
    GroupingEval();
    RunLaidOut(GroupingTokens(), GroupingGaps(), GroupingTree(), map[]);
  }

  /** `y + 1` against an empty store is 1: a name never assigned reads 0. */
  function UnassignedTokens(): seq<Token> {
    [Token(Id, "y"), Token(Plus, "+"), Token(Num, "1")]
  }

  function UnassignedGaps(): seq<bool> {
    [true, true, false]
  }

  function UnassignedTree(): Expr {
    Binary(Add, Variable("y"), Number("1"))
  }

  lemma UnassignedText()
    ensures Layout(UnassignedTokens(), UnassignedGaps(), 0) == "y + 1"
  {
  }

  lemma UnassignedSpaceable()
    ensures Spaceable(UnassignedTokens(), UnassignedGaps(), 0)
  {
  }

  lemma UnassignedParse()
    ensures Parse(UnassignedTokens()) == Ok(UnassignedTree())
  {
  }

  lemma UnassignedEval()
    ensures Eval(UnassignedTree(), map[]) == Ok(Evaluated(Int(1), map[]))
  {
    OneDigit('1');
  }

  lemma UnassignedRuns()
    ensures Run("y + 1", map[]) == Ok(Evaluated(Int(1), map[]))
  {
    UnassignedText();
    UnassignedSpaceable();
    UnassignedParse();
    UnassignedEval();
    RunLaidOut(UnassignedTokens(), UnassignedGaps(), UnassignedTree(), map[]);
  }

  /** `1 / 0` is a division by zero: an error, never a value. */
  function ZeroDivisorTokens(): seq<Token> {
    [Token(Num, "1"), Token(Div, "/"), Token(Num, "0")]
  }

  function ZeroDivisorGaps(): seq<bool> {
    [true, true, false]
  }

  function ZeroDivisorTree(): Expr {
    Binary(Divide, Number("1"), Number("0"))
  }

  lemma ZeroDivisorText()
    ensures Layout(ZeroDivisorTokens(), ZeroDivisorGaps(), 0) == "1 / 0"
  {
  }

  lemma ZeroDivisorSpaceable()
    ensures Spaceable(ZeroDivisorTokens(), ZeroDivisorGaps(), 0)
  {
  }

  lemma ZeroDivisorParse()
    ensures Parse(ZeroDivisorTokens()) == Ok(ZeroDivisorTree())
  {
  }

  lemma ZeroDivisorEval()
    ensures Eval(ZeroDivisorTree(), map[]) == Err(DivisionByZero)
  {
    OneDigit('1');
    OneDigit('0');
  }

  lemma ZeroDivisorRuns()
    ensures Run("1 / 0", map[]) == Err(DivisionByZero)
  {
    ZeroDivisorText();
    ZeroDivisorSpaceable();
    ZeroDivisorParse();
    ZeroDivisorEval();
    RunLaidOut(ZeroDivisorTokens(), ZeroDivisorGaps(), ZeroDivisorTree(), map[]);
  }

  /** `7 / 2` is the float 3.5: `/` is true division. */
  function QuotientTokens(): seq<Token> {
    [Token(Num, "7"), Token(Div, "/"), Token(Num, "2")]
  }

  function QuotientGaps(): seq<bool> {
    [true, true, false]
  }

  function QuotientTree(): Expr {
    Binary(Divide, Number("7"), Number("2"))
  }

  lemma QuotientText()
    ensures Layout(QuotientTokens(), QuotientGaps(), 0) == "7 / 2"
  {
  }

  lemma QuotientSpaceable()
    ensures Spaceable(QuotientTokens(), QuotientGaps(), 0)
  {
  }

  lemma QuotientParse()
    ensures Parse(QuotientTokens()) == Ok(QuotientTree())
  {
  }

  lemma QuotientEval()
    ensures Eval(QuotientTree(), map[]) == Ok(Evaluated(Float(3.5), map[]))
  {
    OneDigit('7');
    OneDigit('2');
  }

  lemma QuotientRuns()
    ensures Run("7 / 2", map[]) == Ok(Evaluated(Float(3.5), map[]))
  {
    QuotientText();
    QuotientSpaceable();
    QuotientParse();
    QuotientEval();
    RunLaidOut(QuotientTokens(), QuotientGaps(), QuotientTree(), map[]);
  }

  /** `(x = 1) + 2` is 3 and binds `x` to 1: a parenthesised assignment can be a left operand. */
  function AssignedOperandTokens(): seq<Token> {
    [Token(LParen, "("), Token(Id, "x"), Token(Assign, "="), Token(Num, "1"), Token(RParen, ")"),
     Token(Plus, "+"), Token(Num, "2")]
  }

  function AssignedOperandGaps(): seq<bool> {
    [false, true, true, false, true, true, false]
  }

  function AssignedOperandTree(): Expr {
    Binary(Add, Assignment("x", Number("1")), Number("2"))
  }

  lemma AssignedOperandText()
    ensures Layout(AssignedOperandTokens(), AssignedOperandGaps(), 0) == "(x = 1) + 2"
  {
  }

  lemma AssignedOperandSpaceable()
    ensures Spaceable(AssignedOperandTokens(), AssignedOperandGaps(), 0)
  {
  }

  lemma AssignedOperandParse()
    ensures Parse(AssignedOperandTokens()) == Ok(AssignedOperandTree())
  {
    var ts := AssignedOperandTokens();
    var a := Assignment("x", Number("1"));
    assert ParseExpr(ts, 3) == Ok(Parsed(Number("1"), 4));
    assert ParseExpr(ts, 1) == Ok(Parsed(a, 4));
    assert ParseTerm(ts, 0) == Ok(Parsed(a, 5));
    assert ParseExpr(ts, 0) == Ok(Parsed(AssignedOperandTree(), 7));
  }

  lemma AssignedOperandEval()
    ensures Eval(AssignedOperandTree(), map[]) == Ok(Evaluated(Int(3), map["x" := Int(1)]))
  {
    OneDigit('1');
    OneDigit('2');
  }

  lemma AssignedOperandRuns()
    ensures Run("(x = 1) + 2", map[]) == Ok(Evaluated(Int(3), map["x" := Int(1)]))
  {
    AssignedOperandText();
    AssignedOperandSpaceable();
    AssignedOperandParse();
    AssignedOperandEval();
    RunLaidOut(AssignedOperandTokens(), AssignedOperandGaps(), AssignedOperandTree(), map[]);
  }

  /** `x = ` is a syntax error: the assignment has no value. */
  function MissingValueTokens(): seq<Token> {
    [Token(Id, "x"), Token(Assign, "=")]
  }

  function MissingValueGaps(): seq<bool> {
    [true, true]
  }

  lemma MissingValueText()
    ensures Layout(MissingValueTokens(), MissingValueGaps(), 0) == "x = "
  {
  }

  lemma MissingValueSpaceable()
    ensures Spaceable(MissingValueTokens(), MissingValueGaps(), 0)
  {
  }

  lemma MissingValueRuns()
    ensures Run("x = ", map[]) == Err(UnexpectedToken(EofToken))
  {
    MissingValueText();
    MissingValueSpaceable();
    LexLaidOut(MissingValueTokens(), MissingValueGaps());
    assert Parse(MissingValueTokens()) == Err(UnexpectedToken(EofToken));
  }

  /** `1 + 1 2` is a syntax error: a token is left after a whole
      expression. */
  function TrailingInput(): seq<Token> {
    [Token(Num, "1"), Token(Plus, "+"), Token(Num, "1"), Token(Num, "2")]
  }

  function TrailingGaps(): seq<bool> {
    [true, true, true, false]
  }

  lemma TrailingText()
    ensures Layout(TrailingInput(), TrailingGaps(), 0) == "1 + 1 2"
  {
  }

  lemma TrailingSpaceable()
    ensures Spaceable(TrailingInput(), TrailingGaps(), 0)
  {
  }

  lemma TrailingParse()
    ensures Parse(TrailingInput()) == Err(Results.TrailingTokens)
  {
    var sum := [Token(Num, "1"), Token(Plus, "+"), Token(Num, "1")];
    var e := Binary(Add, Number("1"), Number("1"));
    assert ParseExpr(sum, 0) == Ok(Parsed(e, 3));
    assert TrailingInput() == sum + [Token(Num, "2")];
    TrailingTokensRejected(sum, [Token(Num, "2")], e);
  }

  lemma TrailingRuns()
    ensures Run("1 + 1 2", map[]) == Err(Results.TrailingTokens)
  {
    TrailingText();
    TrailingSpaceable();
    LexLaidOut(TrailingInput(), TrailingGaps());
    TrailingParse();
  }
}
