/** The three stages run one after another, as the example driver does:
    lex the source, parse the tokens, evaluate the tree against a store. */
module Pipeline {
  import opened Chars
  import opened Tokens
  import opened Results
  import opened Ast
  import opened Lexer
  import opened LexerProperties
  import opened LexerInverse
  import opened Parser
  import opened ParserProperties
  import opened Printer
  import opened Evaluator

  /** Source text to value and store; the first stage that fails decides
      the error. */
  function Run(code: string, env: Env): Result<Evaluated> {
    var ts :- Lex(code);
    var e :- Parse(ts);
    Eval(e, env)
  }

  /** The lexer only cuts numerals as NUM tokens. */
  lemma LexedNumerals(code: string)
    ensures Lex(code).Ok? ==> NumeralTokens(Lex(code).value)
  {
    LexPartitions(code);
  }

  /** The lexer gives an operator token the operator's own text, so a tree
      that records the operator rather than the token's text loses
      nothing. */
  lemma OperatorText(t: Token)
    requires WellFormed(t) && IsOperator(t.kind)
    ensures t.text == Symbol(OpOf(t.kind))
  {
  }

  /** How a run fails: at the lexer exactly when some character starts no
      token, and never with a malformed literal. */
  lemma RunErrors(code: string, env: Env)
    ensures (Run(code, env).Err? && Run(code, env).error.IsLexical())
        <==> exists i :: 0 <= i < |code| && !IsLexable(code[i])
    ensures Run(code, env).Err? ==> !Run(code, env).error.InvalidLiteral?
  {
    LexSucceedsIffLexable(code);
    LexedNumerals(code);
    if Lex(code).Ok? {
      var ts := Lex(code).value;
      if Parse(ts).Ok? {
        var e := Parse(ts).value;
        assert Numerals(e);
        assert Run(code, env) == Eval(e, env);
      } else {
        assert Run(code, env) == Err(Parse(ts).error);
        assert Parse(ts).error.IsSyntax();
      }
    } else {
      assert Run(code, env) == Err(Lex(code).error);
    }
  }

  /** The text printed for a tree. */
  function Print(e: Expr): string {
    Concat(Unparse(e))
  }

  /** Printing, then running the printed text, is evaluating: the lexer
      gives back the printed tokens and the parser the tree. */
  lemma PrintRoundTrip(e: Expr, env: Env)
    requires Printable(e)
    ensures Lex(Print(e)) == Ok(Unparse(e))
    ensures Parse(Lex(Print(e)).value) == Ok(e)
    ensures Run(Print(e), env) == Eval(e, env)
  {
    UnparseRelexable(e);
    LexConcat(Unparse(e));
    ParseUnparse(e);
  }

  /** A numeral runs to its decimal value and leaves the store alone. */
  lemma NumeralRuns(s: string, env: Env)
    requires IsDigits(s)
    ensures Run(s, env) == Ok(Evaluated(Int(DecimalValue(s)), env))
  {
    assert Concat(Unparse(Number(s))) == s by {
      assert Unparse(Number(s))[1..] == [];
    }
    PrintRoundTrip(Number(s), env);
  }

  /** The numeral of a natural number runs back to the number. */
  lemma ShowRuns(n: nat, env: Env)
    ensures Run(Show(n), env) == Ok(Evaluated(Int(n), env))
  {
    NumeralRuns(Show(n), env);
  }

  /** Running the laid-out text of spaceable tokens is parsing the tokens
      and evaluating the tree. */
  lemma RunLaidOut(ts: seq<Token>, gaps: seq<bool>, e: Expr, env: Env)
    requires |gaps| == |ts| && Spaceable(ts, gaps, 0) && Parse(ts) == Ok(e)
    ensures Run(Layout(ts, gaps, 0), env) == Eval(e, env)
  {
    LexLaidOut(ts, gaps);
  }
}
