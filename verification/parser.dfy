/** The recursive-descent parser. Grammar, lowest precedence first:

      EXPR   -> TERM ((PLUS | MINUS) TERM)*
      TERM   -> FACTOR ((TIMES | DIV) FACTOR)*
      FACTOR -> NUM | ID | ID ASSIGN EXPR | LPAREN EXPR RPAREN

    The parser's cursor becomes an explicit position: every rule takes the
    position it starts at and returns the node with the position after it. */
module Parser {
  import opened Chars
  import opened Tokens
  import opened Results
  import opened Ast

  /** What a rule returns: the value it built and the cursor after it. */
  datatype Parsed<T> = Parsed(value: T, pos: nat)

  /** The one-token lookahead: the token at the cursor, or the end marker
      once every token is consumed. */
  function Peek(ts: seq<Token>, pos: nat): Token {
    if pos < |ts| then ts[pos] else EofToken
  }

  /** Consume a token of kind `k`, failing on any other. */
  function Eat(ts: seq<Token>, pos: nat, k: Kind): (r: Result<Parsed<Token>>)
    ensures r.Ok? <==> Peek(ts, pos).kind == k
    ensures r.Ok? ==> r.value == Parsed(Peek(ts, pos), pos + 1)
    ensures r.Err? ==> r.error == Expected(k, Peek(ts, pos))
  {
    var t := Peek(ts, pos);
    if t.kind == k then Ok(Parsed(t, pos + 1)) else Err(Expected(k, t))
  }

  /** Every NUM token of the stream carries a decimal numeral, as every NUM
      token the lexer cuts does. */
  predicate NumeralTokens(ts: seq<Token>) {
    forall i :: 0 <= i < |ts| && ts[i].kind == Num ==> IsDigits(ts[i].text)
  }

  /** EXPR: a TERM, then the additive loop. */
  function ParseExpr(ts: seq<Token>, pos: nat): (r: Result<Parsed<Expr>>)
    requires pos <= |ts|
    ensures r.Ok? ==> pos < r.value.pos <= |ts|
    ensures r.Err? ==> r.error.IsSyntax()
    ensures r.Ok? && NumeralTokens(ts) ==> Numerals(r.value.value)
    decreases |ts| - pos, 2
  {
    var left :- ParseTerm(ts, pos);
    ExprTail(ts, left.value, left.pos)
  }

  /** The additive loop: while the lookahead is `+` or `-`, consume it and
      a TERM, and make the node built so far the left operand. */
  function ExprTail(ts: seq<Token>, node: Expr, pos: nat): (r: Result<Parsed<Expr>>)
    requires pos <= |ts|
    ensures r.Ok? ==> pos <= r.value.pos <= |ts|
    ensures r.Err? ==> r.error.IsSyntax()
    ensures r.Ok? && NumeralTokens(ts) && Numerals(node) ==> Numerals(r.value.value)
    decreases |ts| - pos, 0
  {
    var t := Peek(ts, pos);
    if IsAdditive(t.kind) then
      var right :- ParseTerm(ts, pos + 1);
      ExprTail(ts, Binary(OpOf(t.kind), node, right.value), right.pos)
    else
      Ok(Parsed(node, pos))
  }

  /** TERM: a FACTOR, then the multiplicative loop. */
  function ParseTerm(ts: seq<Token>, pos: nat): (r: Result<Parsed<Expr>>)
    requires pos <= |ts|
    ensures r.Ok? ==> pos < r.value.pos <= |ts|
    ensures r.Err? ==> r.error.IsSyntax()
    ensures r.Ok? && NumeralTokens(ts) ==> Numerals(r.value.value)
    decreases |ts| - pos, 1
  {
    var left :- ParseFactor(ts, pos);
    TermTail(ts, left.value, left.pos)
  }

  /** The multiplicative loop: while the lookahead is `*` or `/`, consume it
      and a FACTOR, and make the node built so far the left operand. */
  function TermTail(ts: seq<Token>, node: Expr, pos: nat): (r: Result<Parsed<Expr>>)
    requires pos <= |ts|
    ensures r.Ok? ==> pos <= r.value.pos <= |ts|
    ensures r.Err? ==> r.error.IsSyntax()
    ensures r.Ok? && NumeralTokens(ts) && Numerals(node) ==> Numerals(r.value.value)
    decreases |ts| - pos, 0
  {
    var t := Peek(ts, pos);
    if IsMultiplicative(t.kind) then
      var right :- ParseFactor(ts, pos + 1);
      TermTail(ts, Binary(OpOf(t.kind), node, right.value), right.pos)
    else
      Ok(Parsed(node, pos))
  }

  /** FACTOR: a number, a variable, an assignment when an identifier is
      followed by `=`, or a parenthesised EXPR, which yields the inner node
      itself. */
  function ParseFactor(ts: seq<Token>, pos: nat): (r: Result<Parsed<Expr>>)
    requires pos <= |ts|
    ensures r.Ok? ==> pos < r.value.pos <= |ts|
    ensures r.Err? ==> r.error.IsSyntax()
    ensures r.Ok? && NumeralTokens(ts) ==> Numerals(r.value.value)
    decreases |ts| - pos, 0
  {
    var t := Peek(ts, pos);
    if t.kind == Num then
      Ok(Parsed(Number(t.text), pos + 1))
    else if t.kind == Id then
      if Peek(ts, pos + 1).kind == Assign then
        var value :- ParseExpr(ts, pos + 2);
        Ok(Parsed(Assignment(t.text, value.value), value.pos))
      else
        Ok(Parsed(Variable(t.text), pos + 1))
    else if t.kind == LParen then
      var inner :- ParseExpr(ts, pos + 1);
      var close :- Eat(ts, inner.pos, RParen);
      Ok(Parsed(inner.value, close.pos))
    else
      Err(UnexpectedToken(t))
  }

  /** The whole stream must be one EXPR: anything but the end marker after
      it is an error. */
  function Parse(ts: seq<Token>): (r: Result<Expr>)
    ensures r.Ok? ==> |ts| > 0
    ensures r.Err? ==> r.error.IsSyntax()
    ensures r.Ok? && NoEof(ts) ==> ParseExpr(ts, 0).Ok? && ParseExpr(ts, 0).value.pos == |ts|
    ensures r.Ok? && NumeralTokens(ts) ==> Numerals(r.value)
  {
    var top :- ParseExpr(ts, 0);
    if Peek(ts, top.pos).kind != Eof then Err(TrailingTokens) else Ok(top.value)
  }
}
