/** A printer for syntax trees, the parser's partner: it writes every
    compound node inside parentheses, and the parser reads the tree back. */
module Printer {
  import opened Tokens
  import opened Results
  import opened Ast
  import opened Parser
  import opened ParserProperties
  import opened Chars
  import opened Lexer
  import opened LexerInverse

  const Open := Token(LParen, "(")
  const Close := Token(RParen, ")")
  const Equals := Token(Assign, "=")

  /** The token of an operator, with the text the lexer gives it. */
  function OperatorToken(op: Op): Token {
    Token(KindOf(op), Symbol(op))
  }

  /** The tokens of a tree: numbers and variables as one token each,
      assignments and binary nodes fully parenthesised. */
  function Unparse(e: Expr): (ts: seq<Token>)
    ensures |ts| > 0
  {
    match e
    case Number(text) => [Token(Num, text)]
    case Variable(name) => [Token(Id, name)]
    case Assignment(name, value) => [Open] + [Token(Id, name)] + [Equals] + Unparse(value) + [Close]
    case Binary(op, left, right) => [Open] + Unparse(left) + [OperatorToken(op)] + Unparse(right) + [Close]
  }

  /** `ts` occurs in `big` from offset `d` on. */
  ghost predicate Occurs(big: seq<Token>, d: nat, ts: seq<Token>)
    decreases |ts|
  {
    |ts| == 0 || (d < |big| && big[d] == ts[0] && Occurs(big, d + 1, ts[1..]))
  }

  lemma {:induction false} OccursSplit(big: seq<Token>, d: nat, a: seq<Token>, b: seq<Token>)
    ensures Occurs(big, d, a + b) <==> Occurs(big, d, a) && Occurs(big, d + |a|, b)
    decreases |a|
  {
    if |a| == 0 {
      assert a + b == b;
    } else {
      assert (a + b)[0] == a[0];
      assert (a + b)[1..] == a[1..] + b;
      OccursSplit(big, d + 1, a[1..], b);
    }
  }

  lemma OccursToken(big: seq<Token>, d: nat, t: Token)
    ensures Occurs(big, d, [t]) <==> d < |big| && Peek(big, d) == t
  {
    assert [t][1..] == [];
  }

  /** Every stream holds its own suffixes. */
  lemma {:induction false} OccursSuffix(big: seq<Token>, d: nat)
    requires d <= |big|
    ensures Occurs(big, d, big[d..])
    decreases |big| - d
  {
    if d < |big| {
      assert big[d..][1..] == big[d + 1..];
      OccursSuffix(big, d + 1);
    }
  }

  /** Where the parts of `[x] + a + [y] + b + [z]` sit when it occurs in
      `big`. */
  lemma LayoutIn(big: seq<Token>, d: nat, x: Token, a: seq<Token>, y: Token, b: seq<Token>, z: Token)
    requires Occurs(big, d, [x] + a + [y] + b + [z])
    ensures Peek(big, d) == x && Peek(big, d + 1 + |a|) == y && Peek(big, d + 2 + |a| + |b|) == z
    ensures Occurs(big, d + 1, a) && Occurs(big, d + 2 + |a|, b)
    ensures d + 2 + |a| + |b| < |big|
  {
    OccursSplit(big, d, [x] + a + [y] + b, [z]);
    OccursSplit(big, d, [x] + a + [y], b);
    OccursSplit(big, d, [x] + a, [y]);
    OccursSplit(big, d, [x], a);
    OccursToken(big, d, x);
    OccursToken(big, d + 1 + |a|, y);
    OccursToken(big, d + 2 + |a| + |b|, z);
  }

  /** Where the parts of a printed assignment sit. */
  lemma AssignmentLayout(big: seq<Token>, d: nat, name: string, value: Expr)
    requires Occurs(big, d, Unparse(Assignment(name, value)))
    ensures Peek(big, d) == Open && Peek(big, d + 1) == Token(Id, name) && Peek(big, d + 2) == Equals
    ensures Occurs(big, d + 3, Unparse(value))
    ensures Peek(big, d + 3 + |Unparse(value)|) == Close
    ensures d + 3 + |Unparse(value)| < |big|
    ensures |Unparse(Assignment(name, value))| == |Unparse(value)| + 4
  {
    var v := Unparse(value);
    LayoutIn(big, d, Open, [Token(Id, name)], Equals, v, Close);
    OccursToken(big, d + 1, Token(Id, name));
  }

  /** Where the parts of a printed binary node sit. */
  lemma BinaryLayout(big: seq<Token>, d: nat, op: Op, left: Expr, right: Expr)
    requires Occurs(big, d, Unparse(Binary(op, left, right)))
    ensures Peek(big, d) == Open
    ensures Occurs(big, d + 1, Unparse(left))
    ensures Peek(big, d + 1 + |Unparse(left)|) == OperatorToken(op)
    ensures Occurs(big, d + 2 + |Unparse(left)|, Unparse(right))
    ensures Peek(big, d + 2 + |Unparse(left)| + |Unparse(right)|) == Close
    ensures d + 2 + |Unparse(left)| + |Unparse(right)| < |big|
    ensures |Unparse(Binary(op, left, right))| == |Unparse(left)| + |Unparse(right)| + 3
  {
    LayoutIn(big, d, Open, Unparse(left), OperatorToken(op), Unparse(right), Close);
  }

  /** A FACTOR followed by a token that cannot extend it is a whole TERM
      and a whole EXPR. */
  lemma ExprOfFactor(big: seq<Token>, p: nat, e: Expr, q: nat)
    requires p <= |big| && ParseFactor(big, p) == Ok(Parsed(e, q))
    requires !Continues(Peek(big, q).kind)
    ensures ParseTerm(big, p) == Ok(Parsed(e, q))
    ensures ParseExpr(big, p) == Ok(Parsed(e, q))
  {
    assert TermTail(big, e, q) == Ok(Parsed(e, q));
    assert ExprTail(big, e, q) == Ok(Parsed(e, q));
  }

  /** The parenthesised assignment parses back, given that its value
      does. */
  lemma AssignmentRoundTrip(big: seq<Token>, d: nat, name: string, value: Expr, q: nat)
    requires d + 3 < q < |big|
    requires Peek(big, d) == Open && Peek(big, d + 1) == Token(Id, name) && Peek(big, d + 2) == Equals
    requires ParseFactor(big, d + 3) == Ok(Parsed(value, q)) && Peek(big, q) == Close
    ensures ParseFactor(big, d) == Ok(Parsed(Assignment(name, value), q + 1))
  {
    var e := Assignment(name, value);
    ExprOfFactor(big, d + 3, value, q);
    assert ParseFactor(big, d + 1) == Ok(Parsed(e, q));
    ExprOfFactor(big, d + 1, e, q);
  }

  /** The parenthesised binary node parses back, given that its operands
      do. */
  lemma BinaryRoundTrip(big: seq<Token>, d: nat, op: Op, left: Expr, right: Expr, a: nat, b: nat)
    requires d < a < b < |big|
    requires Peek(big, d) == Open && Peek(big, a) == OperatorToken(op) && Peek(big, b) == Close
    requires ParseFactor(big, d + 1) == Ok(Parsed(left, a))
    requires ParseFactor(big, a + 1) == Ok(Parsed(right, b))
    ensures ParseFactor(big, d) == Ok(Parsed(Binary(op, left, right), b + 1))
  {
    BinaryInner(big, d, op, left, right, a, b);
  }

  lemma BinaryInner(big: seq<Token>, d: nat, op: Op, left: Expr, right: Expr, a: nat, b: nat)
    requires d < a < b < |big|
    requires Peek(big, a) == OperatorToken(op) && Peek(big, b) == Close
    requires ParseFactor(big, d + 1) == Ok(Parsed(left, a))
    requires ParseFactor(big, a + 1) == Ok(Parsed(right, b))
    ensures ParseExpr(big, d + 1) == Ok(Parsed(Binary(op, left, right), b))
  {
    var k := KindOf(op);
    var node := Binary(op, left, right);
    if IsMultiplicative(k) {
      assert TermTail(big, node, b) == Ok(Parsed(node, b));
      assert TermTail(big, left, a) == Ok(Parsed(node, b));
      assert ParseTerm(big, d + 1) == Ok(Parsed(node, b));
      assert ExprTail(big, node, b) == Ok(Parsed(node, b));
    } else {
      assert TermTail(big, left, a) == Ok(Parsed(left, a));
      ExprOfFactor(big, a + 1, right, b);
      assert ExprTail(big, node, b) == Ok(Parsed(node, b));
      assert ExprTail(big, left, a) == Ok(Parsed(node, b));
    }
  }

  /** Printed tokens parse back as the same tree, as a FACTOR, wherever
      they occur and whatever follows them except `=`. */
  lemma {:induction false} FactorRoundTrip(big: seq<Token>, d: nat, e: Expr)
    requires Occurs(big, d, Unparse(e))
    requires Peek(big, d + |Unparse(e)|).kind != Assign
    ensures ParseFactor(big, d) == Ok(Parsed(e, d + |Unparse(e)|))
    decreases e, 1
  {
    match e
    case Number(text) =>
      OccursToken(big, d, Token(Num, text));
    case Variable(name) =>
      OccursToken(big, d, Token(Id, name));
    case Assignment(name, value) =>
      AssignmentFactor(big, d, name, value);
    case Binary(op, left, right) =>
      BinaryFactor(big, d, op, left, right);
  }

  lemma {:induction false} AssignmentFactor(big: seq<Token>, d: nat, name: string, value: Expr)
    requires Occurs(big, d, Unparse(Assignment(name, value)))
    ensures ParseFactor(big, d) == Ok(Parsed(Assignment(name, value), d + |Unparse(Assignment(name, value))|))
    decreases Assignment(name, value), 0
  {
    AssignmentLayout(big, d, name, value);
    var q := d + 3 + |Unparse(value)|;
    FactorRoundTrip(big, d + 3, value);
    AssignmentRoundTrip(big, d, name, value, q);
  }

  lemma {:induction false} BinaryFactor(big: seq<Token>, d: nat, op: Op, left: Expr, right: Expr)
    requires Occurs(big, d, Unparse(Binary(op, left, right)))
    ensures ParseFactor(big, d) == Ok(Parsed(Binary(op, left, right), d + |Unparse(Binary(op, left, right))|))
    decreases Binary(op, left, right), 0
  {
    BinaryLayout(big, d, op, left, right);
    var a := d + 1 + |Unparse(left)|;
    var b := a + 1 + |Unparse(right)|;
    assert Peek(big, a).kind == KindOf(op) != Assign;
    FactorRoundTrip(big, d + 1, left);
    FactorRoundTrip(big, a + 1, right);
    BinaryRoundTrip(big, d, op, left, right, a, b);
  }

  /** Every stream occurs in itself. */
  lemma OccursWhole(ts: seq<Token>)
    ensures Occurs(ts, 0, ts)
  {
    OccursSuffix(ts, 0);
    assert ts[0..] == ts;
  }

  /** The printed tokens of a tree are one FACTOR, which spans them. */
  lemma PrintedFactor(e: Expr)
    ensures ParseFactor(Unparse(e), 0) == Ok(Parsed(e, |Unparse(e)|))
  {
    var ts := Unparse(e);
    OccursWhole(ts);
    assert Peek(ts, |ts|) == EofToken;
    FactorRoundTrip(ts, 0, e);
  }

  /** Parsing undoes printing, for every tree. */
  lemma ParseUnparse(e: Expr)
    ensures Parse(Unparse(e)) == Ok(e)
  {
    PrintedFactor(e);
    WholeFactorIsParse(Unparse(e), e);
  }

  /** A tree the printer can write as text: its literals are numerals and
      its names identifiers. */
  predicate Printable(e: Expr) {
    match e
    case Number(text) => Lexeme(Num, text)
    case Variable(name) => Lexeme(Id, name)
    case Assignment(name, value) => Lexeme(Id, name) && Printable(value)
    case Binary(_, left, right) => Printable(left) && Printable(right)
  }

  /** A one-character token: it swallows nothing, and nothing swallows
      it. */
  predicate IsSymbolToken(t: Token) {
    t.kind != Num && t.kind != Id && t.kind != Space && Lexeme(t.kind, t.text)
  }

  /** The tokens lex back as they are: lexemes, separated, no SPACE. */
  predicate Relexable(ts: seq<Token>) {
    Lexemes(ts) && Separated(ts) && Strip(ts) == ts
  }

  lemma SymbolTokenIsRelexable(t: Token)
    requires IsSymbolToken(t)
    ensures Relexable([t])
    ensures |t.text| == 1 && IsSymbol(t.text[0])
  {
    assert [t][1..] == [];
    assert [t] + [] == [t];
  }

  /** Nothing swallows a one-character token. */
  lemma BeforeSymbol(k: Kind, t: Token)
    requires IsSymbolToken(t)
    ensures |t.text| > 0 && !Extends(k, t.text[0])
  {
    SymbolTokenIsRelexable(t);
  }

  /** A one-character token swallows nothing. */
  lemma AfterSymbol(t: Token, b: seq<Token>)
    requires IsSymbolToken(t) && |b| > 0 && Lexemes(b)
    ensures |b[0].text| > 0 && !Extends(t.kind, b[0].text[0])
  {
    LexemeIsNonEmpty(b[0].kind, b[0].text);
  }

  /** `[x] + a + [y] + b + [z]` is relexable when its parts are and `x`,
      `y`, `z` are one-character tokens. */
  lemma FramedRelexable(x: Token, a: seq<Token>, y: Token, b: seq<Token>, z: Token)
    requires IsSymbolToken(x) && IsSymbolToken(y) && IsSymbolToken(z)
    requires |a| > 0 && |b| > 0 && Relexable(a) && Relexable(b)
    ensures Relexable([x] + a + [y] + b + [z])
  {
    SymbolTokenIsRelexable(x);
    SymbolTokenIsRelexable(y);
    SymbolTokenIsRelexable(z);
    AfterSymbol(x, a);
    Join([x], a);
    var xa := [x] + a;
    BeforeSymbol(xa[|xa| - 1].kind, y);
    Join(xa, [y]);
    var xay := xa + [y];
    AfterSymbol(y, b);
    Join(xay, b);
    var xayb := xay + b;
    BeforeSymbol(xayb[|xayb| - 1].kind, z);
    Join(xayb, [z]);
  }

  /** The printed tokens of a printable tree are lexemes, no two of which
      run together, and none is SPACE. */
  lemma {:induction false} UnparseRelexable(e: Expr)
    requires Printable(e)
    ensures Relexable(Unparse(e))
    decreases e
  {
    match e
    case Number(text) =>
      LexemeIsRelexable(Token(Num, text));
    case Variable(name) =>
      LexemeIsRelexable(Token(Id, name));
    case Assignment(name, value) =>
      UnparseRelexable(value);
      LexemeIsRelexable(Token(Id, name));
      FramedRelexable(Open, [Token(Id, name)], Equals, Unparse(value), Close);
    case Binary(op, left, right) =>
      UnparseRelexable(left);
      UnparseRelexable(right);
      FramedRelexable(Open, Unparse(left), OperatorToken(op), Unparse(right), Close);
  }

  /** A single NUM or ID lexeme is relexable. */
  lemma LexemeIsRelexable(t: Token)
    requires t.kind != Space && Lexeme(t.kind, t.text)
    ensures Relexable([t])
  {
    assert [t][1..] == [];
    assert [t] + [] == [t];
  }
}
