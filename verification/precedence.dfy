/** Precedence and grouping of the parser, stated on whole trees: the
    shapes every stream without parentheses parses to, and a printer that
    writes the parentheses precedence and left grouping need, plus
    parentheses around every assignment below the top, whose output parses
    back to the tree it printed. */
module Precedence {
  import opened Tokens
  import opened Results
  import opened Ast
  import opened Parser
  import opened ParserProperties
  import opened Printer

  /** A `+` or `-` node. */
  predicate IsSum(e: Expr) {
    e.Binary? && (e.op == Add || e.op == Subtract)
  }

  /** A `*` or `/` node. */
  predicate IsProduct(e: Expr) {
    e.Binary? && (e.op == Multiply || e.op == Divide)
  }

  /** No `(` anywhere in the stream. */
  predicate NoParens(ts: seq<Token>) {
    forall i :: 0 <= i < |ts| ==> ts[i].kind != LParen
  }

  /** The trees a stream without parentheses can parse to. Products bind
      tighter: no operand of a product is a sum. Both levels group to the
      left: the right operand of a sum is never a sum, and the right operand
      of a product is never a binary node. */
  predicate Unbracketed(e: Expr) {
    match e
    case Number(_) => true
    case Variable(_) => true
    case Assignment(_, value) => Unbracketed(value)
    case Binary(op, left, right) =>
      && Unbracketed(left)
      && Unbracketed(right)
      && !IsSum(right)
      && ((op == Multiply || op == Divide) ==> !IsSum(left) && !right.Binary?)
  }

  /** Without parentheses, every EXPR the parser builds has the unbracketed
      shape, wherever it starts. */
  lemma {:induction false} ExprUnbracketed(ts: seq<Token>, pos: nat)
    requires NoParens(ts) && pos <= |ts|
    ensures ParseExpr(ts, pos).Ok? ==> Unbracketed(ParseExpr(ts, pos).value.value)
    decreases |ts| - pos, 2
  {
    var left := ParseTerm(ts, pos);
    if left.Ok? {
      TermUnbracketed(ts, pos);
      ExprTailUnbracketed(ts, left.value.value, left.value.pos);
    }
  }

  lemma {:induction false} ExprTailUnbracketed(ts: seq<Token>, node: Expr, pos: nat)
    requires NoParens(ts) && pos <= |ts| && Unbracketed(node)
    ensures ExprTail(ts, node, pos).Ok? ==> Unbracketed(ExprTail(ts, node, pos).value.value)
    decreases |ts| - pos, 0
  {
    var t := Peek(ts, pos);
    if IsAdditive(t.kind) {
      var right := ParseTerm(ts, pos + 1);
      if right.Ok? {
        TermUnbracketed(ts, pos + 1);
        ExprTailUnbracketed(ts, Binary(OpOf(t.kind), node, right.value.value), right.value.pos);
      }
    }
  }

  /** ... every TERM is, and is not a sum, ... */
  lemma {:induction false} TermUnbracketed(ts: seq<Token>, pos: nat)
    requires NoParens(ts) && pos <= |ts|
    ensures ParseTerm(ts, pos).Ok? ==>
      Unbracketed(ParseTerm(ts, pos).value.value) && !IsSum(ParseTerm(ts, pos).value.value)
    decreases |ts| - pos, 1
  {
    var left := ParseFactor(ts, pos);
    if left.Ok? {
      FactorUnbracketed(ts, pos);
      TermTailUnbracketed(ts, left.value.value, left.value.pos);
    }
  }

  lemma {:induction false} TermTailUnbracketed(ts: seq<Token>, node: Expr, pos: nat)
    requires NoParens(ts) && pos <= |ts| && Unbracketed(node) && !IsSum(node)
    ensures TermTail(ts, node, pos).Ok? ==>
      Unbracketed(TermTail(ts, node, pos).value.value) && !IsSum(TermTail(ts, node, pos).value.value)
    decreases |ts| - pos, 0
  {
    var t := Peek(ts, pos);
    if IsMultiplicative(t.kind) {
      var right := ParseFactor(ts, pos + 1);
      if right.Ok? {
        FactorUnbracketed(ts, pos + 1);
        TermTailUnbracketed(ts, Binary(OpOf(t.kind), node, right.value.value), right.value.pos);
      }
    }
  }

  /** ... and every FACTOR is a leaf or an assignment. */
  lemma {:induction false} FactorUnbracketed(ts: seq<Token>, pos: nat)
    requires NoParens(ts) && pos <= |ts|
    ensures ParseFactor(ts, pos).Ok? ==>
      Unbracketed(ParseFactor(ts, pos).value.value) && !ParseFactor(ts, pos).value.value.Binary?
    decreases |ts| - pos, 0
  {
    var t := Peek(ts, pos);
    if t.kind == Id && Peek(ts, pos + 1).kind == Assign {
      ExprUnbracketed(ts, pos + 2);
    }
  }

  /** Precedence and grouping for every stream without parentheses. */
  lemma ParseUnbracketed(ts: seq<Token>)
    requires NoParens(ts)
    ensures Parse(ts).Ok? ==> Unbracketed(Parse(ts).value)
  {
    ExprUnbracketed(ts, 0);
  }

  /** How many steps the printer can take on one tree before it moves to a
      smaller one: EXPR to TERM to FACTOR, and FACTOR back to EXPR inside
      parentheses. */
  function ExprRank(e: Expr): nat {
    if IsSum(e) then 1 else TermRank(e) + 1
  }

  function TermRank(e: Expr): nat {
    if IsProduct(e) then 1 else FactorRank(e) + 1
  }

  function FactorRank(e: Expr): nat {
    if e.Binary? then 4 else 1
  }

  /** A tree as an EXPR with the parentheses precedence and left grouping
      need, and every assignment in parentheses: a sum writes its left
      operand as an EXPR and its right operand as a TERM. */
  function ExprTokens(e: Expr): seq<Token>
    decreases e, ExprRank(e)
  {
    if IsSum(e) then ExprTokens(e.left) + [OperatorToken(e.op)] + TermTokens(e.right)
    else TermTokens(e)
  }

  /** A tree as a TERM: a product writes its left operand as a TERM and its
      right operand as a FACTOR. */
  function TermTokens(e: Expr): seq<Token>
    decreases e, TermRank(e)
  {
    if IsProduct(e) then TermTokens(e.left) + [OperatorToken(e.op)] + FactorTokens(e.right)
    else FactorTokens(e)
  }

  /** A tree as a FACTOR: leaves as one token, everything else in
      parentheses. */
  function FactorTokens(e: Expr): seq<Token>
    decreases e, FactorRank(e)
  {
    match e
    case Number(text) => [Token(Num, text)]
    case Variable(name) => [Token(Id, name)]
    case Assignment(name, value) => [Open, Token(Id, name), Equals] + ExprTokens(value) + [Close]
    case Binary(_, _, _) => [Open] + ExprTokens(e) + [Close]
  }

  /** The printed stream of a tree: `ExprTokens`, except that an
      assignment at the top is written bare, as in `x = 1 + 2`. */
  function Minimal(e: Expr): seq<Token> {
    if e.Assignment? then [Token(Id, e.name), Equals] + ExprTokens(e.value) else ExprTokens(e)
  }

  /** Where the parts of `a + [t] + b` sit when it occurs in `big`. */
  lemma InfixLayout(big: seq<Token>, d: nat, a: seq<Token>, t: Token, b: seq<Token>)
    requires Occurs(big, d, a + [t] + b)
    ensures Occurs(big, d, a) && d + |a| < |big| && Peek(big, d + |a|) == t
    ensures Occurs(big, d + |a| + 1, b)
  {
    OccursSplit(big, d, a + [t], b);
    OccursSplit(big, d, a, [t]);
    OccursToken(big, d + |a|, t);
  }

  /** Where the parts of `[x] + a + [y]` sit when it occurs in `big`. */
  lemma FramedLayout(big: seq<Token>, d: nat, x: Token, a: seq<Token>, y: Token)
    requires Occurs(big, d, [x] + a + [y])
    ensures d < |big| && Peek(big, d) == x && Occurs(big, d + 1, a)
    ensures d + 1 + |a| < |big| && Peek(big, d + 1 + |a|) == y
  {
    OccursSplit(big, d, [x] + a, [y]);
    OccursSplit(big, d, [x], a);
    OccursToken(big, d, x);
    OccursToken(big, d + 1 + |a|, y);
  }

  /** A tree printed as an EXPR, followed by anything but `=`, `*` or `/`,
      parses to that tree: the parser reaches the additive loop holding it
      exactly at the end of its tokens. */
  lemma {:induction false} ExprTokensParse(big: seq<Token>, d: nat, e: Expr)
    requires Occurs(big, d, ExprTokens(e))
    requires Peek(big, d + |ExprTokens(e)|).kind != Assign
    requires !IsMultiplicative(Peek(big, d + |ExprTokens(e)|).kind)
    ensures d + |ExprTokens(e)| <= |big|
      && ParseExpr(big, d) == ExprTail(big, e, d + |ExprTokens(e)|)
    decreases e, ExprRank(e)
  {
    if IsSum(e) {
      SumParse(big, d, e);
    } else {
      var n := |TermTokens(e)|;
      TermTokensParse(big, d, e);
      assert TermTail(big, e, d + n) == Ok(Parsed(e, d + n));
    }
  }

  lemma {:induction false} SumParse(big: seq<Token>, d: nat, e: Expr)
    requires IsSum(e)
    requires Occurs(big, d, ExprTokens(e))
    requires Peek(big, d + |ExprTokens(e)|).kind != Assign
    requires !IsMultiplicative(Peek(big, d + |ExprTokens(e)|).kind)
    ensures d + |ExprTokens(e)| <= |big| && ParseExpr(big, d) == ExprTail(big, e, d + |ExprTokens(e)|)
    decreases e, 0
  {
    var a := d + |ExprTokens(e.left)|;
    var b := a + 1 + |TermTokens(e.right)|;
    SumLayout(big, d, e);
    assert b == d + |ExprTokens(e)|;
    ExprTokensParse(big, d, e.left);
    TermTokensParse(big, a + 1, e.right);
    SumStep(big, d, e, a, b);
  }

  /** Where the operands and the operator of a printed sum sit. */
  lemma SumLayout(big: seq<Token>, d: nat, e: Expr)
    requires IsSum(e)
    requires Occurs(big, d, ExprTokens(e))
    ensures |ExprTokens(e)| == |ExprTokens(e.left)| + 1 + |TermTokens(e.right)|
    ensures Occurs(big, d, ExprTokens(e.left)) && Occurs(big, d + |ExprTokens(e.left)| + 1, TermTokens(e.right))
    ensures d + |ExprTokens(e.left)| < |big| && Peek(big, d + |ExprTokens(e.left)|) == OperatorToken(e.op)
    ensures Peek(big, d + |ExprTokens(e.left)|).kind != Assign
    ensures !IsMultiplicative(Peek(big, d + |ExprTokens(e.left)|).kind)
  {
    assert ExprTokens(e) == ExprTokens(e.left) + [OperatorToken(e.op)] + TermTokens(e.right);
    InfixLayout(big, d, ExprTokens(e.left), OperatorToken(e.op), TermTokens(e.right));
  }

  /** The additive loop, holding the left operand of a sum in front of its
      operator, takes the right operand and ends holding the sum. */
  lemma SumStep(big: seq<Token>, d: nat, e: Expr, a: nat, b: nat)
    requires IsSum(e)
    requires d <= a < b <= |big| && Peek(big, a) == OperatorToken(e.op)
    requires ParseExpr(big, d) == ExprTail(big, e.left, a)
    requires ParseTerm(big, a + 1) == TermTail(big, e.right, b)
    requires !IsMultiplicative(Peek(big, b).kind)
    ensures ParseExpr(big, d) == ExprTail(big, e, b)
  {
    assert TermTail(big, e.right, b) == Ok(Parsed(e.right, b));
  }

  /** A tree printed as a TERM, followed by anything but `=`, parses to
      that tree: the parser reaches the multiplicative loop holding it
      exactly at the end of its tokens. */
  lemma {:induction false} TermTokensParse(big: seq<Token>, d: nat, e: Expr)
    requires Occurs(big, d, TermTokens(e))
    requires Peek(big, d + |TermTokens(e)|).kind != Assign
    ensures d + |TermTokens(e)| <= |big|
      && ParseTerm(big, d) == TermTail(big, e, d + |TermTokens(e)|)
    decreases e, TermRank(e)
  {
    if IsProduct(e) {
      ProductParse(big, d, e);
    } else {
      FactorTokensParse(big, d, e);
    }
  }

  lemma {:induction false} ProductParse(big: seq<Token>, d: nat, e: Expr)
    requires IsProduct(e)
    requires Occurs(big, d, TermTokens(e))
    requires Peek(big, d + |TermTokens(e)|).kind != Assign
    ensures d + |TermTokens(e)| <= |big| && ParseTerm(big, d) == TermTail(big, e, d + |TermTokens(e)|)
    decreases e, 0
  {
    var a := d + |TermTokens(e.left)|;
    var b := a + 1 + |FactorTokens(e.right)|;
    ProductLayout(big, d, e);
    assert b == d + |TermTokens(e)|;
    TermTokensParse(big, d, e.left);
    FactorTokensParse(big, a + 1, e.right);
    ProductStep(big, d, e, a, b);
  }

  /** Where the operands and the operator of a printed product sit. */
  lemma ProductLayout(big: seq<Token>, d: nat, e: Expr)
    requires IsProduct(e)
    requires Occurs(big, d, TermTokens(e))
    ensures |TermTokens(e)| == |TermTokens(e.left)| + 1 + |FactorTokens(e.right)|
    ensures Occurs(big, d, TermTokens(e.left)) && Occurs(big, d + |TermTokens(e.left)| + 1, FactorTokens(e.right))
    ensures d + |TermTokens(e.left)| < |big| && Peek(big, d + |TermTokens(e.left)|) == OperatorToken(e.op)
    ensures Peek(big, d + |TermTokens(e.left)|).kind != Assign
  {
    assert TermTokens(e) == TermTokens(e.left) + [OperatorToken(e.op)] + FactorTokens(e.right);
    InfixLayout(big, d, TermTokens(e.left), OperatorToken(e.op), FactorTokens(e.right));
  }

  /** The multiplicative loop, holding the left operand of a product in
      front of its operator, takes the right operand and holds the
      product. */
  lemma ProductStep(big: seq<Token>, d: nat, e: Expr, a: nat, b: nat)
    requires IsProduct(e)
    requires d <= a < b <= |big| && Peek(big, a) == OperatorToken(e.op)
    requires ParseTerm(big, d) == TermTail(big, e.left, a)
    requires ParseFactor(big, a + 1) == Ok(Parsed(e.right, b))
    ensures ParseTerm(big, d) == TermTail(big, e, b)
  {
  }

  /** A tree printed as a FACTOR, followed by anything but `=`, parses to
      that tree as one FACTOR spanning its tokens. */
  lemma {:induction false} FactorTokensParse(big: seq<Token>, d: nat, e: Expr)
    requires Occurs(big, d, FactorTokens(e))
    requires Peek(big, d + |FactorTokens(e)|).kind != Assign
    ensures d + |FactorTokens(e)| <= |big|
      && ParseFactor(big, d) == Ok(Parsed(e, d + |FactorTokens(e)|))
    decreases e, FactorRank(e)
  {
    match e
    case Number(text) =>
      OccursToken(big, d, Token(Num, text));
    case Variable(name) =>
      OccursToken(big, d, Token(Id, name));
    case Assignment(name, value) =>
      AssignmentParse(big, d, e);
    case Binary(_, _, _) =>
      GroupParse(big, d, e);
  }

  lemma {:induction false} AssignmentParse(big: seq<Token>, d: nat, e: Expr)
    requires e.Assignment?
    requires Occurs(big, d, FactorTokens(e))
    ensures d + |FactorTokens(e)| <= |big| && ParseFactor(big, d) == Ok(Parsed(e, d + |FactorTokens(e)|))
    decreases e, 0
  {
    var c := d + 3 + |ExprTokens(e.value)|;
    ValueLayout(big, d, e);
    assert c + 1 == d + |FactorTokens(e)|;
    ExprTokensParse(big, d + 3, e.value);
    AssignmentStep(big, d, e.name, e.value, c);
  }

  /** Where the parts of `( name = value )` sit when it occurs in `big`. */
  lemma ValueLayout(big: seq<Token>, d: nat, e: Expr)
    requires e.Assignment?
    requires Occurs(big, d, FactorTokens(e))
    ensures |FactorTokens(e)| == |ExprTokens(e.value)| + 4
    ensures d + 3 + |ExprTokens(e.value)| < |big| && Occurs(big, d + 3, ExprTokens(e.value))
    ensures Peek(big, d) == Open && Peek(big, d + 1) == Token(Id, e.name) && Peek(big, d + 2) == Equals
    ensures Peek(big, d + 3 + |ExprTokens(e.value)|) == Close
  {
    var v := ExprTokens(e.value);
    assert FactorTokens(e) == [Open] + ([Token(Id, e.name), Equals] + v) + [Close];
    FramedLayout(big, d, Open, [Token(Id, e.name), Equals] + v, Close);
    OccursSplit(big, d + 1, [Token(Id, e.name), Equals], v);
    OccursSplit(big, d + 1, [Token(Id, e.name)], [Equals]);
    OccursToken(big, d + 1, Token(Id, e.name));
    OccursToken(big, d + 2, Equals);
  }

  /** `( name = ...` with the value's EXPR ending at the `)`: one FACTOR,
      the assignment. */
  lemma AssignmentStep(big: seq<Token>, d: nat, name: string, value: Expr, c: nat)
    requires d + 3 <= c < |big|
    requires Peek(big, d) == Open && Peek(big, d + 1) == Token(Id, name) && Peek(big, d + 2) == Equals
    requires Peek(big, c) == Close
    requires ParseExpr(big, d + 3) == ExprTail(big, value, c)
    ensures ParseFactor(big, d) == Ok(Parsed(Assignment(name, value), c + 1))
  {
    var e := Assignment(name, value);
    assert ExprTail(big, value, c) == Ok(Parsed(value, c));
    assert ParseFactor(big, d + 1) == Ok(Parsed(e, c));
    ExprOfFactor(big, d + 1, e, c);
  }

  lemma {:induction false} GroupParse(big: seq<Token>, d: nat, e: Expr)
    requires e.Binary?
    requires Occurs(big, d, FactorTokens(e))
    ensures d + |FactorTokens(e)| <= |big|
      && ParseFactor(big, d) == Ok(Parsed(e, d + |FactorTokens(e)|))
    decreases e, 3
  {
    var c := d + 1 + |ExprTokens(e)|;
    GroupLayout(big, d, e);
    ExprTokensParse(big, d + 1, e);
    GroupStep(big, d, e, c);
  }

  /** Where the inside and the `)` of a parenthesised node sit. */
  lemma GroupLayout(big: seq<Token>, d: nat, e: Expr)
    requires e.Binary?
    requires Occurs(big, d, FactorTokens(e))
    ensures |FactorTokens(e)| == |ExprTokens(e)| + 2
    ensures d < |big| && Peek(big, d) == Open && Occurs(big, d + 1, ExprTokens(e))
    ensures d + 1 + |ExprTokens(e)| < |big| && Peek(big, d + 1 + |ExprTokens(e)|) == Close
  {
    assert FactorTokens(e) == [Open] + ExprTokens(e) + [Close];
    FramedLayout(big, d, Open, ExprTokens(e), Close);
  }

  /** `(` and an EXPR ending at `)`: one FACTOR, the inner node. */
  lemma GroupStep(big: seq<Token>, d: nat, e: Expr, c: nat)
    requires d < c < |big| && Peek(big, d) == Open && Peek(big, c) == Close
    requires ParseExpr(big, d + 1) == ExprTail(big, e, c)
    ensures ParseFactor(big, d) == Ok(Parsed(e, c + 1))
  {
    assert ExprTail(big, e, c) == Ok(Parsed(e, c));
  }

  /** Parsing undoes printing by `ExprTokens`, at the EXPR
      level ... */
  lemma ExprTokensRoundTrip(e: Expr)
    ensures Parse(ExprTokens(e)) == Ok(e)
  {
    var ts := ExprTokens(e);
    OccursWhole(ts);
    assert Peek(ts, |ts|) == EofToken;
    ExprTokensParse(ts, 0, e);
    assert ExprTail(ts, e, |ts|) == Ok(Parsed(e, |ts|));
  }

  /** ... at the TERM level ... */
  lemma TermTokensRoundTrip(e: Expr)
    ensures Parse(TermTokens(e)) == Ok(e)
  {
    var ts := TermTokens(e);
    OccursWhole(ts);
    assert Peek(ts, |ts|) == EofToken;
    TermTokensParse(ts, 0, e);
    assert TermTail(ts, e, |ts|) == Ok(Parsed(e, |ts|));
    WholeTermIsParse(ts, e);
  }

  /** ... and for the printed stream, whose top assignment is bare. */
  lemma MinimalRoundTrip(e: Expr)
    ensures Parse(Minimal(e)) == Ok(e)
  {
    if e.Assignment? {
      var ts := Minimal(e);
      var v := ExprTokens(e.value);
      OccursWhole(ts);
      OccursSplit(ts, 0, [Token(Id, e.name), Equals], v);
      OccursSplit(ts, 0, [Token(Id, e.name)], [Equals]);
      OccursToken(ts, 0, Token(Id, e.name));
      OccursToken(ts, 1, Equals);
      assert Peek(ts, |ts|) == EofToken;
      ExprTokensParse(ts, 2, e.value);
      assert ExprTail(ts, e.value, |ts|) == Ok(Parsed(e.value, |ts|));
      assert ParseFactor(ts, 0) == Ok(Parsed(e, |ts|));
      ExprOfFactor(ts, 0, e, |ts|);
    } else {
      ExprTokensRoundTrip(e);
    }
  }

  lemma NoParensAppend(a: seq<Token>, b: seq<Token>)
    ensures NoParens(a + b) <==> NoParens(a) && NoParens(b)
  {
    assert forall i :: 0 <= i < |a| ==> (a + b)[i] == a[i];
    assert forall i :: 0 <= i < |b| ==> (a + b)[|a| + i] == b[i];
    if NoParens(a) && NoParens(b) {
      forall i | 0 <= i < |a + b|
        ensures (a + b)[i].kind != LParen
      {
        if i >= |a| {
          assert (a + b)[i] == b[i - |a|];
        }
      }
    }
  }

  /** `a + [t] + b` has no `(` exactly when neither part has one and `t`
      is not one. */
  lemma NoParensInfix(a: seq<Token>, t: Token, b: seq<Token>)
    ensures NoParens(a + [t] + b) <==> NoParens(a) && t.kind != LParen && NoParens(b)
  {
    NoParensAppend(a + [t], b);
    NoParensAppend(a, [t]);
    assert [t][0] == t;
  }

  /** A tree printed as an EXPR has no `(` exactly when it has the
      unbracketed shape and no assignment inside. */
  lemma {:induction false} ExprTokensBare(e: Expr)
    ensures NoParens(ExprTokens(e)) <==> Unbracketed(e) && Assigned(e) == {}
    decreases e, ExprRank(e)
  {
    if IsSum(e) {
      assert ExprTokens(e) == ExprTokens(e.left) + [OperatorToken(e.op)] + TermTokens(e.right);
      NoParensInfix(ExprTokens(e.left), OperatorToken(e.op), TermTokens(e.right));
      ExprTokensBare(e.left);
      TermTokensBare(e.right);
    } else {
      TermTokensBare(e);
    }
  }

  /** ... as a TERM, exactly when it is moreover not a sum, ... */
  lemma {:induction false} TermTokensBare(e: Expr)
    ensures NoParens(TermTokens(e)) <==> Unbracketed(e) && Assigned(e) == {} && !IsSum(e)
    decreases e, TermRank(e)
  {
    if IsProduct(e) {
      assert TermTokens(e) == TermTokens(e.left) + [OperatorToken(e.op)] + FactorTokens(e.right);
      NoParensInfix(TermTokens(e.left), OperatorToken(e.op), FactorTokens(e.right));
      TermTokensBare(e.left);
      FactorTokensBare(e.right);
      assert Assigned(e) == Assigned(e.left) + Assigned(e.right);
      assert Unbracketed(e) <==> Unbracketed(e.left) && Unbracketed(e.right) && !IsSum(e.left) && !e.right.Binary?;
      if e.right.Assignment? {
        assert e.right.name in Assigned(e.right);
        assert !NoParens(TermTokens(e));
      } else if e.right.Binary? {
        assert !NoParens(TermTokens(e));
      } else {
        assert Unbracketed(e.right) && Assigned(e.right) == {};
        assert NoParens(TermTokens(e)) <==> Unbracketed(e.left) && Assigned(e.left) == {} && !IsSum(e.left);
      }
    } else {
      FactorTokensBare(e);
      if e.Assignment? {
        assert e.name in Assigned(e);
      }
    }
  }

  /** ... and as a FACTOR, exactly when it is a leaf. */
  lemma FactorTokensBare(e: Expr)
    ensures NoParens(FactorTokens(e)) <==> e.Number? || e.Variable?
  {
    if !e.Number? && !e.Variable? {
      assert FactorTokens(e)[0] == Open;
    }
  }

  /** The parentheses the printer writes are needed: a tree that some
      stream without `(` parses to has the unbracketed shape, and a tree
      without assignments has such a stream exactly when the printer
      writes it without `(`. */
  lemma ParenFreeSpelling(e: Expr)
    ensures (exists ts :: NoParens(ts) && Parse(ts) == Ok(e)) ==> Unbracketed(e)
    ensures Assigned(e) == {} ==>
      (NoParens(ExprTokens(e)) <==> exists ts :: NoParens(ts) && Parse(ts) == Ok(e))
  {
    forall ts | NoParens(ts) && Parse(ts) == Ok(e)
      ensures Unbracketed(e)
    {
      ParseUnbracketed(ts);
    }
    ExprTokensBare(e);
    ExprTokensRoundTrip(e);
  }

  /** A first operand followed by operator and operand pairs, grouped to
      the left: the last pair's operand is the right child of the root. */
  function Fold(first: Expr, rest: seq<(Op, Expr)>): Expr
    decreases |rest|
  {
    if |rest| == 0 then first
    else Binary(rest[|rest| - 1].0, Fold(first, rest[..|rest| - 1]), rest[|rest| - 1].1)
  }

  /** `first op e op e ...` with the first operand printed as an EXPR and
      every later one as a TERM. */
  function SumChain(first: Expr, rest: seq<(Op, Expr)>): seq<Token>
    decreases |rest|
  {
    if |rest| == 0 then ExprTokens(first)
    else SumChain(first, rest[..|rest| - 1]) + [OperatorToken(rest[|rest| - 1].0)] + TermTokens(rest[|rest| - 1].1)
  }

  /** `first op e op e ...` with the first operand printed as a TERM and
      every later one as a FACTOR. */
  function ProductChain(first: Expr, rest: seq<(Op, Expr)>): seq<Token>
    decreases |rest|
  {
    if |rest| == 0 then TermTokens(first)
    else ProductChain(first, rest[..|rest| - 1]) + [OperatorToken(rest[|rest| - 1].0)] + FactorTokens(rest[|rest| - 1].1)
  }

  /** Every operator of the chain is `+` or `-`. */
  predicate Additive(rest: seq<(Op, Expr)>) {
    forall i :: 0 <= i < |rest| ==> rest[i].0 == Add || rest[i].0 == Subtract
  }

  /** Every operator of the chain is `*` or `/`. */
  predicate Multiplicative(rest: seq<(Op, Expr)>) {
    forall i :: 0 <= i < |rest| ==> rest[i].0 == Multiply || rest[i].0 == Divide
  }

  /** An additive chain is how the printer writes its left fold. */
  lemma {:induction false} SumChainPrintsFold(first: Expr, rest: seq<(Op, Expr)>)
    requires Additive(rest)
    ensures ExprTokens(Fold(first, rest)) == SumChain(first, rest)
    decreases |rest|
  {
    if |rest| > 0 {
      var n := |rest| - 1;
      assert rest[n].0 == Add || rest[n].0 == Subtract;
      assert Additive(rest[..n]) by {
        assert forall i :: 0 <= i < n ==> rest[..n][i] == rest[i];
      }
      SumChainPrintsFold(first, rest[..n]);
    }
  }

  /** A multiplicative chain of at least one operator is how the printer
      writes its left fold. */
  lemma {:induction false} ProductChainPrintsFold(first: Expr, rest: seq<(Op, Expr)>)
    requires Multiplicative(rest)
    ensures TermTokens(Fold(first, rest)) == ProductChain(first, rest)
    decreases |rest|
  {
    if |rest| > 0 {
      var n := |rest| - 1;
      assert rest[n].0 == Multiply || rest[n].0 == Divide;
      assert Multiplicative(rest[..n]) by {
        assert forall i :: 0 <= i < n ==> rest[..n][i] == rest[i];
      }
      ProductChainPrintsFold(first, rest[..n]);
    }
  }

  /** Left-associativity of `+` and `-`: operands joined by additive
      operators parse as their left fold, `a - b - c` as `(a - b) - c`,
      whatever the operands are. */
  lemma AdditiveChainFoldsLeft(first: Expr, rest: seq<(Op, Expr)>)
    requires Additive(rest)
    ensures Parse(SumChain(first, rest)) == Ok(Fold(first, rest))
  {
    SumChainPrintsFold(first, rest);
    ExprTokensRoundTrip(Fold(first, rest));
  }

  /** Left-associativity of `*` and `/`, whatever the operands are. */
  lemma MultiplicativeChainFoldsLeft(first: Expr, rest: seq<(Op, Expr)>)
    requires Multiplicative(rest)
    ensures Parse(ProductChain(first, rest)) == Ok(Fold(first, rest))
  {
    ProductChainPrintsFold(first, rest);
    TermTokensRoundTrip(Fold(first, rest));
  }

  /** Precedence: in `x + y * z` the product is the right operand of the
      sum, whatever the operands are. */
  lemma ProductBindsTighterOnTheRight(x: Expr, p: Op, y: Expr, m: Op, z: Expr)
    requires p == Add || p == Subtract
    requires m == Multiply || m == Divide
    ensures Parse(ExprTokens(x) + [OperatorToken(p)] + TermTokens(y) + [OperatorToken(m)] + FactorTokens(z))
      == Ok(Binary(p, x, Binary(m, y, z)))
  {
    var e := Binary(p, x, Binary(m, y, z));
    var product := TermTokens(y) + [OperatorToken(m)] + FactorTokens(z);
    assert ExprTokens(e) == ExprTokens(x) + [OperatorToken(p)] + product;
    assert ExprTokens(x) + [OperatorToken(p)] + product
      == ExprTokens(x) + [OperatorToken(p)] + TermTokens(y) + [OperatorToken(m)] + FactorTokens(z);
    ExprTokensRoundTrip(e);
  }

  /** Precedence: in `x * y + z` the product is the left operand of the
      sum, whatever the operands are. */
  lemma ProductBindsTighterOnTheLeft(x: Expr, m: Op, y: Expr, p: Op, z: Expr)
    requires m == Multiply || m == Divide
    requires p == Add || p == Subtract
    ensures Parse(TermTokens(x) + [OperatorToken(m)] + FactorTokens(y) + [OperatorToken(p)] + TermTokens(z))
      == Ok(Binary(p, Binary(m, x, y), z))
  {
    var e := Binary(p, Binary(m, x, y), z);
    assert ExprTokens(Binary(m, x, y)) == TermTokens(x) + [OperatorToken(m)] + FactorTokens(y);
    ExprTokensRoundTrip(e);
  }
}
