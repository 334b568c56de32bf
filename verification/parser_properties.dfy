/** What the parser promises: `eat` checks before it consumes, a parse reads
    only the tokens it consumes plus one of lookahead, the whole stream must
    be consumed, the loops fold to the left, `*` and `/` bind tighter than
    `+` and `-`, and parentheses leave no node of their own. */
module ParserProperties {
  import opened Tokens
  import opened Results
  import opened Ast
  import opened Parser

  /** `eat` past the end fails for every kind but the end marker's, and
      reports the end marker as found. */
  lemma EatPastEnd(ts: seq<Token>, pos: nat, k: Kind)
    requires |ts| <= pos && k != Eof
    ensures Eat(ts, pos, k) == Err(Expected(k, EofToken))
  {
  }

  /** On success `eat` returns the token at the cursor, which is a real
      token of the stream, and moves one past it. */
  lemma EatConsumesOne(ts: seq<Token>, pos: nat, k: Kind)
    requires k != Eof && Eat(ts, pos, k).Ok?
    ensures pos < |ts|
    ensures Eat(ts, pos, k) == Ok(Parsed(ts[pos], pos + 1))
  {
  }

  /** Empty input is an error: no FACTOR starts at the end marker. */
  lemma ParseEmpty()
    ensures Parse([]) == Err(UnexpectedToken(EofToken))
  {
  }

  /** Tokens `ts` sit in `big` from offset `d` on, and what follows them in
      `big` cannot extend an operand: not an operator and not `=`. */
  ghost predicate Embeds(big: seq<Token>, d: nat, ts: seq<Token>) {
    && d + |ts| <= |big|
    && (forall i :: 0 <= i < |ts| ==> big[d + i] == ts[i])
    && !Continues(Peek(big, d + |ts|).kind)
  }

  /** A result moved `d` tokens to the right. */
  function Shifted(r: Result<Parsed<Expr>>, d: nat): Result<Parsed<Expr>> {
    match r
    case Ok(Parsed(e, p)) => Ok(Parsed(e, p + d))
    case Err(e) => Err(e)
  }

  /** The lookahead inside an embedding sees what the embedded stream sees;
      at its end it sees a token that does not extend an operand, as the
      end marker does not. */
  lemma PeekEmbedded(big: seq<Token>, d: nat, ts: seq<Token>, pos: nat)
    requires Embeds(big, d, ts) && pos <= |ts|
    ensures pos < |ts| ==> Peek(big, d + pos) == Peek(ts, pos)
    ensures pos == |ts| ==> Peek(ts, pos) == EofToken && !Continues(Peek(big, d + pos).kind)
  {
  }

  /** Tokens sit between a prefix and a suffix whose first token, or the
      end marker when it is empty, cannot extend an operand. */
  lemma EmbedsBetween(pre: seq<Token>, ts: seq<Token>, post: seq<Token>)
    requires !Continues(Peek(post, 0).kind)
    ensures Embeds(pre + ts + post, |pre|, ts)
  {
    var big := pre + ts + post;
    assert forall i :: 0 <= i < |ts| ==> big[|pre| + i] == ts[i];
    assert Peek(big, |pre| + |ts|) == Peek(post, 0);
  }

  /** A successful parse of EXPR reads nothing beyond its tokens and one of
      lookahead: inside any stream that holds the same tokens and then one
      that cannot extend an operand, it builds the same node. */
  lemma {:induction false} EmbedExpr(big: seq<Token>, d: nat, ts: seq<Token>, pos: nat)
    requires Embeds(big, d, ts) && pos <= |ts| && ParseExpr(ts, pos).Ok?
    ensures ParseExpr(big, d + pos) == Shifted(ParseExpr(ts, pos), d)
    decreases |ts| - pos, 3
  {
    var left := ParseTerm(ts, pos).value;
    EmbedTerm(big, d, ts, pos);
    EmbedExprTail(big, d, ts, left.value, left.pos);
  }

  lemma {:induction false} EmbedExprTail(big: seq<Token>, d: nat, ts: seq<Token>, node: Expr, pos: nat)
    requires Embeds(big, d, ts) && pos <= |ts| && ExprTail(ts, node, pos).Ok?
    ensures ExprTail(big, node, d + pos) == Shifted(ExprTail(ts, node, pos), d)
    decreases |ts| - pos, 0
  {
    PeekEmbedded(big, d, ts, pos);
    var t := Peek(ts, pos);
    if IsAdditive(t.kind) {
      var right := ParseTerm(ts, pos + 1).value;
      EmbedTerm(big, d, ts, pos + 1);
      EmbedExprTail(big, d, ts, Binary(OpOf(t.kind), node, right.value), right.pos);
    }
  }

  lemma {:induction false} EmbedTerm(big: seq<Token>, d: nat, ts: seq<Token>, pos: nat)
    requires Embeds(big, d, ts) && pos <= |ts| && ParseTerm(ts, pos).Ok?
    ensures ParseTerm(big, d + pos) == Shifted(ParseTerm(ts, pos), d)
    decreases |ts| - pos, 2
  {
    var left := ParseFactor(ts, pos).value;
    EmbedFactor(big, d, ts, pos);
    EmbedTermTail(big, d, ts, left.value, left.pos);
  }

  lemma {:induction false} EmbedTermTail(big: seq<Token>, d: nat, ts: seq<Token>, node: Expr, pos: nat)
    requires Embeds(big, d, ts) && pos <= |ts| && TermTail(ts, node, pos).Ok?
    ensures TermTail(big, node, d + pos) == Shifted(TermTail(ts, node, pos), d)
    decreases |ts| - pos, 0
  {
    PeekEmbedded(big, d, ts, pos);
    var t := Peek(ts, pos);
    if IsMultiplicative(t.kind) {
      var right := ParseFactor(ts, pos + 1).value;
      var next := Binary(OpOf(t.kind), node, right.value);
      EmbedFactor(big, d, ts, pos + 1);
      TermTailUnfolds(ts, node, pos);
      EmbedTermTail(big, d, ts, next, right.pos);
      TermTailStep(big, d, ts, node, pos);
    }
  }

  /** One round of the multiplicative loop: it continues from after the
      FACTOR it takes, holding the node that FACTOR completes. */
  lemma TermTailUnfolds(ts: seq<Token>, node: Expr, pos: nat)
    requires pos <= |ts| && IsMultiplicative(Peek(ts, pos).kind) && ParseFactor(ts, pos + 1).Ok?
    ensures var right := ParseFactor(ts, pos + 1).value;
      TermTail(ts, node, pos) == TermTail(ts, Binary(OpOf(Peek(ts, pos).kind), node, right.value), right.pos)
  {
  }

  /** An embedded round of the multiplicative loop, given that the FACTOR
      it takes and the rest of the loop parse as they do unembedded. */
  lemma TermTailStep(big: seq<Token>, d: nat, ts: seq<Token>, node: Expr, pos: nat)
    requires d + |ts| <= |big| && pos < |ts| && IsMultiplicative(ts[pos].kind) && big[d + pos] == ts[pos]
    requires ParseFactor(ts, pos + 1).Ok?
    requires ParseFactor(big, d + pos + 1) == Shifted(ParseFactor(ts, pos + 1), d)
    requires var right := ParseFactor(ts, pos + 1).value;
      var next := Binary(OpOf(ts[pos].kind), node, right.value);
      TermTail(big, next, d + right.pos) == Shifted(TermTail(ts, next, right.pos), d)
    ensures TermTail(big, node, d + pos) == Shifted(TermTail(ts, node, pos), d)
  {
    TermTailUnfolds(ts, node, pos);
  }

  lemma {:induction false} EmbedFactor(big: seq<Token>, d: nat, ts: seq<Token>, pos: nat)
    requires Embeds(big, d, ts) && pos <= |ts| && ParseFactor(ts, pos).Ok?
    ensures ParseFactor(big, d + pos) == Shifted(ParseFactor(ts, pos), d)
    decreases |ts| - pos, 1
  {
    PeekEmbedded(big, d, ts, pos);
    var t := Peek(ts, pos);
    if t.kind == Id {
      PeekEmbedded(big, d, ts, pos + 1);
      if Peek(ts, pos + 1).kind == Assign {
        EmbedAssignment(big, d, ts, pos);
      }
    } else if t.kind == LParen {
      EmbedParenthesised(big, d, ts, pos);
    }
  }

  lemma {:induction false} EmbedAssignment(big: seq<Token>, d: nat, ts: seq<Token>, pos: nat)
    requires Embeds(big, d, ts) && pos + 1 < |ts| && ts[pos].kind == Id && ts[pos + 1].kind == Assign
    requires ParseFactor(ts, pos).Ok?
    ensures ParseFactor(big, d + pos) == Shifted(ParseFactor(ts, pos), d)
    decreases |ts| - pos, 0
  {
    PeekEmbedded(big, d, ts, pos);
    PeekEmbedded(big, d, ts, pos + 1);
    var value := ParseExpr(ts, pos + 2).value;
    EmbedExpr(big, d, ts, pos + 2);
    assert ParseFactor(ts, pos) == Ok(Parsed(Assignment(ts[pos].text, value.value), value.pos));
  }

  lemma {:induction false} EmbedParenthesised(big: seq<Token>, d: nat, ts: seq<Token>, pos: nat)
    requires Embeds(big, d, ts) && pos < |ts| && ts[pos].kind == LParen
    requires ParseFactor(ts, pos).Ok?
    ensures ParseFactor(big, d + pos) == Shifted(ParseFactor(ts, pos), d)
    decreases |ts| - pos, 0
  {
    PeekEmbedded(big, d, ts, pos);
    var inner := ParseExpr(ts, pos + 1).value;
    EmbedExpr(big, d, ts, pos + 1);
    PeekEmbedded(big, d, ts, inner.pos);
    assert ParseFactor(ts, pos) == Ok(Parsed(inner.value, inner.pos + 1));
  }

  /** Tokens followed by a token that cannot extend an operand sit at the
      front of the stream. */
  lemma EmbedsBefore(ts: seq<Token>, tail: seq<Token>)
    requires |tail| > 0 && !Continues(tail[0].kind)
    ensures Embeds(ts + tail, 0, ts)
  {
    EmbedsBetween([], ts, tail);
    assert [] + ts + tail == ts + tail;
  }

  /** A complete EXPR at the front of a stream, followed by a real token,
      leaves that token unconsumed. */
  lemma TrailingAfterEmbedded(big: seq<Token>, ts: seq<Token>, e: Expr)
    requires Embeds(big, 0, ts) && |ts| < |big| && big[|ts|].kind != Eof
    requires ParseExpr(ts, 0) == Ok(Parsed(e, |ts|))
    ensures Parse(big) == Err(TrailingTokens)
  {
    EmbedExpr(big, 0, ts, 0);
  }

  /** A complete EXPR followed by a token that cannot extend it is rejected
      for the trailing tokens, whatever follows. */
  lemma TrailingTokensRejected(ts: seq<Token>, tail: seq<Token>, e: Expr)
    requires ParseExpr(ts, 0) == Ok(Parsed(e, |ts|))
    requires |tail| > 0 && !Continues(tail[0].kind) && tail[0].kind != Eof
    ensures Parse(ts + tail) == Err(TrailingTokens)
  {
    EmbedsBefore(ts, tail);
    TrailingAfterEmbedded(ts + tail, ts, e);
  }

  lemma FactorOfParenthesised(big: seq<Token>, ts: seq<Token>, e: Expr)
    requires Embeds(big, 1, ts) && |ts| + 1 < |big|
    requires big[0].kind == LParen && big[|ts| + 1].kind == RParen
    requires ParseExpr(ts, 0) == Ok(Parsed(e, |ts|))
    ensures ParseFactor(big, 0) == Ok(Parsed(e, |ts| + 2))
  {
    EmbedExpr(big, 1, ts, 0);
  }

  /** A parenthesised EXPR is a FACTOR that yields the inner node itself,
      with no node for the parentheses. */
  lemma ParenthesesAreTransparent(open: Token, ts: seq<Token>, close: Token, e: Expr)
    requires open.kind == LParen && close.kind == RParen
    requires ParseExpr(ts, 0) == Ok(Parsed(e, |ts|))
    ensures ParseFactor([open] + ts + [close], 0) == Ok(Parsed(e, |ts| + 2))
  {
    EmbedsBetween([open], ts, [close]);
    FactorOfParenthesised([open] + ts + [close], ts, e);
  }

  /** A TERM that spans the whole stream is the whole parse. */
  lemma WholeTermIsParse(ts: seq<Token>, e: Expr)
    requires ParseTerm(ts, 0) == Ok(Parsed(e, |ts|))
    ensures Parse(ts) == Ok(e)
  {
    assert ExprTail(ts, e, |ts|) == Ok(Parsed(e, |ts|));
  }

  /** A FACTOR that spans the whole stream is the whole parse. */
  lemma WholeFactorIsParse(ts: seq<Token>, e: Expr)
    requires ParseFactor(ts, 0) == Ok(Parsed(e, |ts|))
    ensures Parse(ts) == Ok(e)
  {
    assert TermTail(ts, e, |ts|) == Ok(Parsed(e, |ts|));
    WholeTermIsParse(ts, e);
  }

  /** Wrapping a whole EXPR in parentheses does not change its parse. */
  lemma ParenthesesKeepParse(open: Token, ts: seq<Token>, close: Token, e: Expr)
    requires open.kind == LParen && close.kind == RParen
    requires ParseExpr(ts, 0) == Ok(Parsed(e, |ts|))
    ensures Parse([open] + ts + [close]) == Ok(e)
  {
    var big := [open] + ts + [close];
    assert |big| == |ts| + 2;
    ParenthesesAreTransparent(open, ts, close, e);
    WholeFactorIsParse(big, e);
  }

  /** An operand token: a number or a variable. */
  predicate IsAtom(t: Token) {
    t.kind == Num || t.kind == Id
  }

  /** The node an operand token becomes. */
  function Leaf(t: Token): Expr
    requires IsAtom(t)
  {
    if t.kind == Num then Number(t.text) else Variable(t.text)
  }

  /** A number, or a variable not followed by `=`, is a FACTOR of one
      token. */
  lemma AtomFactor(ts: seq<Token>, i: nat)
    requires i < |ts| && IsAtom(ts[i]) && Peek(ts, i + 1).kind != Assign
    ensures ParseFactor(ts, i) == Ok(Parsed(Leaf(ts[i]), i + 1))
  {
  }

  /** ... and a TERM of one token when no `*` or `/` follows. */
  lemma AtomTerm(ts: seq<Token>, i: nat)
    requires i < |ts| && IsAtom(ts[i])
    requires Peek(ts, i + 1).kind != Assign && !IsMultiplicative(Peek(ts, i + 1).kind)
    ensures ParseTerm(ts, i) == Ok(Parsed(Leaf(ts[i]), i + 1))
  {
    AtomFactor(ts, i);
  }
}
