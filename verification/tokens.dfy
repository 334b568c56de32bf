/** Tokens exchanged between the lexer and the parser. */
module Tokens {

  /** Token kinds. The first ten are the lexer's pattern names; `Eof` is the
      kind of the sentinel the parser reads past the end of the stream. */
  datatype Kind = Num | Id | Plus | Minus | Times | Div | Assign | LParen | RParen | Space | Eof

  /** A token: its kind and the exact source text it was cut from. */
  datatype Token = Token(kind: Kind, text: string)

  /** What the parser's lookahead returns once every token is consumed. */
  const EofToken := Token(Eof, "")

  /** The additive operators, handled by the EXPR rule. */
  predicate IsAdditive(k: Kind) {
    k == Plus || k == Minus
  }

  /** The multiplicative operators, handled by the TERM rule. */
  predicate IsMultiplicative(k: Kind) {
    k == Times || k == Div
  }

  /** Kinds that let an already parsed operand keep growing: a binary
      operator, or `=` right after an identifier. */
  predicate Continues(k: Kind) {
    IsAdditive(k) || IsMultiplicative(k) || k == Assign
  }

  /** No token of the stream is an end marker: true of everything the
      lexer emits. */
  predicate NoEof(ts: seq<Token>) {
    forall i :: 0 <= i < |ts| ==> ts[i].kind != Eof
  }
}
