/** The syntax tree the parser builds: the four node shapes NUM, ID, ASSIGN
    and BIN_OP. */
module Ast {
  import opened Chars
  import opened Tokens

  /** The four binary operators. */
  datatype Op = Add | Subtract | Multiply | Divide

  datatype Expr =
      /** A NUM node keeps the literal's text; the evaluator reads it. */
    | Number(text: string)
      /** An ID node: a variable read. */
    | Variable(name: string)
      /** An ASSIGN node: `name = value`. */
    | Assignment(name: string, value: Expr)
      /** A BIN_OP node. */
    | Binary(op: Op, left: Expr, right: Expr)

  /** The kind of an operator kind's token. */
  predicate IsOperator(k: Kind) {
    IsAdditive(k) || IsMultiplicative(k)
  }

  /** The operator an operator token stands for. */
  function OpOf(k: Kind): (op: Op)
    requires IsOperator(k)
    ensures IsAdditive(k) <==> op == Add || op == Subtract
  {
    match k
    case Plus => Add
    case Minus => Subtract
    case Times => Multiply
    case Div => Divide
  }

  /** The token kind that stands for an operator. */
  function KindOf(op: Op): (k: Kind)
    ensures IsOperator(k) && OpOf(k) == op
  {
    match op
    case Add => Plus
    case Subtract => Minus
    case Multiply => Times
    case Divide => Div
  }

  /** The operator's source text, which the lexer gives its token. */
  function Symbol(op: Op): string {
    match op
    case Add => "+"
    case Subtract => "-"
    case Multiply => "*"
    case Divide => "/"
  }

  /** The names an expression assigns to, anywhere inside it. */
  function Assigned(e: Expr): set<string> {
    match e
    case Number(_) => {}
    case Variable(_) => {}
    case Assignment(x, v) => {x} + Assigned(v)
    case Binary(_, l, r) => Assigned(l) + Assigned(r)
  }

  /** Whether a `/` occurs anywhere in the expression. */
  predicate HasDivision(e: Expr) {
    match e
    case Number(_) => false
    case Variable(_) => false
    case Assignment(_, v) => HasDivision(v)
    case Binary(op, l, r) => op == Divide || HasDivision(l) || HasDivision(r)
  }

  /** Every NUM node of the expression holds a decimal numeral. */
  predicate Numerals(e: Expr) {
    match e
    case Number(text) => IsDigits(text)
    case Variable(_) => true
    case Assignment(_, v) => Numerals(v)
    case Binary(_, l, r) => Numerals(l) && Numerals(r)
  }
}
