/** The failures of the three stages, and the result type that carries them. */
module Results {
  import opened Tokens

  /** Why a run stopped. Each stage has its own constructors. */
  datatype Error =
      /** Lexer: no pattern matches here; carries the unconsumed input. */
    | LexError(rest: string)
      /** Parser: `eat` wanted one kind and found another token. */
    | Expected(kind: Kind, found: Token)
      /** Parser: this token cannot start a FACTOR. */
    | UnexpectedToken(found: Token)
      /** Parser: a complete expression is followed by more tokens. */
    | TrailingTokens
      /** Evaluator: a NUM node whose text is not a decimal numeral. */
    | InvalidLiteral(text: string)
      /** Evaluator: the right operand of `/` evaluated to zero. */
    | DivisionByZero
  {
    predicate IsLexical() {
      LexError?
    }

    predicate IsSyntax() {
      Expected? || UnexpectedToken? || TrailingTokens?
    }

    predicate IsEvaluation() {
      InvalidLiteral? || DivisionByZero?
    }
  }

  /** A value or the error that prevented it; usable with `:-`. */
  datatype Result<+T> = Ok(value: T) | Err(error: Error) {

    predicate IsFailure() {
      Err?
    }

    function PropagateFailure<U>(): Result<U>
      requires Err?
    {
      Err(error)
    }

    function Extract(): T
      requires Ok?
    {
      value
    }
  }
}
