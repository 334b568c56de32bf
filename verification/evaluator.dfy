/** The tree-walking evaluator. Values follow the source language's numbers:
    an integer stays an integer under `+`, `-` and `*`, and `/` is true
    division, whose result is a float even for integer operands. A float is
    modelled by the exact rational it approximates. */
module Evaluator {
  import opened Chars
  import opened Results
  import opened Ast

  datatype Value = Int(i: int) | Float(x: real)

  /** The number a value stands for. */
  function Real(v: Value): real {
    match v
    case Int(i) => i as real
    case Float(x) => x
  }

  /** Exact arithmetic on the numbers the values stand for. */
  function Exact(op: Op, x: real, y: real): real
    requires op == Divide ==> y != 0.0
  {
    match op
    case Add => x + y
    case Subtract => x - y
    case Multiply => x * y
    case Divide => x / y
  }

  /** One binary operation. Two integers give an integer under `+`, `-` and
      `*`; any float operand, or `/`, gives a float; `/` by zero (integer or
      float) is an error. */
  function Apply(op: Op, a: Value, b: Value): (r: Result<Value>)
    ensures r.Err? <==> op == Divide && Real(b) == 0.0
    ensures r.Err? ==> r.error == DivisionByZero
    ensures r.Ok? ==> Real(r.value) == Exact(op, Real(a), Real(b))
    ensures r.Ok? ==> (r.value.Int? <==> op != Divide && a.Int? && b.Int?)
  {
    match (op, a, b)
    case (Divide, _, _) =>
      if Real(b) == 0.0 then Err(DivisionByZero) else Ok(Float(Real(a) / Real(b)))
    case (Add, Int(x), Int(y)) => Ok(Int(x + y))
    case (Subtract, Int(x), Int(y)) => Ok(Int(x - y))
    case (Multiply, Int(x), Int(y)) => Ok(Int(x * y))
    case _ => Ok(Float(Exact(op, Real(a), Real(b))))
  }

  /** The name-to-value store, owned by one evaluation and threaded
      through it. */
  type Env = map<string, Value>

  /** What an evaluation returns: the value and the store after it. */
  datatype Evaluated = Evaluated(value: Value, env: Env)

  /** Evaluate a tree against a store. A NUM node is its decimal value; an
      ID node the stored value, 0 when the name was never assigned; an
      ASSIGN node stores its value's value and returns it; a BIN_OP node
      evaluates its left operand, then its right operand against the store
      the left one left behind. */
  function Eval(e: Expr, env: Env): (r: Result<Evaluated>)
    ensures r.Ok? ==> r.value.env.Keys == env.Keys + Assigned(e)
    ensures r.Ok? ==> forall x :: x in env && x !in Assigned(e) ==> r.value.env[x] == env[x]
    ensures r.Err? ==> r.error.IsEvaluation()
    ensures r.Err? && r.error.DivisionByZero? ==> HasDivision(e)
    ensures r.Err? && r.error.InvalidLiteral? ==> !Numerals(e)
    decreases e
  {
    match e
    case Number(text) =>
      if IsDigits(text) then Ok(Evaluated(Int(DecimalValue(text)), env)) else Err(InvalidLiteral(text))
    case Variable(name) =>
      Ok(Evaluated(if name in env then env[name] else Int(0), env))
    case Assignment(name, value) =>
      var v :- Eval(value, env);
      Ok(Evaluated(v.value, v.env[name := v.value]))
    case Binary(op, left, right) =>
      var l :- Eval(left, env);
      var r :- Eval(right, l.env);
      var x :- Apply(op, l.value, r.value);
      Ok(Evaluated(x, r.env))
  }
}
