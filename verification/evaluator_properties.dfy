/** Properties of the evaluator: a reference semantics over exact numbers,
    the integer-only fragment, the store an assignment leaves, and the
    left-to-right order of evaluation. */
module EvaluatorProperties {
  import opened Chars
  import opened Results
  import opened Ast
  import opened Evaluator

  /** A store of plain numbers. */
  type Store = map<string, real>

  datatype Computed = Computed(x: real, store: Store)

  /** The numbers a store of values stands for. */
  function Reals(env: Env): (s: Store)
    ensures s.Keys == env.Keys
  {
    map x | x in env :: Real(env[x])
  }

  /** Reference semantics: the same language evaluated on exact numbers
      alone, with no distinction between integers and floats. It threads
      the store and orders the operands as `Eval` does, so comparing the
      two checks the integer and float tagging and `Apply` against
      `Exact`, not the evaluation order or the store handling, which
      `BinaryThreadsStore` and `AssignmentStores` state. */
  function Compute(e: Expr, s: Store): Result<Computed>
    decreases e
  {
    match e
    case Number(text) =>
      if IsDigits(text) then Ok(Computed(DecimalValue(text) as real, s)) else Err(InvalidLiteral(text))
    case Variable(name) =>
      Ok(Computed(if name in s then s[name] else 0.0, s))
    case Assignment(name, value) =>
      var v :- Compute(value, s);
      Ok(Computed(v.x, v.store[name := v.x]))
    case Binary(op, left, right) =>
      var l :- Compute(left, s);
      var r :- Compute(right, l.store);
      if op == Divide && r.x == 0.0 then Err(DivisionByZero)
      else Ok(Computed(Exact(op, l.x, r.x), r.store))
  }

  lemma RealsUpdate(env: Env, name: string, v: Value)
    ensures Reals(env[name := v]) == Reals(env)[name := Real(v)]
  {
  }

  /** Telling integers from floats never changes a number: the evaluator
      succeeds exactly when the reference semantics does, fails with the
      same error, and computes the same number and the same store. */
  lemma {:induction false} EvalIsExact(e: Expr, env: Env)
    ensures Eval(e, env).Ok? <==> Compute(e, Reals(env)).Ok?
    ensures Eval(e, env).Err? ==> Compute(e, Reals(env)) == Err(Eval(e, env).error)
    ensures Eval(e, env).Ok? ==>
      Compute(e, Reals(env)).value == Computed(Real(Eval(e, env).value.value), Reals(Eval(e, env).value.env))
    decreases e
  {
    match e
    case Number(text) =>
    case Variable(name) =>
    case Assignment(name, value) =>
      EvalIsExact(value, env);
      if Eval(value, env).Ok? {
        var v := Eval(value, env).value;
        RealsUpdate(v.env, name, v.value);
      }
    case Binary(op, left, right) =>
      EvalIsExact(left, env);
      if Eval(left, env).Ok? {
        var l := Eval(left, env).value;
        EvalIsExact(right, l.env);
      }
  }

  /** Every stored value is an integer. */
  predicate IntegerStore(env: Env) {
    forall x :: x in env ==> env[x].Int?
  }

  /** Without `/`, integers stay integers: from a store of integers the
      value and every stored value are integers. */
  lemma {:induction false} IntegersStayIntegers(e: Expr, env: Env)
    requires IntegerStore(env) && !HasDivision(e)
    ensures Eval(e, env).Ok? ==> Eval(e, env).value.value.Int? && IntegerStore(Eval(e, env).value.env)
    decreases e
  {
    match e
    case Number(_) =>
    case Variable(_) =>
    case Assignment(_, value) =>
      IntegersStayIntegers(value, env);
    case Binary(_, left, right) =>
      IntegersStayIntegers(left, env);
      if Eval(left, env).Ok? {
        IntegersStayIntegers(right, Eval(left, env).value.env);
      }
  }

  /** An expression whose literals are all numerals and which divides
      nowhere always evaluates. */
  lemma EvalTotal(e: Expr, env: Env)
    requires Numerals(e) && !HasDivision(e)
    ensures Eval(e, env).Ok?
  {
  }

  /** A name reads its stored value, and 0 when it was never assigned; the
      store is left alone. */
  lemma VariableReads(name: string, env: Env)
    ensures name in env ==> Eval(Variable(name), env) == Ok(Evaluated(env[name], env))
    ensures name !in env ==> Eval(Variable(name), env) == Ok(Evaluated(Int(0), env))
  {
  }

  /** `name = value` binds `name` to the value it returns; every other name
      that `value` does not assign keeps the value it had. */
  lemma AssignmentStores(name: string, value: Expr, env: Env)
    ensures Eval(Assignment(name, value), env).Ok? <==> Eval(value, env).Ok?
    ensures Eval(Assignment(name, value), env).Ok? ==>
      var r := Eval(Assignment(name, value), env).value;
      && r.value == Eval(value, env).value.value
      && name in r.env && r.env[name] == r.value
      && (forall y :: y in env && y != name && y !in Assigned(value) ==> y in r.env && r.env[y] == env[y])
      && r.env == Eval(value, env).value.env[name := r.value]
  {
  }

  /** A binary node evaluates its left operand against the incoming store,
      then its right operand against the store the left one left behind,
      then applies the operator; it fails exactly when one of the three
      steps does, with that step's error. */
  lemma BinaryThreadsStore(op: Op, left: Expr, right: Expr, env: Env)
    ensures Eval(Binary(op, left, right), env).Ok? <==>
      && Eval(left, env).Ok?
      && Eval(right, Eval(left, env).value.env).Ok?
      && Apply(op, Eval(left, env).value.value, Eval(right, Eval(left, env).value.env).value.value).Ok?
    ensures Eval(Binary(op, left, right), env).Ok? ==>
      var l := Eval(left, env).value;
      var r := Eval(right, l.env).value;
      Eval(Binary(op, left, right), env).value == Evaluated(Apply(op, l.value, r.value).value, r.env)
    ensures Eval(left, env).Err? ==> Eval(Binary(op, left, right), env) == Err(Eval(left, env).error)
  {
  }

  /** `/` by zero is an error whether the zero is an integer or a float. */
  lemma DivisionByZeroFails(left: Expr, right: Expr, env: Env)
    requires Eval(left, env).Ok?
    requires Eval(right, Eval(left, env).value.env).Ok?
    requires Real(Eval(right, Eval(left, env).value.env).value.value) == 0.0
    ensures Eval(Binary(Divide, left, right), env) == Err(DivisionByZero)
  {
  }

  /** `/` of two integers is a float, even when it divides evenly. */
  lemma QuotientIsFloat()
    ensures Eval(Binary(Divide, Number("6"), Number("3")), map[]) == Ok(Evaluated(Float(2.0), map[]))
  {
    assert DecimalValue("6") == 6 by { assert "6"[..0] == []; }
    assert DecimalValue("3") == 3 by { assert "3"[..0] == []; }
  }

  /** The left operand runs first, so an assignment on the right is not yet
      visible to a read on the left, ... */
  lemma ReadBeforeAssignment()
    ensures Eval(Binary(Add, Variable("x"), Assignment("x", Number("3"))), map[])
         == Ok(Evaluated(Int(3), map["x" := Int(3)]))
  {
    assert DecimalValue("3") == 3 by { assert "3"[..0] == []; }
  }

  /** ... and an assignment on the left is visible to a read on the
      right. */
  lemma AssignmentBeforeRead()
    ensures Eval(Binary(Add, Assignment("x", Number("3")), Variable("x")), map[])
         == Ok(Evaluated(Int(6), map["x" := Int(3)]))
  {
    assert DecimalValue("3") == 3 by { assert "3"[..0] == []; }
  }
}
