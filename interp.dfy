/** The direct, recursive evaluator `Expr::interp` (Expr.cpp). */
module Evaluator {
  import opened Results
  import opened Ast
  import opened Values

  /** `Expr::interp(env)`. The language can run forever (self-application), so every
      recursive call spends one unit of `fuel`; running out yields `Err(OutOfFuel)`.
      Operands are evaluated left to right, and a failure of either aborts the node. */
  function Interp(e: Expr, env: Env, fuel: nat): Result<Val>
    decreases fuel
  {
    if fuel == 0 then Err(OutOfFuel)
    else
      match e
      case NumExpr(n) => Ok(NumVal(n))
      case AddExpr(lhs, rhs) =>
        var l :- Interp(lhs, env, fuel - 1);
        var r :- Interp(rhs, env, fuel - 1);
        AddTo(l, r)
      case MultExpr(lhs, rhs) =>
        var l :- Interp(lhs, env, fuel - 1);
        var r :- Interp(rhs, env, fuel - 1);
        MultTo(l, r)
      case VarExpr(name) => Lookup(env, name)
      case LetExpr(x, rhs, body) =>
        var v :- Interp(rhs, env, fuel - 1);
        Interp(body, ExtendedEnv(x, v, env), fuel - 1)
      case BoolExpr(b) => Ok(BoolVal(b))
      case EqExpr(lhs, rhs) =>
        var l :- Interp(lhs, env, fuel - 1);
        var r :- Interp(rhs, env, fuel - 1);
        Ok(BoolVal(ValEquals(l, r)))
      case IfExpr(test, thenPart, elsePart) =>
        var t :- Interp(test, env, fuel - 1);
        var b :- IsTrue(t);
        if b then Interp(thenPart, env, fuel - 1) else Interp(elsePart, env, fuel - 1)
      case FunExpr(x, body) => Ok(FunVal(x, body, env))
      case CallExpr(f, arg) =>
        var fv :- Interp(f, env, fuel - 1);
        var av :- Interp(arg, env, fuel - 1);
        // FunVal::call: the body runs in the captured environment extended with the argument
        match fv
        case FunVal(formal, body, captured) => Interp(body, ExtendedEnv(formal, av, captured), fuel - 1)
        case _ => Err(NotCallable)
  }

  /** Fuel only decides whether evaluation finishes: once some budget is enough,
      every larger budget gives the same result. */
  lemma {:induction false} InterpFuelMonotone(e: Expr, env: Env, f: nat, g: nat)
    requires f <= g
    requires Interp(e, env, f) != Err(OutOfFuel)
    ensures Interp(e, env, g) == Interp(e, env, f)
    decreases f, 1
  {
    match e
    case AddExpr(_, _) => OperandsFuelMonotone(e, env, f, g);
    case MultExpr(_, _) => OperandsFuelMonotone(e, env, f, g);
    case EqExpr(_, _) => OperandsFuelMonotone(e, env, f, g);
    case LetExpr(_, _, _) => LetFuelMonotone(e, env, f, g);
    case IfExpr(_, _, _) => IfFuelMonotone(e, env, f, g);
    case CallExpr(_, _) => CallFuelMonotone(e, env, f, g);
    case _ =>
  }

  lemma {:induction false} OperandsFuelMonotone(e: Expr, env: Env, f: nat, g: nat)
    requires e.AddExpr? || e.MultExpr? || e.EqExpr?
    requires f <= g && Interp(e, env, f) != Err(OutOfFuel)
    ensures Interp(e, env, g) == Interp(e, env, f)
    decreases f, 0
  {
    InterpFuelMonotone(e.lhs, env, f - 1, g - 1);
    if Interp(e.lhs, env, f - 1).Ok? {
      InterpFuelMonotone(e.rhs, env, f - 1, g - 1);
    }
  }

  lemma {:induction false} LetFuelMonotone(e: Expr, env: Env, f: nat, g: nat)
    requires e.LetExpr?
    requires f <= g && Interp(e, env, f) != Err(OutOfFuel)
    ensures Interp(e, env, g) == Interp(e, env, f)
    decreases f, 0
  {
    InterpFuelMonotone(e.letRhs, env, f - 1, g - 1);
    if Interp(e.letRhs, env, f - 1).Ok? {
      InterpFuelMonotone(e.body, ExtendedEnv(e.letVar, Interp(e.letRhs, env, f - 1).value, env), f - 1, g - 1);
    }
  }

  lemma {:induction false} IfFuelMonotone(e: Expr, env: Env, f: nat, g: nat)
    requires e.IfExpr?
    requires f <= g && Interp(e, env, f) != Err(OutOfFuel)
    ensures Interp(e, env, g) == Interp(e, env, f)
    decreases f, 0
  {
    InterpFuelMonotone(e.testPart, env, f - 1, g - 1);
    var t := Interp(e.testPart, env, f - 1);
    if t.Ok? && IsTrue(t.value).Ok? {
      if IsTrue(t.value).value {
        InterpFuelMonotone(e.thenPart, env, f - 1, g - 1);
      } else {
        InterpFuelMonotone(e.elsePart, env, f - 1, g - 1);
      }
    }
  }

  lemma {:induction false} CallFuelMonotone(e: Expr, env: Env, f: nat, g: nat)
    requires e.CallExpr?
    requires f <= g && Interp(e, env, f) != Err(OutOfFuel)
    ensures Interp(e, env, g) == Interp(e, env, f)
    decreases f, 0
  {
    InterpFuelMonotone(e.toBeCalled, env, f - 1, g - 1);
    var fv := Interp(e.toBeCalled, env, f - 1);
    if fv.Ok? {
      InterpFuelMonotone(e.actualArg, env, f - 1, g - 1);
      var av := Interp(e.actualArg, env, f - 1);
      if av.Ok? && fv.value.FunVal? {
        var FunVal(formal, body, captured) := fv.value;
        InterpFuelMonotone(body, ExtendedEnv(formal, av.value, captured), f - 1, g - 1);
      }
    }
  }

  /** The kind of value each node gives when it succeeds: arithmetic a number and a
      comparison a boolean, whatever its operands were; a function expression a closure over
      the environment it is evaluated in; a variable whatever `lookup` finds, free-variable
      error included. */
  lemma InterpValueKinds(e: Expr, env: Env, fuel: nat)
    ensures var r := Interp(e, env, fuel);
            r.Ok? && (e.NumExpr? || e.AddExpr? || e.MultExpr?) ==> r.value.NumVal?
    ensures var r := Interp(e, env, fuel);
            r.Ok? && (e.BoolExpr? || e.EqExpr?) ==> r.value.BoolVal?
    ensures var r := Interp(e, env, fuel);
            r.Ok? && e.FunExpr? ==> r.value == FunVal(e.formalArg, e.funBody, env)
    ensures fuel > 0 && e.VarExpr? ==> Interp(e, env, fuel) == Lookup(env, e.name)
  {
  }

  /** Round trip through `NumVal::to_expr`: the literal a number value converts to
      evaluates back to that value in every environment. */
  lemma ToExprRoundTrip(v: Val, env: Env, fuel: nat)
    requires v.NumVal? && fuel >= 1
    ensures Interp(ToExpr(v), env, fuel) == Ok(v)
  {
  }

  /** `_let` evaluates its right-hand side in the current environment and its body in that
      environment extended with the new binding; a failing right-hand side aborts the let. */
  lemma LetExtendsEnv(x: string, rhs: Expr, body: Expr, env: Env, fuel: nat)
    requires fuel >= 1
    ensures var r := Interp(rhs, env, fuel - 1);
            Interp(LetExpr(x, rhs, body), env, fuel) ==
              if r.Ok? then Interp(body, ExtendedEnv(x, r.value, env), fuel - 1) else r
  {
  }

  /** `_if` evaluates exactly one branch: the result does not depend on the branch
      that the test value does not select, even when that branch would fail. */
  lemma {:induction false} IfIgnoresUnchosenBranch(test: Expr, thenPart: Expr, else1: Expr, else2: Expr,
                                                   env: Env, fuel: nat)
    requires fuel >= 1 && Interp(test, env, fuel - 1) == Ok(BoolVal(true))
    ensures Interp(IfExpr(test, thenPart, else1), env, fuel) == Interp(thenPart, env, fuel - 1)
    ensures Interp(IfExpr(test, thenPart, else1), env, fuel) == Interp(IfExpr(test, thenPart, else2), env, fuel)
  {
    assert IsTrue(BoolVal(true)) == Ok(true);
  }

  /** The other half: a false test selects the else-branch, whatever the then-branch is,
      even one that would fail. */
  lemma {:induction false} IfFalseTakesElse(test: Expr, then1: Expr, then2: Expr, elsePart: Expr,
                                            env: Env, fuel: nat)
    requires fuel >= 1 && Interp(test, env, fuel - 1) == Ok(BoolVal(false))
    ensures Interp(IfExpr(test, then1, elsePart), env, fuel) == Interp(elsePart, env, fuel - 1)
    ensures Interp(IfExpr(test, then1, elsePart), env, fuel) == Interp(IfExpr(test, then2, elsePart), env, fuel)
  {
    assert IsTrue(BoolVal(false)) == Ok(false);
  }

  /** `_if` runs neither branch when its test fails or yields a non-boolean: `is_true`
      rejects the latter. */
  lemma IfTestNotBoolean(test: Expr, thenPart: Expr, elsePart: Expr, env: Env, fuel: nat)
    requires fuel >= 1
    ensures Interp(test, env, fuel - 1).Err? ==>
              Interp(IfExpr(test, thenPart, elsePart), env, fuel) == Interp(test, env, fuel - 1)
    ensures Interp(test, env, fuel - 1).Ok? && !Interp(test, env, fuel - 1).value.BoolVal? ==>
              Interp(IfExpr(test, thenPart, elsePart), env, fuel) == Err(NotABoolean)
  {
  }

  /** `==` always yields a BoolVal telling whether the two operand values are equal;
      it fails only when an operand fails, never because the variants differ. */
  lemma EqYieldsBool(lhs: Expr, rhs: Expr, env: Env, fuel: nat)
    requires fuel >= 1
    requires Interp(lhs, env, fuel - 1).Ok? && Interp(rhs, env, fuel - 1).Ok?
    ensures Interp(EqExpr(lhs, rhs), env, fuel) ==
            Ok(BoolVal(Interp(lhs, env, fuel - 1).value == Interp(rhs, env, fuel - 1).value))
  {
  }

  /** A function literal captures the environment it is evaluated in, and a call of it
      evaluates the body against that captured environment extended with the argument. */
  lemma CallUsesCapturedEnv(x: string, body: Expr, arg: Expr, env: Env, fuel: nat)
    requires fuel >= 2
    requires Interp(arg, env, fuel - 1).Ok?
    ensures Interp(FunExpr(x, body), env, fuel) == Ok(FunVal(x, body, env))
    ensures Interp(CallExpr(FunExpr(x, body), arg), env, fuel) ==
            Interp(body, ExtendedEnv(x, Interp(arg, env, fuel - 1).value, env), fuel - 1)
  {
  }
}
