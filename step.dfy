/** The trampoline: `Expr::step_interp` (Expr.cpp), the driver loop `Step::interp_by_steps`
    (Step.cpp), and the machine whose five fields those operations overwrite. */
module Steps {
  import opened Results
  import opened Ast
  import opened Values
  import opened Continuations

  /** Leaves produce a value in one step; every other node first evaluates a sub-expression. */
  predicate IsLeaf(e: Expr)
  {
    e.NumExpr? || e.VarExpr? || e.BoolExpr? || e.FunExpr?
  }

  /** The sub-expression a compound node evaluates first. */
  function FirstSubexpr(e: Expr): Expr
    requires !IsLeaf(e)
  {
    match e
    case AddExpr(l, _) => l
    case MultExpr(l, _) => l
    case EqExpr(l, _) => l
    case LetExpr(_, rhs, _) => rhs
    case IfExpr(t, _, _) => t
    case CallExpr(f, _) => f
  }

  /** `Expr::step_interp` of the current expression. */
  function InterpStep(s: State): (r: Result<State>)
    requires s.mode == InterpMode
    ensures r.Ok? ==> Consistent(r.value) && r.value.env == s.env
    // a leaf switches to continue mode with a value and leaves the continuation alone
    ensures IsLeaf(s.expr) && r.Ok? ==> r.value.mode == ContinueMode && r.value.cont == s.cont
    // only a variable can fail, and only with the free-variable error of `lookup`
    ensures r.Err? ==> s.expr.VarExpr? && r == Err(Runtime("free variable: " + s.expr.name))
    // a compound node pushes exactly one frame on the old continuation and moves to its first operand
    ensures !IsLeaf(s.expr) ==> r.Ok? && r.value.mode == InterpMode &&
                                !r.value.cont.DoneCont? && r.value.cont.rest == s.cont &&
                                r.value.expr == FirstSubexpr(s.expr)
  {
    match s.expr
    case NumExpr(n) => Ok(s.(mode := ContinueMode, val := Some(NumVal(n))))
    case AddExpr(lhs, rhs) =>
      Ok(s.(mode := InterpMode, expr := lhs, cont := RightThenAddCont(rhs, s.env, s.cont)))
    case MultExpr(lhs, rhs) =>
      Ok(s.(mode := InterpMode, expr := lhs, cont := RightThenMultCont(rhs, s.env, s.cont)))
    case VarExpr(name) =>
      var v :- Lookup(s.env, name);
      Ok(s.(val := Some(v), mode := ContinueMode))
    case LetExpr(x, rhs, body) =>
      Ok(s.(mode := InterpMode, expr := rhs, cont := LetBodyCont(x, body, s.env, s.cont)))
    case BoolExpr(b) => Ok(s.(mode := ContinueMode, val := Some(BoolVal(b))))
    case EqExpr(lhs, rhs) =>
      Ok(s.(mode := InterpMode, expr := lhs, cont := RightThenEqCont(rhs, s.env, s.cont)))
    case IfExpr(test, thenPart, elsePart) =>
      Ok(s.(mode := InterpMode, expr := test, cont := IfBranchCont(thenPart, elsePart, s.env, s.cont)))
    case FunExpr(formal, body) => Ok(s.(mode := ContinueMode, val := Some(FunVal(formal, body, s.env))))
    case CallExpr(f, arg) =>
      Ok(s.(mode := InterpMode, expr := f, cont := ArgThenCallCont(arg, s.env, s.cont)))
  }

  /** One iteration of the driver loop body that does work. */
  function Step(s: State): (r: Result<State>)
    requires Consistent(s)
    ensures r.Ok? ==> Consistent(r.value)
  {
    if s.mode == InterpMode then InterpStep(s) else ContinueStep(s)
  }

  /** The state `interp_by_steps` starts from. */
  function Init(e: Expr): (s: State)
    ensures Consistent(s) && !Halted(s) && s.mode == InterpMode && s.expr == e
    ensures s.env == EmptyEnv && Depth(s.cont) == 0
  {
    State(InterpMode, e, EmptyEnv, None, DoneCont)
  }

  /** Exactly `n` steps, failing as soon as one step fails. Stepping a halted state is
      `DoneCont::step_continue`, which fails, so a successful `Exec` never passes through one. */
  function Exec(s: State, n: nat): (r: Result<State>)
    requires Consistent(s)
    ensures r.Ok? ==> Consistent(r.value)
    decreases n
  {
    if n == 0 then Ok(s)
    else
      var s' :- Step(s);
      Exec(s', n - 1)
  }

  /** The driver loop with at most `fuel` steps: it returns `val` as soon as the machine is in
      continue mode on `DoneCont`, propagates the first failure of a step unchanged, and
      yields `Err(OutOfFuel)` when the budget is spent. */
  function Run(s: State, fuel: nat): Result<Val>
    requires Consistent(s)
    decreases fuel
  {
    if Halted(s) then Ok(s.val.value)
    else if fuel == 0 then Err(OutOfFuel)
    else
      var s' :- Step(s);
      Run(s', fuel - 1)
  }

  /** Every failure a step can raise outside `DoneCont`. */
  lemma StepErrorIsNotDone(s: State)
    requires Consistent(s) && !Halted(s)
    ensures Step(s) != Err(Runtime("cannot continue done"))
  {
    if s.mode == InterpMode && InterpStep(s).Err? {
      var msg := "free variable: " + s.expr.name;
      assert msg[0] == 'f';
    } else if s.mode == ContinueMode && s.cont.AddCont? && ContinueStep(s).Err? {
      assert "add of non-number"[0] == 'a';
    } else if s.mode == ContinueMode && s.cont.MultCont? && ContinueStep(s).Err? {
      assert "add of non-number"[0] == 'a';
    }
  }

  /** The loop never calls `step_continue` on `DoneCont`: its failure cannot escape a run. */
  lemma {:induction false} RunNeverContinuesDone(s: State, fuel: nat)
    requires Consistent(s)
    ensures Run(s, fuel) != Err(Runtime("cannot continue done"))
    decreases fuel
  {
    if !Halted(s) && fuel > 0 {
      StepErrorIsNotDone(s);
      if Step(s).Ok? {
        RunNeverContinuesDone(Step(s).value, fuel - 1);
      }
    }
  }

  /** `Step::mode`, `Step::expr`, `Step::env`, `Step::val` and `Step::cont`: the shared state
      that every `step_interp` and `step_continue` overwrites. */
  class Machine {
    var mode: Mode
    var expr: Expr
    var env: Env
    var val: Option<Val>
    var cont: Cont

    function Snapshot(): State
      reads this
    {
      State(mode, expr, env, val, cont)
    }

    /** `expr->step_interp()`: overwrite the fields as `InterpStep` says, or throw
        (a failing step leaves the fields as they were). */
    method StepInterp() returns (o: Outcome)
      requires mode == InterpMode
      modifies this
      ensures var r := InterpStep(old(Snapshot()));
              (r.Ok? ==> o == Pass && Snapshot() == r.value) &&
              (r.Err? ==> o == Fail(r.error) && Snapshot() == old(Snapshot()))
    {
      o := Pass;
      match expr
      case NumExpr(n) =>
        mode := ContinueMode;
        val := Some(NumVal(n));
      case AddExpr(lhs, rhs) =>
        mode := InterpMode;
        expr := lhs;
        cont := RightThenAddCont(rhs, env, cont);
      case MultExpr(lhs, rhs) =>
        mode := InterpMode;
        expr := lhs;
        cont := RightThenMultCont(rhs, env, cont);
      case VarExpr(name) =>
        var v := Lookup(env, name);
        if v.Err? { return Fail(v.error); }
        val := Some(v.value);
        mode := ContinueMode;
      case LetExpr(x, rhs, body) =>
        mode := InterpMode;
        expr := rhs;
        cont := LetBodyCont(x, body, env, cont);
      case BoolExpr(b) =>
        mode := ContinueMode;
        val := Some(BoolVal(b));
      case EqExpr(lhs, rhs) =>
        mode := InterpMode;
        expr := lhs;
        cont := RightThenEqCont(rhs, env, cont);
      case IfExpr(test, thenPart, elsePart) =>
        mode := InterpMode;
        expr := test;
        cont := IfBranchCont(thenPart, elsePart, env, cont);
      case FunExpr(formal, body) =>
        mode := ContinueMode;
        val := Some(FunVal(formal, body, env));
      case CallExpr(f, arg) =>
        mode := InterpMode;
        expr := f;
        cont := ArgThenCallCont(arg, env, cont);
    }

    /** `cont->step_continue()`: overwrite the fields as `ContinueStep` says, or throw. */
    method StepContinue() returns (o: Outcome)
      requires mode == ContinueMode && val.Some?
      modifies this
      ensures var r := ContinueStep(old(Snapshot()));
              (r.Ok? ==> o == Pass && Snapshot() == r.value) &&
              (r.Err? ==> o == Fail(r.error) && Snapshot() == old(Snapshot()))
    {
      o := Pass;
      var v := val.value;
      match cont
      case DoneCont =>
        return Fail(Runtime("cannot continue done"));
      case RightThenAddCont(rhs, savedEnv, rest) =>
        mode := InterpMode;
        expr := rhs;
        env := savedEnv;
        cont := AddCont(v, rest);
      case AddCont(lhsVal, rest) =>
        var sum := AddTo(lhsVal, v);
        if sum.Err? { return Fail(sum.error); }
        mode := ContinueMode;
        val := Some(sum.value);
        cont := rest;
      case RightThenMultCont(rhs, savedEnv, rest) =>
        mode := InterpMode;
        expr := rhs;
        env := savedEnv;
        cont := MultCont(v, rest);
      case MultCont(lhsVal, rest) =>
        var product := MultTo(lhsVal, v);
        if product.Err? { return Fail(product.error); }
        mode := ContinueMode;
        val := Some(product.value);
        cont := rest;
      case RightThenEqCont(rhs, savedEnv, rest) =>
        mode := InterpMode;
        expr := rhs;
        env := savedEnv;
        cont := EqCont(v, rest);
      case EqCont(lhsVal, rest) =>
        mode := ContinueMode;
        val := Some(BoolVal(ValEquals(lhsVal, v)));
        cont := rest;
      case IfBranchCont(thenPart, elsePart, savedEnv, rest) =>
        var test := IsTrue(v);
        if test.Err? { return Fail(test.error); }
        mode := InterpMode;
        expr := if test.value then thenPart else elsePart;
        env := savedEnv;
        cont := rest;
      case LetBodyCont(lhs, body, savedEnv, rest) =>
        mode := InterpMode;
        expr := body;
        env := ExtendedEnv(lhs, v, savedEnv);
        cont := rest;
      case ArgThenCallCont(actualArg, savedEnv, rest) =>
        mode := InterpMode;
        expr := actualArg;
        env := savedEnv;
        cont := CallCont(v, rest);
      case CallCont(toBeCalledVal, rest) =>
        if !toBeCalledVal.FunVal? { return Fail(NotCallable); }
        mode := InterpMode;
        expr := toBeCalledVal.body;
        env := ExtendedEnv(toBeCalledVal.formalArg, v, toBeCalledVal.env);
        cont := rest;
    }

    /** `Step::interp_by_steps(e)`: reset the fields, then alternate `step_interp` and
        `step_continue` until continue mode meets `DoneCont`, returning `val`. The source loops
        without bound; here at most `fuel` steps are taken. */
    method InterpBySteps(e: Expr, fuel: nat) returns (r: Result<Val>)
      modifies this
      ensures r == Run(Init(e), fuel)
    {
      mode := InterpMode;
      expr := e;
      env := EmptyEnv;
      val := None;
      cont := DoneCont;
      var remaining := fuel;
      while true
        invariant Consistent(Snapshot())
        invariant Run(Snapshot(), remaining) == Run(Init(e), fuel)
        decreases remaining
      {
        if mode == InterpMode {
          if remaining == 0 { return Err(OutOfFuel); }
          var o := StepInterp();
          if o.Fail? { return Err(o.error); }
        } else {
          if cont == DoneCont { return Ok(val.value); }
          if remaining == 0 { return Err(OutOfFuel); }
          var o := StepContinue();
          if o.Fail? { return Err(o.error); }
        }
        remaining := remaining - 1;
      }
    }
  }
}
