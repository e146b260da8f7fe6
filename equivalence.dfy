/** The step machine computes what the recursive evaluator computes: `Step::interp_by_steps(e)`
    and `e->interp(Env::empty)` agree on every expression, both on values and on errors. */
module Equivalence {
  import opened Results
  import opened Ast
  import opened Values
  import opened Evaluator
  import opened Continuations
  import opened Steps

  /** Running `a` steps and then `b` more is running `a + b` steps; a failure in the
      first `a` steps is the failure of the whole run. */
  lemma {:induction false} ExecSeq(s: State, a: nat, b: nat)
    requires Consistent(s)
    ensures Exec(s, a + b) == if Exec(s, a).Ok? then Exec(Exec(s, a).value, b) else Exec(s, a)
    decreases a
  {
    if a > 0 && Step(s).Ok? {
      ExecSeq(Step(s).value, a - 1, b);
    }
  }

  /** A state handing value `v` to continuation `k`. */
  predicate Delivers(s: State, v: Val, k: Cont)
  {
    s.mode == ContinueMode && s.val == Some(v) && s.cont == k
  }

  /** After `n` steps from `start` the machine has evaluated `start.expr` to what `r` says:
      either it hands the value to the continuation it started with, or it has failed with
      the same error. */
  ghost predicate Evaluates(start: State, n: nat, r: Result<Val>)
    requires Consistent(start)
  {
    Reaches(start, n, r, start.cont)
  }

  /** After `n` steps from `s` the machine hands the value of `r` to `k`, or has failed
      with the error of `r`. */
  ghost predicate Reaches(s: State, n: nat, r: Result<Val>, k: Cont)
    requires Consistent(s)
  {
    match r
    case Ok(v) => Exec(s, n).Ok? && Delivers(Exec(s, n).value, v, k)
    case Err(x) => Exec(s, n) == Err(x)
  }

  /** Reaching an outcome from where a successful `a`-step prefix ends is reaching it
      from the start, `a` steps later. */
  lemma ReachesAfter(s: State, a: nat, t: State, n: nat, r: Result<Val>, k: Cont)
    requires Consistent(s) && Exec(s, a) == Ok(t) && Reaches(t, n, r, k)
    ensures Reaches(s, a + n, r, k)
  {
    ExecSeq(s, a, n);
  }

  /** The same for a prefix of one step. */
  lemma ReachesByStep(s: State, t: State, n: nat, r: Result<Val>, k: Cont)
    requires Consistent(s) && Step(s) == Ok(t) && Reaches(t, n, r, k)
    ensures Reaches(s, 1 + n, r, k)
  {
    ExecSeq(s, 1, n);
  }

  /** Whatever the recursive evaluator finishes with, the machine reaches in finitely many
      steps, on any continuation and whatever value was in `val` before. */
  lemma {:induction false} InterpThenSteps(e: Expr, env: Env, fuel: nat, v0: Option<Val>, k: Cont) returns (n: nat)
    requires Interp(e, env, fuel) != Err(OutOfFuel)
    ensures Evaluates(State(InterpMode, e, env, v0, k), n, Interp(e, env, fuel))
    decreases fuel, 2
  {
    var s0 := State(InterpMode, e, env, v0, k);
    match e
    case NumExpr(_) => n := 1;
    case BoolExpr(_) => n := 1;
    case FunExpr(_, _) => n := 1;
    case VarExpr(_) => n := 1;
    case AddExpr(l, r) =>
      var s1 := State(InterpMode, l, env, v0, RightThenAddCont(r, env, k));
      n := BinaryThenSteps(s0, s1, l, r, env, fuel, k);
    case MultExpr(l, r) =>
      var s1 := State(InterpMode, l, env, v0, RightThenMultCont(r, env, k));
      n := BinaryThenSteps(s0, s1, l, r, env, fuel, k);
    case EqExpr(l, r) =>
      var s1 := State(InterpMode, l, env, v0, RightThenEqCont(r, env, k));
      n := BinaryThenSteps(s0, s1, l, r, env, fuel, k);
    case LetExpr(x, rhs, body) => n := LetThenSteps(x, rhs, body, env, fuel, v0, k);
    case IfExpr(test, thenPart, elsePart) => n := IfThenSteps(test, thenPart, elsePart, env, fuel, v0, k);
    case CallExpr(f, arg) => n := CallThenSteps(f, arg, env, fuel, v0, k);
  }

  /** `_let`: evaluate the right-hand side under a `LetBodyCont`, then the body in the
      extended environment on the original continuation. */
  lemma {:induction false} LetThenSteps(x: string, rhs: Expr, body: Expr, env: Env, fuel: nat, v0: Option<Val>, k: Cont)
    returns (n: nat)
    requires fuel >= 1
    requires Interp(LetExpr(x, rhs, body), env, fuel) != Err(OutOfFuel)
    ensures Evaluates(State(InterpMode, LetExpr(x, rhs, body), env, v0, k), n, Interp(LetExpr(x, rhs, body), env, fuel))
    decreases fuel, 1
  {
    var s0 := State(InterpMode, LetExpr(x, rhs, body), env, v0, k);
    var s1 := State(InterpMode, rhs, env, v0, LetBodyCont(x, body, env, k));
    var n1 := InterpThenSteps(rhs, env, fuel - 1, v0, s1.cont);
    ExecSeq(s0, 1, n1);
    if Interp(rhs, env, fuel - 1).Err? {
      n := 1 + n1;
    } else {
      var v := Interp(rhs, env, fuel - 1).value;
      var s2 := Exec(s1, n1).value;
      var r := Interp(LetExpr(x, rhs, body), env, fuel);
      assert r == Interp(body, ExtendedEnv(x, v, env), fuel - 1);
      assert Step(s2) == Ok(State(InterpMode, body, ExtendedEnv(x, v, env), Some(v), k));
      var n2 := StepThenSteps(s2, body, ExtendedEnv(x, v, env), fuel - 1, v, k);
      ReachesAfter(s0, 1 + n1, s2, n2, r, k);
      n := 1 + n1 + n2;
    }
  }

  /** `_if`: evaluate the test under an `IfBranchCont`, then exactly the chosen branch on
      the original continuation. */
  lemma {:induction false} IfThenSteps(test: Expr, thenPart: Expr, elsePart: Expr, env: Env, fuel: nat,
                                       v0: Option<Val>, k: Cont)
    returns (n: nat)
    requires fuel >= 1
    requires Interp(IfExpr(test, thenPart, elsePart), env, fuel) != Err(OutOfFuel)
    ensures Evaluates(State(InterpMode, IfExpr(test, thenPart, elsePart), env, v0, k), n,
                      Interp(IfExpr(test, thenPart, elsePart), env, fuel))
    decreases fuel, 1
  {
    var s0 := State(InterpMode, IfExpr(test, thenPart, elsePart), env, v0, k);
    var s1 := State(InterpMode, test, env, v0, IfBranchCont(thenPart, elsePart, env, k));
    var n1 := InterpThenSteps(test, env, fuel - 1, v0, s1.cont);
    ExecSeq(s0, 1, n1);
    if Interp(test, env, fuel - 1).Err? {
      n := 1 + n1;
    } else {
      var s2 := Exec(s1, n1).value;
      var n2 := IfBranchThenSteps(test, thenPart, elsePart, env, fuel, k, s2);
      ExecSeq(s0, 1 + n1, n2);
      n := 1 + n1 + n2;
    }
  }

  /** The rest of `_if` once the test is a value: `is_true` on it, then the chosen branch. */
  lemma {:induction false} IfBranchThenSteps(test: Expr, thenPart: Expr, elsePart: Expr, env: Env, fuel: nat,
                                             k: Cont, s2: State)
    returns (n: nat)
    requires fuel >= 1 && Consistent(s2)
    requires Interp(test, env, fuel - 1).Ok?
    requires Delivers(s2, Interp(test, env, fuel - 1).value, IfBranchCont(thenPart, elsePart, env, k))
    requires Interp(IfExpr(test, thenPart, elsePart), env, fuel) != Err(OutOfFuel)
    ensures Reaches(s2, n, Interp(IfExpr(test, thenPart, elsePart), env, fuel), k)
    decreases fuel, 0
  {
    var tv := Interp(test, env, fuel - 1).value;
    if IsTrue(tv).Err? {
      n := 1;
    } else {
      var branch := if IsTrue(tv).value then thenPart else elsePart;
      assert Step(s2) == Ok(State(InterpMode, branch, env, Some(tv), k));
      n := StepThenSteps(s2, branch, env, fuel - 1, tv, k);
    }
  }

  /** `_call`: evaluate the callee under an `ArgThenCallCont`, the argument under a
      `CallCont`, then the closure body in its captured environment extended with the argument. */
  lemma {:induction false} CallThenSteps(f: Expr, arg: Expr, env: Env, fuel: nat, v0: Option<Val>, k: Cont)
    returns (n: nat)
    requires fuel >= 1
    requires Interp(CallExpr(f, arg), env, fuel) != Err(OutOfFuel)
    ensures Evaluates(State(InterpMode, CallExpr(f, arg), env, v0, k), n, Interp(CallExpr(f, arg), env, fuel))
    decreases fuel, 1
  {
    var s0 := State(InterpMode, CallExpr(f, arg), env, v0, k);
    var s1 := State(InterpMode, f, env, v0, ArgThenCallCont(arg, env, k));
    var n1 := InterpThenSteps(f, env, fuel - 1, v0, s1.cont);
    ExecSeq(s0, 1, n1);
    if Interp(f, env, fuel - 1).Err? {
      n := 1 + n1;
    } else {
      var s2 := Exec(s1, n1).value;
      var n2 := CallArgThenSteps(f, arg, env, fuel, k, s2);
      ExecSeq(s0, 1 + n1, n2);
      n := 1 + n1 + n2;
    }
  }

  /** The rest of `_call` once the callee is a value: evaluate the argument under a
      `CallCont`, then run the closure body in its captured environment extended with it. */
  lemma {:induction false} CallArgThenSteps(f: Expr, arg: Expr, env: Env, fuel: nat, k: Cont, s2: State)
    returns (n: nat)
    requires fuel >= 1 && Consistent(s2)
    requires Interp(f, env, fuel - 1).Ok?
    requires Delivers(s2, Interp(f, env, fuel - 1).value, ArgThenCallCont(arg, env, k))
    requires Interp(CallExpr(f, arg), env, fuel) != Err(OutOfFuel)
    ensures Reaches(s2, n, Interp(CallExpr(f, arg), env, fuel), k)
    decreases fuel, 0
  {
    var fv := Interp(f, env, fuel - 1).value;
    var r := Interp(CallExpr(f, arg), env, fuel);
    CallOutcome(f, arg, env, fuel);
    var s3 := State(InterpMode, arg, env, Some(fv), CallCont(fv, k));
    assert Step(s2) == Ok(s3);
    var n2 := InterpThenSteps(arg, env, fuel - 1, Some(fv), s3.cont);
    if Interp(arg, env, fuel - 1).Err? {
      ReachesByStep(s2, s3, n2, r, k);
      n := 1 + n2;
    } else {
      var av := Interp(arg, env, fuel - 1).value;
      var s4 := Exec(s3, n2).value;
      var n3 := ApplyThenSteps(s4, fv, av, fuel - 1, k);
      ReachesAfter(s3, n2, s4, n3, r, k);
      ReachesByStep(s2, s3, n2 + n3, r, k);
      n := 1 + (n2 + n3);
    }
  }

  /** The last part of `_call`: the callee value `fv` applied to the argument value `av`,
      which fails unless `fv` is a closure and otherwise runs its body. */
  lemma {:induction false} ApplyThenSteps(s: State, fv: Val, av: Val, fuel: nat, k: Cont) returns (n: nat)
    requires Consistent(s) && Delivers(s, av, CallCont(fv, k))
    requires fv.FunVal? ==> Interp(fv.body, ExtendedEnv(fv.formalArg, av, fv.env), fuel) != Err(OutOfFuel)
    ensures Reaches(s, n, if fv.FunVal? then Interp(fv.body, ExtendedEnv(fv.formalArg, av, fv.env), fuel)
                          else Err(NotCallable), k)
    decreases fuel, 4
  {
    if !fv.FunVal? {
      assert Step(s) == Err(NotCallable);
      n := 1;
    } else {
      var benv := ExtendedEnv(fv.formalArg, av, fv.env);
      assert Step(s) == Ok(State(InterpMode, fv.body, benv, Some(av), k));
      n := StepThenSteps(s, fv.body, benv, fuel, av, k);
    }
  }

  /** One step into `e` with `v` as the latest value, then the evaluation of `e` on `k`. */
  lemma {:induction false} StepThenSteps(s: State, e: Expr, env: Env, fuel: nat, v: Val, k: Cont)
    returns (n: nat)
    requires Consistent(s) && Step(s) == Ok(State(InterpMode, e, env, Some(v), k))
    requires Interp(e, env, fuel) != Err(OutOfFuel)
    ensures Reaches(s, n, Interp(e, env, fuel), k)
    decreases fuel, 3
  {
    var n1 := InterpThenSteps(e, env, fuel, Some(v), k);
    ReachesByStep(s, State(InterpMode, e, env, Some(v), k), n1, Interp(e, env, fuel), k);
    n := 1 + n1;
  }

  /** What a call yields once its callee has yielded a value. */
  lemma CallOutcome(f: Expr, arg: Expr, env: Env, fuel: nat)
    requires fuel >= 1 && Interp(f, env, fuel - 1).Ok?
    ensures var fv := Interp(f, env, fuel - 1).value;
            var a := Interp(arg, env, fuel - 1);
            Interp(CallExpr(f, arg), env, fuel) ==
              if a.Err? then a
              else if !fv.FunVal? then Err(NotCallable)
              else Interp(fv.body, ExtendedEnv(fv.formalArg, a.value, fv.env), fuel - 1)
  {
  }

  /** A failing operand is what `+`, `*` and `==` yield. */
  lemma OperandsOutcome(e: Expr, env: Env, fuel: nat)
    requires fuel >= 1 && (e.AddExpr? || e.MultExpr? || e.EqExpr?)
    ensures Interp(e.lhs, env, fuel - 1).Err? ==> Interp(e, env, fuel) == Interp(e.lhs, env, fuel - 1)
    ensures Interp(e.lhs, env, fuel - 1).Ok? && Interp(e.rhs, env, fuel - 1).Err? ==>
              Interp(e, env, fuel) == Interp(e.rhs, env, fuel - 1)
  {
  }

  /** The shared shape of `+`, `*` and `==`: push the right-then frame, evaluate the left
      operand, swap the frame for one holding the left value, evaluate the right operand,
      and let the frame combine the two values. */
  lemma {:induction false} BinaryThenSteps(s0: State, s1: State, l: Expr, r: Expr, env: Env, fuel: nat, k: Cont)
    returns (n: nat)
    requires fuel >= 1
    requires s0.mode == InterpMode && s0.env == env && s0.cont == k
    requires s0.expr == AddExpr(l, r) || s0.expr == MultExpr(l, r) || s0.expr == EqExpr(l, r)
    requires Step(s0) == Ok(s1) && s1.mode == InterpMode && s1.expr == l && s1.env == env && s1.val == s0.val
    requires Interp(s0.expr, env, fuel) != Err(OutOfFuel)
    ensures Evaluates(s0, n, Interp(s0.expr, env, fuel))
    decreases fuel, 1
  {
    var n1 := InterpThenSteps(l, env, fuel - 1, s1.val, s1.cont);
    OperandsOutcome(s0.expr, env, fuel);
    assert s1 == State(InterpMode, l, env, s1.val, s1.cont);
    ExecSeq(s0, 1, n1);
    if Interp(l, env, fuel - 1).Err? {
      n := 1 + n1;
    } else {
      var s2 := Exec(s1, n1).value;
      var n2 := RightOperandThenSteps(s0.expr, l, r, env, fuel, k, s2);
      ExecSeq(s0, 1 + n1, n2);
      n := 1 + n1 + n2;
    }
  }

  /** The frame that waits for the right operand of `e` before continuing with `k`. */
  function RightThenCont(e: Expr, r: Expr, env: Env, k: Cont): Cont
  {
    if e.AddExpr? then RightThenAddCont(r, env, k)
    else if e.MultExpr? then RightThenMultCont(r, env, k)
    else RightThenEqCont(r, env, k)
  }

  /** The rest of `+`, `*` and `==` once the left operand is a value: evaluate the right
      operand under a frame holding the left value, which then combines the two. */
  lemma {:induction false} RightOperandThenSteps(e: Expr, l: Expr, r: Expr, env: Env, fuel: nat, k: Cont, s2: State)
    returns (n: nat)
    requires fuel >= 1 && Consistent(s2)
    requires e == AddExpr(l, r) || e == MultExpr(l, r) || e == EqExpr(l, r)
    requires Interp(l, env, fuel - 1).Ok?
    requires Delivers(s2, Interp(l, env, fuel - 1).value, RightThenCont(e, r, env, k))
    requires Interp(e, env, fuel) != Err(OutOfFuel)
    ensures Reaches(s2, n, Interp(e, env, fuel), k)
    decreases fuel, 0
  {
    var lv := Interp(l, env, fuel - 1).value;
    var res := Interp(e, env, fuel);
    OperandsOutcome(e, env, fuel);
    var k3 := if e.AddExpr? then AddCont(lv, k) else if e.MultExpr? then MultCont(lv, k) else EqCont(lv, k);
    var s3 := State(InterpMode, r, env, Some(lv), k3);
    assert Step(s2) == Ok(s3);
    var n2 := InterpThenSteps(r, env, fuel - 1, Some(lv), k3);
    if Interp(r, env, fuel - 1).Err? {
      ReachesByStep(s2, s3, n2, res, k);
      n := 1 + n2;
    } else {
      var s4 := Exec(s3, n2).value;
      assert Reaches(s4, 1, res, k);
      ReachesAfter(s3, n2, s4, 1, res, k);
      ReachesByStep(s2, s3, n2 + 1, res, k);
      n := 1 + (n2 + 1);
    }
  }
}

module StepsEquivalence {
  import opened Results
  import opened Ast
  import opened Values
  import opened Evaluator
  import opened Continuations
  import opened Steps
  import opened Equivalence

  /** A run that gets through `a` steps continues from where those steps end. */
  lemma {:induction false} RunExec(s: State, a: nat, t: State, m: nat)
    requires Consistent(s) && Exec(s, a) == Ok(t)
    ensures Run(s, a + m) == Run(t, m)
    decreases a
  {
    if a > 0 {
      RunExec(Step(s).value, a - 1, t, m);
    }
  }

  /** A state that is not halted spends one unit of the budget on its step. */
  lemma RunStep(s: State, t: State, m: nat)
    requires Consistent(s) && !Halted(s) && Step(s) == Ok(t)
    requires Run(s, m) != Err(OutOfFuel)
    ensures m >= 1 && Run(s, m) == Run(t, m - 1)
  {
  }

  /** A budget smaller than a successful `Exec` is spent before the machine halts. */
  lemma {:induction false} ExecOutrunsRun(s: State, j: nat, m: nat)
    requires Consistent(s) && Exec(s, j).Ok? && m < j
    ensures Run(s, m) == Err(OutOfFuel)
    decreases m
  {
    if m > 0 {
      ExecOutrunsRun(Step(s).value, j - 1, m - 1);
    }
  }

  /** More steps never change a run that finished. */
  lemma {:induction false} RunFuelMonotone(s: State, a: nat, b: nat)
    requires Consistent(s) && a <= b && Run(s, a) != Err(OutOfFuel)
    ensures Run(s, b) == Run(s, a)
    decreases a
  {
    if !Halted(s) && Step(s).Ok? {
      RunFuelMonotone(Step(s).value, a - 1, b - 1);
    }
  }

  /** A failing `Exec` that did not stumble over a halted state is a failing run. */
  lemma {:induction false} ExecErrRun(s: State, n: nat, x: Error)
    requires Consistent(s) && Exec(s, n) == Err(x) && x != Runtime("cannot continue done")
    ensures Run(s, n) == Err(x)
    decreases n
  {
    if Step(s).Ok? {
      RunExec(s, 1, Step(s).value, n - 1);
      ExecErrRun(Step(s).value, n - 1, x);
    }
  }

  /** The recursive evaluator never reports the error of `DoneCont::step_continue`. */
  lemma {:induction false} InterpNeverContinuesDone(e: Expr, env: Env, fuel: nat)
    ensures Interp(e, env, fuel) != Err(Runtime("cannot continue done"))
    decreases fuel, 1
  {
    if fuel > 0 {
      match e
      case VarExpr(x) =>
        var msg := "free variable: " + x;
        assert msg[0] == 'f';
      case AddExpr(_, _) => OperandsNeverContinueDone(e, env, fuel);
      case MultExpr(_, _) => OperandsNeverContinueDone(e, env, fuel);
      case EqExpr(_, _) => OperandsNeverContinueDone(e, env, fuel);
      case LetExpr(x, rhs, body) =>
        InterpNeverContinuesDone(rhs, env, fuel - 1);
        if Interp(rhs, env, fuel - 1).Ok? {
          InterpNeverContinuesDone(body, ExtendedEnv(x, Interp(rhs, env, fuel - 1).value, env), fuel - 1);
        }
      case IfExpr(test, thenPart, elsePart) =>
        InterpNeverContinuesDone(test, env, fuel - 1);
        InterpNeverContinuesDone(thenPart, env, fuel - 1);
        InterpNeverContinuesDone(elsePart, env, fuel - 1);
      case CallExpr(_, _) => CallNeverContinuesDone(e, env, fuel);
      case _ =>
    }
  }

  lemma {:induction false} OperandsNeverContinueDone(e: Expr, env: Env, fuel: nat)
    requires (e.AddExpr? || e.MultExpr? || e.EqExpr?) && fuel > 0
    ensures Interp(e, env, fuel) != Err(Runtime("cannot continue done"))
    decreases fuel, 0
  {
    InterpNeverContinuesDone(e.lhs, env, fuel - 1);
    InterpNeverContinuesDone(e.rhs, env, fuel - 1);
    assert "add of non-number"[0] == 'a';
  }

  lemma {:induction false} CallNeverContinuesDone(e: Expr, env: Env, fuel: nat)
    requires e.CallExpr? && fuel > 0
    ensures Interp(e, env, fuel) != Err(Runtime("cannot continue done"))
    decreases fuel, 0
  {
    InterpNeverContinuesDone(e.toBeCalled, env, fuel - 1);
    InterpNeverContinuesDone(e.actualArg, env, fuel - 1);
    var fv := Interp(e.toBeCalled, env, fuel - 1);
    var av := Interp(e.actualArg, env, fuel - 1);
    if fv.Ok? && av.Ok? && fv.value.FunVal? {
      InterpNeverContinuesDone(fv.value.body, ExtendedEnv(fv.value.formalArg, av.value, fv.value.env), fuel - 1);
    }
  }

  /** Once the machine has evaluated a sub-expression, the run goes on from the state that
      hands its value to the continuation, within the same budget. */
  lemma {:induction false} RunPastSubexpr(e: Expr, env: Env, m: nat, v0: Option<Val>, k: Cont)
    returns (j: nat, s2: State)
    requires Interp(e, env, m).Ok?
    requires Run(State(InterpMode, e, env, v0, k), m) != Err(OutOfFuel)
    ensures j <= m && Consistent(s2) && Delivers(s2, Interp(e, env, m).value, k)
    ensures Run(State(InterpMode, e, env, v0, k), m) == Run(s2, m - j)
  {
    var start := State(InterpMode, e, env, v0, k);
    j := InterpThenSteps(e, env, m, v0, k);
    s2 := Exec(start, j).value;
    if m < j {
      ExecOutrunsRun(start, j, m);
    }
    RunExec(start, j, s2, m - j);
  }

  /** Whenever the machine finishes within `n` steps, the recursive evaluator finishes
      with fuel `n`: every node costs the machine at least one step. */
  lemma {:induction false} StepsThenInterp(e: Expr, env: Env, n: nat, v0: Option<Val>, k: Cont)
    requires Run(State(InterpMode, e, env, v0, k), n) != Err(OutOfFuel)
    ensures Interp(e, env, n) != Err(OutOfFuel)
    decreases n, 2
  {
    match e
    case AddExpr(l, r) => BinaryStepsThenInterp(e, l, r, env, n, v0, k);
    case MultExpr(l, r) => BinaryStepsThenInterp(e, l, r, env, n, v0, k);
    case EqExpr(l, r) => BinaryStepsThenInterp(e, l, r, env, n, v0, k);
    case LetExpr(x, rhs, body) => LetStepsThenInterp(x, rhs, body, env, n, v0, k);
    case IfExpr(test, thenPart, elsePart) => IfStepsThenInterp(test, thenPart, elsePart, env, n, v0, k);
    case CallExpr(f, arg) => CallStepsThenInterp(f, arg, env, n, v0, k);
    case _ =>
  }

  /** A sub-expression evaluated by a run that finishes within `m` steps: the evaluator
      finishes on it with fuel `m`, and with any larger fuel `bound` alike; and when it yields
      a value the run goes on from the state that hands that value to `k`. */
  lemma {:induction false} SubexprThenRun(e: Expr, env: Env, m: nat, bound: nat, v0: Option<Val>, k: Cont)
    returns (j: nat, s2: State)
    requires m <= bound
    requires Run(State(InterpMode, e, env, v0, k), m) != Err(OutOfFuel)
    ensures Interp(e, env, m) != Err(OutOfFuel) && Interp(e, env, bound) == Interp(e, env, m)
    ensures Interp(e, env, m).Ok? ==>
              j <= m && Consistent(s2) && Delivers(s2, Interp(e, env, m).value, k) &&
              Run(State(InterpMode, e, env, v0, k), m) == Run(s2, m - j)
    decreases m, 3
  {
    StepsThenInterp(e, env, m, v0, k);
    InterpFuelMonotone(e, env, m, bound);
    if Interp(e, env, m).Ok? {
      j, s2 := RunPastSubexpr(e, env, m, v0, k);
    } else {
      j, s2 := 0, State(InterpMode, e, env, v0, k);
    }
  }

  /** One step from `s2` to the evaluation of `e` with `v` as the latest value, then a run
      of `e` within the rest of the `m` steps: the evaluator finishes on `e` with fuel
      `m - 1` and with any larger fuel `bound` alike. */
  lemma {:induction false} StepThenSubexpr(s2: State, e: Expr, env: Env, m: nat, bound: nat, v: Val, k: Cont)
    returns (j: nat, s4: State)
    requires Consistent(s2) && !Halted(s2) && Step(s2) == Ok(State(InterpMode, e, env, Some(v), k))
    requires Run(s2, m) != Err(OutOfFuel) && m <= bound + 1
    ensures m >= 1 && Interp(e, env, m - 1) != Err(OutOfFuel) && Interp(e, env, bound) == Interp(e, env, m - 1)
    ensures Interp(e, env, m - 1).Ok? ==>
              j <= m - 1 && Consistent(s4) && Delivers(s4, Interp(e, env, m - 1).value, k) &&
              Run(s2, m) == Run(s4, m - 1 - j)
    decreases m, 4
  {
    RunStep(s2, State(InterpMode, e, env, Some(v), k), m);
    j, s4 := SubexprThenRun(e, env, m - 1, bound, Some(v), k);
  }

  lemma {:induction false} LetStepsThenInterp(x: string, rhs: Expr, body: Expr, env: Env, n: nat,
                                              v0: Option<Val>, k: Cont)
    requires Run(State(InterpMode, LetExpr(x, rhs, body), env, v0, k), n) != Err(OutOfFuel)
    ensures Interp(LetExpr(x, rhs, body), env, n) != Err(OutOfFuel)
    decreases n, 1
  {
    var s0 := State(InterpMode, LetExpr(x, rhs, body), env, v0, k);
    var s1 := State(InterpMode, rhs, env, v0, LetBodyCont(x, body, env, k));
    RunStep(s0, s1, n);
    var j, s2 := SubexprThenRun(rhs, env, n - 1, n - 1, v0, s1.cont);
    if Interp(rhs, env, n - 1).Ok? {
      var v := Interp(rhs, env, n - 1).value;
      var _, _ := StepThenSubexpr(s2, body, ExtendedEnv(x, v, env), n - 1 - j, n - 1, v, k);
    }
    LetFinishes(x, rhs, body, env, n);
  }

  lemma {:induction false} IfStepsThenInterp(test: Expr, thenPart: Expr, elsePart: Expr, env: Env, n: nat,
                                             v0: Option<Val>, k: Cont)
    requires Run(State(InterpMode, IfExpr(test, thenPart, elsePart), env, v0, k), n) != Err(OutOfFuel)
    ensures Interp(IfExpr(test, thenPart, elsePart), env, n) != Err(OutOfFuel)
    decreases n, 1
  {
    var s0 := State(InterpMode, IfExpr(test, thenPart, elsePart), env, v0, k);
    var s1 := State(InterpMode, test, env, v0, IfBranchCont(thenPart, elsePart, env, k));
    RunStep(s0, s1, n);
    var j, s2 := SubexprThenRun(test, env, n - 1, n - 1, v0, s1.cont);
    var t := Interp(test, env, n - 1);
    if t.Ok? && IsTrue(t.value).Ok? {
      var branch := if IsTrue(t.value).value then thenPart else elsePart;
      var _, _ := StepThenSubexpr(s2, branch, env, n - 1 - j, n - 1, t.value, k);
    }
    IfFinishes(test, thenPart, elsePart, env, n);
  }

  lemma {:induction false} BinaryStepsThenInterp(e: Expr, l: Expr, r: Expr, env: Env, n: nat, v0: Option<Val>, k: Cont)
    requires e == AddExpr(l, r) || e == MultExpr(l, r) || e == EqExpr(l, r)
    requires Run(State(InterpMode, e, env, v0, k), n) != Err(OutOfFuel)
    ensures Interp(e, env, n) != Err(OutOfFuel)
    decreases n, 1
  {
    var k1 := RightThenCont(e, r, env, k);
    var s1 := State(InterpMode, l, env, v0, k1);
    RunStep(State(InterpMode, e, env, v0, k), s1, n);
    var j, s2 := SubexprThenRun(l, env, n - 1, n - 1, v0, k1);
    if Interp(l, env, n - 1).Ok? {
      var lv := Interp(l, env, n - 1).value;
      var k3 := if e.AddExpr? then AddCont(lv, k) else if e.MultExpr? then MultCont(lv, k) else EqCont(lv, k);
      var _, _ := StepThenSubexpr(s2, r, env, n - 1 - j, n - 1, lv, k3);
    }
    OperandsFinish(e, env, n);
  }

  /** How `+`, `*` and `==` finish: the left operand, then the right one. */
  lemma OperandsFinish(e: Expr, env: Env, n: nat)
    requires n > 0 && (e.AddExpr? || e.MultExpr? || e.EqExpr?)
    requires Interp(e.lhs, env, n - 1) != Err(OutOfFuel)
    requires Interp(e.lhs, env, n - 1).Ok? ==> Interp(e.rhs, env, n - 1) != Err(OutOfFuel)
    ensures Interp(e, env, n) != Err(OutOfFuel)
  {
  }

  /** How `_if` finishes: the test, then the branch it selects. */
  lemma IfFinishes(test: Expr, thenPart: Expr, elsePart: Expr, env: Env, n: nat)
    requires n > 0 && Interp(test, env, n - 1) != Err(OutOfFuel)
    requires Interp(test, env, n - 1).Ok? && IsTrue(Interp(test, env, n - 1).value).Ok? ==>
               Interp(if IsTrue(Interp(test, env, n - 1).value).value then thenPart else elsePart, env, n - 1)
                 != Err(OutOfFuel)
    ensures Interp(IfExpr(test, thenPart, elsePart), env, n) != Err(OutOfFuel)
  {
  }

  /** How `_let` finishes: the right-hand side, then the body. */
  lemma LetFinishes(x: string, rhs: Expr, body: Expr, env: Env, n: nat)
    requires n > 0 && Interp(rhs, env, n - 1) != Err(OutOfFuel)
    requires Interp(rhs, env, n - 1).Ok? ==>
               Interp(body, ExtendedEnv(x, Interp(rhs, env, n - 1).value, env), n - 1) != Err(OutOfFuel)
    ensures Interp(LetExpr(x, rhs, body), env, n) != Err(OutOfFuel)
  {
  }

  /** How a call node finishes: the callee, then the argument, then the body. */
  lemma CallFinishes(f: Expr, arg: Expr, env: Env, n: nat)
    requires n > 0 && Interp(f, env, n - 1) != Err(OutOfFuel)
    requires Interp(f, env, n - 1).Ok? ==> Interp(arg, env, n - 1) != Err(OutOfFuel)
    requires Interp(f, env, n - 1).Ok? && Interp(arg, env, n - 1).Ok? && Interp(f, env, n - 1).value.FunVal? ==>
               var fv := Interp(f, env, n - 1).value;
               Interp(fv.body, ExtendedEnv(fv.formalArg, Interp(arg, env, n - 1).value, fv.env), n - 1) != Err(OutOfFuel)
    ensures Interp(CallExpr(f, arg), env, n) != Err(OutOfFuel)
  {
  }

  lemma {:induction false} CallStepsThenInterp(f: Expr, arg: Expr, env: Env, n: nat, v0: Option<Val>, k: Cont)
    requires Run(State(InterpMode, CallExpr(f, arg), env, v0, k), n) != Err(OutOfFuel)
    ensures Interp(CallExpr(f, arg), env, n) != Err(OutOfFuel)
    decreases n, 1
  {
    var s1 := State(InterpMode, f, env, v0, ArgThenCallCont(arg, env, k));
    RunStep(State(InterpMode, CallExpr(f, arg), env, v0, k), s1, n);
    var j, s2 := SubexprThenRun(f, env, n - 1, n - 1, v0, s1.cont);
    if Interp(f, env, n - 1).Ok? {
      CallArgStepsThenInterp(arg, env, n, Interp(f, env, n - 1).value, k, s2, n - 1 - j);
    }
    CallFinishes(f, arg, env, n);
  }

  /** The part of a call after the callee has been evaluated to `fv`: the argument, then
      the body, within the `m` steps left of the run's `n`. */
  lemma {:induction false} CallArgStepsThenInterp(arg: Expr, env: Env, n: nat, fv: Val, k: Cont, s2: State, m: nat)
    requires 0 < n && m <= n - 1
    requires Consistent(s2) && Delivers(s2, fv, ArgThenCallCont(arg, env, k)) && Run(s2, m) != Err(OutOfFuel)
    ensures Interp(arg, env, n - 1) != Err(OutOfFuel)
    ensures Interp(arg, env, n - 1).Ok? && fv.FunVal? ==>
              Interp(fv.body, ExtendedEnv(fv.formalArg, Interp(arg, env, n - 1).value, fv.env), n - 1) != Err(OutOfFuel)
    decreases n, 0
  {
    var j2, s4 := StepThenSubexpr(s2, arg, env, m, n - 1, fv, CallCont(fv, k));
    if Interp(arg, env, n - 1).Ok? && fv.FunVal? {
      var av := Interp(arg, env, n - 1).value;
      var benv := ExtendedEnv(fv.formalArg, av, fv.env);
      var _, _ := StepThenSubexpr(s4, fv.body, benv, m - 1 - j2, n - 1, av, k);
    }
  }

  /** Every result of `e->interp(Env::empty)` is the result of `Step::interp_by_steps(e)`
      given enough steps, errors included. */
  lemma InterpAgreesWithRun(e: Expr, fuel: nat) returns (n: nat)
    requires Interp(e, EmptyEnv, fuel) != Err(OutOfFuel)
    ensures Run(Init(e), n) == Interp(e, EmptyEnv, fuel)
  {
    n := InterpThenSteps(e, EmptyEnv, fuel, None, DoneCont);
    var r := Interp(e, EmptyEnv, fuel);
    if r.Ok? {
      RunExec(Init(e), n, Exec(Init(e), n).value, 0);
    } else {
      InterpNeverContinuesDone(e, EmptyEnv, fuel);
      ExecErrRun(Init(e), n, r.error);
    }
  }

  /** Every run of `Step::interp_by_steps(e)` that finishes within `n` steps yields what
      `e->interp(Env::empty)` yields with fuel `n`. */
  lemma RunAgreesWithInterp(e: Expr, n: nat)
    requires Run(Init(e), n) != Err(OutOfFuel)
    ensures Interp(e, EmptyEnv, n) == Run(Init(e), n)
  {
    StepsThenInterp(e, EmptyEnv, n, None, DoneCont);
    var m := InterpAgreesWithRun(e, n);
    if m <= n {
      RunFuelMonotone(Init(e), m, n);
    } else {
      RunFuelMonotone(Init(e), n, m);
    }
  }
}
