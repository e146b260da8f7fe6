/** The continuation frames (Cont.h, Cont.cpp) and the state of the step machine (Step.h). */
module Continuations {
  import opened Results
  import opened Ast
  import opened Values

  /** One constructor per subclass of `Cont`. Every frame but `DoneCont` keeps the
      continuation it was pushed on as `rest`, so a continuation is a stack ending in `DoneCont`. */
  datatype Cont =
    | DoneCont
    | RightThenAddCont(rhs: Expr, env: Env, rest: Cont)
    | AddCont(lhsVal: Val, rest: Cont)
    | RightThenMultCont(rhs: Expr, env: Env, rest: Cont)
    | MultCont(lhsVal: Val, rest: Cont)
    | RightThenEqCont(rhs: Expr, env: Env, rest: Cont)
    | EqCont(lhsVal: Val, rest: Cont)
    | IfBranchCont(thenPart: Expr, elsePart: Expr, env: Env, rest: Cont)
    | LetBodyCont(lhs: string, body: Expr, env: Env, rest: Cont)
    | ArgThenCallCont(actualArg: Expr, env: Env, rest: Cont)
    | CallCont(toBeCalledVal: Val, rest: Cont)

  /** `Step::mode_t`. */
  datatype Mode = InterpMode | ContinueMode

  /** The five static fields of `Step`. `val` is null until the first value is produced. */
  datatype State = State(mode: Mode, expr: Expr, env: Env, val: Option<Val>, cont: Cont)

  /** In continue mode there is always a value to hand to the continuation. */
  predicate Consistent(s: State)
  {
    s.mode == ContinueMode ==> s.val.Some?
  }

  /** The machine is finished: continue mode with nothing left to do. */
  predicate Halted(s: State)
  {
    s.mode == ContinueMode && s.cont.DoneCont?
  }

  /** The number of frames above `DoneCont`. */
  function Depth(k: Cont): nat
  {
    if k.DoneCont? then 0 else 1 + Depth(k.rest)
  }

  /** Following `rest` from any continuation reaches `DoneCont` after exactly `Depth(k)` frames. */
  function Bottom(k: Cont, n: nat): Cont
  {
    if n == 0 || k.DoneCont? then k else Bottom(k.rest, n - 1)
  }

  lemma {:induction false} ChainEndsInDone(k: Cont)
    ensures Bottom(k, Depth(k)) == DoneCont
    ensures forall n: nat :: n < Depth(k) ==> !Bottom(k, n).DoneCont?
  {
    if !k.DoneCont? {
      ChainEndsInDone(k.rest);
      forall n: nat | n < Depth(k) ensures !Bottom(k, n).DoneCont? {
        if n > 0 { assert Bottom(k, n) == Bottom(k.rest, n - 1); }
      }
    }
  }

  /** `FunVal::call_step` (its code is not part of this model, `CallCont` shows how it is
      used): a closure continues with its body in its captured environment extended with the
      argument, handing its result straight to `rest`; any other value cannot be called. */
  function CallStep(callee: Val, arg: Val, rest: Cont, s: State): (r: Result<State>)
    ensures r.Ok? <==> callee.FunVal?
    // the body runs next, with the formal parameter bound to the argument ...
    ensures r.Ok? ==> r.value.mode == InterpMode && r.value.expr == callee.body &&
                      Lookup(r.value.env, callee.formalArg) == Ok(arg)
    // ... and every other name as the closure captured it
    ensures r.Ok? ==> forall y :: y != callee.formalArg ==> Lookup(r.value.env, y) == Lookup(callee.env, y)
    // the call's own frame is gone: the body's value goes straight to `rest`
    ensures r.Ok? ==> r.value.cont == rest
  {
    match callee
    case FunVal(formal, body, captured) =>
      Ok(State(InterpMode, body, ExtendedEnv(formal, arg, captured), s.val, rest))
    case _ => Err(NotCallable)
  }

  /** `Cont::step_continue` of the current frame, receiving the value in `val`. */
  function ContinueStep(s: State): (r: Result<State>)
    requires s.mode == ContinueMode && s.val.Some?
    ensures r.Ok? ==> Consistent(r.value)
    // the stack only shrinks or has its top frame replaced
    ensures r.Ok? ==> !s.cont.DoneCont? && (r.value.cont == s.cont.rest ||
                                            (!r.value.cont.DoneCont? && r.value.cont.rest == s.cont.rest))
    // a frame that finishes a binary operation stays in continue mode; every other frame evaluates next
    ensures r.Ok? ==> (r.value.mode == ContinueMode <==> (s.cont.AddCont? || s.cont.MultCont? || s.cont.EqCont?))
    // an equality frame never fails
    ensures s.cont.EqCont? ==> r == Ok(s.(val := Some(BoolVal(s.cont.lhsVal == s.val.value)), cont := s.cont.rest))
    ensures s.cont.DoneCont? ==> r == Err(Runtime("cannot continue done"))
  {
    var v := s.val.value;
    match s.cont
    case DoneCont => Err(Runtime("cannot continue done"))
    case RightThenAddCont(rhs, env, rest) =>
      Ok(s.(mode := InterpMode, expr := rhs, env := env, cont := AddCont(v, rest)))
    case AddCont(lhsVal, rest) =>
      var sum :- AddTo(lhsVal, v);
      Ok(s.(mode := ContinueMode, val := Some(sum), cont := rest))
    case RightThenMultCont(rhs, env, rest) =>
      Ok(s.(mode := InterpMode, expr := rhs, env := env, cont := MultCont(v, rest)))
    case MultCont(lhsVal, rest) =>
      var product :- MultTo(lhsVal, v);
      Ok(s.(mode := ContinueMode, val := Some(product), cont := rest))
    case RightThenEqCont(rhs, env, rest) =>
      Ok(s.(mode := InterpMode, expr := rhs, env := env, cont := EqCont(v, rest)))
    case EqCont(lhsVal, rest) =>
      Ok(s.(mode := ContinueMode, val := Some(BoolVal(ValEquals(lhsVal, v))), cont := rest))
    case IfBranchCont(thenPart, elsePart, env, rest) =>
      var b :- IsTrue(v);
      Ok(s.(mode := InterpMode, expr := if b then thenPart else elsePart, env := env, cont := rest))
    case LetBodyCont(lhs, body, env, rest) =>
      Ok(s.(mode := InterpMode, expr := body, env := ExtendedEnv(lhs, v, env), cont := rest))
    case ArgThenCallCont(actualArg, env, rest) =>
      Ok(s.(mode := InterpMode, expr := actualArg, env := env, cont := CallCont(v, rest)))
    case CallCont(toBeCalledVal, rest) =>
      CallStep(toBeCalledVal, v, rest, s)
  }
}
