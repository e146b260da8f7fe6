/** The abstract syntax of the expression language (Expr.h). */
module Ast {

  /** One constructor per subclass of `Expr`, with the fields that subclass declares. */
  datatype Expr =
    | NumExpr(val: int)
    | AddExpr(lhs: Expr, rhs: Expr)
    | MultExpr(lhs: Expr, rhs: Expr)
    | VarExpr(name: string)
    | LetExpr(letVar: string, letRhs: Expr, body: Expr)
    | BoolExpr(boolVal: bool)
    | EqExpr(lhs: Expr, rhs: Expr)
    | IfExpr(testPart: Expr, thenPart: Expr, elsePart: Expr)
    | FunExpr(formalArg: string, funBody: Expr)
    | CallExpr(toBeCalled: Expr, actualArg: Expr)

  /** `Expr::equals`: a node equals another only when the other has the same variant,
      and then exactly when every field is equal (sub-expressions compared recursively). */
  function Equals(a: Expr, b: Expr): (r: bool)
    ensures r <==> a == b
  {
    match a
    case NumExpr(n) => b.NumExpr? && n == b.val
    case AddExpr(l, r) => b.AddExpr? && Equals(l, b.lhs) && Equals(r, b.rhs)
    case MultExpr(l, r) => b.MultExpr? && Equals(l, b.lhs) && Equals(r, b.rhs)
    case VarExpr(x) => b.VarExpr? && x == b.name
    case LetExpr(x, rhs, body) =>
      b.LetExpr? && x == b.letVar && Equals(rhs, b.letRhs) && Equals(body, b.body)
    case BoolExpr(v) => b.BoolExpr? && v == b.boolVal
    case EqExpr(l, r) => b.EqExpr? && Equals(l, b.lhs) && Equals(r, b.rhs)
    case IfExpr(t, th, el) =>
      b.IfExpr? && Equals(t, b.testPart) && Equals(th, b.thenPart) && Equals(el, b.elsePart)
    case FunExpr(x, body) => b.FunExpr? && x == b.formalArg && Equals(body, b.funBody)
    case CallExpr(f, arg) => b.CallExpr? && Equals(f, b.toBeCalled) && Equals(arg, b.actualArg)
  }
}
