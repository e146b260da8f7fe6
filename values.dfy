/** Run-time values (Val.h, Val.cpp) and environments (Env.h, Env.cpp).
    A closure holds an environment and an environment holds values, so the two
    datatypes are declared together. */
module Values {
  import opened Results
  import opened Ast

  /** `NumVal`, `BoolVal` and `FunVal` with the fields Val.h declares. */
  datatype Val =
    | NumVal(num: int)
    | BoolVal(b: bool)
    | FunVal(formalArg: string, body: Expr, env: Env)

  /** A persistent association list: `EmptyEnv`, or an `ExtendedEnv` frame that stores one
      binding and points at the environment it extends. Building a frame never changes `rest`. */
  datatype Env =
    | EmptyEnv
    | ExtendedEnv(name: string, val: Val, rest: Env)

  // ---------------------------------------------------------------- Env.cpp

  /** `Env::lookup`: the innermost frame binding `findName` wins; reaching `EmptyEnv` throws. */
  function Lookup(env: Env, findName: string): (r: Result<Val>)
    ensures r.Err? ==> r.error == Runtime("free variable: " + findName)
  {
    match env
    case EmptyEnv => Err(Runtime("free variable: " + findName))
    case ExtendedEnv(name, val, rest) =>
      if findName == name then Ok(val) else Lookup(rest, findName)
  }

  /** The frames of an environment, innermost first: an independent view of the chain. */
  function Frames(env: Env): seq<(string, Val)>
  {
    match env
    case EmptyEnv => []
    case ExtendedEnv(name, val, rest) => [(name, val)] + Frames(rest)
  }

  /** Lookup succeeds exactly when some frame binds the name; otherwise it fails naming
      the variable. */
  lemma {:induction false} LookupSucceedsIffBound(env: Env, x: string)
    ensures Lookup(env, x).Ok? <==> exists i :: 0 <= i < |Frames(env)| && Frames(env)[i].0 == x
  {
    match env
    case EmptyEnv =>
    case ExtendedEnv(name, val, rest) =>
      LookupSucceedsIffBound(rest, x);
      assert Frames(env) == [(name, val)] + Frames(rest);
      if name == x {
        assert Frames(env)[0].0 == x;
      } else {
        if Lookup(rest, x).Ok? {
          var k :| 0 <= k < |Frames(rest)| && Frames(rest)[k].0 == x;
          assert Frames(env)[k + 1].0 == x;
        }
        forall i | 0 <= i < |Frames(env)| && Frames(env)[i].0 == x
          ensures exists k :: 0 <= k < |Frames(rest)| && Frames(rest)[k].0 == x
        {
          assert Frames(rest)[i - 1].0 == x;
        }
      }
  }

  /** When frame `i` is the innermost one binding the name, lookup returns its value. */
  lemma {:induction false} LookupFindsInnermost(env: Env, x: string, i: nat)
    requires i < |Frames(env)| && Frames(env)[i].0 == x
    requires forall j :: 0 <= j < i ==> Frames(env)[j].0 != x
    ensures Lookup(env, x) == Ok(Frames(env)[i].1)
  {
    match env
    case ExtendedEnv(name, val, rest) =>
      var fs := Frames(env);
      assert fs == [(name, val)] + Frames(rest);
      if i > 0 {
        assert fs[0].0 != x;
        forall j | 0 <= j < i - 1
          ensures Frames(rest)[j].0 != x
        {
          assert fs[j + 1] == Frames(rest)[j];
        }
        LookupFindsInnermost(rest, x, i - 1);
        assert Frames(rest)[i - 1] == fs[i];
      }
  }

  /** Shadowing: a frame for `x` hides every outer binding of `x`, and a frame for
      another name is transparent. */
  lemma ExtendShadows(x: string, v: Val, env: Env, y: string)
    ensures Lookup(ExtendedEnv(x, v, env), x) == Ok(v)
    ensures y != x ==> Lookup(ExtendedEnv(x, v, env), y) == Lookup(env, y)
  {
  }

  // ---------------------------------------------------------------- Val.cpp

  /** `Val::equals`. NumVal's version (the only one shown) is true exactly for a NumVal
      holding the same number and false for every other variant; BoolVal's and FunVal's
      are taken to be the same structural comparison. It never fails. */
  function ValEquals(a: Val, other: Val): (r: bool)
    ensures r <==> a == other
  {
    match a
    case NumVal(n) => other.NumVal? && n == other.num
    case BoolVal(v) => other.BoolVal? && v == other.b
    case FunVal(_, _, _) => a == other
  }

  /** `Val::add_to`. A NumVal receiver adds a NumVal argument and throws
      "add of non-number" for any other; a non-number receiver fails too. */
  function AddTo(lhs: Val, rhs: Val): (r: Result<Val>)
    ensures r.Ok? <==> lhs.NumVal? && rhs.NumVal?
    ensures r.Ok? ==> r.value == NumVal(lhs.num + rhs.num)
    ensures lhs.NumVal? && !rhs.NumVal? ==> r == Err(Runtime("add of non-number"))
  {
    match lhs
    case NumVal(a) =>
      if rhs.NumVal? then Ok(NumVal(a + rhs.num)) else Err(Runtime("add of non-number"))
    case _ => Err(NotANumber)
  }

  /** `Val::mult_to`. As `AddTo` with a product; the source reuses the message
      "add of non-number" for a non-number argument. */
  function MultTo(lhs: Val, rhs: Val): (r: Result<Val>)
    ensures r.Ok? <==> lhs.NumVal? && rhs.NumVal?
    ensures r.Ok? ==> r.value == NumVal(lhs.num * rhs.num)
    ensures lhs.NumVal? && !rhs.NumVal? ==> r == Err(Runtime("add of non-number"))
  {
    match lhs
    case NumVal(a) =>
      if rhs.NumVal? then Ok(NumVal(a * rhs.num)) else Err(Runtime("add of non-number"))
    case _ => Err(NotANumber)
  }

  /** `Val::is_true`, used by `_if`: the boolean of a BoolVal; any other value fails. */
  function IsTrue(v: Val): (r: Result<bool>)
    ensures r.Ok? <==> v.BoolVal?
    ensures r.Ok? ==> r.value == v.b
  {
    match v
    case BoolVal(b) => Ok(b)
    case _ => Err(NotABoolean)
  }

  /** `NumVal::to_expr`: the literal that denotes the number. */
  function ToExpr(v: Val): Expr
    requires v.NumVal?
  {
    NumExpr(v.num)
  }
}
