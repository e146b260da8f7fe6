/** Concrete cases from the unit tests at the end of Expr.cpp, stated against the model:
    what `pp_to_string`, `to_string`, `interp`, `Step::interp_by_steps` and `parse_str`
    give on those inputs. */
module Samples {
  import opened Results
  import opened Chars
  import opened Ast
  import opened Values
  import opened Evaluator
  import opened Printer
  import opened Continuations
  import opened Steps
  import opened Grammar
  import opened PrintRoundTrip

  /** `print` parenthesises every operation and writes `_let` on one line without blanks
      around `=`. */
  lemma PrintLetSum()
    ensures Print(LetExpr("x", NumExpr(5), AddExpr(VarExpr("x"), NumExpr(1)))) == "(_let x=5 _in (x+1))"
  {}

  /** A sum of products, fully parenthesised. */
  lemma PrintSumOfProducts()
    ensures Print(AddExpr(MultExpr(NumExpr(3), NumExpr(2)), MultExpr(NumExpr(5), NumExpr(6)))) == "((3*2)+(5*6))"
  {}

  /** A function is printed with its parameter in parentheses; a call without them around
      the callee. */
  lemma PrintFunAndCall()
    ensures Print(FunExpr("x", NumExpr(5))) == "(_fun (x) 5)"
    ensures Print(CallExpr(VarExpr("x"), NumExpr(5))) == "x(5)"
  {}

  /** `5 * (_let x = 5 _in x) + 1` evaluates to 26. */
  lemma InterpLetInProduct()
    ensures Interp(AddExpr(MultExpr(NumExpr(5), LetExpr("x", NumExpr(5), VarExpr("x"))), NumExpr(1)), EmptyEnv, 4) == Ok(NumVal(26))
  {}

  /** An unbound name is an error, also in the branch an `_if` takes. */
  lemma InterpFreeVariable()
    ensures Interp(VarExpr("x"), EmptyEnv, 1) == Err(Runtime("free variable: x"))
    ensures Interp(IfExpr(BoolExpr(false), NumExpr(5), VarExpr("x")), EmptyEnv, 2) == Err(Runtime("free variable: x"))
  {}

  /** The step machine computes `2+2`. */
  lemma StepSum()
    ensures Run(Init(AddExpr(NumExpr(2), NumExpr(2))), 5) == Ok(NumVal(4))
  {}

  /** The step machine takes the `_else` branch of `_if 1==0 _then 5 _else 3`. */
  lemma StepIf()
    ensures Run(Init(IfExpr(EqExpr(NumExpr(1), NumExpr(0)), NumExpr(5), NumExpr(3))), 8) == Ok(NumVal(3))
  {
    StepIfTest();
    StepIfBranch();
  }

  /** The first three steps: into the test, into its left operand, and its value. */
  lemma StepIfTest()
    ensures Run(Init(IfExpr(EqExpr(NumExpr(1), NumExpr(0)), NumExpr(5), NumExpr(3))), 8)
         == Run(State(ContinueMode, NumExpr(1), EmptyEnv, Some(NumVal(1)),
                      RightThenEqCont(NumExpr(0), EmptyEnv, IfBranchCont(NumExpr(5), NumExpr(3), EmptyEnv, DoneCont))), 5)
  {}

  /** The rest: the right operand, the comparison, and the `_else` branch. */
  lemma StepIfBranch()
    ensures Run(State(ContinueMode, NumExpr(1), EmptyEnv, Some(NumVal(1)),
                      RightThenEqCont(NumExpr(0), EmptyEnv, IfBranchCont(NumExpr(5), NumExpr(3), EmptyEnv, DoneCont))), 5)
         == Ok(NumVal(3))
  {
    var k := IfBranchCont(NumExpr(5), NumExpr(3), EmptyEnv, DoneCont);
    assert Run(State(ContinueMode, NumExpr(0), EmptyEnv, Some(BoolVal(false)), k), 2) == Ok(NumVal(3));
  }

  /** A number and `_true` take the machine one step. */
  lemma StepLeaves()
    ensures Run(Init(NumExpr(1)), 1) == Ok(NumVal(1))
    ensures Run(Init(BoolExpr(true)), 1) == Ok(BoolVal(true))
  {}

  /** The step machine takes the `_then` branch of `_if 1==1 _then 5 _else 3`. */
  lemma StepIfTrue()
    ensures Run(Init(IfExpr(EqExpr(NumExpr(1), NumExpr(1)), NumExpr(5), NumExpr(3))), 8) == Ok(NumVal(5))
  {
    var k := IfBranchCont(NumExpr(5), NumExpr(3), EmptyEnv, DoneCont);
    var left := State(ContinueMode, NumExpr(1), EmptyEnv, Some(NumVal(1)), RightThenEqCont(NumExpr(1), EmptyEnv, k));
    assert Run(Init(IfExpr(EqExpr(NumExpr(1), NumExpr(1)), NumExpr(5), NumExpr(3))), 8) == Run(left, 5);
    assert Run(State(ContinueMode, NumExpr(1), EmptyEnv, Some(BoolVal(true)), k), 2) == Ok(NumVal(5));
  }

  /** The branch `_if 1==1 _then 2*2 _else 3` takes is a product. */
  lemma StepIfProduct()
    ensures Run(Init(IfExpr(EqExpr(NumExpr(1), NumExpr(1)), MultExpr(NumExpr(2), NumExpr(2)), NumExpr(3))), 12)
         == Ok(NumVal(4))
  {
    var k := IfBranchCont(MultExpr(NumExpr(2), NumExpr(2)), NumExpr(3), EmptyEnv, DoneCont);
    StepIfProductTest(k);
    StepIfProductBranch(k);
  }

  lemma StepIfProductTest(k: Cont)
    requires k == IfBranchCont(MultExpr(NumExpr(2), NumExpr(2)), NumExpr(3), EmptyEnv, DoneCont)
    ensures Run(Init(IfExpr(EqExpr(NumExpr(1), NumExpr(1)), MultExpr(NumExpr(2), NumExpr(2)), NumExpr(3))), 12)
         == Run(State(ContinueMode, NumExpr(1), EmptyEnv, Some(NumVal(1)), RightThenEqCont(NumExpr(1), EmptyEnv, k)), 9)
  {}

  lemma StepIfProductBranch(k: Cont)
    requires k == IfBranchCont(MultExpr(NumExpr(2), NumExpr(2)), NumExpr(3), EmptyEnv, DoneCont)
    ensures Run(State(ContinueMode, NumExpr(1), EmptyEnv, Some(NumVal(1)), RightThenEqCont(NumExpr(1), EmptyEnv, k)), 9)
         == Ok(NumVal(4))
  {
    var s0 := State(ContinueMode, NumExpr(1), EmptyEnv, Some(NumVal(1)), RightThenEqCont(NumExpr(1), EmptyEnv, k));
    var s1 := State(InterpMode, NumExpr(1), EmptyEnv, Some(NumVal(1)), EqCont(NumVal(1), k));
    var s2 := State(ContinueMode, NumExpr(1), EmptyEnv, Some(NumVal(1)), EqCont(NumVal(1), k));
    var s3 := State(ContinueMode, NumExpr(1), EmptyEnv, Some(BoolVal(true)), k);
    var s4 := State(InterpMode, MultExpr(NumExpr(2), NumExpr(2)), EmptyEnv, Some(BoolVal(true)), DoneCont);
    RunsOn(s0, s1, 8);
    RunsOn(s1, s2, 7);
    RunsOn(s2, s3, 6);
    RunsOn(s3, s4, 5);
    assert Run(s4, 5) == Ok(NumVal(4));
  }

  /** The last five steps of `x + c` with `x` bound to `v` in the innermost frame. */
  lemma StepAddToName(x: string, v: int, c: int, env: Env, val: Option<Val>)
    ensures Run(State(InterpMode, AddExpr(VarExpr(x), NumExpr(c)), ExtendedEnv(x, NumVal(v), env), val, DoneCont), 5)
         == Ok(NumVal(v + c))
  {
    var env1 := ExtendedEnv(x, NumVal(v), env);
    var k := AddCont(NumVal(v), DoneCont);
    assert Run(State(InterpMode, NumExpr(c), env1, Some(NumVal(v)), k), 2) == Ok(NumVal(v + c));
  }

  /** A call of `_fun (x) x + c` on `v`, once the argument is a value: six more steps. */
  lemma StepApplyAdd(x: string, c: int, v: int, e: Expr, env: Env)
    ensures Run(State(ContinueMode, e, env, Some(NumVal(v)),
                      CallCont(FunVal(x, AddExpr(VarExpr(x), NumExpr(c)), EmptyEnv), DoneCont)), 6)
         == Ok(NumVal(v + c))
  {
    StepAddToName(x, v, c, EmptyEnv, Some(NumVal(v)));
  }

  /** The step machine computes `_let x = 3 _in x+2`. */
  lemma StepLet()
    ensures Run(Init(LetExpr("x", NumExpr(3), AddExpr(VarExpr("x"), NumExpr(2)))), 8) == Ok(NumVal(5))
  {
    var body := AddExpr(VarExpr("x"), NumExpr(2));
    StepAddToName("x", 3, 2, EmptyEnv, Some(NumVal(3)));
    assert Run(Init(LetExpr("x", NumExpr(3), body)), 8)
        == Run(State(InterpMode, body, ExtendedEnv("x", NumVal(3), EmptyEnv), Some(NumVal(3)), DoneCont), 5);
  }

  /** The step machine calls `_fun (x) x + 1` on 5. */
  lemma StepCall()
    ensures Run(Init(CallExpr(FunExpr("x", AddExpr(VarExpr("x"), NumExpr(1))), NumExpr(5))), 10) == Ok(NumVal(6))
  {
    StepCallHead();
    StepApplyAdd("x", 1, 5, NumExpr(5), EmptyEnv);
  }

  lemma StepCallHead()
    ensures Run(Init(CallExpr(FunExpr("x", AddExpr(VarExpr("x"), NumExpr(1))), NumExpr(5))), 10)
         == Run(State(ContinueMode, NumExpr(5), EmptyEnv, Some(NumVal(5)),
                      CallCont(FunVal("x", AddExpr(VarExpr("x"), NumExpr(1)), EmptyEnv), DoneCont)), 6)
  {}

  /** The step machine binds `f` to `_fun (x) x + 1` and calls it on 10. */
  lemma StepLetCall()
    ensures Run(Init(LetExpr("f", FunExpr("x", AddExpr(VarExpr("x"), NumExpr(1))), CallExpr(VarExpr("f"), NumExpr(10)))), 13)
         == Ok(NumVal(11))
  {
    var f := FunVal("x", AddExpr(VarExpr("x"), NumExpr(1)), EmptyEnv);
    StepLetCallHead(f);
    StepLetCallArgument(f);
    StepApplyAdd("x", 1, 10, NumExpr(10), ExtendedEnv("f", f, EmptyEnv));
  }

  lemma StepLetCallHead(f: Val)
    requires f == FunVal("x", AddExpr(VarExpr("x"), NumExpr(1)), EmptyEnv)
    ensures Run(Init(LetExpr("f", FunExpr("x", AddExpr(VarExpr("x"), NumExpr(1))), CallExpr(VarExpr("f"), NumExpr(10)))), 13)
         == Run(State(InterpMode, CallExpr(VarExpr("f"), NumExpr(10)), ExtendedEnv("f", f, EmptyEnv), Some(f), DoneCont), 10)
  {
    var call := CallExpr(VarExpr("f"), NumExpr(10));
    var k := LetBodyCont("f", call, EmptyEnv, DoneCont);
    var s0 := Init(LetExpr("f", FunExpr("x", AddExpr(VarExpr("x"), NumExpr(1))), call));
    var s1 := State(InterpMode, FunExpr("x", AddExpr(VarExpr("x"), NumExpr(1))), EmptyEnv, None, k);
    var s2 := State(ContinueMode, FunExpr("x", AddExpr(VarExpr("x"), NumExpr(1))), EmptyEnv, Some(f), k);
    var s3 := State(InterpMode, call, ExtendedEnv("f", f, EmptyEnv), Some(f), DoneCont);
    RunsOn(s0, s1, 12);
    RunsOn(s1, s2, 11);
    RunsOn(s2, s3, 10);
  }

  lemma StepLetCallArgument(f: Val)
    requires f == FunVal("x", AddExpr(VarExpr("x"), NumExpr(1)), EmptyEnv)
    ensures Run(State(InterpMode, CallExpr(VarExpr("f"), NumExpr(10)), ExtendedEnv("f", f, EmptyEnv), Some(f), DoneCont), 10)
         == Run(State(ContinueMode, NumExpr(10), ExtendedEnv("f", f, EmptyEnv), Some(NumVal(10)), CallCont(f, DoneCont)), 6)
  {
    var env1 := ExtendedEnv("f", f, EmptyEnv);
    var k := ArgThenCallCont(NumExpr(10), env1, DoneCont);
    var s0 := State(InterpMode, CallExpr(VarExpr("f"), NumExpr(10)), env1, Some(f), DoneCont);
    var s1 := State(InterpMode, VarExpr("f"), env1, Some(f), k);
    var s2 := State(ContinueMode, VarExpr("f"), env1, Some(f), k);
    var s3 := State(InterpMode, NumExpr(10), env1, Some(f), CallCont(f, DoneCont));
    var s4 := State(ContinueMode, NumExpr(10), env1, Some(NumVal(10)), CallCont(f, DoneCont));
    RunsOn(s0, s1, 9);
    assert Lookup(env1, "f") == Ok(f);
    RunsOn(s1, s2, 8);
    RunsOn(s2, s3, 7);
    RunsOn(s3, s4, 6);
  }

  /** A step the machine can take costs one unit of fuel. */
  lemma RunsOn(s: State, t: State, n: nat)
    requires Consistent(s) && !Halted(s) && Step(s) == Ok(t)
    ensures Run(s, n + 1) == Run(t, n)
  {}

  /** Empty input and a stray `)` cannot start an expression. */
  lemma ParseRejects()
    ensures ParseStr("") == Err(Runtime("invalid input"))
    ensures ParseStr(")") == Err(Runtime("invalid input"))
  {}

  // ---------------------------------------------------------------- parse_str

  /** A one-digit number, followed by text that neither continues it nor starts with a blank. */
  lemma DigitMulticand(d: nat, rest: string)
    requires d < 10 && (rest == [] || !(IsDigit(rest[0]) || IsSpace(rest[0])))
    ensures ParseMulticand([DigitChar(d)] + rest) == Ok(Parsed(NumExpr(d), rest))
  {
    assert IntToString(d) == [DigitChar(d)];
    NumReadsBack(d, rest);
  }

  /** A multiplicand followed by neither operator is all `parse_str` reads. */
  lemma StrOfMulticand(s: string, e: Expr, rest: string)
    requires ParseMulticand(s) == Ok(Parsed(e, rest))
    requires !StartsWith(SkipWs(rest), '*') && !StartsWith(SkipWs(rest), '+')
    ensures ParseStr(s) == Ok(e)
  {
    MulticandIsExpr(s, Parsed(e, rest));
  }

  /** A one-digit number followed by `+` or `*` and more. */
  lemma DigitThenOperator(d: nat, op: char, more: string)
    requires d < 10 && (op == '+' || op == '*')
    ensures ParseMulticand([DigitChar(d)] + [op] + more) == Ok(Parsed(NumExpr(d), [op] + more))
    ensures op == '+' ==> ParseAddend([DigitChar(d)] + [op] + more) == Ok(Parsed(NumExpr(d), [op] + more))
  {
    assert [DigitChar(d)] + [op] + more == [DigitChar(d)] + ([op] + more);
    DigitMulticand(d, [op] + more);
    assert SkipWs([op] + more) == [op] + more;
    if op == '+' {
      MulticandIsAddend([DigitChar(d)] + [op] + more, Parsed(NumExpr(d), [op] + more));
    }
  }

  /** A one-digit number alone. */
  lemma DigitAlone(d: nat)
    requires d < 10
    ensures ParseMulticand([DigitChar(d)]) == Ok(Parsed(NumExpr(d), []))
    ensures ParseAddend([DigitChar(d)]) == Ok(Parsed(NumExpr(d), []))
    ensures ParseExpr([DigitChar(d)]) == Ok(Parsed(NumExpr(d), []))
  {
    assert [DigitChar(d)] == [DigitChar(d)] + [];
    DigitMulticand(d, []);
    MulticandIsAddend([DigitChar(d)], Parsed(NumExpr(d), []));
    MulticandIsExpr([DigitChar(d)], Parsed(NumExpr(d), []));
  }

  /** Three one-digit numbers joined by two operators, as text. */
  function DigitsJoined(a: nat, op1: char, b: nat, op2: char, c: nat): string
    requires a < 10 && b < 10 && c < 10
  {
    [DigitChar(a)] + [op1] + ([DigitChar(b)] + [op2] + [DigitChar(c)])
  }

  /** `a+b+c` parses as `a + (b + c)`, for any digits. */
  lemma DigitSums(a: nat, b: nat, c: nat)
    requires a < 10 && b < 10 && c < 10
    ensures ParseStr(DigitsJoined(a, '+', b, '+', c)) == Ok(AddExpr(NumExpr(a), AddExpr(NumExpr(b), NumExpr(c))))
  {
    var rest := [DigitChar(b)] + "+" + [DigitChar(c)];
    DigitThenOperator(a, '+', rest);
    DigitThenOperator(b, '+', [DigitChar(c)]);
    DigitAlone(c);
    SumsAssociateRight(DigitsJoined(a, '+', b, '+', c), Parsed(NumExpr(a), "+" + rest),
                       rest, Parsed(NumExpr(b), "+" + [DigitChar(c)]), [DigitChar(c)], Parsed(NumExpr(c), []));
  }

  /** `a*b*c` parses as `a * (b * c)`, for any digits. */
  lemma DigitProducts(a: nat, b: nat, c: nat)
    requires a < 10 && b < 10 && c < 10
    ensures ParseStr(DigitsJoined(a, '*', b, '*', c)) == Ok(MultExpr(NumExpr(a), MultExpr(NumExpr(b), NumExpr(c))))
  {
    var rest := [DigitChar(b)] + "*" + [DigitChar(c)];
    var s := DigitsJoined(a, '*', b, '*', c);
    DigitThenOperator(a, '*', rest);
    DigitThenOperator(b, '*', [DigitChar(c)]);
    DigitAlone(c);
    var e := MultExpr(NumExpr(a), MultExpr(NumExpr(b), NumExpr(c)));
    ProductsAssociateRight(s, Parsed(NumExpr(a), "*" + rest),
                           rest, Parsed(NumExpr(b), "*" + [DigitChar(c)]), [DigitChar(c)], Parsed(NumExpr(c), []));
    AddendIsExpr(s, Parsed(e, []));
  }

  /** `a*b+c` parses as `(a * b) + c`, for any digits. */
  lemma DigitProductBeforeSum(a: nat, b: nat, c: nat)
    requires a < 10 && b < 10 && c < 10
    ensures ParseStr(DigitsJoined(a, '*', b, '+', c)) == Ok(AddExpr(MultExpr(NumExpr(a), NumExpr(b)), NumExpr(c)))
  {
    var rest := [DigitChar(b)] + "+" + [DigitChar(c)];
    DigitThenOperator(a, '*', rest);
    DigitThenOperator(b, '+', [DigitChar(c)]);
    DigitAlone(c);
    ProductBeforeSum(DigitsJoined(a, '*', b, '+', c), Parsed(NumExpr(a), "*" + rest),
                     rest, Parsed(NumExpr(b), "+" + [DigitChar(c)]), [DigitChar(c)], Parsed(NumExpr(c), []));
  }

  /** `a+b*c` parses as `a + (b * c)`, for any digits. */
  lemma DigitProductAfterSum(a: nat, b: nat, c: nat)
    requires a < 10 && b < 10 && c < 10
    ensures ParseStr(DigitsJoined(a, '+', b, '*', c)) == Ok(AddExpr(NumExpr(a), MultExpr(NumExpr(b), NumExpr(c))))
  {
    var rest := [DigitChar(b)] + "*" + [DigitChar(c)];
    DigitThenOperator(a, '+', rest);
    DigitThenOperator(b, '*', [DigitChar(c)]);
    DigitAlone(c);
    ProductAfterSum(DigitsJoined(a, '+', b, '*', c), Parsed(NumExpr(a), "+" + rest),
                    rest, Parsed(NumExpr(b), "*" + [DigitChar(c)]), [DigitChar(c)], Parsed(NumExpr(c), []));
  }

  /** `+` associates to the right. */
  lemma ParseSumsToTheRight()
    ensures ParseStr("1+2+3") == Ok(AddExpr(NumExpr(1), AddExpr(NumExpr(2), NumExpr(3))))
  {
    DigitSums(1, 2, 3);
    assert DigitsJoined(1, '+', 2, '+', 3) == "1+2+3";
  }

  /** `*` associates to the right. */
  lemma ParseProductsToTheRight()
    ensures ParseStr("1*2*3") == Ok(MultExpr(NumExpr(1), MultExpr(NumExpr(2), NumExpr(3))))
  {
    DigitProducts(1, 2, 3);
    assert DigitsJoined(1, '*', 2, '*', 3) == "1*2*3";
  }

  /** `*` binds tighter than `+`, on either side of it. */
  lemma ParseProductBeforeSum()
    ensures ParseStr("1*2+3") == Ok(AddExpr(MultExpr(NumExpr(1), NumExpr(2)), NumExpr(3)))
  {
    DigitProductBeforeSum(1, 2, 3);
    assert DigitsJoined(1, '*', 2, '+', 3) == "1*2+3";
  }

  lemma ParseProductAfterSum()
    ensures ParseStr("1+2*3") == Ok(AddExpr(NumExpr(1), MultExpr(NumExpr(2), NumExpr(3))))
  {
    DigitProductAfterSum(1, 2, 3);
    assert DigitsJoined(1, '+', 2, '*', 3) == "1+2*3";
  }

  /** A `(` whose expression runs to the end of the input. */
  lemma ParseUnclosedParenthesis()
    ensures ParseStr("(1") == Err(Runtime("missing closing parenthesis"))
  {
    assert "1" == [DigitChar(1)] + "";
    DigitMulticand(1, "");
    MulticandIsExpr("1", Parsed(NumExpr(1), ""));
    assert SkipWs("(1") == "(1" && "(1"[1..] == "1";
    ParenthesisedMulticand("(1");
  }

  /** A `(` whose expression is followed by something other than `)`. */
  lemma ParseParenthesisNotClosed()
    ensures ParseStr("(1 2)") == Err(Runtime("missing closing parenthesis"))
  {
    assert "1 2)" == [DigitChar(1)] + " 2)";
    NumReadsBack(1, " 2)");
    assert IntToString(1) == [DigitChar(1)];
    assert ParseMulticand("1 2)") == Ok(Parsed(NumExpr(1), " 2)"));
    MulticandIsExpr("1 2)", Parsed(NumExpr(1), " 2)"));
    assert SkipWs(" 2)") == "2)";
    assert SkipWs("(1 2)") == "(1 2)" && "(1 2)"[1..] == "1 2)";
    ParenthesisedMulticand("(1 2)");
  }

  /** The right-hand side of the `_let` below: `5`, with `_in` after it. */
  lemma LetWithBlanksRhs()
    ensures ParseExpr(" 5 _in x") == Ok(Parsed(NumExpr(5), "_in x"))
  {
    var a := " " + [DigitChar(5)] + " _in x";
    assert SkipWs(a) == [DigitChar(5)] + " _in x";
    assert IntToString(5) == [DigitChar(5)];
    NumReadsBack(5, " _in x");
    assert ParseMulticand(a) == Ok(Parsed(NumExpr(5), " _in x"));
    MulticandIsExpr(a, Parsed(NumExpr(5), " _in x"));
    assert SkipWs(" _in x") == "_in x";
    assert a == " 5 _in x";
  }

  /** Its body: `x`, after a blank. */
  lemma LetWithBlanksBody()
    ensures ParseExpr(" x") == Ok(Parsed(VarExpr("x"), []))
  {
    NameReadsBack("x", []);
    assert SkipWs(" x") == "x" + [];
    assert ParseMulticand(" x") == Ok(Parsed(VarExpr("x"), []));
    MulticandIsExpr(" x", Parsed(VarExpr("x"), []));
  }

  lemma LetWithBlanksTail()
    ensures LetAfterEquals("x", " 5 _in x") == Ok(Parsed(LetExpr("x", NumExpr(5), VarExpr("x")), []))
  {
    LetWithBlanksRhs();
    LetWithBlanksBody();
    assert "_in x" == [] + "_in" + " x";
    LetTailAcceptsBlanks("x", " 5 _in x", Parsed(NumExpr(5), "_in x"), [], " x");
  }

  lemma LetWithBlanksLet()
    ensures ParseLet([] + "_let" + "  " + "x" + " " + "=" + " 5 _in x")
         == Ok(Parsed(LetExpr("x", NumExpr(5), VarExpr("x")), []))
  {
    LetHeadAcceptsBlanks([], "  ", "x", " ", " 5 _in x");
    LetWithBlanksTail();
  }

  lemma LetWithBlanksText()
    ensures "_" + "let  x = 5 _in x" == [] + "_let" + "  " + "x" + " " + "=" + " 5 _in x"
    ensures " " + "_" + "let  x = 5 _in x" == " _let  x = 5 _in x"
  {
  }

  /** Stated for a string passed in rather than the literal, which keeps the verifier from
      unfolding the whole parser on the literal text. */
  lemma LetWithBlanksMulticand(s: string)
    requires s == " _let  x = 5 _in x"
    ensures ParseMulticand(s) == Ok(Parsed(LetExpr("x", NumExpr(5), VarExpr("x")), []))
  {
    var t := "_" + "let  x = 5 _in x";
    BlanksBeforeToken(" ", "_", "let  x = 5 _in x");
    LetWithBlanksText();
    assert SkipWs(s) == t;
    assert SkipWs(t) == t;
    assert ParseMulticand(s) == ParseMulticand(t);
    LetIsMulticand(t);
    LetWithBlanksLet();
  }

  /** `_let` with blanks before and between its parts. */
  lemma ParseLetWithBlanks()
    ensures ParseStr(" _let  x = 5 _in x") == Ok(LetExpr("x", NumExpr(5), VarExpr("x")))
  {
    LetWithBlanksMulticand(" _let  x = 5 _in x");
    StrOfMulticand(" _let  x = 5 _in x", LetExpr("x", NumExpr(5), VarExpr("x")), []);
  }

  /** A number and a parenthesised sum read back as themselves. */
  lemma ParseSamples()
    ensures ParseStr("7") == Ok(NumExpr(7))
    ensures ParseStr("(2+2)") == Ok(AddExpr(NumExpr(2), NumExpr(2)))
  {
    PrintThenParse(NumExpr(7));
    PrintThenParse(AddExpr(NumExpr(2), NumExpr(2)));
    assert Print(NumExpr(7)) == "7";
    assert Print(AddExpr(NumExpr(2), NumExpr(2))) == "(2+2)";
  }
}
