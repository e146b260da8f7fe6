/** The `pp_to_string` cases from the unit tests at the end of Expr.cpp, stated against the
    model: the exact text the pretty printer gives for each tree, line breaks and
    indentation included. */
module PrettySamples {
  import opened Ast
  import opened Printer

  /** A top-level `_let` breaks its line before `_in`, and its body is not parenthesised. */
  lemma PrettyLetOnTwoLines()
    ensures PrettyString(LetExpr("x", NumExpr(5), AddExpr(VarExpr("x"), NumExpr(1)))) == "_let x = 5\n_in  x + 1"
  {}

  /** `==` needs no parentheses at the top. */
  lemma PrettyEquality()
    ensures PrettyString(EqExpr(NumExpr(0), NumExpr(3))) == "0 == 3"
  {}

  /** `==` as the left operand of `+` is parenthesised. */
  lemma PrettyEqualityInSum()
    ensures PrettyString(AddExpr(EqExpr(NumExpr(0), NumExpr(3)), NumExpr(6))) == "(0 == 3) + 6"
  {}

  /** `==` as the right operand of `*` is parenthesised. */
  lemma PrettyEqualityInProduct()
    ensures PrettyString(MultExpr(NumExpr(6), EqExpr(NumExpr(0), NumExpr(3)))) == "6 * (0 == 3)"
  {}

  /** `==` groups to the right: only a left `==` operand is parenthesised. */
  lemma PrettyEqualityChain()
    ensures PrettyString(EqExpr(EqExpr(NumExpr(1), NumExpr(2)), EqExpr(NumExpr(3), NumExpr(4)))) == "(1 == 2) == 3 == 4"
  {}

  /** The right-hand side of a `_let` is printed bare. */
  lemma PrettyLetOfEquality()
    ensures PrettyString(LetExpr("x", EqExpr(NumExpr(5), NumExpr(3)), VarExpr("x"))) == "_let x = 5 == 3\n_in  x"
  {}

  // ---------------------------------------------------------------- grouping (Expr.cpp:717-755)

  /** A sum on the left of `+` is parenthesised. */
  lemma PrettySumOnLeftOfSum()
    ensures PrettyString(AddExpr(AddExpr(NumExpr(3), NumExpr(4)), NumExpr(5))) == "(3 + 4) + 5"
  {}

  /** A sum on the right of `+` is not. */
  lemma PrettySumOnRightOfSum()
    ensures PrettyString(AddExpr(NumExpr(3), AddExpr(NumExpr(4), NumExpr(5)))) == "3 + 4 + 5"
  {}

  /** A product needs no parentheses under `+`, on either side. */
  lemma PrettyProductsInSums()
    ensures PrettyString(AddExpr(NumExpr(3), MultExpr(NumExpr(4), NumExpr(5)))) == "3 + 4 * 5"
  {}

  lemma PrettyProductOnLeftOfSum()
    ensures PrettyString(AddExpr(MultExpr(NumExpr(3), NumExpr(4)), NumExpr(5))) == "3 * 4 + 5"
  {}

  /** A sum under `*` is parenthesised on either side. */
  lemma PrettySumOnLeftOfProduct()
    ensures PrettyString(MultExpr(AddExpr(NumExpr(3), NumExpr(4)), NumExpr(5))) == "(3 + 4) * 5"
  {}

  lemma PrettySumOnRightOfProduct()
    ensures PrettyString(MultExpr(NumExpr(3), AddExpr(NumExpr(4), NumExpr(5)))) == "3 * (4 + 5)"
  {}

  /** A product on the right of `*` is not parenthesised; one on the left is. */
  lemma PrettyProductOnRightOfProduct()
    ensures PrettyString(MultExpr(NumExpr(3), MultExpr(NumExpr(4), NumExpr(5)))) == "3 * 4 * 5"
  {}

  lemma PrettyProductOnLeftOfProduct()
    ensures PrettyString(MultExpr(MultExpr(NumExpr(3), NumExpr(4)), NumExpr(5))) == "(3 * 4) * 5"
  {}

  lemma DeepProductLeft()
    ensures PrettyAt(MultExpr(MultExpr(NumExpr(3), NumExpr(4)), MultExpr(NumExpr(5), NumExpr(6))), GroupAddOrMultOrLet,
                     Layout([], 0))
         == Layout("((3 * 4) * 5 * 6)", 0)
  {}

  lemma DeepProductRight()
    ensures PrettyAt(AddExpr(NumExpr(7), NumExpr(8)), GroupAdd, Layout("((3 * 4) * 5 * 6)" + " * ", 0))
         == Layout("((3 * 4) * 5 * 6) * (7 + 8)", 0)
  {}

  /** Expr.cpp:752: a product on the left of `*` is parenthesised at every depth. */
  lemma PrettyDeepProduct()
    ensures PrettyString(MultExpr(MultExpr(MultExpr(NumExpr(3), NumExpr(4)), MultExpr(NumExpr(5), NumExpr(6))),
                                  AddExpr(NumExpr(7), NumExpr(8))))
         == "((3 * 4) * 5 * 6) * (7 + 8)"
  {
    var left := MultExpr(MultExpr(NumExpr(3), NumExpr(4)), MultExpr(NumExpr(5), NumExpr(6)));
    var right := AddExpr(NumExpr(7), NumExpr(8));
    PrettyTopIsPrettyAtNone(MultExpr(left, right), []);
    DeepProductLeft();
    DeepProductRight();
    ProductPrintsAs(left, right, GroupNone, false, GroupAdd, Layout([], 0),
                    "((3 * 4) * 5 * 6)", 0, "((3 * 4) * 5 * 6) * (7 + 8)", 0);
  }

  lemma DeepProductOfNamesLeft()
    ensures PrettyAt(MultExpr(AddExpr(VarExpr("c"), VarExpr("d")), NumExpr(6)), GroupAddOrMultOrLet, Layout([], 0))
         == Layout("((c + d) * 6)", 0)
  {}

  lemma DeepProductOfNamesRight()
    ensures PrettyAt(MultExpr(NumExpr(5), VarExpr("f")), GroupAdd, Layout("((c + d) * 6)" + " * ", 0))
         == Layout("((c + d) * 6) * 5 * f", 0)
  {}

  /** Expr.cpp:755: the same with names and a sum inside. */
  lemma PrettyDeepProductOfNames()
    ensures PrettyString(MultExpr(MultExpr(AddExpr(VarExpr("c"), VarExpr("d")), NumExpr(6)), MultExpr(NumExpr(5), VarExpr("f"))))
         == "((c + d) * 6) * 5 * f"
  {
    var left := MultExpr(AddExpr(VarExpr("c"), VarExpr("d")), NumExpr(6));
    var right := MultExpr(NumExpr(5), VarExpr("f"));
    PrettyTopIsPrettyAtNone(MultExpr(left, right), []);
    DeepProductOfNamesLeft();
    DeepProductOfNamesRight();
    ProductPrintsAs(left, right, GroupNone, false, GroupAdd, Layout([], 0),
                    "((c + d) * 6)", 0, "((c + d) * 6) * 5 * f", 0);
  }

  // ---------------------------------------------------------------- composing a layout

  // The multi-line samples are proved one node at a time: a lemma per `_let` or `_if` node
  // gives its layout with the text built the way the printer appends it, and a last lemma
  // shows that text equal to the expected string, written line by line.

  /** What a node writes before its first operand or keyword: `(` when it is parenthesised. */
  function Opening(paren: bool, l: Layout): string
  {
    if paren then l.out + "(" else l.out
  }

  /** A `+` node's layout, from the layouts of its two operands. */
  lemma SumPrintsAs(lhs: Expr, rhs: Expr, mode: PrintMode, paren: bool, l: Layout,
                    left: string, leftPos: int, done: string, pos: int)
    requires paren == (mode == GroupAddOrLet || mode == GroupAdd || mode == GroupAddOrMultOrLet)
    requires PrettyAt(lhs, GroupAddOrLet, Layout(Opening(paren, l), l.pos)) == Layout(left, leftPos)
    requires PrettyAt(rhs, GroupAddOrEq, Layout(left + " + ", leftPos)) == Layout(done, pos)
    ensures PrettyAt(AddExpr(lhs, rhs), mode, l) == Layout(if paren then done + ")" else done, pos)
  {
    assert l.out + Open(paren) == Opening(paren, l);
    assert done + Close(paren) == if paren then done + ")" else done;
  }

  /** A `*` node's layout, from the layouts of its two operands. */
  lemma ProductPrintsAs(lhs: Expr, rhs: Expr, mode: PrintMode, paren: bool, rhsMode: PrintMode, l: Layout,
                        left: string, leftPos: int, done: string, pos: int)
    requires paren == (mode == GroupAddOrMultOrLet)
    requires rhsMode == if mode == GroupAddOrLet then GroupAddOrLet else GroupAdd
    requires PrettyAt(lhs, GroupAddOrMultOrLet, Layout(Opening(paren, l), l.pos)) == Layout(left, leftPos)
    requires PrettyAt(rhs, rhsMode, Layout(left + " * ", leftPos)) == Layout(done, pos)
    ensures PrettyAt(MultExpr(lhs, rhs), mode, l) == Layout(if paren then done + ")" else done, pos)
  {
    assert l.out + Open(paren) == Opening(paren, l);
    assert done + Close(paren) == if paren then done + ")" else done;
  }

  /** An `==` node's layout, from the layouts of its two operands. */
  lemma EqualityPrintsAs(lhs: Expr, rhs: Expr, mode: PrintMode, paren: bool, l: Layout,
                         left: string, leftPos: int, done: string, pos: int)
    requires paren == (mode != GroupNone)
    requires PrettyAt(lhs, GroupEq, Layout(Opening(paren, l), l.pos)) == Layout(left, leftPos)
    requires PrettyAt(rhs, GroupNone, Layout(left + " == ", leftPos)) == Layout(done, pos)
    ensures PrettyAt(EqExpr(lhs, rhs), mode, l) == Layout(if paren then done + ")" else done, pos)
  {
    assert l.out + Open(paren) == Opening(paren, l);
    assert done + Close(paren) == if paren then done + ")" else done;
  }

  /** A `_let` node's layout, from the layouts of its right-hand side and its body. */
  lemma LetPrintsAs(e: Expr, mode: PrintMode, paren: bool, l: Layout, head: string, afterRhs: string, rhsPos: int,
                    line: string, done: string, pos: int)
    requires e.LetExpr? && paren == WrapsLetOrIf(mode)
    requires head == Opening(paren, l) + "_let " + e.letVar + " = "
    requires PrettyAt(e.letRhs, GroupNone, Layout(head, l.pos)) == Layout(afterRhs, rhsPos)
    requires line == afterRhs + "\n" + Spaces(|Opening(paren, l)| - l.pos) + "_in  "
    requires PrettyAt(e.body, GroupNone, Layout(line, |afterRhs| + 1)) == Layout(done, pos)
    ensures PrettyAt(e, mode, l) == Layout(if paren then done + ")" else done, pos)
  {
    var o1 := l.out + Open(paren);
    assert o1 == Opening(paren, l);
    assert o1 + "_let " + e.letVar + " = " == head;
    LinePrintsAs(e, afterRhs, |o1| - l.pos, "_in  ", e.body, line, done, pos);
    assert PrettyLet(e, paren, l) == Layout(done + Close(paren), pos);
    assert done + Close(paren) == if paren then done + ")" else done;
  }

  /** An `_if` node's layout, from the layouts of its three parts. */
  lemma IfPrintsAs(e: Expr, mode: PrintMode, paren: bool, l: Layout, head: string, afterTest: string, testPos: int,
                   thenLine: string, afterThen: string, thenPos: int, elseLine: string, done: string, pos: int)
    requires e.IfExpr? && paren == WrapsLetOrIf(mode)
    requires head == Opening(paren, l) + "_if "
    requires PrettyAt(e.testPart, GroupNone, Layout(head, l.pos)) == Layout(afterTest, testPos)
    requires thenLine == afterTest + "\n" + Spaces(|Opening(paren, l)| - l.pos) + "_then "
    requires PrettyAt(e.thenPart, GroupNone, Layout(thenLine, |afterTest| + 1)) == Layout(afterThen, thenPos)
    requires elseLine == afterThen + "\n" + Spaces(|Opening(paren, l)| - l.pos) + "_else "
    requires PrettyAt(e.elsePart, GroupNone, Layout(elseLine, |afterThen| + 1)) == Layout(done, pos)
    ensures PrettyAt(e, mode, l) == Layout(if paren then done + ")" else done, pos)
  {
    var o1 := l.out + Open(paren);
    assert o1 == Opening(paren, l);
    assert o1 + "_if " == head;
    LinePrintsAs(e, afterTest, |o1| - l.pos, "_then ", e.thenPart, thenLine, afterThen, thenPos);
    LinePrintsAs(e, afterThen, |o1| - l.pos, "_else ", e.elsePart, elseLine, done, pos);
    assert PrettyIf(e, paren, l) == Layout(done + Close(paren), pos);
    assert done + Close(paren) == if paren then done + ")" else done;
  }

  /** A continuation line's layout, from the layout of its sub-expression. */
  lemma LinePrintsAs(e: Expr, o: string, spaces: int, keyword: string, sub: Expr, line: string, done: string, pos: int)
    requires sub < e && line == o + "\n" + Spaces(spaces) + keyword
    requires PrettyAt(sub, GroupNone, Layout(line, |o| + 1)) == Layout(done, pos)
    ensures PrettyLine(e, o, spaces, keyword, sub) == Layout(done, pos)
  {
    assert |o + "\n"| == |o| + 1;
  }

  // ---------------------------------------------------------------- Expr.cpp:600

  lemma LetInProductLet()
    ensures PrettyAt(LetExpr("x", NumExpr(5), VarExpr("x")), GroupAddOrLet, Layout("5" + " * ", 0))
         == Layout("5" + " * " + "(" + "_let " + "x" + " = " + "5" + "\n" + "     " + "_in  " + "x" + ")", 16)
  {
    var h := "5" + " * " + "(" + "_let " + "x" + " = ";
    assert IntToString(5) == "5" && Spaces(5) == "     ";
    LetPrintsAs(LetExpr("x", NumExpr(5), VarExpr("x")), GroupAddOrLet, true, Layout("5" + " * ", 0), h, h + "5", 0,
                h + "5" + "\n" + "     " + "_in  ", h + "5" + "\n" + "     " + "_in  " + "x", 16);
  }

  lemma LetInProductLayout()
    ensures PrettyAt(AddExpr(MultExpr(NumExpr(5), LetExpr("x", NumExpr(5), VarExpr("x"))), NumExpr(1)), GroupNone, Layout([], 0))
         == Layout("5" + " * " + "(" + "_let " + "x" + " = " + "5" + "\n" + "     " + "_in  " + "x" + ")" + " + " + "1", 16)
  {
    var s := "5" + " * " + "(" + "_let " + "x" + " = " + "5" + "\n" + "     " + "_in  " + "x" + ")";
    LetInProductLet();
    assert IntToString(5) == "5" && IntToString(1) == "1";
    ProductPrintsAs(NumExpr(5), LetExpr("x", NumExpr(5), VarExpr("x")), GroupAddOrLet, false, GroupAddOrLet, Layout([], 0),
                    "5", 0, s, 16);
    SumPrintsAs(MultExpr(NumExpr(5), LetExpr("x", NumExpr(5), VarExpr("x"))), NumExpr(1), GroupNone, false, Layout([], 0),
                s, 16, s + " + " + "1", 16);
  }

  /** Expr.cpp:600: the `_in` under a parenthesised `_let` lines up with `_let`, one column
      right of the `(`. */
  lemma PrettyLetInProduct()
    ensures PrettyString(AddExpr(MultExpr(NumExpr(5), LetExpr("x", NumExpr(5), VarExpr("x"))), NumExpr(1)))
         == "5 * (_let x = 5\n" + "     _in  x) + 1"
  {
    PrettyTopIsPrettyAtNone(AddExpr(MultExpr(NumExpr(5), LetExpr("x", NumExpr(5), VarExpr("x"))), NumExpr(1)), []);
    LetInProductLayout();
    LetInProductText();
  }

  lemma LetInProductText()
    ensures "5" + " * " + "(" + "_let " + "x" + " = " + "5" + "\n" + "     " + "_in  " + "x" + ")" + " + " + "1"
         == "5 * (_let x = 5\n" + "     _in  x) + 1"
  {
    assert "5" + " * " + "(" + "_let " + "x" + " = " + "5" + "\n" == "5 * (_let x = 5\n";
  }

  // ---------------------------------------------------------------- Expr.cpp:605

  lemma LetAsFactorLet()
    ensures PrettyAt(LetExpr("x", NumExpr(5), AddExpr(VarExpr("x"), NumExpr(1))), GroupAdd, Layout("5" + " * ", 0))
         == Layout("5" + " * " + "_let " + "x" + " = " + "5" + "\n" + "    " + "_in  " + "x" + " + " + "1", 15)
  {
    var h := "5" + " * " + "_let " + "x" + " = ";
    var line := h + "5" + "\n" + "    " + "_in  ";
    assert IntToString(5) == "5" && IntToString(1) == "1" && Spaces(4) == "    ";
    SumPrintsAs(VarExpr("x"), NumExpr(1), GroupNone, false, Layout(line, 15), line + "x", 15, line + "x" + " + " + "1", 15);
    LetPrintsAs(LetExpr("x", NumExpr(5), AddExpr(VarExpr("x"), NumExpr(1))), GroupAdd, false, Layout("5" + " * ", 0),
                h, h + "5", 0, line, line + "x" + " + " + "1", 15);
  }

  lemma LetAsFactorText()
    ensures "5" + " * " + "_let " + "x" + " = " + "5" + "\n" + "    " + "_in  " + "x" + " + " + "1"
         == "5 * _let x = 5\n" + "    _in  x + 1"
  {
    assert "5" + " * " + "_let " + "x" + " = " + "5" + "\n" == "5 * _let x = 5\n";
  }

  /** Expr.cpp:605: a `_let` as the right operand of `*` is not parenthesised, and its `_in`
      lines up with it. */
  lemma PrettyLetAsFactor()
    ensures PrettyString(MultExpr(NumExpr(5), LetExpr("x", NumExpr(5), AddExpr(VarExpr("x"), NumExpr(1)))))
         == "5 * _let x = 5\n" + "    _in  x + 1"
  {
    PrettyTopIsPrettyAtNone(MultExpr(NumExpr(5), LetExpr("x", NumExpr(5), AddExpr(VarExpr("x"), NumExpr(1)))), []);
    LetAsFactorLet();
    assert IntToString(5) == "5";
    ProductPrintsAs(NumExpr(5), LetExpr("x", NumExpr(5), AddExpr(VarExpr("x"), NumExpr(1))), GroupNone, false, GroupAdd,
                    Layout([], 0), "5", 0,
                    "5" + " * " + "_let " + "x" + " = " + "5" + "\n" + "    " + "_in  " + "x" + " + " + "1", 15);
    LetAsFactorText();
  }

  // ---------------------------------------------------------------- Expr.cpp:610

  lemma NestedLetInner()
    ensures PrettyAt(LetExpr("x", NumExpr(1), AddExpr(VarExpr("x"), NumExpr(3))), GroupNone,
                     Layout("_let " + "x" + " = " + "5" + "\n" + "_in  ", 11))
         == Layout("_let " + "x" + " = " + "5" + "\n" + "_in  " + "_let " + "x" + " = " + "1" + "\n" + "     " + "_in  "
                   + "x" + " + " + "3", 27)
  {
    var h := "_let " + "x" + " = " + "5" + "\n" + "_in  " + "_let " + "x" + " = ";
    var line := h + "1" + "\n" + "     " + "_in  ";
    assert IntToString(1) == "1" && IntToString(3) == "3" && Spaces(5) == "     ";
    SumPrintsAs(VarExpr("x"), NumExpr(3), GroupNone, false, Layout(line, 27), line + "x", 27, line + "x" + " + " + "3", 27);
    LetPrintsAs(LetExpr("x", NumExpr(1), AddExpr(VarExpr("x"), NumExpr(3))), GroupNone, false,
                Layout("_let " + "x" + " = " + "5" + "\n" + "_in  ", 11), h, h + "1", 11, line, line + "x" + " + " + "3", 27);
  }

  lemma NestedLetText()
    ensures "_let " + "x" + " = " + "5" + "\n" + "_in  " + "_let " + "x" + " = " + "1" + "\n" + "     " + "_in  "
            + "x" + " + " + "3"
         == "_let x = 5\n" + "_in  _let x = 1\n" + "     _in  x + 3"
  {
    assert "_let " + "x" + " = " + "5" + "\n" == "_let x = 5\n";
    assert "_let x = 5\n" + "_in  " + "_let " + "x" + " = " + "1" + "\n" == "_let x = 5\n" + "_in  _let x = 1\n";
  }

  lemma NestedLetLayout()
    ensures PrettyAt(LetExpr("x", NumExpr(5), LetExpr("x", NumExpr(1), AddExpr(VarExpr("x"), NumExpr(3)))), GroupNone, Layout([], 0))
         == Layout("_let " + "x" + " = " + "5" + "\n" + "_in  " + "_let " + "x" + " = " + "1" + "\n" + "     " + "_in  "
                   + "x" + " + " + "3", 27)
  {
    NestedLetInner();
    assert IntToString(5) == "5" && Spaces(0) == [];
    LetPrintsAs(LetExpr("x", NumExpr(5), LetExpr("x", NumExpr(1), AddExpr(VarExpr("x"), NumExpr(3)))), GroupNone, false,
                Layout([], 0), "_let " + "x" + " = ", "_let " + "x" + " = " + "5", 0,
                "_let " + "x" + " = " + "5" + "\n" + "_in  ",
                "_let " + "x" + " = " + "5" + "\n" + "_in  " + "_let " + "x" + " = " + "1" + "\n" + "     " + "_in  "
                + "x" + " + " + "3", 27);
  }

  /** Expr.cpp:610: a `_let` in the body of a `_let` indents its own `_in` to its own column. */
  lemma PrettyNestedLet()
    ensures PrettyString(LetExpr("x", NumExpr(5), LetExpr("x", NumExpr(1), AddExpr(VarExpr("x"), NumExpr(3)))))
         == "_let x = 5\n" + "_in  _let x = 1\n" + "     _in  x + 3"
  {
    PrettyTopIsPrettyAtNone(LetExpr("x", NumExpr(5), LetExpr("x", NumExpr(1), AddExpr(VarExpr("x"), NumExpr(3)))), []);
    NestedLetLayout();
    NestedLetText();
  }

  // ---------------------------------------------------------------- Expr.cpp:620

  lemma LetInSumInLetInner()
    ensures PrettyAt(LetExpr("y", NumExpr(3), AddExpr(VarExpr("y"), NumExpr(2))), GroupAddOrLet,
                     Layout("_let " + "x" + " = " + "5" + "\n" + "_in  ", 11))
         == Layout("_let " + "x" + " = " + "5" + "\n" + "_in  " + "(" + "_let " + "y" + " = " + "3" + "\n" + "      " + "_in  "
                   + "y" + " + " + "2" + ")", 28)
  {
    var h := "_let " + "x" + " = " + "5" + "\n" + "_in  " + "(" + "_let " + "y" + " = ";
    var line := h + "3" + "\n" + "      " + "_in  ";
    assert IntToString(3) == "3" && IntToString(2) == "2" && Spaces(6) == "      ";
    SumPrintsAs(VarExpr("y"), NumExpr(2), GroupNone, false, Layout(line, 28), line + "y", 28, line + "y" + " + " + "2", 28);
    LetPrintsAs(LetExpr("y", NumExpr(3), AddExpr(VarExpr("y"), NumExpr(2))), GroupAddOrLet, true,
                Layout("_let " + "x" + " = " + "5" + "\n" + "_in  ", 11), h, h + "3", 11, line, line + "y" + " + " + "2", 28);
  }

  lemma LetInSumInLetBody()
    ensures PrettyAt(AddExpr(LetExpr("y", NumExpr(3), AddExpr(VarExpr("y"), NumExpr(2))), VarExpr("x")), GroupNone,
                     Layout("_let " + "x" + " = " + "5" + "\n" + "_in  ", 11))
         == Layout("_let " + "x" + " = " + "5" + "\n" + "_in  " + "(" + "_let " + "y" + " = " + "3" + "\n" + "      " + "_in  "
                   + "y" + " + " + "2" + ")" + " + " + "x", 28)
  {
    var left := "_let " + "x" + " = " + "5" + "\n" + "_in  " + "(" + "_let " + "y" + " = " + "3" + "\n" + "      " + "_in  "
                + "y" + " + " + "2" + ")";
    LetInSumInLetInner();
    SumPrintsAs(LetExpr("y", NumExpr(3), AddExpr(VarExpr("y"), NumExpr(2))), VarExpr("x"), GroupNone, false,
                Layout("_let " + "x" + " = " + "5" + "\n" + "_in  ", 11), left, 28, left + " + " + "x", 28);
  }

  lemma LetInSumInLetText()
    ensures "_let " + "x" + " = " + "5" + "\n" + "_in  " + "(" + "_let " + "y" + " = " + "3" + "\n" + "      " + "_in  "
            + "y" + " + " + "2" + ")" + " + " + "x"
         == "_let x = 5\n" + "_in  (_let y = 3\n" + "      _in  y + 2) + x"
  {
    var a := "_let " + "x" + " = " + "5" + "\n";
    assert a == "_let x = 5\n";
    var b := a + "_in  " + "(" + "_let " + "y" + " = " + "3" + "\n";
    assert b == "_let x = 5\n" + "_in  (_let y = 3\n";
  }

  lemma LetInSumInLetLayout()
    ensures PrettyAt(LetExpr("x", NumExpr(5), AddExpr(LetExpr("y", NumExpr(3), AddExpr(VarExpr("y"), NumExpr(2))), VarExpr("x"))),
                     GroupNone, Layout([], 0))
         == Layout("_let " + "x" + " = " + "5" + "\n" + "_in  " + "(" + "_let " + "y" + " = " + "3" + "\n" + "      " + "_in  "
                   + "y" + " + " + "2" + ")" + " + " + "x", 28)
  {
    LetInSumInLetBody();
    assert IntToString(5) == "5" && Spaces(0) == [];
    LetPrintsAs(LetExpr("x", NumExpr(5), AddExpr(LetExpr("y", NumExpr(3), AddExpr(VarExpr("y"), NumExpr(2))), VarExpr("x"))),
                GroupNone, false, Layout([], 0), "_let " + "x" + " = ", "_let " + "x" + " = " + "5", 0,
                "_let " + "x" + " = " + "5" + "\n" + "_in  ",
                "_let " + "x" + " = " + "5" + "\n" + "_in  " + "(" + "_let " + "y" + " = " + "3" + "\n" + "      " + "_in  "
                + "y" + " + " + "2" + ")" + " + " + "x", 28);
  }

  /** Expr.cpp:620: a `_let` on the left of `+` inside a `_let` body is parenthesised, and its
      `_in` lines up with it, one column right of the `(`. */
  lemma PrettyLetInSumInLet()
    ensures PrettyString(LetExpr("x", NumExpr(5), AddExpr(LetExpr("y", NumExpr(3), AddExpr(VarExpr("y"), NumExpr(2))), VarExpr("x"))))
         == "_let x = 5\n" + "_in  (_let y = 3\n" + "      _in  y + 2) + x"
  {
    PrettyTopIsPrettyAtNone(LetExpr("x", NumExpr(5), AddExpr(LetExpr("y", NumExpr(3), AddExpr(VarExpr("y"), NumExpr(2))), VarExpr("x"))), []);
    LetInSumInLetLayout();
    LetInSumInLetText();
  }

  // ---------------------------------------------------------------- Expr.cpp:632

  lemma LetsAroundEqualityLeft()
    ensures PrettyAt(LetExpr("x", NumExpr(5), VarExpr("x")), GroupEq, Layout([], 0))
         == Layout("(" + "_let " + "x" + " = " + "5" + "\n" + " " + "_in  " + "x" + ")", 12)
  {
    var h := "(" + "_let " + "x" + " = ";
    assert IntToString(5) == "5" && Spaces(1) == " ";
    LetPrintsAs(LetExpr("x", NumExpr(5), VarExpr("x")), GroupEq, true, Layout([], 0), h, h + "5", 0,
                h + "5" + "\n" + " " + "_in  ", h + "5" + "\n" + " " + "_in  " + "x", 12);
  }

  lemma LetsAroundEqualityRight()
    ensures PrettyAt(LetExpr("x", NumExpr(5), VarExpr("x")), GroupNone,
                     Layout("(" + "_let " + "x" + " = " + "5" + "\n" + " " + "_in  " + "x" + ")" + " == ", 12))
         == Layout("(" + "_let " + "x" + " = " + "5" + "\n" + " " + "_in  " + "x" + ")" + " == "
                   + "_let " + "x" + " = " + "5" + "\n" + "            " + "_in  " + "x", 35)
  {
    var h := "(" + "_let " + "x" + " = " + "5" + "\n" + " " + "_in  " + "x" + ")" + " == " + "_let " + "x" + " = ";
    assert IntToString(5) == "5" && Spaces(12) == "            ";
    LetPrintsAs(LetExpr("x", NumExpr(5), VarExpr("x")), GroupNone, false,
                Layout("(" + "_let " + "x" + " = " + "5" + "\n" + " " + "_in  " + "x" + ")" + " == ", 12),
                h, h + "5", 12, h + "5" + "\n" + "            " + "_in  ", h + "5" + "\n" + "            " + "_in  " + "x", 35);
  }

  lemma LetsAroundEqualityText()
    ensures "(" + "_let " + "x" + " = " + "5" + "\n" + " " + "_in  " + "x" + ")" + " == "
            + "_let " + "x" + " = " + "5" + "\n" + "            " + "_in  " + "x"
         == "(_let x = 5\n" + " _in  x) == _let x = 5\n" + "            _in  x"
  {
    assert "(" + "_let " + "x" + " = " + "5" + "\n" == "(_let x = 5\n";
    assert "(_let x = 5\n" + " " + "_in  " + "x" + ")" + " == " + "_let " + "x" + " = " + "5" + "\n"
        == "(_let x = 5\n" + " _in  x) == _let x = 5\n";
  }

  /** Expr.cpp:632: a `_let` on the left of `==` is parenthesised; the one on the right is not,
      and its `_in` lines up with it, past the closing `)` of the first. */
  lemma PrettyLetsAroundEquality()
    ensures PrettyString(EqExpr(LetExpr("x", NumExpr(5), VarExpr("x")), LetExpr("x", NumExpr(5), VarExpr("x"))))
         == "(_let x = 5\n" + " _in  x) == _let x = 5\n" + "            _in  x"
  {
    PrettyTopIsPrettyAtNone(EqExpr(LetExpr("x", NumExpr(5), VarExpr("x")), LetExpr("x", NumExpr(5), VarExpr("x"))), []);
    LetsAroundEqualityLeft();
    LetsAroundEqualityRight();
    EqualityPrintsAs(LetExpr("x", NumExpr(5), VarExpr("x")), LetExpr("x", NumExpr(5), VarExpr("x")), GroupNone, false,
                     Layout([], 0), "(" + "_let " + "x" + " = " + "5" + "\n" + " " + "_in  " + "x" + ")", 12,
                     "(" + "_let " + "x" + " = " + "5" + "\n" + " " + "_in  " + "x" + ")" + " == "
                     + "_let " + "x" + " = " + "5" + "\n" + "            " + "_in  " + "x", 35);
    LetsAroundEqualityText();
  }

  // ---------------------------------------------------------------- Expr.cpp:809

  lemma IfAsTestInner()
    ensures PrettyAt(IfExpr(EqExpr(NumExpr(3), NumExpr(4)), BoolExpr(false), BoolExpr(true)), GroupNone, Layout("_if ", 0))
         == Layout("_if " + "_if " + "3" + " == " + "4" + "\n" + "    " + "_then " + "_false" + "\n" + "    " + "_else " + "_true", 32)
  {
    var a := "_if " + "_if " + "3" + " == " + "4";
    var b := a + "\n" + "    " + "_then " + "_false";
    assert IntToString(3) == "3" && IntToString(4) == "4" && Spaces(4) == "    ";
    EqualityPrintsAs(NumExpr(3), NumExpr(4), GroupNone, false, Layout("_if " + "_if ", 0), "_if " + "_if " + "3", 0, a, 0);
    IfPrintsAs(IfExpr(EqExpr(NumExpr(3), NumExpr(4)), BoolExpr(false), BoolExpr(true)), GroupNone, false, Layout("_if ", 0),
               "_if " + "_if ", a, 0, a + "\n" + "    " + "_then ", b, 15, b + "\n" + "    " + "_else ",
               b + "\n" + "    " + "_else " + "_true", 32);
  }

  lemma IfAsTestText()
    ensures "_if " + "_if " + "3" + " == " + "4" + "\n" + "    " + "_then " + "_false" + "\n" + "    " + "_else " + "_true"
            + "\n" + "_then " + "5" + "\n" + "_else " + "6"
         == "_if _if 3 == 4\n" + "    _then _false\n" + "    _else _true\n" + "_then 5\n" + "_else 6"
  {
    var a := "_if " + "_if " + "3" + " == " + "4" + "\n";
    assert a == "_if _if 3 == 4\n";
    var b := a + "    " + "_then " + "_false" + "\n";
    assert b == "_if _if 3 == 4\n" + "    _then _false\n";
    var c := b + "    " + "_else " + "_true" + "\n";
    assert c == "_if _if 3 == 4\n" + "    _then _false\n" + "    _else _true\n";
    var d := c + "_then " + "5" + "\n";
    assert d == "_if _if 3 == 4\n" + "    _then _false\n" + "    _else _true\n" + "_then 5\n";
  }

  lemma IfAsTestLayout()
    ensures PrettyAt(IfExpr(IfExpr(EqExpr(NumExpr(3), NumExpr(4)), BoolExpr(false), BoolExpr(true)), NumExpr(5), NumExpr(6)),
                     GroupNone, Layout([], 0))
         == Layout("_if " + "_if " + "3" + " == " + "4" + "\n" + "    " + "_then " + "_false" + "\n" + "    " + "_else " + "_true"
                   + "\n" + "_then " + "5" + "\n" + "_else " + "6", 56)
  {
    var a := "_if " + "_if " + "3" + " == " + "4" + "\n" + "    " + "_then " + "_false" + "\n" + "    " + "_else " + "_true";
    IfAsTestInner();
    assert IntToString(5) == "5" && IntToString(6) == "6" && Spaces(0) == [];
    IfPrintsAs(IfExpr(IfExpr(EqExpr(NumExpr(3), NumExpr(4)), BoolExpr(false), BoolExpr(true)), NumExpr(5), NumExpr(6)),
               GroupNone, false, Layout([], 0), "_if ", a, 32, a + "\n" + "_then ", a + "\n" + "_then " + "5", 48,
               a + "\n" + "_then " + "5" + "\n" + "_else ", a + "\n" + "_then " + "5" + "\n" + "_else " + "6", 56);
  }

  /** Expr.cpp:809: an `_if` as the test of an `_if` indents its `_then` and `_else` to its own
      column, and the outer ones start their lines. */
  lemma PrettyIfAsTest()
    ensures PrettyString(IfExpr(IfExpr(EqExpr(NumExpr(3), NumExpr(4)), BoolExpr(false), BoolExpr(true)), NumExpr(5), NumExpr(6)))
         == "_if _if 3 == 4\n" + "    _then _false\n" + "    _else _true\n" + "_then 5\n" + "_else 6"
  {
    PrettyTopIsPrettyAtNone(IfExpr(IfExpr(EqExpr(NumExpr(3), NumExpr(4)), BoolExpr(false), BoolExpr(true)), NumExpr(5), NumExpr(6)), []);
    IfAsTestLayout();
    IfAsTestText();
  }
}
