/** The two printers of Expr.cpp: `print`, fully parenthesised on one line, and
    `pretty_print` / `pretty_print_at`, which drops the parentheses that precedence makes
    unnecessary and lays `_let` and `_if` out over several aligned lines. */
module Printer {
  import opened Ast
  import opened Values
  import opened Chars

  // ---------------------------------------------------------------- numbers

  /** The decimal digits of a natural number, as `operator<<` writes them. */
  function NatToString(n: nat): (s: string)
    ensures |s| >= 1 && AllDigits(s) && DigitsValue(s) == n
    ensures s[0] == '0' ==> s == "0"
  {
    if n < 10 then [DigitChar(n)]
    else
      var s := NatToString(n / 10) + [DigitChar(n % 10)];
      assert s[..|s| - 1] == NatToString(n / 10);
      s
  }

  /** `operator<<` on an `int`: a minus sign for a negative number, then its digits. */
  function IntToString(i: int): (s: string)
    ensures |s| >= 1 && (s[0] == '-' <==> i < 0)
    ensures i < 0 ==> AllDigits(s[1..]) && DigitsValue(s[1..]) == -i
    ensures i >= 0 ==> AllDigits(s) && DigitsValue(s) == i
  {
    if i < 0 then "-" + NatToString(-i) else NatToString(i)
  }

  /** `NumVal::print` (the other values' `print` is not part of this model). */
  function PrintVal(v: Val): (s: string)
    requires v.NumVal?
    ensures s == IntToString(v.num)
  {
    IntToString(v.num)
  }

  // ---------------------------------------------------------------- print

  /** `Expr::print` (and `to_string`, which prints into an empty buffer). */
  function Print(e: Expr): (s: string)
    // every operator, `_let`, `_if` and `_fun` is wrapped in its own parentheses
    ensures !(e.NumExpr? || e.VarExpr? || e.BoolExpr? || e.CallExpr?) ==>
            |s| >= 2 && s[0] == '(' && s[|s| - 1] == ')'
  {
    match e
    case NumExpr(n) => IntToString(n)
    case AddExpr(l, r) => "(" + Print(l) + "+" + Print(r) + ")"
    case MultExpr(l, r) => "(" + Print(l) + "*" + Print(r) + ")"
    case VarExpr(x) => x
    case LetExpr(x, rhs, body) => "(_let " + x + "=" + Print(rhs) + " _in " + Print(body) + ")"
    case BoolExpr(b) => if b then "_true" else "_false"
    case EqExpr(l, r) => "(" + Print(l) + "==" + Print(r) + ")"
    case IfExpr(t, th, el) => "(_if " + Print(t) + " _then " + Print(th) + " _else " + Print(el) + ")"
    case FunExpr(x, body) => "(_fun (" + x + ") " + Print(body) + ")"
    case CallExpr(f, arg) => Print(f) + "(" + Print(arg) + ")"
  }

  // ---------------------------------------------------------------- pretty print

  /** `print_mode_t`: what surrounds the sub-expression being printed, which decides
      whether it needs parentheses. */
  datatype PrintMode =
    | GroupNone
    | GroupAdd
    | GroupAddOrLet
    | GroupAddOrMultOrLet
    | GroupAddOrEq
    | GroupEq

  /** The output stream written so far (its length is `tellp()`) and the value of the
      shared `*pos` cell: where the current line of the layout began. */
  datatype Layout = Layout(out: string, pos: int)

  /** `n` blanks, or none when `n` is not positive (the `for` loop then does not run). */
  function Spaces(n: int): (s: string)
    ensures |s| == (if n > 0 then n else 0)
    ensures forall i :: 0 <= i < |s| ==> s[i] == ' '
    decreases n
  {
    if n <= 0 then [] else Spaces(n - 1) + " "
  }

  function Open(paren: bool): string { if paren then "(" else "" }

  function Close(paren: bool): string { if paren then ")" else "" }

  /** The modes in which `_let` and `_if` are parenthesised. */
  predicate WrapsLetOrIf(mode: PrintMode)
  {
    mode == GroupEq || mode == GroupAddOrLet || mode == GroupAddOrMultOrLet
  }

  /** `Expr::pretty_print_at(output, mode, pos)`: appends to the output, and moves `pos`
      only to just after a newline it wrote itself. `_fun` and call nodes print nothing:
      their bodies are commented out. */
  function PrettyAt(e: Expr, mode: PrintMode, l: Layout): (r: Layout)
    decreases e, 2
  {
    match e
    case NumExpr(n) => Layout(l.out + IntToString(n), l.pos)
    case VarExpr(x) => Layout(l.out + x, l.pos)
    case BoolExpr(b) => Layout(l.out + (if b then "_true" else "_false"), l.pos)
    case AddExpr(lhs, rhs) =>
      var paren := mode == GroupAddOrLet || mode == GroupAdd || mode == GroupAddOrMultOrLet;
      PrettyBinary(e, lhs, GroupAddOrLet, " + ", rhs, GroupAddOrEq, paren, l)
    case MultExpr(lhs, rhs) =>
      var rhsMode := if mode == GroupAddOrLet then GroupAddOrLet else GroupAdd;
      PrettyBinary(e, lhs, GroupAddOrMultOrLet, " * ", rhs, rhsMode, mode == GroupAddOrMultOrLet, l)
    case EqExpr(lhs, rhs) =>
      PrettyBinary(e, lhs, GroupEq, " == ", rhs, GroupNone, mode != GroupNone, l)
    case LetExpr(x, rhs, body) => PrettyLet(e, WrapsLetOrIf(mode), l)
    case IfExpr(test, thenPart, elsePart) => PrettyIf(e, WrapsLetOrIf(mode), l)
    case FunExpr(_, _) => l
    case CallExpr(_, _) => l
  }

  /** `+`, `*` and `==`: optional parentheses around the left operand, the operator and
      the right operand, each operand printed in the mode its context gives it. */
  function PrettyBinary(e: Expr, lhs: Expr, lhsMode: PrintMode, op: string, rhs: Expr, rhsMode: PrintMode,
                        paren: bool, l: Layout): (r: Layout)
    requires lhs < e && rhs < e
    decreases e, 0
  {
    var l1 := PrettyAt(lhs, lhsMode, Layout(l.out + Open(paren), l.pos));
    var l2 := PrettyAt(rhs, rhsMode, Layout(l1.out + op, l1.pos));
    Layout(l2.out + Close(paren), l2.pos)
  }

  /** `LetExpr::pretty_print_at`: `_in` goes on a new line, preceded by as many blanks as
      `_let` stood to the right of `*pos`. */
  function PrettyLet(e: Expr, paren: bool, l: Layout): (r: Layout)
    requires e.LetExpr?
    decreases e, 1
  {
    var o1 := l.out + Open(paren);
    var spaces := |o1| - l.pos;
    var l1 := PrettyAt(e.letRhs, GroupNone, Layout(o1 + "_let " + e.letVar + " = ", l.pos));
    var l2 := PrettyLine(e, l1.out, spaces, "_in  ", e.body);
    Layout(l2.out + Close(paren), l2.pos)
  }

  /** `IfExpr::pretty_print_at`: `_then` and `_else` go on new lines, indented like `_in`. */
  function PrettyIf(e: Expr, paren: bool, l: Layout): (r: Layout)
    requires e.IfExpr?
    decreases e, 1
  {
    var o1 := l.out + Open(paren);
    var spaces := |o1| - l.pos;
    var l1 := PrettyAt(e.testPart, GroupNone, Layout(o1 + "_if ", l.pos));
    var l2 := PrettyLine(e, l1.out, spaces, "_then ", e.thenPart);
    var l3 := PrettyLine(e, l2.out, spaces, "_else ", e.elsePart);
    Layout(l3.out + Close(paren), l3.pos)
  }

  /** A continuation line of `_let` or `_if`: a newline, after which `*pos` is set, the
      indentation, the keyword, and the sub-expression in mode `print_group_none`. */
  function PrettyLine(e: Expr, o: string, spaces: int, keyword: string, sub: Expr): (r: Layout)
    requires sub < e
    decreases e, 0
  {
    var o2 := o + "\n";
    PrettyAt(sub, GroupNone, Layout(o2 + Spaces(spaces) + keyword, |o2|))
  }

  /** `Expr::pretty_print(output)`: each variant starts its own `pos` at 0 and prints its
      top level without parentheses; `_let` and `_if` put no blanks before `_in`,
      `_then` and `_else`. */
  function PrettyTop(e: Expr, out: string): string
  {
    match e
    case NumExpr(_) => PrettyAt(e, GroupNone, Layout(out, 0)).out
    case BoolExpr(_) => PrettyAt(e, GroupNone, Layout(out, 0)).out
    case VarExpr(x) => out + x
    case AddExpr(lhs, rhs) =>
      PrettyBinary(e, lhs, GroupAddOrLet, " + ", rhs, GroupAddOrEq, false, Layout(out, 0)).out
    case MultExpr(lhs, rhs) =>
      PrettyBinary(e, lhs, GroupAddOrMultOrLet, " * ", rhs, GroupAdd, false, Layout(out, 0)).out
    case EqExpr(lhs, rhs) =>
      PrettyBinary(e, lhs, GroupEq, " == ", rhs, GroupNone, false, Layout(out, 0)).out
    case LetExpr(x, rhs, body) =>
      var l1 := PrettyAt(rhs, GroupNone, Layout(out + "_let " + x + " = ", 0));
      PrettyLine(e, l1.out, 0, "_in  ", body).out
    case IfExpr(test, thenPart, elsePart) =>
      var l1 := PrettyAt(test, GroupNone, Layout(out + "_if ", 0));
      var l2 := PrettyLine(e, l1.out, 0, "_then ", thenPart);
      PrettyLine(e, l2.out, 0, "_else ", elsePart).out
    case FunExpr(_, _) => out
    case CallExpr(_, _) => out
  }

  /** `Expr::pp_to_string`: pretty print into an empty buffer. */
  function PrettyString(e: Expr): string
  {
    PrettyTop(e, [])
  }

  /** The top-level `pretty_print` is `pretty_print_at` in mode `print_group_none` with
      `pos` at 0, except that a `_let` or `_if` printed after earlier output does not indent
      its later lines. On an empty stream, as in `pp_to_string`, the two always agree. */
  lemma PrettyTopIsPrettyAtNone(e: Expr, out: string)
    requires out == [] || !(e.LetExpr? || e.IfExpr?)
    ensures PrettyTop(e, out) == PrettyAt(e, GroupNone, Layout(out, 0)).out
  {
    var l := Layout(out, 0);
    match e
    case LetExpr(x, rhs, body) =>
      assert out + Open(false) == out;
      assert PrettyAt(e, GroupNone, l) == PrettyLet(e, false, l);
    case IfExpr(_, _, _) =>
      assert out + Open(false) == out;
      assert PrettyAt(e, GroupNone, l) == PrettyIf(e, false, l);
    case _ =>
  }

  // ---------------------------------------------------------------- output and `*pos`

  /** From `l` to `r` the printer only appended to the output, and it left `pos` alone or
      moved it to just after a newline it wrote itself. */
  predicate Grows(l: Layout, r: Layout)
  {
    l.out <= r.out && (r.pos == l.pos || (|l.out| < r.pos <= |r.out| && r.out[r.pos - 1] == '\n'))
  }

  /** `pos` marks the start of a line: the start of the output or just after a newline. */
  predicate AtLineStart(l: Layout)
  {
    l.pos == 0 || (0 < l.pos <= |l.out| && l.out[l.pos - 1] == '\n')
  }

  lemma PrefixTrans(a: string, b: string, c: string)
    requires a <= b && b <= c
    ensures a <= c
  {
    assert c[..|b|][..|a|] == c[..|a|];
  }

  /** Two growing steps make one. */
  lemma GrowsTrans(a: Layout, b: Layout, c: Layout)
    requires Grows(a, b) && Grows(b, c)
    ensures Grows(a, c)
  {
    PrefixTrans(a.out, b.out, c.out);
    if c.pos == b.pos && b.pos != a.pos {
      assert c.out[..|b.out|] == b.out;
      assert c.out[b.pos - 1] == b.out[b.pos - 1];
    }
  }

  /** Appending text and leaving `pos` alone is growing. */
  lemma AppendGrows(l: Layout, more: string)
    ensures Grows(l, Layout(l.out + more, l.pos))
  {
  }

  /** Pretty printing only appends to the stream, and moves `*pos` only to just after a
      newline it wrote. */
  lemma {:induction false} PrettyAtGrows(e: Expr, mode: PrintMode, l: Layout)
    ensures Grows(l, PrettyAt(e, mode, l))
    decreases e, 2
  {
    match e
    case AddExpr(lhs, rhs) =>
      var paren := mode == GroupAddOrLet || mode == GroupAdd || mode == GroupAddOrMultOrLet;
      PrettyBinaryGrows(e, lhs, GroupAddOrLet, " + ", rhs, GroupAddOrEq, paren, l);
    case MultExpr(lhs, rhs) =>
      var rhsMode := if mode == GroupAddOrLet then GroupAddOrLet else GroupAdd;
      PrettyBinaryGrows(e, lhs, GroupAddOrMultOrLet, " * ", rhs, rhsMode, mode == GroupAddOrMultOrLet, l);
    case EqExpr(lhs, rhs) =>
      PrettyBinaryGrows(e, lhs, GroupEq, " == ", rhs, GroupNone, mode != GroupNone, l);
    case LetExpr(_, _, _) => PrettyLetGrows(e, WrapsLetOrIf(mode), l);
    case IfExpr(_, _, _) => PrettyIfGrows(e, WrapsLetOrIf(mode), l);
    case NumExpr(n) => AppendGrows(l, IntToString(n));
    case VarExpr(x) => AppendGrows(l, x);
    case BoolExpr(b) => AppendGrows(l, if b then "_true" else "_false");
    case _ =>
  }

  lemma {:induction false} PrettyBinaryGrows(e: Expr, lhs: Expr, lhsMode: PrintMode, op: string, rhs: Expr,
                                             rhsMode: PrintMode, paren: bool, l: Layout)
    requires lhs < e && rhs < e
    ensures Grows(l, PrettyBinary(e, lhs, lhsMode, op, rhs, rhsMode, paren, l))
    decreases e, 0
  {
    var l0 := Layout(l.out + Open(paren), l.pos);
    var l1 := PrettyAt(lhs, lhsMode, l0);
    var l1' := Layout(l1.out + op, l1.pos);
    var l2 := PrettyAt(rhs, rhsMode, l1');
    AppendGrows(l, Open(paren));
    PrettyAtGrows(lhs, lhsMode, l0);
    GrowsTrans(l, l0, l1);
    AppendGrows(l1, op);
    GrowsTrans(l, l1, l1');
    PrettyAtGrows(rhs, rhsMode, l1');
    GrowsTrans(l, l1', l2);
    AppendGrows(l2, Close(paren));
    GrowsTrans(l, l2, Layout(l2.out + Close(paren), l2.pos));
  }

  /** A continuation line starts with a newline after the output so far, and `*pos` ends
      up after a newline the line wrote. */
  lemma {:induction false} PrettyLineGrows(e: Expr, l: Layout, spaces: int, keyword: string, sub: Expr)
    requires sub < e
    ensures var r := PrettyLine(e, l.out, spaces, keyword, sub);
            l.out + "\n" <= r.out && |l.out| < r.pos <= |r.out| && r.out[r.pos - 1] == '\n' && Grows(l, r)
    decreases e, 0
  {
    var o := l.out;
    var o2 := o + "\n";
    var l0 := Layout(o2 + Spaces(spaces) + keyword, |o2|);
    var r := PrettyAt(sub, GroupNone, l0);
    PrettyAtGrows(sub, GroupNone, l0);
    assert o2 <= l0.out;
    PrefixTrans(o2, l0.out, r.out);
    assert r.out[|o2| - 1] == o2[|o2| - 1];
    PrefixTrans(o, o2, r.out);
  }

  lemma {:induction false} PrettyLetGrows(e: Expr, paren: bool, l: Layout)
    requires e.LetExpr?
    ensures Grows(l, PrettyLet(e, paren, l))
    decreases e, 1
  {
    var o1 := l.out + Open(paren);
    var l0 := Layout(o1 + "_let " + e.letVar + " = ", l.pos);
    var l1 := PrettyAt(e.letRhs, GroupNone, l0);
    var l2 := PrettyLine(e, l1.out, |o1| - l.pos, "_in  ", e.body);
    assert l.out <= l0.out;
    PrettyAtGrows(e.letRhs, GroupNone, l0);
    GrowsTrans(l, l0, l1);
    PrettyLineGrows(e, l1, |o1| - l.pos, "_in  ", e.body);
    GrowsTrans(l, l1, l2);
    AppendGrows(l2, Close(paren));
    GrowsTrans(l, l2, Layout(l2.out + Close(paren), l2.pos));
  }

  lemma {:induction false} PrettyIfGrows(e: Expr, paren: bool, l: Layout)
    requires e.IfExpr?
    ensures Grows(l, PrettyIf(e, paren, l))
    decreases e, 1
  {
    var o1 := l.out + Open(paren);
    var l0 := Layout(o1 + "_if ", l.pos);
    var l1 := PrettyAt(e.testPart, GroupNone, l0);
    var l2 := PrettyLine(e, l1.out, |o1| - l.pos, "_then ", e.thenPart);
    var l3 := PrettyLine(e, l2.out, |o1| - l.pos, "_else ", e.elsePart);
    assert l.out <= l0.out;
    PrettyAtGrows(e.testPart, GroupNone, l0);
    GrowsTrans(l, l0, l1);
    PrettyLineGrows(e, l1, |o1| - l.pos, "_then ", e.thenPart);
    GrowsTrans(l, l1, l2);
    PrettyLineGrows(e, l2, |o1| - l.pos, "_else ", e.elsePart);
    GrowsTrans(l, l2, l3);
    AppendGrows(l3, Close(paren));
    GrowsTrans(l, l3, Layout(l3.out + Close(paren), l3.pos));
  }

  // ---------------------------------------------------------------- columns

  /** No line break in `s`. */
  predicate OneLine(s: string)
  {
    forall i :: 0 <= i < |s| ==> s[i] != '\n'
  }

  /** Where the line holding position `k` of `s` begins: just after the last newline before
      `k`, or at 0. */
  function LineStart(s: string, k: nat): (j: nat)
    requires k <= |s|
    ensures j <= k && (j == 0 || s[j - 1] == '\n')
    decreases k
  {
    if k == 0 || s[k - 1] == '\n' then k else LineStart(s, k - 1)
  }

  /** The column of position `k` of `s`, counting from 0. */
  function Column(s: string, k: nat): nat
    requires k <= |s|
  {
    k - LineStart(s, k)
  }

  /** A line start with no newline between it and `k` is where `k`'s line begins. */
  lemma {:induction false} LineStartIs(s: string, j: nat, k: nat)
    requires j <= k <= |s| && (j == 0 || s[j - 1] == '\n')
    requires forall i :: j <= i < k ==> s[i] != '\n'
    ensures LineStart(s, k) == j
    decreases k
  {
    if k > j {
      LineStartIs(s, j, k - 1);
    }
  }

  /** Writing more text does not move the start of a line already written. */
  lemma {:induction false} LineStartPrefix(s: string, t: string, k: nat)
    requires s <= t && k <= |s|
    ensures LineStart(t, k) == LineStart(s, k)
    decreases k
  {
    if k > 0 {
      assert t[k - 1] == s[k - 1];
      LineStartPrefix(s, t, k - 1);
    }
  }

  /** `pos` is the start of the line being written: it is a line start, and the output
      holds no newline after it. */
  predicate OnCurrentLine(l: Layout)
  {
    AtLineStart(l) && forall i :: l.pos <= i < |l.out| ==> l.out[i] != '\n'
  }

  /** On the current line, the end of the output stands `|out| - pos` columns in. */
  lemma CurrentLineColumn(l: Layout)
    requires OnCurrentLine(l)
    ensures Column(l.out, |l.out|) == |l.out| - l.pos
  {
    LineStartIs(l.out, l.pos, |l.out|);
  }

  /** The names a tree prints (variables and `_let` names) contain no line break. */
  predicate NamesOnOneLine(e: Expr)
  {
    match e
    case VarExpr(x) => OneLine(x)
    case AddExpr(lhs, rhs) => NamesOnOneLine(lhs) && NamesOnOneLine(rhs)
    case MultExpr(lhs, rhs) => NamesOnOneLine(lhs) && NamesOnOneLine(rhs)
    case EqExpr(lhs, rhs) => NamesOnOneLine(lhs) && NamesOnOneLine(rhs)
    case LetExpr(x, rhs, body) => OneLine(x) && NamesOnOneLine(rhs) && NamesOnOneLine(body)
    case IfExpr(test, thenPart, elsePart) =>
      NamesOnOneLine(test) && NamesOnOneLine(thenPart) && NamesOnOneLine(elsePart)
    case _ => true
  }

  lemma NumberOneLine(n: int)
    ensures OneLine(IntToString(n))
  {
    var s := IntToString(n);
    forall i | 0 <= i < |s|
      ensures s[i] != '\n'
    {
      if n < 0 && i > 0 {
        assert s[i] == s[1..][i - 1];
      }
    }
  }

  /** Text without a newline keeps `pos` on the current line. */
  lemma AppendKeepsCurrentLine(l: Layout, more: string)
    requires OnCurrentLine(l) && OneLine(more)
    ensures OnCurrentLine(Layout(l.out + more, l.pos))
  {
    var o := l.out + more;
    if l.pos > 0 {
      assert o[l.pos - 1] == l.out[l.pos - 1];
    }
    forall i | l.pos <= i < |o|
      ensures o[i] != '\n'
    {
      if i >= |l.out| {
        assert o[i] == more[i - |l.out|];
      }
    }
  }

  /** Pretty printing keeps `*pos` at the start of the line being written, as long as the
      names it prints hold no line break. This makes `letPos - *pos` the column where a
      `_let` or `_if` begins. */
  lemma {:induction false} PrettyAtKeepsCurrentLine(e: Expr, mode: PrintMode, l: Layout)
    requires OnCurrentLine(l) && NamesOnOneLine(e)
    ensures OnCurrentLine(PrettyAt(e, mode, l))
    decreases e, 3
  {
    match e
    case NumExpr(n) =>
      NumberOneLine(n);
      AppendKeepsCurrentLine(l, IntToString(n));
    case VarExpr(x) => AppendKeepsCurrentLine(l, x);
    case BoolExpr(b) =>
      var word := if b then "_true" else "_false";
      assert forall i :: 0 <= i < |word| ==> word[i] == '_' || 'a' <= word[i] <= 'z';
      AppendKeepsCurrentLine(l, word);
    case AddExpr(lhs, rhs) =>
      var paren := mode == GroupAddOrLet || mode == GroupAdd || mode == GroupAddOrMultOrLet;
      PrettyBinaryKeepsCurrentLine(e, lhs, GroupAddOrLet, " + ", rhs, GroupAddOrEq, paren, l);
    case MultExpr(lhs, rhs) =>
      var rhsMode := if mode == GroupAddOrLet then GroupAddOrLet else GroupAdd;
      PrettyBinaryKeepsCurrentLine(e, lhs, GroupAddOrMultOrLet, " * ", rhs, rhsMode, mode == GroupAddOrMultOrLet, l);
    case EqExpr(lhs, rhs) =>
      PrettyBinaryKeepsCurrentLine(e, lhs, GroupEq, " == ", rhs, GroupNone, mode != GroupNone, l);
    case LetExpr(_, _, _) => PrettyLetKeepsCurrentLine(e, WrapsLetOrIf(mode), l);
    case IfExpr(_, _, _) => PrettyIfKeepsCurrentLine(e, WrapsLetOrIf(mode), l);
    case _ =>
  }

  lemma {:induction false} PrettyLetKeepsCurrentLine(e: Expr, paren: bool, l: Layout)
    requires e.LetExpr? && OnCurrentLine(l) && NamesOnOneLine(e)
    ensures OnCurrentLine(PrettyLet(e, paren, l))
    decreases e, 2
  {
    var o1 := l.out + Open(paren);
    var l1 := PrettyAt(e.letRhs, GroupNone, Layout(o1 + "_let " + e.letVar + " = ", l.pos));
    var l2 := PrettyLine(e, l1.out, |o1| - l.pos, "_in  ", e.body);
    PrettyLineKeepsCurrentLine(e, l1.out, |o1| - l.pos, "_in  ", e.body);
    AppendKeepsCurrentLine(l2, Close(paren));
  }

  lemma {:induction false} PrettyIfKeepsCurrentLine(e: Expr, paren: bool, l: Layout)
    requires e.IfExpr? && OnCurrentLine(l) && NamesOnOneLine(e)
    ensures OnCurrentLine(PrettyIf(e, paren, l))
    decreases e, 2
  {
    var o1 := l.out + Open(paren);
    var l1 := PrettyAt(e.testPart, GroupNone, Layout(o1 + "_if ", l.pos));
    var l2 := PrettyLine(e, l1.out, |o1| - l.pos, "_then ", e.thenPart);
    var l3 := PrettyLine(e, l2.out, |o1| - l.pos, "_else ", e.elsePart);
    assert PrettyIf(e, paren, l) == Layout(l3.out + Close(paren), l3.pos);
    PrettyLineKeepsCurrentLine(e, l2.out, |o1| - l.pos, "_else ", e.elsePart);
    AppendKeepsCurrentLine(l3, Close(paren));
  }

  lemma {:induction false} PrettyBinaryKeepsCurrentLine(e: Expr, lhs: Expr, lhsMode: PrintMode, op: string,
                                                        rhs: Expr, rhsMode: PrintMode, paren: bool, l: Layout)
    requires lhs < e && rhs < e
    requires OnCurrentLine(l) && NamesOnOneLine(lhs) && NamesOnOneLine(rhs) && OneLine(op)
    ensures OnCurrentLine(PrettyBinary(e, lhs, lhsMode, op, rhs, rhsMode, paren, l))
    decreases e, 0
  {
    var l0 := Layout(l.out + Open(paren), l.pos);
    AppendKeepsCurrentLine(l, Open(paren));
    var l1 := PrettyAt(lhs, lhsMode, l0);
    PrettyAtKeepsCurrentLine(lhs, lhsMode, l0);
    AppendKeepsCurrentLine(l1, op);
    var l2 := PrettyAt(rhs, rhsMode, Layout(l1.out + op, l1.pos));
    PrettyAtKeepsCurrentLine(rhs, rhsMode, Layout(l1.out + op, l1.pos));
    AppendKeepsCurrentLine(l2, Close(paren));
  }

  /** A continuation line puts `*pos` just after its own newline and keeps it there. */
  lemma {:induction false} PrettyLineKeepsCurrentLine(e: Expr, o: string, spaces: int, keyword: string, sub: Expr)
    requires sub < e && NamesOnOneLine(sub) && OneLine(keyword)
    ensures OnCurrentLine(PrettyLine(e, o, spaces, keyword, sub))
    decreases e, 1
  {
    var o2 := o + "\n";
    var head := o2 + Spaces(spaces) + keyword;
    forall i | |o2| <= i < |head|
      ensures head[i] != '\n'
    {
      if i < |o2| + |Spaces(spaces)| {
        assert head[i] == Spaces(spaces)[i - |o2|];
      } else {
        assert head[i] == keyword[i - |o2| - |Spaces(spaces)|];
      }
    }
    assert head[|o2| - 1] == '\n';
    PrettyAtKeepsCurrentLine(sub, GroupNone, Layout(head, |o2|));
  }

  // ---------------------------------------------------------------- indentation

  /** In `s`, `kw` stands at `at`, `col` columns into its line. */
  predicate KeywordAt(s: string, at: nat, kw: string, col: nat)
  {
    at + |kw| <= |s| && s[at..at + |kw|] == kw && Column(s, at) == col
  }

  /** In `s`, `kw` stands at `k`, on a line below position `at` that holds only blanks before
      it, and in the same column as `at`. */
  predicate AlignedBelow(s: string, at: nat, k: nat, kw: string)
  {
    at < k && k + |kw| <= |s| && s[k..k + |kw|] == kw && at < LineStart(s, k) &&
    Column(s, k) == Column(s, at) && forall i :: LineStart(s, k) <= i < k ==> s[i] == ' '
  }

  /** `s` holds a line that starts at `start` with `spaces` blanks followed by `kw`. */
  predicate IndentedLine(s: string, start: nat, spaces: nat, kw: string)
  {
    var k := start + spaces;
    k + |kw| <= |s| && s[k..k + |kw|] == kw && LineStart(s, k) == start &&
    forall i :: start <= i < k ==> s[i] == ' '
  }

  /** Text holding a newline, `spaces` blanks and a keyword puts the keyword at the start
      of a line of its own, however much is written after it. */
  lemma IndentedLineInPrefix(o: string, spaces: nat, keyword: string, s: string)
    requires o + "\n" + Spaces(spaces) + keyword <= s
    ensures IndentedLine(s, |o| + 1, spaces, keyword)
  {
    var o2 := o + "\n";
    var k := |o2| + spaces;
    KeywordInPrefix(o2 + Spaces(spaces), keyword, s);
    BlanksInPrefix(o2, spaces, keyword, s);
    assert LineStart(s, k) == |o2| by {
      NewlineInPrefix(o, Spaces(spaces) + keyword, s);
      LineStartIs(s, |o2|, k);
    }
  }

  /** A prefix `p + kw` of `s` puts `kw` right after `p`. */
  lemma KeywordInPrefix(p: string, kw: string, s: string)
    requires p + kw <= s
    ensures |p| + |kw| <= |s| && s[|p|..|p| + |kw|] == kw
  {
    assert s[..|p + kw|] == p + kw;
    assert s[|p|..|p| + |kw|] == (p + kw)[|p|..];
  }

  /** The blanks of a prefix `o2 + Spaces(spaces) + kw` of `s` are blanks of `s`. */
  lemma BlanksInPrefix(o2: string, spaces: nat, kw: string, s: string)
    requires o2 + Spaces(spaces) + kw <= s
    ensures forall i :: |o2| <= i < |o2| + spaces ==> s[i] == ' '
  {
    var head := o2 + Spaces(spaces) + kw;
    forall i | |o2| <= i < |o2| + spaces
      ensures s[i] == ' '
    {
      assert s[i] == head[i] == Spaces(spaces)[i - |o2|];
    }
  }

  /** The newline of a prefix `o + "\n" + rest` of `s` ends the text before the next line. */
  lemma NewlineInPrefix(o: string, rest: string, s: string)
    requires o + "\n" + rest <= s
    ensures |o| < |s| && s[|o|] == '\n' && forall i :: |o| < i < |o| + 1 + |rest| ==> s[i] == rest[i - |o| - 1]
  {
    var head := o + "\n" + rest;
    assert s[|o|] == head[|o|];
    forall i | |o| < i < |o| + 1 + |rest|
      ensures s[i] == rest[i - |o| - 1]
    {
      assert s[i] == head[i];
    }
  }

  /** A continuation line written after `at`, indented by the column of `at`, is aligned
      below it. */
  lemma IndentAligns(s: string, at: nat, pos: nat, o: string, col: nat, kw: string)
    requires pos <= at <= |o| < |s| && LineStart(s, at) == pos && col == at - pos
    requires IndentedLine(s, |o| + 1, col, kw)
    ensures AlignedBelow(s, at, |o| + 1 + col, kw)
  {
  }

  /** The first keyword of a `_let` or `_if` layout, written on the current line, keeps its
      place and its column `letPos - *pos` in everything written after it. */
  lemma KeywordHead(l: Layout, paren: bool, kw: string, s: string)
    requires OnCurrentLine(l) && l.out + Open(paren) + kw <= s
    ensures var at := |l.out + Open(paren)|;
            at + |kw| <= |s| && s[at..at + |kw|] == kw && LineStart(s, at) == l.pos
  {
    var o1 := l.out + Open(paren);
    PrefixParts(o1, kw, s);
    OpenKeepsLineStart(l, paren);
    LineStartPrefix(o1, s, |o1|);
  }

  /** An opening parenthesis stays on the line `pos` starts. */
  lemma OpenKeepsLineStart(l: Layout, paren: bool)
    requires OnCurrentLine(l)
    ensures LineStart(l.out + Open(paren), |l.out + Open(paren)|) == l.pos
  {
    AppendKeepsCurrentLine(l, Open(paren));
    CurrentLineColumn(Layout(l.out + Open(paren), l.pos));
  }

  /** Text that starts with `p + kw` starts with `p`, and has `kw` right after it. */
  lemma PrefixParts(p: string, kw: string, s: string)
    requires p + kw <= s
    ensures p <= s && |p| + |kw| <= |s| && s[|p|..|p| + |kw|] == kw
  {
    assert s[..|p + kw|] == p + kw;
    assert s[..|p|] == (p + kw)[..|p|];
    assert s[|p|..|p| + |kw|] == (p + kw)[|p|..];
  }

  /** A `_let` or `_if` layout whose first keyword `kw1` is written on the current line and
      whose continuation line, written after `o`, is indented by the column of that keyword. */
  lemma LayoutAligns(l: Layout, paren: bool, kw1: string, o: string, col: nat, kw2: string, s: string)
    requires OnCurrentLine(l) && col == |l.out + Open(paren)| - l.pos
    requires l.out + Open(paren) + kw1 <= o && o + "\n" + Spaces(col) + kw2 <= s
    ensures var at := |l.out + Open(paren)|;
            KeywordAt(s, at, kw1, at - l.pos) && exists k :: AlignedBelow(s, at, k, kw2)
  {
    var at := |l.out + Open(paren)|;
    PrefixTrans(l.out + Open(paren) + kw1, o, s) by {
      assert o <= s by {
        assert s[..|o|] == (o + "\n" + Spaces(col) + kw2)[..|o|];
      }
    }
    KeywordHead(l, paren, kw1, s);
    IndentedLineInPrefix(o, col, kw2, s);
    IndentAligns(s, at, l.pos, o, col, kw2);
  }

  /** The parts of the `_let` layout that later text never changes: the head up to the
      right-hand side, and the continuation line up to `_in`. */
  lemma LetLayoutPrefixes(e: Expr, paren: bool, l: Layout, col: int, l1: Layout)
    requires e.LetExpr? && col == |l.out + Open(paren)| - l.pos
    requires l1 == PrettyAt(e.letRhs, GroupNone, Layout(l.out + Open(paren) + "_let " + e.letVar + " = ", l.pos))
    ensures l.out + Open(paren) + "_let " <= l1.out
    ensures l1.out + "\n" + Spaces(col) + "_in  " <= PrettyLet(e, paren, l).out
  {
    var o1 := l.out + Open(paren);
    var l0 := Layout(o1 + "_let " + e.letVar + " = ", l.pos);
    var head := l1.out + "\n" + Spaces(col) + "_in  ";
    var l2 := PrettyAt(e.body, GroupNone, Layout(head, |l1.out| + 1));
    assert PrettyLet(e, paren, l).out == l2.out + Close(paren);
    PrettyAtGrows(e.letRhs, GroupNone, l0);
    PrefixTrans(o1 + "_let ", l0.out, l1.out);
    PrettyAtGrows(e.body, GroupNone, Layout(head, |l1.out| + 1));
    PrefixTrans(head, l2.out, l2.out + Close(paren));
  }

  /** `LetExpr::pretty_print_at`: `_let` starts `letPos - *pos` columns in, and `_in`
      stands on a later line in that same column, with only blanks before it. */
  lemma PrettyLetAligns(e: Expr, paren: bool, l: Layout)
    requires e.LetExpr? && OnCurrentLine(l)
    ensures var s := PrettyLet(e, paren, l).out;
            var at := |l.out + Open(paren)|;
            KeywordAt(s, at, "_let ", at - l.pos) && exists k :: AlignedBelow(s, at, k, "_in  ")
  {
    var col := |l.out + Open(paren)| - l.pos;
    var l1 := PrettyAt(e.letRhs, GroupNone, Layout(l.out + Open(paren) + "_let " + e.letVar + " = ", l.pos));
    LetLayoutPrefixes(e, paren, l, col, l1);
    LayoutAligns(l, paren, "_let ", l1.out, col, "_in  ", PrettyLet(e, paren, l).out);
  }

  /** The parts of the `_if` layout that later text never changes: the head up to the
      test, and each continuation line up to its keyword. */
  lemma IfLayoutPrefixes(e: Expr, paren: bool, l: Layout, col: int, l1: Layout, l2: Layout)
    requires e.IfExpr? && col == |l.out + Open(paren)| - l.pos
    requires l1 == PrettyAt(e.testPart, GroupNone, Layout(l.out + Open(paren) + "_if ", l.pos))
    requires l2 == PrettyAt(e.thenPart, GroupNone, Layout(l1.out + "\n" + Spaces(col) + "_then ", |l1.out| + 1))
    ensures var s := PrettyIf(e, paren, l).out;
            l.out + Open(paren) + "_if " <= l1.out && l.out + Open(paren) + "_if " <= l2.out &&
            l1.out + "\n" + Spaces(col) + "_then " <= s && l2.out + "\n" + Spaces(col) + "_else " <= s
  {
    IfHeadPrefixes(e, paren, l, col, l1, l2);
    IfLinePrefixes(e, paren, l, col, l1, l2);
  }

  lemma IfHeadPrefixes(e: Expr, paren: bool, l: Layout, col: int, l1: Layout, l2: Layout)
    requires e.IfExpr?
    requires l1 == PrettyAt(e.testPart, GroupNone, Layout(l.out + Open(paren) + "_if ", l.pos))
    requires l2 == PrettyAt(e.thenPart, GroupNone, Layout(l1.out + "\n" + Spaces(col) + "_then ", |l1.out| + 1))
    ensures l.out + Open(paren) + "_if " <= l1.out <= l2.out
  {
    var head1 := l1.out + "\n" + Spaces(col) + "_then ";
    PrettyAtGrows(e.testPart, GroupNone, Layout(l.out + Open(paren) + "_if ", l.pos));
    PrettyAtGrows(e.thenPart, GroupNone, Layout(head1, |l1.out| + 1));
    PrefixTrans(l1.out, head1, l2.out);
  }

  lemma IfLinePrefixes(e: Expr, paren: bool, l: Layout, col: int, l1: Layout, l2: Layout)
    requires e.IfExpr? && col == |l.out + Open(paren)| - l.pos
    requires l1 == PrettyAt(e.testPart, GroupNone, Layout(l.out + Open(paren) + "_if ", l.pos))
    requires l2 == PrettyAt(e.thenPart, GroupNone, Layout(l1.out + "\n" + Spaces(col) + "_then ", |l1.out| + 1))
    ensures var s := PrettyIf(e, paren, l).out;
            l1.out + "\n" + Spaces(col) + "_then " <= s && l2.out + "\n" + Spaces(col) + "_else " <= s
  {
    var head1 := l1.out + "\n" + Spaces(col) + "_then ";
    var head2 := l2.out + "\n" + Spaces(col) + "_else ";
    IfElsePrefix(e, paren, l, col, l1, l2);
    PrettyAtGrows(e.thenPart, GroupNone, Layout(head1, |l1.out| + 1));
    PrefixTrans(head1, l2.out, head2);
    PrefixTrans(head1, head2, PrettyIf(e, paren, l).out);
  }

  lemma IfElsePrefix(e: Expr, paren: bool, l: Layout, col: int, l1: Layout, l2: Layout)
    requires e.IfExpr? && col == |l.out + Open(paren)| - l.pos
    requires l1 == PrettyAt(e.testPart, GroupNone, Layout(l.out + Open(paren) + "_if ", l.pos))
    requires l2 == PrettyAt(e.thenPart, GroupNone, Layout(l1.out + "\n" + Spaces(col) + "_then ", |l1.out| + 1))
    ensures l2.out + "\n" + Spaces(col) + "_else " <= PrettyIf(e, paren, l).out
  {
    var head2 := l2.out + "\n" + Spaces(col) + "_else ";
    var l3 := PrettyAt(e.elsePart, GroupNone, Layout(head2, |l2.out| + 1));
    assert PrettyIf(e, paren, l).out == l3.out + Close(paren);
    PrettyAtGrows(e.elsePart, GroupNone, Layout(head2, |l2.out| + 1));
    PrefixTrans(head2, l3.out, l3.out + Close(paren));
  }

  /** Both continuation lines of an `_if` layout are aligned under `_if`. */
  lemma IfLinesAlign(l: Layout, paren: bool, o1: string, o2: string, col: nat, s: string)
    requires OnCurrentLine(l) && col == |l.out + Open(paren)| - l.pos
    requires l.out + Open(paren) + "_if " <= o1 && o1 + "\n" + Spaces(col) + "_then " <= s
    requires l.out + Open(paren) + "_if " <= o2 && o2 + "\n" + Spaces(col) + "_else " <= s
    ensures var at := |l.out + Open(paren)|;
            KeywordAt(s, at, "_if ", at - l.pos) &&
            (exists k :: AlignedBelow(s, at, k, "_then ")) && (exists k :: AlignedBelow(s, at, k, "_else "))
  {
    LayoutAligns(l, paren, "_if ", o1, col, "_then ", s);
    LayoutAligns(l, paren, "_if ", o2, col, "_else ", s);
  }

  /** `IfExpr::pretty_print_at`: `_then` and `_else` each stand on a later line in the
      column where `_if` began, with only blanks before them. */
  lemma PrettyIfAligns(e: Expr, paren: bool, l: Layout)
    requires e.IfExpr? && OnCurrentLine(l)
    ensures var s := PrettyIf(e, paren, l).out;
            var at := |l.out + Open(paren)|;
            KeywordAt(s, at, "_if ", at - l.pos) &&
            (exists k :: AlignedBelow(s, at, k, "_then ")) && (exists k :: AlignedBelow(s, at, k, "_else "))
  {
    var o1 := l.out + Open(paren);
    var col := |o1| - l.pos;
    var l1 := PrettyAt(e.testPart, GroupNone, Layout(o1 + "_if ", l.pos));
    var head1 := l1.out + "\n" + Spaces(col) + "_then ";
    var l2 := PrettyAt(e.thenPart, GroupNone, Layout(head1, |l1.out| + 1));
    var s := PrettyIf(e, paren, l).out;
    IfLayoutPrefixes(e, paren, l, col, l1, l2);
    IfLinesAlign(l, paren, l1.out, l2.out, col, s);
  }

  /** `pp_to_string` of a `_let` or `_if`: the later keywords start their lines at column 0,
      under the first keyword. */
  lemma PrettyStringAligns(e: Expr)
    ensures e.LetExpr? ==>
              |PrettyString(e)| >= 5 && PrettyString(e)[..5] == "_let " &&
              exists k :: AlignedBelow(PrettyString(e), 0, k, "_in  ")
    ensures e.IfExpr? ==>
              |PrettyString(e)| >= 4 && PrettyString(e)[..4] == "_if " &&
              (exists k :: AlignedBelow(PrettyString(e), 0, k, "_then ")) &&
              (exists k :: AlignedBelow(PrettyString(e), 0, k, "_else "))
  {
    var l := Layout([], 0);
    PrettyTopIsPrettyAtNone(e, []);
    if e.LetExpr? {
      assert PrettyString(e) == PrettyLet(e, false, l).out;
      PrettyLetAligns(e, false, l);
    } else if e.IfExpr? {
      assert PrettyString(e) == PrettyIf(e, false, l).out;
      PrettyIfAligns(e, false, l);
    }
  }

  // ---------------------------------------------------------------- grouping

  /** `+` groups to the right: a sum printed as the right operand of `+`
      (`print_group_add_or_eq`) reads exactly as it would on its own, and one printed as
      the left operand (`print_group_add_or_let`) is that same text in parentheses. */
  lemma SumsGroupToTheRight(e: Expr, l: Layout)
    requires e.AddExpr?
    ensures PrettyAt(e, GroupAddOrEq, l) == PrettyAt(e, GroupNone, l)
    ensures var bare := PrettyAt(e, GroupNone, Layout(l.out + "(", l.pos));
            PrettyAt(e, GroupAddOrLet, l) == Layout(bare.out + ")", bare.pos)
  {
    assert l.out + Open(false) == l.out;
    var lo := Layout(l.out + "(", l.pos);
    assert lo.out + Open(false) == lo.out;
    var l1 := PrettyAt(e.lhs, GroupAddOrLet, lo);
    var l2 := PrettyAt(e.rhs, GroupAddOrEq, Layout(l1.out + " + ", l1.pos));
    assert l2.out + Close(false) == l2.out;
  }

  /** `*` groups to the right: a product printed as the right operand of `*`
      (`print_group_add`) reads exactly as it would on its own, and one printed as the
      left operand (`print_group_add_or_mult_or_let`) is that same text in parentheses. */
  lemma ProductsGroupToTheRight(e: Expr, l: Layout)
    requires e.MultExpr?
    ensures PrettyAt(e, GroupAdd, l) == PrettyAt(e, GroupNone, l)
    ensures var bare := PrettyAt(e, GroupNone, Layout(l.out + "(", l.pos));
            PrettyAt(e, GroupAddOrMultOrLet, l) == Layout(bare.out + ")", bare.pos)
  {
    assert l.out + Open(false) == l.out;
    var lo := Layout(l.out + "(", l.pos);
    assert lo.out + Open(false) == lo.out;
    var l1 := PrettyAt(e.lhs, GroupAddOrMultOrLet, lo);
    var l2 := PrettyAt(e.rhs, GroupAdd, Layout(l1.out + " * ", l1.pos));
    assert l2.out + Close(false) == l2.out;
  }

  /** The output stream `pretty_print` writes to. Its methods append to `out` exactly what
      `PrettyAt` / `PrettyTop` say; `*pos` is the in-out parameter of `PrettyPrintAt`. */
  class PrettyPrinter {
    var out: string

    constructor ()
      ensures out == []
    {
      out := [];
    }

    /** The indentation loop `for(int i = 0; i < spaces; i++) output << " ";`. */
    method EmitSpaces(spaces: int)
      modifies this
      ensures out == old(out) + Spaces(spaces)
    {
      var i := 0;
      while i < spaces
        invariant 0 <= i <= (if spaces > 0 then spaces else 0)
        invariant out == old(out) + Spaces(i)
        decreases spaces - i
      {
        out := out + " ";
        i := i + 1;
      }
    }

    /** `Expr::pretty_print_at(output, mode, pos)`; returns the new value of `*pos`. */
    method PrettyPrintAt(e: Expr, mode: PrintMode, pos: int) returns (newPos: int)
      modifies this
      ensures Layout(out, newPos) == PrettyAt(e, mode, Layout(old(out), pos))
      decreases e, 2
    {
      match e
      case NumExpr(n) =>
        out := out + IntToString(n);
        newPos := pos;
      case VarExpr(x) =>
        out := out + x;
        newPos := pos;
      case BoolExpr(b) =>
        out := out + (if b then "_true" else "_false");
        newPos := pos;
      case AddExpr(lhs, rhs) =>
        var paren := mode == GroupAddOrLet || mode == GroupAdd || mode == GroupAddOrMultOrLet;
        newPos := PrintBinaryAt(e, lhs, GroupAddOrLet, " + ", rhs, GroupAddOrEq, paren, pos);
      case MultExpr(lhs, rhs) =>
        if mode == GroupAddOrMultOrLet {
          newPos := PrintBinaryAt(e, lhs, GroupAddOrMultOrLet, " * ", rhs, GroupAdd, true, pos);
        } else if mode == GroupAddOrLet {
          newPos := PrintBinaryAt(e, lhs, GroupAddOrMultOrLet, " * ", rhs, GroupAddOrLet, false, pos);
        } else {
          newPos := PrintBinaryAt(e, lhs, GroupAddOrMultOrLet, " * ", rhs, GroupAdd, false, pos);
        }
      case EqExpr(lhs, rhs) =>
        if mode == GroupNone {
          newPos := PrintBinaryAt(e, lhs, GroupEq, " == ", rhs, GroupNone, false, pos);
        } else {
          newPos := PrintBinaryAt(e, lhs, GroupEq, " == ", rhs, GroupNone, true, pos);
        }
      case LetExpr(_, _, _) =>
        newPos := PrintLetAt(e, WrapsLetOrIf(mode), pos);
      case IfExpr(_, _, _) =>
        newPos := PrintIfAt(e, WrapsLetOrIf(mode), pos);
      case FunExpr(_, _) =>
        newPos := pos;
      case CallExpr(_, _) =>
        newPos := pos;
    }

    /** The shared body of `AddExpr`, `MultExpr` and `EqExpr::pretty_print_at`. */
    method PrintBinaryAt(e: Expr, lhs: Expr, lhsMode: PrintMode, op: string, rhs: Expr, rhsMode: PrintMode,
                         paren: bool, pos: int) returns (newPos: int)
      requires lhs < e && rhs < e
      modifies this
      ensures Layout(out, newPos) == PrettyBinary(e, lhs, lhsMode, op, rhs, rhsMode, paren, Layout(old(out), pos))
      decreases e, 1
    {
      out := out + Open(paren);
      newPos := PrettyPrintAt(lhs, lhsMode, pos);
      out := out + op;
      newPos := PrettyPrintAt(rhs, rhsMode, newPos);
      out := out + Close(paren);
    }

    /** `LetExpr::pretty_print_at`. */
    method PrintLetAt(e: Expr, paren: bool, pos: int) returns (newPos: int)
      requires e.LetExpr?
      modifies this
      ensures Layout(out, newPos) == PrettyLet(e, paren, Layout(old(out), pos))
      decreases e, 1
    {
      out := out + Open(paren);
      var letPos := |out|;
      var spaces := letPos - pos;
      out := out + "_let " + e.letVar + " = ";
      newPos := PrettyPrintAt(e.letRhs, GroupNone, pos);
      newPos := PrintLine(e, spaces, "_in  ", e.body);
      out := out + Close(paren);
    }

    /** `IfExpr::pretty_print_at`. */
    method PrintIfAt(e: Expr, paren: bool, pos: int) returns (newPos: int)
      requires e.IfExpr?
      modifies this
      ensures Layout(out, newPos) == PrettyIf(e, paren, Layout(old(out), pos))
      decreases e, 1
    {
      out := out + Open(paren);
      var letPos := |out|;
      var spaces := letPos - pos;
      out := out + "_if ";
      newPos := PrettyPrintAt(e.testPart, GroupNone, pos);
      newPos := PrintLine(e, spaces, "_then ", e.thenPart);
      newPos := PrintLine(e, spaces, "_else ", e.elsePart);
      out := out + Close(paren);
    }

    /** `output << "\n"; *pos = output.tellp();`, the indentation loop, the keyword and
        the sub-expression. */
    method PrintLine(e: Expr, spaces: int, keyword: string, sub: Expr) returns (newPos: int)
      requires sub < e
      modifies this
      ensures Layout(out, newPos) == PrettyLine(e, old(out), spaces, keyword, sub)
      decreases e, 0
    {
      out := out + "\n";
      newPos := |out|;
      EmitSpaces(spaces);
      out := out + keyword;
      newPos := PrettyPrintAt(sub, GroupNone, newPos);
    }

    /** `Expr::pretty_print(output)`. */
    method PrettyPrint(e: Expr)
      modifies this
      ensures out == PrettyTop(e, old(out))
    {
      var pos := 0;
      match e
      case NumExpr(_) =>
        pos := PrettyPrintAt(e, GroupNone, pos);
      case BoolExpr(_) =>
        pos := PrettyPrintAt(e, GroupNone, pos);
      case VarExpr(x) =>
        out := out + x;
      case AddExpr(lhs, rhs) =>
        pos := PrintBinaryAt(e, lhs, GroupAddOrLet, " + ", rhs, GroupAddOrEq, false, pos);
      case MultExpr(lhs, rhs) =>
        pos := PrintBinaryAt(e, lhs, GroupAddOrMultOrLet, " * ", rhs, GroupAdd, false, pos);
      case EqExpr(lhs, rhs) =>
        pos := PrintBinaryAt(e, lhs, GroupEq, " == ", rhs, GroupNone, false, pos);
      case LetExpr(x, rhs, body) =>
        out := out + "_let " + x + " = ";
        pos := PrettyPrintAt(rhs, GroupNone, pos);
        pos := PrintLine(e, 0, "_in  ", body);
      case IfExpr(test, thenPart, elsePart) =>
        out := out + "_if ";
        pos := PrettyPrintAt(test, GroupNone, pos);
        pos := PrintLine(e, 0, "_then ", thenPart);
        pos := PrintLine(e, 0, "_else ", elsePart);
      case FunExpr(_, _) =>
      case CallExpr(_, _) =>
    }
  }
}
