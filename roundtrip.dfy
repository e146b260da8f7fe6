/** What the random tester of test_msdscript checks: the text `print` writes for an
    expression the parser built reads back, through the parser, as the same expression,
    so that interpreting the printed form gives the result of interpreting the input. */
module PrintRoundTrip {
  import opened Results
  import opened Ast
  import opened Chars
  import opened Values
  import opened Evaluator
  import opened Grammar
  import opened Printer

  /** Text that can follow a number or a name without being read as part of it. */
  predicate Delimits(rest: string)
  {
    rest == [] || !(IsDigit(rest[0]) || IsAlpha(rest[0]))
  }

  // ---------------------------------------------------------------- grammar levels

  /** A multiplicand not followed by `*` is a whole addend. */
  lemma MulticandIsAddend(s: string, p: Parsed)
    requires ParseMulticand(s) == Ok(p) && !StartsWith(SkipWs(p.rest), '*')
    ensures ParseAddend(s) == Ok(Parsed(p.expr, SkipWs(p.rest)))
  {
  }

  /** An addend not followed by `+` is a whole expression. */
  lemma AddendIsExpr(s: string, p: Parsed)
    requires ParseAddend(s) == Ok(p) && !StartsWith(SkipWs(p.rest), '+')
    ensures ParseExpr(s) == Ok(Parsed(p.expr, SkipWs(p.rest)))
  {
  }

  /** A multiplicand followed by neither `*` nor `+` is a whole expression. */
  lemma MulticandIsExpr(s: string, p: Parsed)
    requires ParseMulticand(s) == Ok(p)
    requires !StartsWith(SkipWs(p.rest), '*') && !StartsWith(SkipWs(p.rest), '+')
    ensures ParseExpr(s) == Ok(Parsed(p.expr, SkipWs(p.rest)))
  {
    MulticandIsAddend(s, p);
    assert SkipWs(SkipWs(p.rest)) == SkipWs(p.rest);
    AddendIsExpr(s, Parsed(p.expr, SkipWs(p.rest)));
  }

  /** The same after leading blanks have been skipped, as `parse_let` does before each
      of its expressions. */
  lemma MulticandIsExprAfterBlanks(s: string, p: Parsed)
    requires ParseMulticand(s) == Ok(p)
    requires !StartsWith(SkipWs(p.rest), '*') && !StartsWith(SkipWs(p.rest), '+')
    ensures ParseExpr(SkipWs(s)) == Ok(Parsed(p.expr, SkipWs(p.rest)))
  {
    assert SkipWs(SkipWs(s)) == SkipWs(s);
    assert ParseMulticand(SkipWs(s)) == ParseMulticand(s);
    MulticandIsExpr(SkipWs(s), p);
  }

  // ---------------------------------------------------------------- tokens

  /** `parse_num` reads back the digits `operator<<` writes for any `int`. */
  lemma NumReadsBack(n: int, rest: string)
    requires rest == [] || !IsDigit(rest[0])
    ensures ParseNum(IntToString(n) + rest) == Parsed(NumExpr(n), rest)
  {
    var m: nat := if n < 0 then -n else n;
    UnsignedReadsBack(m, rest);
    SignedText(n, rest);
    if n < 0 {
      NegativeReadsBack(NatToString(m) + rest, m, rest);
    }
  }

  /** The text of an integer is its magnitude's digits, after a `-` when it is negative. */
  lemma SignedText(n: int, rest: string)
    ensures n < 0 ==> IntToString(n) + rest == "-" + (NatToString(-n) + rest)
    ensures n >= 0 ==> IntToString(n) + rest == NatToString(n) + rest
  {
  }

  /** The digits of a natural number, followed by a non-digit, read back as that number. */
  lemma UnsignedReadsBack(m: nat, rest: string)
    requires rest == [] || !IsDigit(rest[0])
    ensures var t := NatToString(m) + rest;
            |t| > 0 && IsDigit(t[0]) && ParseNum(t) == Parsed(NumExpr(m), rest)
  {
    var digits := NatToString(m);
    var t := digits + rest;
    assert t[..|digits|] == digits && t[|digits|..] == rest;
    assert t[0] == digits[0];
    DigitRunIs(t, |digits|);
  }

  /** A `-` in front of unsigned digits negates the number they read as. */
  lemma NegativeReadsBack(t: string, m: int, rest: string)
    requires |t| > 0 && IsDigit(t[0]) && ParseNum(t) == Parsed(NumExpr(m), rest)
    ensures ParseNum("-" + t) == Parsed(NumExpr(-m), rest)
  {
    assert ("-" + t)[1..] == t;
  }


  /** `parse_var` reads back a name of letters that ends where the letters end. */
  lemma NameReadsBack(x: string, rest: string)
    requires |x| > 0 && AllAlpha(x) && (rest == [] || !IsAlpha(rest[0]))
    ensures ParseVar(x + rest) == Parsed(VarExpr(x), rest)
  {
    var t := x + rest;
    assert SkipWs(t) == t;
    assert t[..|x|] == x && t[|x|..] == rest;
    AlphaRunIs(t, |x|);
  }

  // ---------------------------------------------------------------- print

  /** Every parsable expression prints as one multiplicand: a number, a name, or a
      parenthesised group, which reads back as the expression itself. */
  lemma {:induction false} PrintReadsBack(e: Expr, rest: string)
    requires Parsable(e) && Delimits(rest)
    ensures ParseMulticand(Print(e) + rest) == Ok(Parsed(e, rest))
    decreases e, 1
  {
    match e
    case NumExpr(n) =>
      var s := Print(e) + rest;
      assert SkipWs(s) == s;
      NumReadsBack(n, rest);
    case VarExpr(x) =>
      var s := Print(e) + rest;
      assert SkipWs(s) == s;
      NameReadsBack(x, rest);
    case AddExpr(l, r) =>
      BinaryReadsBack(e, '+', rest);
    case MultExpr(l, r) =>
      BinaryReadsBack(e, '*', rest);
    case LetExpr(x, rhs, body) =>
      LetReadsBack(e, rest);
  }

  /** A parenthesised group reads as the expression inside it. */
  lemma GroupReadsBack(body: string, e: Expr, rest: string)
    requires ParseExpr(body + ")" + rest) == Ok(Parsed(e, ")" + rest))
    ensures ParseMulticand("(" + body + ")" + rest) == Ok(Parsed(e, rest))
  {
    var s := "(" + body + ")" + rest;
    assert SkipWs(s) == s;
    assert s[1..] == body + ")" + rest;
    assert SkipWs(")" + rest) == ")" + rest;
    assert (")" + rest)[1..] == rest;
  }

  /** How the text `a+b` or `a*b` splits at its operator. */
  lemma OperatorText(a: string, op: char, b: string, y: string)
    ensures a + [op] + b + y == a + ([op] + b + y)
    ensures ([op] + b + y)[0] == op && ([op] + b + y)[1..] == b + y
  {
  }

  /** `a+b` before a `)` reads as a sum when `a` and `b` read as multiplicands. */
  lemma SumReadsBack(a: string, b: string, l: Expr, r: Expr, y: string)
    requires StartsWith(y, ')')
    requires ParseMulticand(a + ("+" + b + y)) == Ok(Parsed(l, "+" + b + y))
    requires ParseMulticand(b + y) == Ok(Parsed(r, y))
    ensures ParseExpr(a + "+" + b + y) == Ok(Parsed(AddExpr(l, r), y))
  {
    var x := "+" + b + y;
    OperatorText(a, '+', b, y);
    assert SkipWs(x) == x;
    assert SkipWs(y) == y;
    MulticandIsAddend(a + x, Parsed(l, x));
    MulticandIsExpr(b + y, Parsed(r, y));
  }

  /** `a*b` before a `)` reads as a product when `a` and `b` read as multiplicands. */
  lemma ProductReadsBack(a: string, b: string, l: Expr, r: Expr, y: string)
    requires StartsWith(y, ')')
    requires ParseMulticand(a + ("*" + b + y)) == Ok(Parsed(l, "*" + b + y))
    requires ParseMulticand(b + y) == Ok(Parsed(r, y))
    ensures ParseExpr(a + "*" + b + y) == Ok(Parsed(MultExpr(l, r), y))
  {
    var x := "*" + b + y;
    OperatorText(a, '*', b, y);
    assert SkipWs(x) == x;
    assert SkipWs(y) == y;
    MulticandIsAddend(b + y, Parsed(r, y));
    assert ParseAddend(a + x) == Ok(Parsed(MultExpr(l, r), y));
    AddendIsExpr(a + x, Parsed(MultExpr(l, r), y));
  }

  /** How the text of a printed sum or product splits into its group and its operands. */
  lemma GroupText(a: string, op: string, b: string, rest: string)
    ensures a + op + b + (")" + rest) == a + op + b + ")" + rest
    ensures "(" + (a + op + b) + ")" + rest == "(" + a + op + b + ")" + rest
  {
  }

  /** `(a+b)` reads as the sum of what `a` and `b` read as. */
  lemma SumGroupReadsBack(a: string, b: string, l: Expr, r: Expr, rest: string)
    requires ParseMulticand(a + ("+" + b + (")" + rest))) == Ok(Parsed(l, "+" + b + (")" + rest)))
    requires ParseMulticand(b + (")" + rest)) == Ok(Parsed(r, ")" + rest))
    ensures ParseMulticand("(" + a + "+" + b + ")" + rest) == Ok(Parsed(AddExpr(l, r), rest))
  {
    SumReadsBack(a, b, l, r, ")" + rest);
    GroupText(a, "+", b, rest);
    GroupReadsBack(a + "+" + b, AddExpr(l, r), rest);
  }

  /** `(a*b)` reads as the product of what `a` and `b` read as. */
  lemma ProductGroupReadsBack(a: string, b: string, l: Expr, r: Expr, rest: string)
    requires ParseMulticand(a + ("*" + b + (")" + rest))) == Ok(Parsed(l, "*" + b + (")" + rest)))
    requires ParseMulticand(b + (")" + rest)) == Ok(Parsed(r, ")" + rest))
    ensures ParseMulticand("(" + a + "*" + b + ")" + rest) == Ok(Parsed(MultExpr(l, r), rest))
  {
    ProductReadsBack(a, b, l, r, ")" + rest);
    GroupText(a, "*", b, rest);
    GroupReadsBack(a + "*" + b, MultExpr(l, r), rest);
  }

  /** `(l+r)` and `(l*r)`. */
  lemma {:induction false} BinaryReadsBack(e: Expr, op: char, rest: string)
    requires (e.AddExpr? && op == '+') || (e.MultExpr? && op == '*')
    requires Parsable(e) && Delimits(rest)
    ensures ParseMulticand(Print(e) + rest) == Ok(Parsed(e, rest))
    decreases e, 0
  {
    var a, b := Print(e.lhs), Print(e.rhs);
    PrintReadsBack(e.lhs, [op] + b + (")" + rest));
    PrintReadsBack(e.rhs, ")" + rest);
    if op == '+' {
      SumGroupReadsBack(a, b, e.lhs, e.rhs, rest);
    } else {
      ProductGroupReadsBack(a, b, e.lhs, e.rhs, rest);
    }
  }

  /** The steps of `parse_let` up to the `=`, one at a time. */
  lemma LetHeadSteps(s: string, v: string, w: string, x: string, u: string, t: string)
    requires Consume(SkipWs(s), '_') == Ok(v)
    requires ParseKeyword(v, "let") == Ok(w)
    requires ParseVar(SkipWs(w)) == Parsed(VarExpr(x), u)
    requires Consume(SkipWs(u), '=') == Ok(t)
    ensures ParseLet(s) == LetAfterEquals(x, t)
  {
  }

  /** How the text `_let x=t` splits into its tokens. */
  lemma LetHeadText(x: string, t: string)
    ensures "_let " + x + "=" + t == "_" + ("let" + (" " + (x + ("=" + t))))
  {
  }

  /** `_let` reads as the underscore and the keyword. */
  lemma LetKeywordReadsBack(w: string)
    ensures Consume(SkipWs("_" + ("let" + w)), '_') == Ok("let" + w)
    ensures ParseKeyword("let" + w, "let") == Ok(w)
  {
    var v := "let" + w;
    assert ("_" + v)[1..] == v;
    assert v[..3] == "let" && v[3..] == w;
    KeywordFoundIffPrefix(v, "let");
  }

  /** ` x=` reads as the bound name and the `=`. */
  lemma LetNameReadsBack(x: string, t: string)
    requires AllAlpha(x)
    ensures ParseVar(SkipWs(" " + (x + ("=" + t)))) == Parsed(VarExpr(x), "=" + t)
    ensures Consume(SkipWs("=" + t), '=') == Ok(t)
  {
    var u := "=" + t;
    var w := " " + (x + u);
    assert SkipWs(w) == SkipWs(x + u) by {
      assert w[1..] == x + u;
    }
    var n := x + u;
    assert SkipWs(n) == n;
    assert n[..|x|] == x && n[|x|..] == u;
    AlphaRunIs(n, |x|);
    assert u[1..] == t;
  }

  /** `_let x=` reads as far as the `=`, with `x` as the bound name. */
  lemma LetHeadReadsBack(x: string, t: string)
    requires AllAlpha(x)
    ensures ParseLet("_let " + x + "=" + t) == LetAfterEquals(x, t)
  {
    var w := " " + (x + ("=" + t));
    LetHeadText(x, t);
    LetKeywordReadsBack(w);
    LetNameReadsBack(x, t);
    LetHeadSteps("_" + ("let" + w), "let" + w, w, x, "=" + t, t);
  }

  /** The steps of `parse_let` after the `=`, one at a time. */
  lemma LetAfterEqualsSteps(x: string, s: string, rhs: Parsed, v: string, w: string, body: Parsed)
    requires ParseExpr(SkipWs(s)) == Ok(rhs)
    requires Consume(SkipWs(rhs.rest), '_') == Ok(v)
    requires ParseKeyword(v, "in") == Ok(w)
    requires ParseExpr(SkipWs(w)) == Ok(body)
    ensures LetAfterEquals(x, s) == Ok(Parsed(LetExpr(x, rhs.expr, body.expr), body.rest))
  {
  }

  /** ` _in` reads as the underscore and the keyword. */
  lemma InKeywordReadsBack(w: string)
    ensures Consume(SkipWs(" _in" + w), '_') == Ok("in" + w)
    ensures ParseKeyword("in" + w, "in") == Ok(w)
  {
    var v := "in" + w;
    assert SkipWs(" _in" + w) == "_" + v by {
      assert (" _in" + w)[1..] == "_" + v;
    }
    assert ("_" + v)[1..] == v;
    assert v[..2] == "in" && v[2..] == w;
    KeywordFoundIffPrefix(v, "in");
  }

  /** `_in b)` reads as the `_in` and the body `b` of a `_let`. */
  lemma InReadsBack(b: string, body: Expr, y: string)
    requires StartsWith(y, ')')
    requires ParseMulticand(b + y) == Ok(Parsed(body, y))
    ensures Consume(SkipWs(" _in " + b + y), '_') == Ok("in " + b + y)
    ensures ParseKeyword("in " + b + y, "in") == Ok(" " + b + y)
    ensures ParseExpr(SkipWs(" " + b + y)) == Ok(Parsed(body, y))
  {
    InText(b, y);
    InKeywordReadsBack(" " + b + y);
    BodyAfterBlankReadsBack(b, body, y);
  }

  /** The body of a `_let`, after the blank that follows `_in`. */
  lemma BodyAfterBlankReadsBack(b: string, body: Expr, y: string)
    requires StartsWith(y, ')')
    requires ParseMulticand(b + y) == Ok(Parsed(body, y))
    ensures ParseExpr(SkipWs(" " + b + y)) == Ok(Parsed(body, y))
  {
    assert SkipWs(" " + b + y) == SkipWs(b + y) by {
      assert (" " + b + y)[1..] == b + y;
    }
    assert SkipWs(y) == y;
    MulticandIsExprAfterBlanks(b + y, Parsed(body, y));
  }

  /** How the text ` _in b` splits into its tokens. */
  lemma InText(b: string, y: string)
    ensures " _in " + b + y == " _in" + (" " + b + y)
    ensures "in " + b + y == "in" + (" " + b + y)
  {
  }

  /** `a _in b)` reads as the right-hand side `a` and the body `b` of a `_let`. */
  lemma LetTailReadsBack(x: string, a: string, b: string, rhs: Expr, body: Expr, y: string)
    requires StartsWith(y, ')')
    requires ParseMulticand(a + (" _in " + b + y)) == Ok(Parsed(rhs, " _in " + b + y))
    requires ParseMulticand(b + y) == Ok(Parsed(body, y))
    ensures LetAfterEquals(x, a + " _in " + b + y) == Ok(Parsed(LetExpr(x, rhs, body), y))
  {
    RhsReadsBack(a, b, rhs, y);
    InReadsBack(b, body, y);
    LetAfterEqualsSteps(x, a + " _in " + b + y, Parsed(rhs, "_" + ("in " + b + y)), "in " + b + y, " " + b + y, Parsed(body, y));
  }

  /** The right-hand side `a` of a `_let`, followed by ` _in`, reads as a whole expression. */
  lemma RhsReadsBack(a: string, b: string, rhs: Expr, y: string)
    requires ParseMulticand(a + (" _in " + b + y)) == Ok(Parsed(rhs, " _in " + b + y))
    ensures ParseExpr(SkipWs(a + " _in " + b + y)) == Ok(Parsed(rhs, "_" + ("in " + b + y)))
    ensures Consume(SkipWs("_" + ("in " + b + y)), '_') == Ok("in " + b + y)
  {
    var afterRhs := " _in " + b + y;
    assert a + " _in " + b + y == a + afterRhs;
    assert SkipWs(afterRhs) == afterRhs[1..] == "_" + ("in " + b + y);
    MulticandIsExprAfterBlanks(a + afterRhs, Parsed(rhs, afterRhs));
    UnderscoreOfIn("in " + b + y);
  }

  /** The `_` of `_in` is consumed where it stands. */
  lemma UnderscoreOfIn(w: string)
    ensures Consume(SkipWs("_" + w), '_') == Ok(w)
  {
    assert ("_" + w)[1..] == w;
  }

  /** Text that starts with an underscore is read as a `_let` by `parse_multicand`. */
  lemma LetIsMulticand(s: string)
    requires StartsWith(s, '_')
    ensures ParseMulticand(s) == ParseLet(s)
  {
    assert SkipWs(s) == s;
  }

  /** How the text of a printed `_let` splits into its group, its head and its tail. */
  lemma LetText(x: string, a: string, b: string, rest: string)
    ensures "(" + ("_let " + x + "=" + a + " _in " + b) + ")" + rest
            == "(_let " + x + "=" + a + " _in " + b + ")" + rest
    ensures ("_let " + x + "=" + a + " _in " + b) + ")" + rest
            == "_let " + x + "=" + (a + " _in " + b + (")" + rest))
  {
  }

  /** `(_let x=a _in b)` reads as a `_let` when `a` and `b` read as multiplicands. */
  lemma LetGroupReadsBack(x: string, a: string, b: string, rhs: Expr, body: Expr, rest: string)
    requires AllAlpha(x)
    requires ParseMulticand(a + (" _in " + b + (")" + rest))) == Ok(Parsed(rhs, " _in " + b + (")" + rest)))
    requires ParseMulticand(b + (")" + rest)) == Ok(Parsed(body, ")" + rest))
    ensures ParseMulticand("(_let " + x + "=" + a + " _in " + b + ")" + rest)
            == Ok(Parsed(LetExpr(x, rhs, body), rest))
  {
    var y := ")" + rest;
    var t := a + " _in " + b + y;
    LetTailReadsBack(x, a, b, rhs, body, y);
    LetHeadReadsBack(x, t);
    var inner := "_let " + x + "=" + t;
    LetIsMulticand(inner);
    assert SkipWs(y) == y;
    MulticandIsExpr(inner, Parsed(LetExpr(x, rhs, body), y));
    LetText(x, a, b, rest);
    GroupReadsBack("_let " + x + "=" + a + " _in " + b, LetExpr(x, rhs, body), rest);
  }

  /** `(_let x=rhs _in body)`. */
  lemma {:induction false} LetReadsBack(e: Expr, rest: string)
    requires e.LetExpr? && Parsable(e) && Delimits(rest)
    ensures ParseMulticand(Print(e) + rest) == Ok(Parsed(e, rest))
    decreases e, 0
  {
    var a, b := Print(e.letRhs), Print(e.body);
    PrintReadsBack(e.letRhs, " _in " + b + (")" + rest));
    PrintReadsBack(e.body, ")" + rest);
    LetGroupReadsBack(e.letVar, a, b, e.letRhs, e.body, rest);
  }

  /** `parse_str(print(e))` gives back `e`. */
  lemma PrintThenParse(e: Expr)
    requires Parsable(e)
    ensures ParseStr(Print(e)) == Ok(e)
  {
    PrintReadsBack(e, []);
    assert Print(e) + [] == Print(e);
    MulticandIsExpr(Print(e), Parsed(e, []));
  }

  /** The random tester's check (main.cpp): for any input the parser accepts, printing
      the parsed expression and parsing that text again gives the same expression, hence
      the same interpretation, for every evaluation budget. */
  lemma PrintedInputInterpretsAlike(s: string, fuel: nat)
    requires ParseStr(s).Ok?
    ensures ParseStr(Print(ParseStr(s).value)) == ParseStr(s)
    ensures Interp(ParseStr(Print(ParseStr(s).value)).value, EmptyEnv, fuel)
            == Interp(ParseStr(s).value, EmptyEnv, fuel)
  {
    ExprParsable(s);
    PrintThenParse(ParseStr(s).value);
  }
}
