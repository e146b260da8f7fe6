/** The recursive-descent parser of Parse.cpp, as functions of the input not yet read.
    Each function takes the remaining characters of the stream and gives back the parsed
    expression with the characters it left unread; `ParseExpr`, `ParseAddend`,
    `ParseMulticand` and `ParseLet` are mutually recursive as in the source. */
module Grammar {
  import opened Results
  import opened Ast
  import opened Chars

  /** An expression and the input left after it. */
  datatype Parsed = Parsed(expr: Expr, rest: string)

  /** `r` is what is left of `s` after reading some characters from its front. */
  predicate IsSuffix(r: string, s: string)
  {
    |r| <= |s| && r == s[|s| - |r|..]
  }

  lemma SuffixTransitive(a: string, b: string, c: string)
    requires IsSuffix(a, b) && IsSuffix(b, c)
    ensures IsSuffix(a, c)
  {
    assert c[|c| - |b|..][|b| - |a|..] == c[|c| - |a|..];
  }

  /** What `in.get()` yields once the stream is exhausted: `EOF`, which `word += in.get()`
      turns into the character `(char)-1`. */
  const EofChar: char := '\U{FF}'

  predicate StartsWith(s: string, c: char)
  {
    |s| > 0 && s[0] == c
  }

  predicate NoEofChar(w: string)
  {
    forall i :: 0 <= i < |w| ==> w[i] != EofChar
  }

  // ---------------------------------------------------------------- tokens

  /** `skip_whitespace`: drops the longest run of blanks at the front. */
  function SkipWs(s: string): (r: string)
    ensures |r| <= |s| && (r == [] || !IsSpace(r[0]))
  {
    if |s| > 0 && IsSpace(s[0]) then SkipWs(s[1..]) else s
  }

  /** What `skip_whitespace` drops is blanks, and all it drops is from the front. */
  lemma {:induction false} SkipWsDropsBlanks(s: string)
    ensures IsSuffix(SkipWs(s), s)
    ensures forall i :: 0 <= i < |s| - |SkipWs(s)| ==> IsSpace(s[i])
  {
    if |s| > 0 && IsSpace(s[0]) {
      var t := s[1..];
      SkipWsDropsBlanks(t);
      var r := SkipWs(t);
      assert SkipWs(s) == r;
      assert t[|t| - |r|..] == s[|s| - |r|..];
      forall i | 0 <= i < |s| - |r|
        ensures IsSpace(s[i])
      {
        if i > 0 {
          assert s[i] == t[i - 1];
        }
      }
    }
  }

  /** `consume(in, c)`: reads one character and fails unless it is `c`. */
  function Consume(s: string, c: char): (r: Result<string>)
    ensures r.Ok? <==> |s| > 0 && s[0] == c
    ensures r.Ok? ==> r.value == s[1..]
    ensures r.Err? ==> r.error == Runtime("consume mismatch")
  {
    if |s| > 0 && s[0] == c then Ok(s[1..]) else Err(Runtime("consume mismatch"))
  }

  /** The `n` characters `in.get()` returns, `EofChar` for each read past the end. */
  function Word(s: string, n: nat): (w: string)
    ensures |w| == n
    ensures forall i :: 0 <= i < n ==> w[i] == if i < |s| then s[i] else EofChar
  {
    if n <= |s| then s[..n] else s + seq(n - |s|, _ => EofChar)
  }

  /** `parse_keyword(in, keyword)`: reads as many characters as the keyword has and fails
      unless they spell it. */
  function ParseKeyword(s: string, keyword: string): (r: Result<string>)
    ensures r.Ok? ==> |r.value| <= |s|
  {
    var word := Word(s, |keyword|);
    if word != keyword then Err(Runtime("keyword not found"))
    else if |keyword| <= |s| then Ok(s[|keyword|..])
    else Ok([])
  }

  /** A keyword without the end-of-input character is found exactly when the input
      starts with it, and then what follows it is left; otherwise the error is
      "keyword not found". */
  lemma KeywordFoundIffPrefix(s: string, keyword: string)
    requires NoEofChar(keyword)
    ensures ParseKeyword(s, keyword).Ok? <==> |keyword| <= |s| && s[..|keyword|] == keyword
    ensures ParseKeyword(s, keyword).Ok? ==> ParseKeyword(s, keyword).value == s[|keyword|..]
    ensures ParseKeyword(s, keyword).Err? ==> ParseKeyword(s, keyword).error == Runtime("keyword not found")
  {
    var word := Word(s, |keyword|);
    if |keyword| > |s| {
      assert word[|s|] == EofChar;
    }
    if |keyword| <= |s| && s[..|keyword|] == keyword {
      assert word == keyword;
    }
  }

  /** `parse_var`: skips blanks, then reads the longest run of letters, possibly none. */
  function ParseVar(s: string): (p: Parsed)
    ensures p.expr.VarExpr? && |p.rest| <= |s|
  {
    var t := SkipWs(s);
    var n := AlphaRun(t);
    Parsed(VarExpr(t[..n]), t[n..])
  }

  /** `parse_var` splits the input after the blanks into a name of letters and a rest that
      does not start with a letter. */
  lemma ParseVarReads(s: string)
    ensures var p := ParseVar(s);
            AllAlpha(p.expr.name) && SkipWs(s) == p.expr.name + p.rest &&
            (p.rest == [] || !IsAlpha(p.rest[0]))
  {
    var t := SkipWs(s);
    var n := AlphaRun(t);
    assert t == t[..n] + t[n..];
  }

  /** `parse_num`: an optional `-`, then the longest run of digits, read as `n = n*10 + d`
      and negated after a `-`. Neither part has to be present: a lone `-`, or no digit at
      all, reads as 0. */
  function ParseNum(s: string): (p: Parsed)
    ensures p.expr.NumExpr? && |p.rest| <= |s|
    ensures |s| > 0 && (s[0] == '-' || IsDigit(s[0])) ==> |p.rest| < |s|
  {
    var negative := |s| > 0 && s[0] == '-';
    var t := if negative then s[1..] else s;
    var n := DigitRun(t);
    var v: int := DigitsValue(t[..n]);
    Parsed(NumExpr(if negative then -v else v), t[n..])
  }

  /** `parse_num` in its three steps: the sign, the digit run, and the negation. */
  lemma ParseNumParts(s: string)
    ensures var t := if StartsWith(s, '-') then s[1..] else s;
            var v: int := DigitsValue(t[..DigitRun(t)]);
            ParseNum(s) == Parsed(NumExpr(if StartsWith(s, '-') then -v else v), t[DigitRun(t)..])
  {
  }

  /** 1 when the input starts with the `-` of a negative number, 0 otherwise. */
  function SignLength(s: string): (k: nat)
    ensures k <= |s| && (k == 1 <==> |s| > 0 && s[0] == '-')
  {
    if |s| > 0 && s[0] == '-' then 1 else 0
  }

  /** `parse_num` reads an optional `-` and then the longest run of digits, whose decimal
      value, negated after a `-`, is the number. */
  lemma ParseNumReads(s: string)
    ensures IsSuffix(ParseNum(s).rest, s)
    ensures ParseNum(s).rest == [] || !IsDigit(ParseNum(s).rest[0])
    ensures SignLength(s) <= |s| - |ParseNum(s).rest|
    ensures AllDigits(s[SignLength(s)..|s| - |ParseNum(s).rest|])
    ensures ParseNum(s).expr.val
            == (if SignLength(s) == 1 then -1 else 1) * DigitsValue(s[SignLength(s)..|s| - |ParseNum(s).rest|])
  {
    var k := SignLength(s);
    var t := s[k..];
    var n := DigitRun(t);
    assert t[..n] == s[k..k + n];
    assert t[n..] == s[k + n..];
    assert ParseNum(s).rest == s[k + n..];
  }

  // ---------------------------------------------------------------- expressions

  /** The expressions this parser can build: numbers, non-empty letter names, sums,
      products and `_let` with a name of letters. */
  predicate Parsable(e: Expr)
  {
    match e
    case NumExpr(_) => true
    case VarExpr(x) => |x| > 0 && AllAlpha(x)
    case AddExpr(l, r) => Parsable(l) && Parsable(r)
    case MultExpr(l, r) => Parsable(l) && Parsable(r)
    case LetExpr(x, rhs, body) => AllAlpha(x) && Parsable(rhs) && Parsable(body)
    case _ => false
  }

  /** `parse_expr`: an addend, then, after blanks, `+` and another whole expression, which
      makes `+` associate to the right. */
  function ParseExpr(s: string): (r: Result<Parsed>)
    ensures r.Ok? ==> |r.value.rest| < |s|
    decreases |s|, 4
  {
    var a :- ParseAddend(s);
    var t := SkipWs(a.rest);
    if |t| > 0 && t[0] == '+' then
      var b :- ParseExpr(t[1..]);
      Ok(Parsed(AddExpr(a.expr, b.expr), b.rest))
    else
      Ok(Parsed(a.expr, t))
  }

  /** `parse_addend`: a multiplicand, then, after blanks, `*` and another addend. */
  function ParseAddend(s: string): (r: Result<Parsed>)
    ensures r.Ok? ==> |r.value.rest| < |s|
    decreases |s|, 3
  {
    var a :- ParseMulticand(s);
    var t := SkipWs(a.rest);
    if |t| > 0 && t[0] == '*' then
      var b :- ParseAddend(t[1..]);
      Ok(Parsed(MultExpr(a.expr, b.expr), b.rest))
    else
      Ok(Parsed(a.expr, t))
  }

  /** `parse_multicand`: after blanks, a number, a parenthesised expression, a variable or
      a `_let`, chosen by the next character. */
  function ParseMulticand(s: string): (r: Result<Parsed>)
    ensures r.Ok? ==> |r.value.rest| < |s|
    decreases |s|, 2
  {
    MulticandAfterBlanks(SkipWs(s))
  }

  /** The choice `parse_multicand` makes once the blanks are skipped. */
  function MulticandAfterBlanks(t: string): (r: Result<Parsed>)
    ensures r.Ok? ==> |r.value.rest| < |t|
    decreases |t|, 1
  {
    if |t| > 0 && (t[0] == '-' || IsDigit(t[0])) then
      Ok(ParseNum(t))
    else if |t| > 0 && t[0] == '(' then
      var inner :- ParseExpr(t[1..]);
      var u := SkipWs(inner.rest);
      if |u| > 0 && u[0] == ')' then Ok(Parsed(inner.expr, u[1..]))
      else Err(Runtime("missing closing parenthesis"))
    else if |t| > 0 && IsAlpha(t[0]) then
      Ok(ParseVar(t))
    else if |t| > 0 && t[0] == '_' then
      ParseLet(t)
    else
      Err(Runtime("invalid input"))
  }

  /** `parse_let`: `_let`, a variable, `=`, an expression, `_in` and an expression, with
      optional blanks between them; the bound name is the text of the parsed variable. */
  function ParseLet(s: string): (r: Result<Parsed>)
    ensures r.Ok? ==> |r.value.rest| < |s|
    decreases |s|, 0
  {
    var s1 :- Consume(SkipWs(s), '_');
    var s2 :- ParseKeyword(s1, "let");
    var v := ParseVar(SkipWs(s2));
    var s3 :- Consume(SkipWs(v.rest), '=');
    LetAfterEquals(v.expr.name, s3)
  }

  /** The rest of `parse_let` once `_let <name> =` has been read. */
  function LetAfterEquals(name: string, s: string): (r: Result<Parsed>)
    ensures r.Ok? ==> |r.value.rest| < |s|
    decreases |s|, 5
  {
    var rhs :- ParseExpr(SkipWs(s));
    var s4 :- Consume(SkipWs(rhs.rest), '_');
    var s5 :- ParseKeyword(s4, "in");
    var body :- ParseExpr(SkipWs(s5));
    Ok(Parsed(LetExpr(name, rhs.expr, body.expr), body.rest))
  }

  /** `parse_str`: an expression read from the start of the string; what follows it is
      ignored. */
  function ParseStr(s: string): (r: Result<Expr>)
    ensures r.Ok? ==> Parsable(r.value)
  {
    var p :- ParseExpr(s);
    ExprParsable(s);
    Ok(p.expr)
  }

  // ---------------------------------------------------------------- properties

  /** The first character after the blanks decides whether a multiplicand can start:
      a sign, a digit or a letter always succeeds, and any character other than those,
      `(` and `_`, or the end of the input, is "invalid input". */
  lemma MulticandStart(s: string)
    ensures var t := SkipWs(s);
            |t| > 0 && (t[0] == '-' || IsDigit(t[0]) || IsAlpha(t[0])) ==> ParseMulticand(s).Ok?
    ensures var t := SkipWs(s);
            !(|t| > 0 && (t[0] == '-' || IsDigit(t[0]) || t[0] == '(' || IsAlpha(t[0]) || t[0] == '_')) ==>
            ParseMulticand(s) == Err(Runtime("invalid input"))
  {
  }

  /** Everything the parser builds is a number, a name of letters, a sum, a product or a
      `_let`: never a boolean, a comparison, a conditional, a function or a call. */
  lemma {:induction false} ExprParsable(s: string)
    ensures ParseExpr(s).Ok? ==> Parsable(ParseExpr(s).value.expr)
    decreases |s|, 4
  {
    AddendParsable(s);
    var a := ParseAddend(s);
    if a.Ok? {
      var t := SkipWs(a.value.rest);
      if |t| > 0 && t[0] == '+' {
        ExprParsable(t[1..]);
      }
    }
  }

  lemma {:induction false} AddendParsable(s: string)
    ensures ParseAddend(s).Ok? ==> Parsable(ParseAddend(s).value.expr)
    decreases |s|, 3
  {
    MulticandParsable(s);
    var a := ParseMulticand(s);
    if a.Ok? {
      var t := SkipWs(a.value.rest);
      if |t| > 0 && t[0] == '*' {
        AddendParsable(t[1..]);
      }
    }
  }

  lemma {:induction false} MulticandParsable(s: string)
    ensures ParseMulticand(s).Ok? ==> Parsable(ParseMulticand(s).value.expr)
    decreases |s|, 2
  {
    var t := SkipWs(s);
    if |t| > 0 && (t[0] == '-' || IsDigit(t[0])) {
    } else if |t| > 0 && t[0] == '(' {
      ExprParsable(t[1..]);
    } else if |t| > 0 && IsAlpha(t[0]) {
      ParseVarReads(t);
      assert SkipWs(t) == t;
    } else if |t| > 0 && t[0] == '_' {
      LetParsable(t);
    }
  }

  lemma {:induction false} LetParsable(s: string)
    ensures ParseLet(s).Ok? ==> Parsable(ParseLet(s).value.expr)
    decreases |s|, 0
  {
    var s1 := Consume(SkipWs(s), '_');
    if s1.Ok? {
      var s2 := ParseKeyword(s1.value, "let");
      if s2.Ok? {
        var v := ParseVar(SkipWs(s2.value));
        ParseVarReads(SkipWs(s2.value));
        var s3 := Consume(SkipWs(v.rest), '=');
        if s3.Ok? {
          LetAfterEqualsParsable(v.expr.name, s3.value);
        }
      }
    }
  }

  lemma {:induction false} LetAfterEqualsParsable(name: string, s: string)
    requires AllAlpha(name)
    ensures LetAfterEquals(name, s).Ok? ==> Parsable(LetAfterEquals(name, s).value.expr)
    decreases |s|, 5
  {
    ExprParsable(SkipWs(s));
    var rhs := ParseExpr(SkipWs(s));
    if rhs.Ok? {
      var s4 := Consume(SkipWs(rhs.value.rest), '_');
      if s4.Ok? {
        var s5 := ParseKeyword(s4.value, "in");
        if s5.Ok? {
          ExprParsable(SkipWs(s5.value));
        }
      }
    }
  }

  // ---------------------------------------------------------------- blanks

  /** Blanks in front of the input change nothing `skip_whitespace` leaves. */
  lemma {:induction false} BlanksSkipped(w: string, s: string)
    requires AllSpace(w)
    ensures SkipWs(w + s) == SkipWs(s)
  {
    if |w| > 0 {
      assert (w + s)[0] == w[0] && IsSpace(w[0]);
      assert (w + s)[1..] == w[1..] + s;
      assert AllSpace(w[1..]);
      BlanksSkipped(w[1..], s);
    } else {
      assert w + s == s;
    }
  }

  /** Blanks, then a token: `skip_whitespace` stops at the token. */
  lemma BlanksBeforeToken(w: string, token: string, rest: string)
    requires AllSpace(w) && |token| > 0 && !IsSpace(token[0])
    ensures SkipWs(w + token + rest) == token + rest
  {
    assert w + token + rest == w + (token + rest);
    BlanksSkipped(w, token + rest);
    assert (token + rest)[0] == token[0];
  }

  /** A keyword at the front of the input is read and what follows it is left. */
  lemma KeywordRead(keyword: string, rest: string)
    requires NoEofChar(keyword)
    ensures ParseKeyword(keyword + rest, keyword) == Ok(rest)
  {
    KeywordFoundIffPrefix(keyword + rest, keyword);
    assert (keyword + rest)[..|keyword|] == keyword;
    assert (keyword + rest)[|keyword|..] == rest;
  }

  /** Every level of the grammar starts by skipping blanks, so an expression read after
      blanks is the one read from where the blanks end. */
  lemma ExprSkipsBlanks(s: string)
    ensures ParseExpr(SkipWs(s)) == ParseExpr(s)
  {
    assert SkipWs(SkipWs(s)) == SkipWs(s);
    assert ParseMulticand(SkipWs(s)) == ParseMulticand(s);
    assert ParseAddend(SkipWs(s)) == ParseAddend(s);
  }
  // ---------------------------------------------------------------- parentheses

  /** `parse_multicand` on `(`: the inner expression's error is passed on; otherwise the
      inner expression is the multiplicand when `)` follows it after blanks, and the
      parse fails with "missing closing parenthesis" when anything else, or nothing,
      follows. */
  lemma ParenthesisedMulticand(s: string)
    requires StartsWith(SkipWs(s), '(')
    ensures var inner := ParseExpr(SkipWs(s)[1..]);
            inner.Err? ==> ParseMulticand(s) == Err(inner.error)
    ensures var inner := ParseExpr(SkipWs(s)[1..]);
            inner.Ok? && StartsWith(SkipWs(inner.value.rest), ')') ==>
            ParseMulticand(s) == Ok(Parsed(inner.value.expr, SkipWs(inner.value.rest)[1..]))
    ensures var inner := ParseExpr(SkipWs(s)[1..]);
            inner.Ok? && !StartsWith(SkipWs(inner.value.rest), ')') ==>
            ParseMulticand(s) == Err(Runtime("missing closing parenthesis"))
  {
  }

  // ---------------------------------------------------------------- grouping

  /** `+` associates to the right: in `x + y + z` the second sum is the right operand of
      the first. */
  lemma SumsAssociateRight(s: string, x: Parsed, s2: string, y: Parsed, s3: string, z: Parsed)
    requires ParseAddend(s) == Ok(x) && SkipWs(x.rest) == "+" + s2
    requires ParseAddend(s2) == Ok(y) && SkipWs(y.rest) == "+" + s3
    requires ParseExpr(s3) == Ok(z)
    ensures ParseExpr(s) == Ok(Parsed(AddExpr(x.expr, AddExpr(y.expr, z.expr)), z.rest))
  {
    assert ParseExpr(s2) == Ok(Parsed(AddExpr(y.expr, z.expr), z.rest));
  }

  /** `*` associates to the right: in `x * y * z` the second product is the right operand
      of the first. */
  lemma ProductsAssociateRight(s: string, x: Parsed, s2: string, y: Parsed, s3: string, z: Parsed)
    requires ParseMulticand(s) == Ok(x) && SkipWs(x.rest) == "*" + s2
    requires ParseMulticand(s2) == Ok(y) && SkipWs(y.rest) == "*" + s3
    requires ParseAddend(s3) == Ok(z)
    ensures ParseAddend(s) == Ok(Parsed(MultExpr(x.expr, MultExpr(y.expr, z.expr)), z.rest))
  {
    assert ParseAddend(s2) == Ok(Parsed(MultExpr(y.expr, z.expr), z.rest));
  }

  /** `*` binds tighter than `+` when it comes first: `x * y + z` is a sum whose left
      operand is the product. */
  lemma ProductBeforeSum(s: string, x: Parsed, s2: string, y: Parsed, s3: string, z: Parsed)
    requires ParseMulticand(s) == Ok(x) && SkipWs(x.rest) == "*" + s2
    requires ParseMulticand(s2) == Ok(y) && SkipWs(y.rest) == "+" + s3
    requires ParseExpr(s3) == Ok(z)
    ensures ParseExpr(s) == Ok(Parsed(AddExpr(MultExpr(x.expr, y.expr), z.expr), z.rest))
  {
    var t := SkipWs(y.rest);
    assert SkipWs(t) == t;
    assert ParseAddend(s2) == Ok(Parsed(y.expr, t));
    assert ParseAddend(s) == Ok(Parsed(MultExpr(x.expr, y.expr), t));
  }

  /** ... and when it comes second: `x + y * z` is a sum whose right operand is the
      product. */
  lemma ProductAfterSum(s: string, x: Parsed, s2: string, y: Parsed, s3: string, z: Parsed)
    requires ParseMulticand(s) == Ok(x) && SkipWs(x.rest) == "+" + s2
    requires ParseMulticand(s2) == Ok(y) && SkipWs(y.rest) == "*" + s3
    requires ParseAddend(s3) == Ok(z) && !StartsWith(SkipWs(z.rest), '+')
    ensures ParseExpr(s) == Ok(Parsed(AddExpr(x.expr, MultExpr(y.expr, z.expr)), SkipWs(z.rest)))
  {
    var t := SkipWs(x.rest);
    assert SkipWs(t) == t;
    assert ParseAddend(s) == Ok(Parsed(x.expr, t));
    assert ParseAddend(s2) == Ok(Parsed(MultExpr(y.expr, z.expr), z.rest));
    assert ParseExpr(s2) == Ok(Parsed(MultExpr(y.expr, z.expr), SkipWs(z.rest)));
  }

  // ---------------------------------------------------------------- `_let`

  /** The name after `_let`, with any blanks before it, is the longest run of letters. */
  lemma LetNameAcceptsBlanks(w2: string, x: string, w3: string, a: string)
    requires AllSpace(w2) && AllSpace(w3) && |x| > 0 && AllAlpha(x)
    ensures ParseVar(SkipWs(w2 + x + w3 + "=" + a)) == Parsed(VarExpr(x), w3 + "=" + a)
  {
    var afterName := w3 + "=" + a;
    assert w2 + x + w3 + "=" + a == w2 + x + afterName;
    BlanksBeforeToken(w2, x, afterName);
    assert !IsSpace(x[0]);
    assert SkipWs(x + afterName) == x + afterName;
    assert (x + afterName)[..|x|] == x;
    assert (x + afterName)[|x|..] == afterName;
    assert afterName[0] == '=' || IsSpace(afterName[0]);
    AlphaRunIs(x + afterName, |x|);
  }

  /** `parse_let` reads `_let`, a name and `=` with any blanks before and between them
      (none needed after `_let`), and goes on with the rest. */
  lemma LetHeadAcceptsBlanks(w1: string, w2: string, x: string, w3: string, a: string)
    requires AllSpace(w1) && AllSpace(w2) && AllSpace(w3) && |x| > 0 && AllAlpha(x)
    ensures ParseLet(w1 + "_let" + w2 + x + w3 + "=" + a) == LetAfterEquals(x, a)
  {
    var afterLet := w2 + x + w3 + "=" + a;
    assert w1 + "_let" + w2 + x + w3 + "=" + a == w1 + "_" + ("let" + afterLet);
    BlanksBeforeToken(w1, "_", "let" + afterLet);
    KeywordRead("let", afterLet);
    LetNameAcceptsBlanks(w2, x, w3, a);
    BlanksBeforeToken(w3, "=", a);
  }

  /** ... then an expression, `_in` after any blanks, and the body after any blanks: the
      result binds the name to the first expression in the second. */
  lemma LetTailAcceptsBlanks(x: string, a: string, rhs: Parsed, w5: string, b: string)
    requires ParseExpr(a) == Ok(rhs) && rhs.rest == w5 + "_in" + b && AllSpace(w5)
    ensures ParseExpr(b).Err? ==> LetAfterEquals(x, a) == Err(ParseExpr(b).error)
    ensures ParseExpr(b).Ok? ==>
            LetAfterEquals(x, a) == Ok(Parsed(LetExpr(x, rhs.expr, ParseExpr(b).value.expr), ParseExpr(b).value.rest))
  {
    ExprSkipsBlanks(a);
    ExprSkipsBlanks(b);
    InKeywordAfterBlanks(w5, b);
    assert rhs.rest == w5 + "_in" + b;
  }

  /** Blanks, then `_in`: `parse_let` reads past the keyword. */
  lemma InKeywordAfterBlanks(w: string, b: string)
    requires AllSpace(w)
    ensures var t := Consume(SkipWs(w + "_in" + b), '_');
            t.Ok? && ParseKeyword(t.value, "in") == Ok(b)
  {
    assert w + "_in" + b == w + "_" + ("in" + b);
    BlanksBeforeToken(w, "_", "in" + b);
    KeywordRead("in", b);
  }


}
