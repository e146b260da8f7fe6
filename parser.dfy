/** Parse.cpp as it runs: the parse functions read from one input stream whose position
    only moves forward. Every method here leaves the stream exactly where the matching
    function of `Grammar` says the unread input begins, and returns the expression or the
    error that function gives. */
module StreamParser {
  import opened Results
  import opened Ast
  import opened Chars
  import opened Grammar

  /** A `std::istream` over a fixed string: `input` never changes, `pos` is the index of
      the next character `peek()` or `get()` sees. */
  class Parser {
    const input: string
    var pos: nat

    predicate Valid()
      reads this
    {
      pos <= |input|
    }

    /** The characters not read yet. */
    function Rest(): string
      reads this
      requires Valid()
    {
      input[pos..]
    }

    /** The method result `r` and the position after it are what `spec` says. */
    predicate Agrees(r: Result<Expr>, spec: Result<Parsed>)
      reads this
      requires Valid()
    {
      match spec
      case Ok(p) => r == Ok(p.expr) && Rest() == p.rest
      case Err(err) => r == Err(err)
    }

    /** `std::istringstream stream1(s)`. */
    constructor (s: string)
      ensures Valid() && input == s && Rest() == s
    {
      input := s;
      pos := 0;
    }

    /** `in.get()`: the next character, or `EofChar` at the end of the input. */
    method Get() returns (c: char)
      requires Valid()
      modifies this
      ensures Valid()
      ensures |old(Rest())| > 0 ==> c == old(Rest())[0] && Rest() == old(Rest())[1..]
      ensures |old(Rest())| == 0 ==> c == EofChar && pos == old(pos)
    {
      if pos < |input| {
        c := input[pos];
        pos := pos + 1;
      } else {
        c := EofChar;
      }
    }

    /** `consume(in, expect)`. */
    method Consume(expected: char) returns (o: Outcome)
      requires Valid()
      modifies this
      ensures Valid() && old(pos) <= pos
      ensures o == match Grammar.Consume(old(Rest()), expected)
                   case Ok(_) => Pass
                   case Err(err) => Fail(err)
      ensures o.Pass? ==> Rest() == Grammar.Consume(old(Rest()), expected).value
    {
      var atEnd := pos == |input|;
      var c := Get();
      if atEnd || c != expected {
        return Fail(Runtime("consume mismatch"));
      }
      return Pass;
    }

    /** `skip_whitespace(in)`. */
    method SkipWhitespace()
      requires Valid()
      modifies this
      ensures Valid() && old(pos) <= pos
      ensures Rest() == SkipWs(old(Rest()))
    {
      while pos < |input| && IsSpace(input[pos])
        invariant old(pos) <= pos <= |input|
        invariant SkipWs(Rest()) == SkipWs(old(Rest()))
        decreases |input| - pos
      {
        assert Rest()[1..] == input[pos + 1..];
        pos := pos + 1;
      }
    }

    /** `parse_keyword(in, keyword)`: the loop of `get()` calls, then the comparison. */
    method ParseKeyword(keyword: string) returns (o: Outcome)
      requires Valid()
      modifies this
      ensures Valid() && old(pos) <= pos
      ensures o == match Grammar.ParseKeyword(old(Rest()), keyword)
                   case Ok(_) => Pass
                   case Err(err) => Fail(err)
      ensures o.Pass? ==> Rest() == Grammar.ParseKeyword(old(Rest()), keyword).value
    {
      var word := "";
      var i := 0;
      while i < |keyword|
        invariant 0 <= i <= |keyword| && old(pos) <= pos <= |input|
        invariant word == Word(old(Rest()), i)
        invariant pos == if old(pos) + i <= |input| then old(pos) + i else |input|
      {
        var c := Get();
        word := word + [c];
        i := i + 1;
      }
      if word != keyword {
        return Fail(Runtime("keyword not found"));
      }
      return Pass;
    }

    /** `parse_var(in)`. */
    method ParseVar() returns (e: Expr)
      requires Valid()
      modifies this
      ensures Valid() && old(pos) <= pos
      ensures Parsed(e, Rest()) == Grammar.ParseVar(old(Rest()))
    {
      SkipWhitespace();
      var name := ReadLetters();
      e := VarExpr(name);
    }

    /** The loop of `parse_var`: `var += in.get()` while `isalpha(in.peek())`. */
    method ReadLetters() returns (name: string)
      requires Valid()
      modifies this
      ensures Valid() && old(pos) <= pos
      ensures name == old(Rest())[..AlphaRun(old(Rest()))] && Rest() == old(Rest())[AlphaRun(old(Rest()))..]
    {
      ghost var start := pos;
      name := "";
      while pos < |input| && IsAlpha(input[pos])
        invariant start <= pos <= |input|
        invariant name == input[start..pos] && AllAlpha(input[start..pos])
        decreases |input| - pos
      {
        assert input[start..pos + 1] == name + [input[pos]];
        name := name + [input[pos]];
        pos := pos + 1;
      }
      assert input[start..][..pos - start] == name;
      assert input[start..][pos - start..] == input[pos..];
      AlphaRunIs(input[start..], pos - start);
    }

    /** `parse_num(in)`: the sign, then the digits. */
    method ParseNum() returns (e: Expr)
      requires Valid()
      modifies this
      ensures Valid() && old(pos) <= pos
      ensures Parsed(e, Rest()) == Grammar.ParseNum(old(Rest()))
    {
      ghost var s0 := Rest();
      var negative := false;
      if pos < |input| && input[pos] == '-' {
        negative := true;
        var _ := Consume('-');
      }
      ghost var t := Rest();
      assert negative == StartsWith(s0, '-') && t == if negative then s0[1..] else s0;
      var n := ReadDigits();
      ParseNumParts(s0);
      if negative {
        n := -n;
      }
      e := NumExpr(n);
    }

    /** The loop of `parse_num`: `n = n*10 + (c-'0')` while `isdigit(in.peek())`. */
    method ReadDigits() returns (n: int)
      requires Valid()
      modifies this
      ensures Valid() && old(pos) <= pos
      ensures n == DigitsValue(old(Rest())[..DigitRun(old(Rest()))]) && Rest() == old(Rest())[DigitRun(old(Rest()))..]
    {
      ghost var start := pos;
      n := 0;
      while pos < |input| && IsDigit(input[pos])
        invariant start <= pos <= |input|
        invariant AllDigits(input[start..pos]) && n == DigitsValue(input[start..pos])
        decreases |input| - pos
      {
        var c := input[pos];
        assert input[start..pos + 1][..pos - start] == input[start..pos];
        pos := pos + 1;
        n := n * 10 + DigitValue(c);
      }
      assert input[start..][..pos - start] == input[start..pos];
      assert input[start..][pos - start..] == input[pos..];
      DigitRunIs(input[start..], pos - start);
    }

    /** `parse_expr(in)`. */
    method ParseExpr() returns (r: Result<Expr>)
      requires Valid()
      modifies this
      ensures Valid() && old(pos) <= pos
      ensures Agrees(r, Grammar.ParseExpr(old(Rest())))
      decreases |input| - pos, 3
    {
      var e :- ParseAddend();
      SkipWhitespace();
      if pos < |input| && input[pos] == '+' {
        var _ := Consume('+');
        var rhs :- ParseExpr();
        return Ok(AddExpr(e, rhs));
      }
      return Ok(e);
    }

    /** `parse_addend(in)`. */
    method ParseAddend() returns (r: Result<Expr>)
      requires Valid()
      modifies this
      ensures Valid() && old(pos) <= pos
      ensures Agrees(r, Grammar.ParseAddend(old(Rest())))
      decreases |input| - pos, 2
    {
      var e :- ParseMulticand();
      SkipWhitespace();
      if pos < |input| && input[pos] == '*' {
        var _ := Consume('*');
        var rhs :- ParseAddend();
        return Ok(MultExpr(e, rhs));
      }
      return Ok(e);
    }

    /** `parse_multicand(in)`. The character that cannot start a multiplicand is read
        before the error is raised. */
    method ParseMulticand() returns (r: Result<Expr>)
      requires Valid()
      modifies this
      ensures Valid() && old(pos) <= pos
      ensures Agrees(r, Grammar.ParseMulticand(old(Rest())))
      decreases |input| - pos, 1
    {
      SkipWhitespace();
      ghost var t := Rest();
      assert Grammar.ParseMulticand(old(Rest())) == MulticandAfterBlanks(t);
      if pos < |input| && (input[pos] == '-' || IsDigit(input[pos])) {
        var e := ParseNum();
        return Ok(e);
      } else if pos < |input| && input[pos] == '(' {
        var _ := Consume('(');
        var e :- ParseExpr();
        SkipWhitespace();
        var c := Get();
        if c != ')' {
          return Err(Runtime("missing closing parenthesis"));
        }
        return Ok(e);
      } else if pos < |input| && IsAlpha(input[pos]) {
        var e := ParseVar();
        return Ok(e);
      } else if pos < |input| && input[pos] == '_' {
        r := ParseLet();
      } else {
        var _ := Get();
        return Err(Runtime("invalid input"));
      }
    }

    /** `parse_let(in)`. */
    method ParseLet() returns (r: Result<Expr>)
      requires Valid()
      modifies this
      ensures Valid() && old(pos) <= pos
      ensures Agrees(r, Grammar.ParseLet(old(Rest())))
      decreases |input| - pos, 0
    {
      SkipWhitespace();
      var o := Consume('_');
      if o.Fail? { return Err(o.error); }
      o := ParseKeyword("let");
      if o.Fail? { return Err(o.error); }
      SkipWhitespace();
      var v := ParseVar();
      SkipWhitespace();
      o := Consume('=');
      if o.Fail? { return Err(o.error); }
      assert Grammar.ParseLet(old(Rest())) == LetAfterEquals(v.name, Rest());
      SkipWhitespace();
      var rhs :- ParseExpr();
      SkipWhitespace();
      o := Consume('_');
      if o.Fail? { return Err(o.error); }
      o := ParseKeyword("in");
      if o.Fail? { return Err(o.error); }
      SkipWhitespace();
      var body :- ParseExpr();
      return Ok(LetExpr(v.name, rhs, body));
    }
  }

  /** `parse_str(s)`: a fresh stream over `s`, read by `parse_expr`. */
  method ParseString(s: string) returns (r: Result<Expr>)
    ensures r == ParseStr(s)
  {
    var p := new Parser(s);
    r := p.ParseExpr();
  }
}
