/** The character classes of the C library in the "C" locale, as the parser calls them
    (`isspace`, `isdigit`, `isalpha`), and decimal digit strings. */
module Chars {

  /** `isspace`: blank, tab, newline, vertical tab, form feed, carriage return. */
  predicate IsSpace(c: char)
  {
    c == ' ' || c == '\t' || c == '\n' || c == '\U{B}' || c == '\U{C}' || c == '\r'
  }

  /** `isdigit`. */
  predicate IsDigit(c: char)
  {
    '0' <= c <= '9'
  }

  /** `isalpha`: the ASCII letters. */
  predicate IsAlpha(c: char)
  {
    'a' <= c <= 'z' || 'A' <= c <= 'Z'
  }

  predicate AllDigits(s: string)
  {
    forall i :: 0 <= i < |s| ==> IsDigit(s[i])
  }

  predicate AllAlpha(s: string)
  {
    forall i :: 0 <= i < |s| ==> IsAlpha(s[i])
  }

  predicate AllSpace(s: string)
  {
    forall i :: 0 <= i < |s| ==> IsSpace(s[i])
  }

  /** The classes never overlap, and none holds `-`, `(`, `)`, `=` or `_`: whatever order
      `parse_multicand` tests them in, one character picks one branch, and a token never
      starts with a blank. */
  lemma CharClassesDisjoint(c: char)
    ensures IsAlpha(c) ==> !IsDigit(c) && !IsSpace(c)
    ensures IsDigit(c) ==> !IsSpace(c)
    ensures c in "-()=_" ==> !IsAlpha(c) && !IsDigit(c) && !IsSpace(c)
  {
  }

  /** `c - '0'` for a digit. */
  function DigitValue(c: char): nat
    requires IsDigit(c)
  {
    c as int - '0' as int
  }

  /** The digit character of a number below ten. */
  function DigitChar(d: nat): (c: char)
    requires d < 10
    ensures IsDigit(c) && DigitValue(c) == d
  {
    ('0' as int + d) as char
  }

  /** The value of a digit string read left to right, `n = n*10 + d` for each digit. */
  function DigitsValue(s: string): nat
    requires AllDigits(s)
  {
    if |s| == 0 then 0 else 10 * DigitsValue(s[..|s| - 1]) + DigitValue(s[|s| - 1])
  }

  /** The number of digits at the start of `s`. */
  function DigitRun(s: string): (n: nat)
    ensures n <= |s| && AllDigits(s[..n]) && (n < |s| ==> !IsDigit(s[n]))
  {
    if |s| > 0 && IsDigit(s[0]) then
      var n := 1 + DigitRun(s[1..]);
      assert s[..n] == [s[0]] + s[1..][..n - 1];
      n
    else 0
  }

  /** The number of letters at the start of `s`. */
  function AlphaRun(s: string): (n: nat)
    ensures n <= |s| && AllAlpha(s[..n]) && (n < |s| ==> !IsAlpha(s[n]))
  {
    if |s| > 0 && IsAlpha(s[0]) then
      var n := 1 + AlphaRun(s[1..]);
      assert s[..n] == [s[0]] + s[1..][..n - 1];
      n
    else 0
  }

  /** A run of letters that stops at a non-letter is the one `AlphaRun` measures. */
  lemma {:induction false} AlphaRunIs(s: string, k: nat)
    requires k <= |s| && AllAlpha(s[..k]) && (k < |s| ==> !IsAlpha(s[k]))
    ensures AlphaRun(s) == k
  {
    if k > 0 {
      assert s[1..][..k - 1] == s[..k][1..];
      AlphaRunIs(s[1..], k - 1);
    }
  }

  /** A run of digits that stops at a non-digit is the one `DigitRun` measures. */
  lemma {:induction false} DigitRunIs(s: string, k: nat)
    requires k <= |s| && AllDigits(s[..k]) && (k < |s| ==> !IsDigit(s[k]))
    ensures DigitRun(s) == k
  {
    if k > 0 {
      assert s[1..][..k - 1] == s[..k][1..];
      DigitRunIs(s[1..], k - 1);
    }
  }
}
