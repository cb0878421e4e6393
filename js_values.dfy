/** The small part of JavaScript's value semantics the calorie tracker relies on:
    the result of `Number(field)` and its truthiness, `String.prototype.trim`,
    and the decimal text of a day number in a template literal. */
module JsValues {

  /** A number read from a form field with `Number(...)`: NaN when the text is not
      numeric, otherwise a finite value. Reals are exact; IEEE rounding is not modelled. */
  datatype Num = NaN | Finite(value: real)

  /** JavaScript truthiness of a number: `!n` holds exactly for NaN, 0 and -0. */
  predicate Truthy(n: Num) {
    n.Finite? && n.value != 0.0
  }

  /** The characters `trim` removes: ECMAScript's WhiteSpace and LineTerminator code
      points (tab, vertical tab, form feed, space, no-break space, the byte order mark,
      the Unicode space separators, line feed, carriage return and the two Unicode line
      and paragraph separators). */
  const WhitespaceChars: set<char> := {
    '\t', '\U{B}', '\U{C}', ' ', '\U{A0}', '\U{FEFF}',
    '\U{1680}', '\U{2000}', '\U{2001}', '\U{2002}', '\U{2003}', '\U{2004}', '\U{2005}',
    '\U{2006}', '\U{2007}', '\U{2008}', '\U{2009}', '\U{200A}', '\U{202F}', '\U{205F}',
    '\U{3000}', '\n', '\r', '\U{2028}', '\U{2029}'
  }

  predicate IsWhitespace(c: char) {
    c in WhitespaceChars
  }

  /** The number of whitespace characters `s` starts with: all of them are whitespace
      and the character after them, if any, is not. */
  function LeadingWhitespace(s: string): (n: nat)
    ensures n <= |s|
    ensures forall i :: 0 <= i < n ==> IsWhitespace(s[i])
    ensures n < |s| ==> !IsWhitespace(s[n])
  {
    if s != [] && IsWhitespace(s[0]) then 1 + LeadingWhitespace(s[1..]) else 0
  }

  /** The number of whitespace characters `s` ends with: all of them are whitespace
      and the character before them, if any, is not. */
  function TrailingWhitespace(s: string): (n: nat)
    ensures n <= |s|
    ensures forall i :: |s| - n <= i < |s| ==> IsWhitespace(s[i])
    ensures n < |s| ==> !IsWhitespace(s[|s| - n - 1])
  {
    if s != [] && IsWhitespace(s[|s| - 1]) then 1 + TrailingWhitespace(s[..|s| - 1]) else 0
  }

  /** `s.trim()`: `s` without its leading and its trailing whitespace, and empty when
      `s` is whitespace only. The result is what is left of `s` between a whitespace
      prefix and a whitespace suffix, and a non-empty result neither starts nor ends
      with whitespace, so no more than the surrounding whitespace is removed. */
  function Trim(s: string): (r: string)
    ensures exists a, b :: s == a + r + b && AllWhitespace(a) && AllWhitespace(b)
    ensures r != [] ==> !IsWhitespace(r[0]) && !IsWhitespace(r[|r| - 1])
    ensures |r| <= |s|
  {
    var lead := LeadingWhitespace(s);
    if lead == |s| then
      assert s == s + [] + [] && AllWhitespace(s) && AllWhitespace([]);
      []
    else
      assert !IsWhitespace(s[lead]);
      var end := |s| - TrailingWhitespace(s);
      assert s == s[..lead] + s[lead..end] + s[end..];
      assert AllWhitespace(s[..lead]) && AllWhitespace(s[end..]);
      s[lead..end]
  }

  /** Every character of `s` is whitespace. */
  predicate AllWhitespace(s: string) {
    forall i :: 0 <= i < |s| ==> IsWhitespace(s[i])
  }

  /** `s.trim()` is empty exactly when every character of `s` is whitespace. */
  lemma TrimEmptyIff(s: string)
    ensures Trim(s) == [] <==> AllWhitespace(s)
  {
  }

  predicate IsDigit(c: char) {
    '0' <= c <= '9'
  }

  /** The decimal digit character for `d`. */
  function DigitChar(d: nat): (c: char)
    requires d < 10
    ensures IsDigit(c) && (c as int) - ('0' as int) == d
  {
    (('0' as int) + d) as char
  }

  /** The value of a decimal digit character. */
  function DigitValue(c: char): (d: nat)
    requires IsDigit(c)
    ensures d < 10 && DigitChar(d) == c
  {
    (c as int) - ('0' as int)
  }

  /** The decimal text JavaScript gives a non-negative integer below 10^21 in a
      template literal (larger ones are written in exponent form):
      digits only, and a leading '0' only for zero itself. */
  function NatToString(n: nat): (r: string)
    ensures r != []
    ensures forall i :: 0 <= i < |r| ==> IsDigit(r[i])
    ensures (r[0] == '0') == (n == 0)
  {
    if n < 10 then [DigitChar(n)] else NatToString(n / 10) + [DigitChar(n % 10)]
  }

  /** Reads a string of decimal digits back as a number; the inverse of `NatToString`. */
  function ParseDigits(s: string): nat
    requires forall i :: 0 <= i < |s| ==> IsDigit(s[i])
  {
    if s == [] then 0 else ParseDigits(s[..|s| - 1]) * 10 + DigitValue(s[|s| - 1])
  }

  lemma {:induction false} ParseNatToString(n: nat)
    ensures ParseDigits(NatToString(n)) == n
  {
    var r := NatToString(n);
    if n >= 10 {
      assert r[..|r| - 1] == NatToString(n / 10);
      ParseNatToString(n / 10);
    } else {
      assert r[..|r| - 1] == [];
    }
  }

  /** Different numbers have different decimal texts. */
  lemma NatToStringInjective(m: nat, n: nat)
    requires NatToString(m) == NatToString(n)
    ensures m == n
  {
    ParseNatToString(m);
    ParseNatToString(n);
  }

  /** A digit string followed by a non-digit is determined by the whole text: the first
      non-digit position marks where it ends. */
  lemma DigitPrefixUnique(a: string, x: string, b: string, y: string)
    requires forall i :: 0 <= i < |a| ==> IsDigit(a[i])
    requires forall i :: 0 <= i < |b| ==> IsDigit(b[i])
    requires x != [] && !IsDigit(x[0])
    requires y != [] && !IsDigit(y[0])
    requires a + x == b + y
    ensures a == b && x == y
  {
    assert a == (a + x)[..|a|];
    assert b == (b + y)[..|b|];
    assert x == (a + x)[|a|..];
    assert y == (b + y)[|b|..];
  }
}
