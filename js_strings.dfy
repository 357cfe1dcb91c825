/**
 * The JavaScript string built-ins the pages rely on: the white-space class
 * shared by `String.prototype.trim`, `parseInt` and the regular-expression
 * class `\s`; ASCII case mapping; `includes`; `parseInt` with radix left
 * undefined; the NaN test of `isNaN` applied to a string; and the code-point
 * order that stands in for `localeCompare`.
 */
module JsStrings {

  /** The result of `parseInt`: an integer or NaN. */
  datatype IntOrNaN = Num(n: int) | NaN

  /** WhiteSpace and LineTerminator code points of ECMAScript (the `\s` class). */
  predicate IsWhitespace(c: char)
  {
    || c == '\t' || c == '\n' || c == '\U{000B}' || c == '\U{000C}' || c == '\r' || c == ' '
    || c == '\U{00A0}' || c == '\U{1680}' || ('\U{2000}' <= c <= '\U{200A}')
    || c == '\U{2028}' || c == '\U{2029}' || c == '\U{202F}' || c == '\U{205F}'
    || c == '\U{3000}' || c == '\U{FEFF}'
  }

  predicate IsDigit(c: char)
  {
    '0' <= c <= '9'
  }

  /** Drops leading white space, as `parseInt` and `trimStart` do. */
  function TrimStart(s: string): (t: string)
    ensures |t| <= |s| && t == s[|s| - |t|..]
    ensures t == [] || !IsWhitespace(t[0])
    ensures forall i | 0 <= i < |s| - |t| :: IsWhitespace(s[i])
  {
    if s == [] || !IsWhitespace(s[0]) then s else TrimStart(s[1..])
  }

  /** Drops trailing white space. */
  function TrimEnd(s: string): (t: string)
    ensures |t| <= |s| && t == s[..|t|]
    ensures t == [] || !IsWhitespace(t[|t| - 1])
    ensures forall i | |t| <= i < |s| :: IsWhitespace(s[i])
  {
    if s == [] || !IsWhitespace(s[|s| - 1]) then s else TrimEnd(s[..|s| - 1])
  }

  // ---------------------------------------------------------------------------
  // Case mapping (ASCII letters only)
  // ---------------------------------------------------------------------------

  function LowerChar(c: char): (d: char)
    ensures 'A' <= c <= 'Z' ==> d as int == c as int + 32
    ensures !('A' <= c <= 'Z') ==> d == c
  {
    if 'A' <= c <= 'Z' then (c as int + 32) as char else c
  }

  function UpperChar(c: char): (d: char)
    ensures 'a' <= c <= 'z' ==> d as int == c as int - 32
    ensures !('a' <= c <= 'z') ==> d == c
  {
    if 'a' <= c <= 'z' then (c as int - 32) as char else c
  }

  /** `toLowerCase`, letter by letter. */
  function ToLower(s: string): (t: string)
    ensures |t| == |s|
    ensures forall i | 0 <= i < |s| :: t[i] == LowerChar(s[i])
  {
    if s == [] then [] else [LowerChar(s[0])] + ToLower(s[1..])
  }

  /** `haystack.includes(needle)`: the needle occurs at some offset. */
  predicate Includes(haystack: string, needle: string)
  {
    exists i | 0 <= i <= |haystack| - |needle| :: OccursAt(haystack, needle, i)
  }

  predicate OccursAt(haystack: string, needle: string, i: int)
  {
    0 <= i && i + |needle| <= |haystack| && haystack[i..i + |needle|] == needle
  }

  // ---------------------------------------------------------------------------
  // parseInt(s) with no radix
  // ---------------------------------------------------------------------------

  /** The two radixes `parseInt` uses when no radix is given. */
  type Radix = r: nat | r == 10 || r == 16 witness 10

  /** The value of `c` as a digit in `radix`, or -1. */
  function DigitValue(c: char, radix: Radix): (v: int)
    ensures -1 <= v < radix
    ensures radix == 10 ==> (v >= 0 <==> IsDigit(c))
    ensures radix == 10 && IsDigit(c) ==> v == c as int - '0' as int
  {
    if IsDigit(c) && c as int - '0' as int < radix then c as int - '0' as int
    else if radix == 16 && 'a' <= c <= 'f' then c as int - 'a' as int + 10
    else if radix == 16 && 'A' <= c <= 'F' then c as int - 'A' as int + 10
    else -1
  }

  /** The longest prefix of `s` made of digits in `radix`. */
  function DigitPrefix(s: string, radix: Radix): (z: string)
    ensures |z| <= |s| && z == s[..|z|]
    ensures forall i | 0 <= i < |z| :: DigitValue(z[i], radix) >= 0
    ensures |z| < |s| ==> DigitValue(s[|z|], radix) < 0
  {
    if s == [] || DigitValue(s[0], radix) < 0 then [] else [s[0]] + DigitPrefix(s[1..], radix)
  }

  /** The number a string of digits denotes, most significant digit first. */
  function DigitsValue(z: string, radix: Radix): nat
    requires forall i | 0 <= i < |z| :: DigitValue(z[i], radix) >= 0
  {
    if z == [] then 0
    else DigitsValue(z[..|z| - 1], radix) * radix + DigitValue(z[|z| - 1], radix)
  }

  /**
   * `parseInt(s)`: leading white space is skipped, then an optional sign,
   * then an optional `0x`/`0X` prefix that switches to radix 16; the longest
   * run of digits that follows is read and the rest ignored.  No digits is NaN.
   */
  function ParseInt(s: string): (r: IntOrNaN)
    ensures r.NaN? <==> DigitPrefix(ParseIntBody(s).1, ParseIntBody(s).0) == []
  {
    var (radix, body) := ParseIntBody(s);
    var z := DigitPrefix(body, radix);
    if z == [] then NaN
    else
      var t := TrimStart(s);
      var magnitude: int := DigitsValue(z, radix);
      Num(if |t| > 0 && t[0] == '-' then -magnitude else magnitude)
  }

  /** The radix and the text after white space, sign and radix prefix. */
  function ParseIntBody(s: string): (Radix, string)
  {
    var t := TrimStart(s);
    var u := if |t| > 0 && (t[0] == '-' || t[0] == '+') then t[1..] else t;
    if |u| >= 2 && u[0] == '0' && (u[1] == 'x' || u[1] == 'X') then (16, u[2..]) else (10, u)
  }

  /** The decimal numeral of a natural number, as `String(n)` writes it. */
  function NatToString(n: nat): (s: string)
    ensures |s| > 0 && forall i | 0 <= i < |s| :: IsDigit(s[i])
    ensures s[0] == '0' ==> n == 0
  {
    if n < 10 then [('0' as int + n) as char]
    else NatToString(n / 10) + [('0' as int + n % 10) as char]
  }

  /** The decimal numeral of an integer, with a leading '-' when negative. */
  function IntToString(n: int): string
  {
    if n < 0 then "-" + NatToString(-n) else NatToString(n)
  }

  lemma {:induction false} DecimalDigitsValue(n: nat)
    ensures forall i | 0 <= i < |NatToString(n)| :: DigitValue(NatToString(n)[i], 10) >= 0
    ensures DigitsValue(NatToString(n), 10) == n
  {
    var s := NatToString(n);
    if n >= 10 {
      DecimalDigitsValue(n / 10);
      assert s[..|s| - 1] == NatToString(n / 10);
    }
  }

  lemma {:induction false} DigitPrefixOfDigits(z: string, rest: string, radix: Radix)
    requires forall i | 0 <= i < |z| :: DigitValue(z[i], radix) >= 0
    requires rest == [] || DigitValue(rest[0], radix) < 0
    ensures DigitPrefix(z + rest, radix) == z
  {
    if z != [] {
      assert (z + rest)[1..] == z[1..] + rest;
      DigitPrefixOfDigits(z[1..], rest, radix);
    }
  }

  /**
   * `parseInt` reads back what `String(n)` writes, whatever text follows
   * that is neither a digit nor an `x` (so `parseInt("42abc")` is 42, while
   * `"0x1"` would switch to radix 16).
   */
  lemma ParseIntOfNumeral(n: int, rest: string)
    requires rest == [] || !(IsDigit(rest[0]) || rest[0] == 'x' || rest[0] == 'X')
    ensures ParseInt(IntToString(n) + rest) == Num(n)
  {
    var m: nat := if n < 0 then -n else n;
    var digits := NatToString(m);
    var sign := if n < 0 then "-" else "";
    DecimalDigitsValue(m);
    assert IntToString(n) + rest == sign + (digits + rest);
    ParseIntDecimal(sign, digits, rest);
  }

  /** Text that starts with a digit or a '-' needs no trimming. */
  lemma NoLeadingSpace(s: string)
    requires s != [] && (IsDigit(s[0]) || s[0] == '-')
    ensures TrimStart(s) == s
  {
    assert !IsWhitespace(s[0]);
  }

  /** The body of an optionally negated decimal numeral is the numeral and what follows it. */
  lemma NumeralBody(s: string, u: string)
    requires s == u || (s != [] && s[0] == '-' && s[1..] == u)
    requires u != [] && IsDigit(u[0])
    requires |u| >= 2 && u[0] == '0' ==> !(u[1] == 'x' || u[1] == 'X')
    ensures ParseIntBody(s) == (10, u)
  {
    NoLeadingSpace(s);
  }

  /** `parseInt` of untrimmed-free text whose decimal body starts with the digits `z`. */
  lemma ParseIntOfDigits(s: string, z: string)
    requires TrimStart(s) == s
    requires ParseIntBody(s).0 == 10 && DigitPrefix(ParseIntBody(s).1, 10) == z && z != []
    ensures forall i | 0 <= i < |z| :: DigitValue(z[i], 10) >= 0
    ensures ParseInt(s) == Num(if s[0] == '-' then -(DigitsValue(z, 10) as int) else DigitsValue(z, 10))
  {
  }

  /** The body of a numeral `z` followed by `rest` has no radix prefix. */
  lemma NoRadixPrefix(z: string, rest: string)
    requires z != [] && forall i | 0 <= i < |z| :: IsDigit(z[i])
    requires |z| > 1 ==> z[0] != '0'
    requires rest == [] || !(IsDigit(rest[0]) || rest[0] == 'x' || rest[0] == 'X')
    ensures (z + rest)[0] == z[0]
    ensures |z + rest| >= 2 && z[0] == '0' ==> !((z + rest)[1] == 'x' || (z + rest)[1] == 'X')
  {
    if |z + rest| >= 2 && z[0] == '0' {
      assert |z| == 1;
      assert (z + rest)[1] == rest[0];
    }
  }

  lemma ParseIntDecimal(sign: string, z: string, rest: string)
    requires sign == "" || sign == "-"
    requires z != [] && forall i | 0 <= i < |z| :: IsDigit(z[i])
    requires |z| > 1 ==> z[0] != '0'
    requires rest == [] || !(IsDigit(rest[0]) || rest[0] == 'x' || rest[0] == 'X')
    ensures forall i | 0 <= i < |z| :: DigitValue(z[i], 10) >= 0
    ensures ParseInt(sign + (z + rest)) == Num(if sign == "-" then -(DigitsValue(z, 10) as int) else DigitsValue(z, 10))
  {
    var u := z + rest;
    var s := sign + u;
    assert IsDigit(u[0]) && (s[0] == '-' <==> sign == "-") && (s == u || (s[0] == '-' && s[1..] == u)) by {
      assert u[0] == z[0];
      if sign == "-" {
        assert s[1..] == u;
      }
    }
    assert ParseIntBody(s) == (10, u) && TrimStart(s) == s by {
      NoRadixPrefix(z, rest);
      NumeralBody(s, u);
      NoLeadingSpace(s);
    }
    assert DigitPrefix(u, 10) == z by {
      DigitPrefixOfDigits(z, rest, 10);
    }
    ParseIntOfDigits(s, z);
  }

  /** A string with no digit where the number should start reads as NaN. */
  lemma ParseIntNoDigits(s: string)
    requires forall i | 0 <= i < |s| :: !IsDigit(s[i])
    ensures ParseInt(s) == NaN
  {
    var t := TrimStart(s);
    var u := if |t| > 0 && (t[0] == '-' || t[0] == '+') then t[1..] else t;
    assert |u| > 0 ==> u[0] == s[|s| - |u|];
  }

  // ---------------------------------------------------------------------------
  // isNaN(s): the StringNumericLiteral grammar of ToNumber
  // ---------------------------------------------------------------------------

  /** The number of leading characters of `s` that satisfy `radix` digits. */
  function LeadingDigits(s: string, radix: Radix): (k: nat)
    ensures k <= |s|
    ensures forall i | 0 <= i < k :: DigitValue(s[i], radix) >= 0
    ensures k < |s| ==> DigitValue(s[k], radix) < 0
  {
    |DigitPrefix(s, radix)|
  }

  predicate IsBinaryOrOctalDigit(c: char, base: nat)
  {
    '0' <= c && c as int < '0' as int + base
  }

  /** `0b…`, `0o…` or `0x…` with at least one digit and nothing after. */
  predicate IsNonDecimalIntegerLiteral(t: string)
  {
    && |t| >= 3 && t[0] == '0'
    && (
      || ((t[1] == 'x' || t[1] == 'X') && forall i | 2 <= i < |t| :: DigitValue(t[i], 16) >= 0)
      || ((t[1] == 'o' || t[1] == 'O') && forall i | 2 <= i < |t| :: IsBinaryOrOctalDigit(t[i], 8))
      || ((t[1] == 'b' || t[1] == 'B') && forall i | 2 <= i < |t| :: IsBinaryOrOctalDigit(t[i], 2)))
  }

  /** An exponent part `e` or `E`, an optional sign and at least one digit. */
  predicate IsExponentPart(t: string)
  {
    && |t| >= 2 && (t[0] == 'e' || t[0] == 'E')
    && var d := if t[1] == '+' || t[1] == '-' then t[2..] else t[1..];
       d != [] && forall i | 0 <= i < |d| :: IsDigit(d[i])
  }

  /** What may follow the integer digits: `.` and more digits, then an optional exponent. */
  predicate IsFractionAndExponent(t: string, needFractionDigit: bool)
  {
    if t != [] && t[0] == '.' then
      var k := LeadingDigits(t[1..], 10);
      (!needFractionDigit || k > 0) && (t[1 + k..] == [] || IsExponentPart(t[1 + k..]))
    else !needFractionDigit && (t == [] || IsExponentPart(t))
  }

  /** StrUnsignedDecimalLiteral: `Infinity`, `12`, `12.`, `12.5`, `.5`, each with an optional exponent. */
  predicate IsUnsignedDecimalLiteral(t: string)
  {
    || t == "Infinity"
    || (var k := LeadingDigits(t, 10);
        if k > 0 then IsFractionAndExponent(t[k..], false) else IsFractionAndExponent(t, true))
  }

  predicate IsStrNumericLiteral(t: string)
  {
    || IsNonDecimalIntegerLiteral(t)
    || IsUnsignedDecimalLiteral(t)
    || (|t| > 0 && (t[0] == '+' || t[0] == '-') && IsUnsignedDecimalLiteral(t[1..]))
  }

  /**
   * `isNaN(s)` for a string `s`: converting the whole of `s` to a number
   * fails.  White space around the literal is allowed and an all-blank
   * string converts to 0.
   */
  predicate StringIsNaN(s: string)
  {
    var t := TrimEnd(TrimStart(s));
    !(t == [] || IsStrNumericLiteral(t))
  }

  /** A run of decimal digits converts to a number. */
  lemma DigitsAreNumeric(z: string)
    requires z != [] && forall i | 0 <= i < |z| :: IsDigit(z[i])
    ensures !StringIsNaN(z)
  {
    assert !IsWhitespace(z[0]) && !IsWhitespace(z[|z| - 1]);
    assert TrimStart(z) == z;
    assert TrimEnd(z) == z;
    DigitPrefixOfDigits(z, [], 10);
    assert z + [] == z;
    assert LeadingDigits(z, 10) == |z|;
    assert z[|z|..] == [];
  }

  // ---------------------------------------------------------------------------
  // Ordering used in place of localeCompare
  // ---------------------------------------------------------------------------

  /** Code-point lexicographic comparison: negative, zero or positive. */
  function LexCompare(a: string, b: string): (r: int)
    ensures -1 <= r <= 1
    ensures r == 0 <==> a == b
  {
    if a == [] && b == [] then 0
    else if a == [] then -1
    else if b == [] then 1
    else if a[0] < b[0] then -1
    else if a[0] > b[0] then 1
    else LexCompare(a[1..], b[1..])
  }

  lemma {:induction false} LexCompareAntisymmetric(a: string, b: string)
    ensures LexCompare(a, b) == -LexCompare(b, a)
  {
    if a != [] && b != [] && a[0] == b[0] {
      LexCompareAntisymmetric(a[1..], b[1..]);
    }
  }

  lemma {:induction false} LexCompareTransitive(a: string, b: string, c: string)
    requires LexCompare(a, b) <= 0 && LexCompare(b, c) <= 0
    ensures LexCompare(a, c) <= 0
  {
    if a != [] && b != [] && c != [] && a[0] == b[0] && b[0] == c[0] {
      LexCompareTransitive(a[1..], b[1..], c[1..]);
    }
  }
}
