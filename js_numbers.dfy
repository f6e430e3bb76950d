/**
 * The two number/string conversions of the JavaScript runtime that the system
 * relies on: the global `parseInt` with no radix argument (section 19.2.5 of
 * ECMA-262), which the backend applies to the `page` and `limit` query values,
 * and Number::toString of ECMA-262 for a non-negative integer, which the
 * dashboard uses when it writes `page` into a URL.
 *
 * Integers are unbounded here: the IEEE-754 rounding of numerals beyond 2^53
 * is not modelled.
 */
module JsNumbers {
  import opened Common

  /** StrWhiteSpaceChar: the WhiteSpace and LineTerminator code points. */
  predicate IsStrWhiteSpaceChar(c: char) {
    || c == '\t' || c == '\U{000B}' || c == '\U{000C}' || c == '\U{FEFF}'
    || c == ' ' || c == '\U{00A0}' || c == '\U{1680}' || ('\U{2000}' <= c <= '\U{200A}')
    || c == '\U{202F}' || c == '\U{205F}' || c == '\U{3000}'
    || c == '\n' || c == '\r' || c == '\U{2028}' || c == '\U{2029}'
  }

  /** The value of a digit character in radices up to 36; 36 for any other character. */
  function DigitValue(c: char): (v: nat)
    ensures v <= 36
  {
    if '0' <= c <= '9' then c as int - '0' as int
    else if 'a' <= c <= 'z' then c as int - 'a' as int + 10
    else if 'A' <= c <= 'Z' then c as int - 'A' as int + 10
    else 36
  }

  predicate IsDigit(c: char, radix: nat) {
    DigitValue(c) < radix
  }

  predicate IsNumeral(z: string, radix: nat) {
    forall i :: 0 <= i < |z| ==> IsDigit(z[i], radix)
  }

  /** TrimString(s, start): s without its leading white space. */
  function TrimStart(s: string): (r: string)
    ensures |r| <= |s| && r == s[|s| - |r|..]
    ensures r == [] || !IsStrWhiteSpaceChar(r[0])
  {
    if s != [] && IsStrWhiteSpaceChar(s[0]) then TrimStart(s[1..]) else s
  }

  /** The length of the longest prefix of `s` made of radix-`radix` digits. */
  function DigitPrefixLength(s: string, radix: nat): (n: nat)
    ensures n <= |s|
    ensures IsNumeral(s[..n], radix)
    ensures n == |s| || !IsDigit(s[n], radix)
  {
    if s != [] && IsDigit(s[0], radix) then
      var n := 1 + DigitPrefixLength(s[1..], radix);
      assert forall i :: 1 <= i < n ==> s[..n][i] == s[1..][..n - 1][i - 1];
      n
    else 0
  }

  /** The mathematical value of the numeral `z`, most significant digit first. */
  function NumeralValue(z: string, radix: nat): nat {
    if z == [] then 0 else NumeralValue(z[..|z| - 1], radix) * radix + DigitValue(z[|z| - 1])
  }

  /** The argument as text: ToString(undefined) is "undefined". */
  function ArgumentText(arg: Option<string>): string {
    if arg.Some? then arg.value else "undefined"
  }

  /** The sign the trimmed text starts with: "-", "+" or none. */
  function SignPrefix(t: string): (sign: string)
    ensures sign == "" || sign == "-" || sign == "+"
  {
    if t != [] && t[0] == '-' then "-" else if t != [] && t[0] == '+' then "+" else ""
  }

  /** The value a sign written in front of magnitude `m` denotes. */
  function Signed(sign: string, m: nat): int {
    if sign == "-" then -(m as int) else m
  }

  /** The trimmed text without its optional sign. */
  function StripSign(t: string): string {
    t[|SignPrefix(t)|..]
  }

  predicate HasHexPrefix(u: string) {
    |u| >= 2 && u[0] == '0' && (u[1] == 'x' || u[1] == 'X')
  }

  /**
   * The magnitude read from unsigned text: radix 16 after a "0x" or "0X" prefix,
   * radix 10 otherwise, over the longest prefix of digits; None when that prefix is empty.
   */
  function ParseMagnitude(u: string): Option<nat> {
    var radix := if HasHexPrefix(u) then 16 else 10;
    var digits := if HasHexPrefix(u) then u[2..] else u;
    var z := digits[..DigitPrefixLength(digits, radix)];
    if z == [] then None else Some(NumeralValue(z, radix))
  }

  /**
   * parseInt(arg) with the radix absent. None is NaN; Some(0) covers both +0
   * and -0, which the callers treat alike.
   */
  function ParseInt(arg: Option<string>): (r: Option<int>)
  {
    ParseTrimmed(TrimStart(ArgumentText(arg)))
  }

  /** parseInt on text that starts with no white space. */
  function ParseTrimmed(t: string): Option<int> {
    match ParseMagnitude(StripSign(t))
    case None => None
    case Some(m) => Some(Signed(SignPrefix(t), m))
  }

  /** Number::toString of a non-negative integer: its decimal digits, no leading zero. */
  function DecimalString(n: nat): (s: string)
    ensures s != [] && IsNumeral(s, 10)
    ensures s[0] == '0' ==> n == 0 && s == "0"
  {
    if n < 10 then ['0' + n as char]
    else DecimalString(n / 10) + ['0' + (n % 10) as char]
  }

  // ---------------------------------------------------------------- lemmas

  /** TrimString removes white space only. */
  lemma {:induction false} TrimStartRemovesOnlyWhiteSpace(s: string)
    ensures forall i :: 0 <= i < |s| - |TrimStart(s)| ==> IsStrWhiteSpaceChar(s[i])
  {
    if s != [] && IsStrWhiteSpaceChar(s[0]) {
      TrimStartRemovesOnlyWhiteSpace(s[1..]);
      assert forall i :: 1 <= i < |s| - |TrimStart(s)| ==> s[i] == s[1..][i - 1];
    }
  }

  lemma {:induction false} TrimStartSkipsWhiteSpace(ws: string, s: string)
    requires forall i :: 0 <= i < |ws| ==> IsStrWhiteSpaceChar(ws[i])
    ensures TrimStart(ws + s) == TrimStart(s)
  {
    if ws != [] {
      var t := ws + s;
      assert t[0] == ws[0] && IsStrWhiteSpaceChar(ws[0]);
      assert t[1..] == ws[1..] + s;
      TrimStartSkipsWhiteSpace(ws[1..], s);
    } else {
      assert ws + s == s;
    }
  }

  /** Leading white space never changes what parseInt returns. */
  lemma ParseIntSkipsWhiteSpace(ws: string, s: string)
    requires forall i :: 0 <= i < |ws| ==> IsStrWhiteSpaceChar(ws[i])
    ensures ParseInt(Some(ws + s)) == ParseInt(Some(s))
  {
    TrimStartSkipsWhiteSpace(ws, s);
  }

  lemma ParseMagnitudeNoDigit(u: string)
    requires u == [] || !IsDigit(u[0], 10)
    ensures ParseMagnitude(u) == None
  {
    assert !HasHexPrefix(u);
    DigitPrefixLengthAt(u, 10, 0);
    assert u[..0] == [];
  }

  /** No digit after the white space and the optional sign. */
  predicate NonNumeric(s: string) {
    var u := StripSign(TrimStart(s));
    u == [] || !IsDigit(u[0], 10)
  }

  /** A missing argument is `undefined`, which parses to NaN. */
  lemma ParseIntMissing()
    ensures ParseInt(None) == None
  {
    var t := ArgumentText(None);
    assert t[0] == 'u';
    ParseIntLetter(t);
  }

  /** Text that starts with a letter is not a number. */
  lemma ParseIntLetter(s: string)
    requires s != [] && ('a' <= s[0] <= 'z' || 'A' <= s[0] <= 'Z')
    ensures ParseInt(Some(s)) == None
  {
    ParseIntTrimmed(s);
    Unsigned(s);
    ParseMagnitudeNoDigit(s);
  }

  /** Text that does not start with a sign keeps all of its characters. */
  lemma Unsigned(t: string)
    requires t == [] || (t[0] != '-' && t[0] != '+')
    ensures SignPrefix(t) == "" && StripSign(t) == t
  {
    assert t[0..] == t;
  }

  /** Without a digit after the white space and the sign, parseInt is NaN. */
  lemma ParseIntNonNumeric(s: string)
    requires NonNumeric(s)
    ensures ParseInt(Some(s)) == None
  {
    var t := TrimStart(s);
    ParseMagnitudeNoDigit(StripSign(t));
    assert ParseInt(Some(s)) == ParseTrimmed(t);
  }

  /** Text that starts with no white space is parsed as it stands. */
  lemma ParseIntTrimmed(s: string)
    requires s == [] || !IsStrWhiteSpaceChar(s[0])
    ensures ParseInt(Some(s)) == ParseTrimmed(s)
  {
    assert TrimStart(s) == s;
  }

  /** The sign and the text after it, split apart. */
  lemma SplitSign(sign: string, u: string)
    requires sign == "" || sign == "-" || sign == "+"
    requires u != [] && '0' <= u[0] <= '9'
    ensures SignPrefix(sign + u) == sign && StripSign(sign + u) == u
  {
    var s := sign + u;
    assert s[0] == if sign == "" then u[0] else sign[0];
    assert s[|sign|..] == u;
  }

  /** A sign in front of unsigned text negates the magnitude or keeps it. */
  lemma ParseIntSigned(sign: string, u: string)
    requires sign == "" || sign == "-" || sign == "+"
    requires u != [] && '0' <= u[0] <= '9'
    ensures ParseInt(Some(sign + u)) == match ParseMagnitude(u)
      case None => None
      case Some(m) => Some(Signed(sign, m))
  {
    var s := sign + u;
    assert s[0] == if sign == "" then u[0] else sign[0];
    ParseIntTrimmed(s);
    SplitSign(sign, u);
  }

  /** The digit prefix is the one that ends at the first non-digit. */
  lemma {:induction false} DigitPrefixLengthAt(s: string, radix: nat, k: nat)
    requires k <= |s| && IsNumeral(s[..k], radix)
    requires k == |s| || !IsDigit(s[k], radix)
    ensures DigitPrefixLength(s, radix) == k
  {
    if k > 0 {
      assert s[..k][0] == s[0];
      assert s[1..][..k - 1] == s[..k][1..];
      DigitPrefixLengthAt(s[1..], radix, k - 1);
    }
  }

  /** A decimal numeral followed by anything but a digit: its value, the "0x" prefix aside. */
  lemma ParseMagnitudeDecimal(d: string, rest: string)
    requires d != [] && IsNumeral(d, 10)
    requires rest == [] || !IsDigit(rest[0], 10)
    requires d == "0" && rest != [] ==> rest[0] != 'x' && rest[0] != 'X'
    ensures ParseMagnitude(d + rest) == Some(NumeralValue(d, 10))
  {
    var u := d + rest;
    assert !HasHexPrefix(u) by {
      if |d| >= 2 { assert u[1] == d[1] && IsDigit(d[1], 10); }
    }
    assert u[..|d|] == d;
    DigitPrefixLengthAt(u, 10, |d|);
  }

  /** After "0x" or "0X": the value of the hexadecimal numeral that follows. */
  lemma ParseMagnitudeHex(x: char, h: string, rest: string)
    requires x == 'x' || x == 'X'
    requires h != [] && IsNumeral(h, 16)
    requires rest == [] || !IsDigit(rest[0], 16)
    ensures ParseMagnitude(['0', x] + h + rest) == Some(NumeralValue(h, 16))
  {
    var u := ['0', x] + h + rest;
    assert HasHexPrefix(u);
    var digits := u[2..];
    assert digits == h + rest;
    assert digits[..|h|] == h;
    DigitPrefixLengthAt(digits, 16, |h|);
  }

  lemma NumeralStartsWithDigit(d: string, rest: string)
    requires d != [] && IsNumeral(d, 10)
    ensures '0' <= (d + rest)[0] <= '9'
  {
    assert (d + rest)[0] == d[0] && IsDigit(d[0], 10);
  }

  lemma ParseIntSignedDecimal(sign: string, d: string, rest: string)
    requires sign == "" || sign == "-" || sign == "+"
    requires d != [] && IsNumeral(d, 10)
    requires rest == [] || !IsDigit(rest[0], 10)
    requires d == "0" && rest != [] ==> rest[0] != 'x' && rest[0] != 'X'
    ensures ParseInt(Some(sign + (d + rest))) == Some(Signed(sign, NumeralValue(d, 10)))
  {
    NumeralStartsWithDigit(d, rest);
    ParseIntSigned(sign, d + rest);
    ParseMagnitudeDecimal(d, rest);
    assert ParseInt(Some(sign + (d + rest))) == Some(Signed(sign, NumeralValue(d, 10)));
  }

  /**
   * The longest leading integer prefix decides: a decimal numeral, optionally
   * preceded by white space and a sign and followed by anything that is not a
   * digit, parses to its value with the sign kept ("0" followed by "x" is the
   * hexadecimal prefix instead).
   */
  lemma ParseIntLongestDecimalPrefix(ws: string, sign: string, d: string, rest: string)
    requires forall i :: 0 <= i < |ws| ==> IsStrWhiteSpaceChar(ws[i])
    requires sign == "" || sign == "-" || sign == "+"
    requires d != [] && IsNumeral(d, 10)
    requires rest == [] || !IsDigit(rest[0], 10)
    requires d == "0" && rest != [] ==> rest[0] != 'x' && rest[0] != 'X'
    ensures ParseInt(Some(ws + sign + d + rest)) == Some(Signed(sign, NumeralValue(d, 10)))
  {
    assert ws + sign + d + rest == ws + (sign + (d + rest));
    ParseIntSkipsWhiteSpace(ws, sign + (d + rest));
    ParseIntSignedDecimal(sign, d, rest);
  }

  /** "0x" or "0X" switches to radix 16; the sign is still honoured. */
  lemma ParseIntHexPrefix(sign: string, x: char, h: string, rest: string)
    requires sign == "" || sign == "-" || sign == "+"
    requires x == 'x' || x == 'X'
    requires h != [] && IsNumeral(h, 16)
    requires rest == [] || !IsDigit(rest[0], 16)
    ensures ParseInt(Some(sign + ['0', x] + h + rest)) == Some(Signed(sign, NumeralValue(h, 16)))
  {
    var u := ['0', x] + h + rest;
    assert sign + ['0', x] + h + rest == sign + u;
    ParseIntSigned(sign, u);
    ParseMagnitudeHex(x, h, rest);
    assert ParseInt(Some(sign + u)) == Some(Signed(sign, NumeralValue(h, 16)));
  }

  /** "0x" or "0X" with no hexadecimal digit after it is not a number. */
  lemma ParseIntHexNoDigit(sign: string, x: char, rest: string)
    requires sign == "" || sign == "-" || sign == "+"
    requires x == 'x' || x == 'X'
    requires rest == [] || !IsDigit(rest[0], 16)
    ensures ParseInt(Some(sign + ['0', x] + rest)) == None
  {
    var u := ['0', x] + rest;
    assert sign + ['0', x] + rest == sign + u;
    ParseIntSigned(sign, u);
    assert HasHexPrefix(u) && u[2..] == rest;
    DigitPrefixLengthAt(rest, 16, 0);
    assert rest[..0] == [];
    assert ParseMagnitude(u) == None;
  }

  lemma {:induction false} DecimalStringValue(n: nat)
    ensures NumeralValue(DecimalString(n), 10) == n
  {
    var s := DecimalString(n);
    if n < 10 {
      assert s[..0] == [];
    } else {
      DecimalStringValue(n / 10);
      assert s[..|s| - 1] == DecimalString(n / 10);
    }
  }

  /** parseInt reads back exactly the integer that Number::toString wrote. */
  lemma ParseIntDecimalString(n: nat)
    ensures ParseInt(Some(DecimalString(n))) == Some(n)
  {
    DecimalStringValue(n);
    var d := DecimalString(n);
    assert "" + (d + "") == d;
    ParseIntSignedDecimal("", d, "");
  }
}
