/**
 * The few JavaScript built-ins on strings that the client relies on:
 * `String.prototype.trim`, the global `parseInt` (radix omitted) and the
 * conversion of an integer or of `null` to a string. Strings are sequences
 * of code points; `parseInt` returns an unbounded integer.
 */
module JsText {
  import opened Wrappers

  /** WhiteSpace and LineTerminator code points of ECMAScript (sections 12.2 and 12.3 of ECMA-262). */
  predicate IsWhiteSpace(c: char) {
    || c == '\t' || c == '\n' || c == '\U{000B}' || c == '\U{000C}' || c == '\r' || c == ' '
    || c == '\U{00A0}' || c == '\U{1680}' || ('\U{2000}' <= c <= '\U{200A}')
    || c == '\U{2028}' || c == '\U{2029}' || c == '\U{202F}' || c == '\U{205F}'
    || c == '\U{3000}' || c == '\U{FEFF}'
  }

  predicate AllWhiteSpace(s: string) {
    forall i :: 0 <= i < |s| ==> IsWhiteSpace(s[i])
  }

  /** Drops the leading white space of `s`: what is dropped is all white space, and what is kept does not start with any. */
  function TrimStart(s: string): (r: string)
    ensures |r| <= |s| && r == s[|s| - |r|..]
    ensures AllWhiteSpace(s[..|s| - |r|])
    ensures |r| > 0 ==> !IsWhiteSpace(r[0])
  {
    if |s| > 0 && IsWhiteSpace(s[0]) then TrimStart(s[1..]) else s
  }

  /** Drops the trailing white space of `s`: what is dropped is all white space, and what is kept does not end with any. */
  function TrimEnd(s: string): (r: string)
    ensures |r| <= |s| && r == s[..|r|]
    ensures AllWhiteSpace(s[|r|..])
    ensures |r| > 0 ==> !IsWhiteSpace(r[|r| - 1])
  {
    if |s| > 0 && IsWhiteSpace(s[|s| - 1]) then TrimEnd(s[..|s| - 1]) else s
  }

  /**
   * `String.prototype.trim`: white space removed at both ends; the result is
   * empty exactly when `s` is all white space.
   */
  function Trim(s: string): (r: string)
    ensures |r| > 0 ==> !IsWhiteSpace(r[0]) && !IsWhiteSpace(r[|r| - 1])
    ensures r == [] <==> AllWhiteSpace(s)
  {
    var t := TrimStart(s);
    assert |t| > 0 ==> !IsWhiteSpace(s[|s| - |t|]);
    assert |t| == 0 ==> s == s[..|s|];
    TrimEnd(t)
  }

  /** Text with no white space at either end is its own trim. */
  lemma TrimKeepsTrimmed(s: string)
    requires |s| > 0 && !IsWhiteSpace(s[0]) && !IsWhiteSpace(s[|s| - 1])
    ensures Trim(s) == s
  {
  }

  /** What `Trim` keeps is one stretch of `s`, and everything it drops on either side is white space. */
  lemma TrimIsInfix(s: string)
    ensures exists i ::
              0 <= i <= i + |Trim(s)| <= |s| && Trim(s) == s[i..i + |Trim(s)|]
              && AllWhiteSpace(s[..i]) && AllWhiteSpace(s[i + |Trim(s)|..])
  {
    InfixWitness(s, TrimStart(s), Trim(s));
  }

  /** A prefix `r` of a suffix `t` of `s`, with white space cut off on both sides, sits in `s` between white space. */
  lemma InfixWitness(s: string, t: string, r: string)
    requires |t| <= |s| && t == s[|s| - |t|..] && AllWhiteSpace(s[..|s| - |t|])
    requires |r| <= |t| && r == t[..|r|] && AllWhiteSpace(t[|r|..])
    ensures exists i :: 0 <= i <= i + |r| <= |s| && r == s[i..i + |r|] && AllWhiteSpace(s[..i]) && AllWhiteSpace(s[i + |r|..])
  {
    var i := |s| - |t|;
    assert s[i..i + |r|] == r;
    assert s[i + |r|..] == t[|r|..];
  }

  /** `String(v)` for a value that is a string or `null`. */
  function ToJsString(v: Option<string>): (r: string)
    ensures v.Some? ==> r == v.value
    ensures v.None? ==> r == "null"
  {
    match v
    case Some(s) => s
    case None => "null"
  }

  // ----- integers as decimal text -----

  predicate IsDecimalDigit(c: char) {
    '0' <= c <= '9'
  }

  function DigitChar(d: nat): (c: char)
    requires d < 10
    ensures IsDecimalDigit(c) && DigitValue(c) == d
  {
    ('0' as int + d) as char
  }

  /** The value of `n` in decimal, most significant digit first, without leading zeros. */
  function DecimalDigits(n: nat): string
    decreases n
  {
    if n < 10 then [DigitChar(n)] else DecimalDigits(n / 10) + [DigitChar(n % 10)]
  }

  /** `String(n)` for an integer value `n` (a `Number` that is a safe integer). */
  function IntToString(n: int): string {
    if n < 0 then "-" + DecimalDigits(-n) else DecimalDigits(n)
  }

  // ----- parseInt -----

  /** The outcome of a numeric parse: NaN or a number. */
  datatype Numeric<+T> = NaN | Num(value: T)

  /** The value of a digit character in radix 36 ('0'-'9', then 'a'-'z' or 'A'-'Z'); 36 for anything else. */
  function DigitValue(c: char): (d: nat)
    ensures d <= 36
    ensures d < 10 <==> IsDecimalDigit(c)
  {
    if '0' <= c <= '9' then c as int - '0' as int
    else if 'a' <= c <= 'z' then c as int - 'a' as int + 10
    else if 'A' <= c <= 'Z' then c as int - 'A' as int + 10
    else 36
  }

  predicate IsRadixDigit(c: char, radix: nat) {
    DigitValue(c) < radix
  }

  /** The longest prefix of `s` made only of digits of `radix`. */
  function DigitPrefix(s: string, radix: nat): (r: string)
    ensures |r| <= |s| && r == s[..|r|]
    ensures forall i :: 0 <= i < |r| ==> IsRadixDigit(r[i], radix)
    ensures |r| < |s| ==> !IsRadixDigit(s[|r|], radix)
  {
    if |s| > 0 && IsRadixDigit(s[0], radix) then [s[0]] + DigitPrefix(s[1..], radix) else []
  }

  /** The value of a digit string in `radix`, most significant digit first. */
  function DigitsValue(z: string, radix: nat): nat {
    if |z| == 0 then 0 else DigitsValue(z[..|z| - 1], radix) * radix + DigitValue(z[|z| - 1])
  }

  /** The digits of `s` in `radix`, read up to the first character that is not one; NaN when there is none. */
  function ParseDigits(s: string, radix: nat): Numeric<nat> {
    var z := DigitPrefix(s, radix);
    if |z| == 0 then NaN else Num(DigitsValue(z, radix))
  }

  predicate HasHexPrefix(u: string) {
    |u| >= 2 && u[0] == '0' && (u[1] == 'x' || u[1] == 'X')
  }

  /** An unsigned number: radix 16 after a "0x" or "0X" prefix, radix 10 otherwise. */
  function ParseUnsigned(u: string): Numeric<nat> {
    if HasHexPrefix(u) then ParseDigits(u[2..], 16) else ParseDigits(u, 10)
  }

  /** A number with an optional leading sign. */
  function ParseSigned(t: string): Numeric<int> {
    var negative := |t| > 0 && t[0] == '-';
    var unsigned := if |t| > 0 && (t[0] == '-' || t[0] == '+') then t[1..] else t;
    ApplySign(ParseUnsigned(unsigned), negative)
  }

  function ApplySign(v: Numeric<nat>, negative: bool): Numeric<int> {
    match v
    case NaN => NaN
    case Num(x) => var v: int := x; if negative then Num(-v) else Num(v)
  }

  /**
   * The global `parseInt(s)` with no radix argument (section 19.2.5 of
   * ECMA-262): skip leading white space, read an optional sign, switch to
   * radix 16 after a "0x" or "0X" prefix, then read the longest run of
   * digits; no digit at all gives NaN.
   */
  function ParseInt(s: string): Numeric<int> {
    ParseSigned(TrimStart(s))
  }

  // ----- lemmas -----

  /** The decimal text of `n` is a non-empty digit string that reads back as `n`, and starts with '0' only for 0. */
  lemma {:induction false} DecimalDigitsReadBack(n: nat)
    ensures |DecimalDigits(n)| > 0
    ensures forall i :: 0 <= i < |DecimalDigits(n)| ==> IsDecimalDigit(DecimalDigits(n)[i])
    ensures DigitsValue(DecimalDigits(n), 10) == n
    ensures DecimalDigits(n)[0] == '0' ==> n == 0
    decreases n
  {
    if n >= 10 {
      var d := DecimalDigits(n / 10);
      DecimalDigitsReadBack(n / 10);
      assert DecimalDigits(n) == d + [DigitChar(n % 10)];
      assert (d + [DigitChar(n % 10)])[..|d|] == d;
    }
  }

  /** A run of digits followed by a non-digit (or by nothing) is exactly the digit prefix. */
  lemma {:induction false} DigitPrefixOfDigits(z: string, rest: string, radix: nat)
    requires forall i :: 0 <= i < |z| ==> IsRadixDigit(z[i], radix)
    requires |rest| == 0 || !IsRadixDigit(rest[0], radix)
    ensures DigitPrefix(z + rest, radix) == z
  {
    if |z| > 0 {
      DigitPrefixOfDigits(z[1..], rest, radix);
      assert (z + rest)[1..] == z[1..] + rest;
    } else {
      assert z + rest == rest;
    }
  }

  /** Leading white space does not change where trimming stops. */
  lemma {:induction false} TrimStartSkips(w: string, s: string)
    requires AllWhiteSpace(w)
    ensures TrimStart(w + s) == TrimStart(s)
  {
    if |w| > 0 {
      assert (w + s)[1..] == w[1..] + s;
      TrimStartSkips(w[1..], s);
    } else {
      assert w + s == s;
    }
  }

  /**
   * `parseInt` reads back the decimal text of any integer `n`, after any
   * white space and before any text that does not continue the number
   * ("12px" gives 12, " -3.5" gives -3).
   */
  lemma ParseIntReadsInteger(w: string, n: int, rest: string)
    requires AllWhiteSpace(w)
    requires |rest| == 0 || !IsDecimalDigit(rest[0])
    requires n == 0 ==> |rest| == 0 || (rest[0] != 'x' && rest[0] != 'X')
    ensures ParseInt(w + IntToString(n) + rest) == Num(n)
  {
    var t := IntToString(n) + rest;
    IntToStringStart(n);
    assert t[0] == IntToString(n)[0];
    assert w + IntToString(n) + rest == w + t;
    ParseIntSkipsWhiteSpace(w, t);
    ParseSignedReadsInteger(n, rest);
  }

  /** Leading white space is skipped: `parseInt` reads the text from its first other character. */
  lemma ParseIntSkipsWhiteSpace(w: string, t: string)
    requires AllWhiteSpace(w)
    requires |t| > 0 && !IsWhiteSpace(t[0])
    ensures ParseInt(w + t) == ParseSigned(t)
  {
    TrimStartSkips(w, t);
    TrimStartAtNonSpace(t);
  }

  lemma TrimStartAtNonSpace(s: string)
    requires |s| > 0 && !IsWhiteSpace(s[0])
    ensures TrimStart(s) == s
  {
  }

  /** The text of an integer starts with a minus sign or a digit. */
  lemma IntToStringStart(n: int)
    ensures |IntToString(n)| > 0
    ensures IntToString(n)[0] == '-' || IsDecimalDigit(IntToString(n)[0])
  {
    DecimalDigitsReadBack(if n < 0 then -n else n);
  }

  lemma ParseSignedReadsInteger(n: int, rest: string)
    requires |rest| == 0 || !IsDecimalDigit(rest[0])
    requires n == 0 ==> |rest| == 0 || (rest[0] != 'x' && rest[0] != 'X')
    ensures ParseSigned(IntToString(n) + rest) == Num(n)
  {
    if n < 0 {
      NegativeText(n, rest);
      ParseSignedReadsNegative(n, rest);
    } else {
      ParseSignedReadsNonNegative(n, rest);
    }
  }

  lemma NegativeText(n: int, rest: string)
    requires n < 0
    ensures IntToString(n) + rest == ['-'] + (DecimalDigits(-n) + rest)
  {
    assert IntToString(n) == ['-'] + DecimalDigits(-n);
  }

  lemma ParseSignedReadsNegative(n: int, rest: string)
    requires |rest| == 0 || !IsDecimalDigit(rest[0])
    requires n < 0
    ensures ParseSigned(['-'] + (DecimalDigits(-n) + rest)) == Num(n)
  {
    ParseUnsignedReadsDecimal(-n, rest);
    ParseSignedNegates(DecimalDigits(-n) + rest, n);
  }

  /** A minus sign before an unsigned number reading -n gives n. */
  lemma ParseSignedNegates(u: string, n: int)
    requires n <= 0 && ParseUnsigned(u) == Num(-n)
    ensures ParseSigned(['-'] + u) == Num(n)
  {
    ParseSignedMinus(u);
  }

  /** After a minus sign the unsigned number that follows is negated. */
  lemma ParseSignedMinus(u: string)
    ensures ParseSigned(['-'] + u) == ApplySign(ParseUnsigned(u), true)
  {
    assert (['-'] + u)[1..] == u;
  }

  lemma ParseSignedReadsNonNegative(m: nat, rest: string)
    requires |rest| == 0 || !IsDecimalDigit(rest[0])
    requires m == 0 ==> |rest| == 0 || (rest[0] != 'x' && rest[0] != 'X')
    ensures ParseSigned(DecimalDigits(m) + rest) == Num(m)
  {
    var d := DecimalDigits(m);
    DecimalDigitsReadBack(m);
    assert (d + rest)[0] == d[0];
    ParseUnsignedReadsDecimal(m, rest);
  }

  lemma ParseUnsignedReadsDecimal(m: nat, rest: string)
    requires |rest| == 0 || !IsDecimalDigit(rest[0])
    requires m == 0 ==> |rest| == 0 || (rest[0] != 'x' && rest[0] != 'X')
    ensures ParseUnsigned(DecimalDigits(m) + rest) == Num(m)
  {
    var d := DecimalDigits(m);
    DecimalDigitsReadBack(m);
    assert forall i :: 0 <= i < |d| ==> IsRadixDigit(d[i], 10);
    DigitPrefixOfDigits(d, rest, 10);
  }

  /** `parseInt` is NaN when, after white space, the text starts with neither a sign nor a digit ("", "abc", "null"). */
  lemma ParseIntNonNumeric(s: string)
    requires var t := TrimStart(s); |t| == 0 || (!IsDecimalDigit(t[0]) && t[0] != '+' && t[0] != '-')
    ensures ParseInt(s) == NaN
  {
    var t := TrimStart(s);
    if |t| > 0 {
      assert !IsRadixDigit(t[0], 10);
      assert !HasHexPrefix(t);
      assert DigitPrefix(t, 10) == [];
    }
  }

  /**
   * Any run of decimal digits, leading zeros included, is read after white
   * space ("007" gives 7), unless the text starts with the "0x" prefix.
   */
  lemma ParseIntReadsDigits(w: string, z: string, rest: string)
    requires AllWhiteSpace(w)
    requires |z| > 0 && forall i :: 0 <= i < |z| ==> IsDecimalDigit(z[i])
    requires |rest| == 0 || !IsDecimalDigit(rest[0])
    requires !HasHexPrefix(z + rest)
    ensures ParseInt(w + z + rest) == Num(DigitsValue(z, 10))
  {
    var u := z + rest;
    DecimalUnsigned(z, rest);
    assert w + z + rest == w + u;
    ParseIntSkipsWhiteSpace(w, u);
    ParseSignedUnsigned(u);
    KeepDigits(DigitsValue(z, 10));
  }

  /** The same run of digits after a minus sign is read negated (" -012" gives -12). */
  lemma ParseIntReadsMinusDigits(w: string, z: string, rest: string)
    requires AllWhiteSpace(w)
    requires |z| > 0 && forall i :: 0 <= i < |z| ==> IsDecimalDigit(z[i])
    requires |rest| == 0 || !IsDecimalDigit(rest[0])
    requires !HasHexPrefix(z + rest)
    ensures ParseInt(w + ['-'] + z + rest).Num?
    ensures ParseInt(w + ['-'] + z + rest).value + DigitsValue(z, 10) == 0
  {
    var u := z + rest;
    DecimalUnsigned(z, rest);
    Regroup(w, ['-'], z, rest);
    ParseIntSkipsWhiteSpace(w, ['-'] + u);
    ParseSignedMinus(u);
    NegateDigits(DigitsValue(z, 10));
  }

  lemma NegateDigits(v: nat)
    ensures ApplySign(Num(v), true).Num? && ApplySign(Num(v), true).value + v == 0
  {
  }

  lemma KeepDigits(v: nat)
    ensures ApplySign(Num(v), false) == Num(v)
  {
  }

  /** The same run of digits after a plus sign is read unchanged ("+5" gives 5). */
  lemma ParseIntReadsPlusDigits(w: string, z: string, rest: string)
    requires AllWhiteSpace(w)
    requires |z| > 0 && forall i :: 0 <= i < |z| ==> IsDecimalDigit(z[i])
    requires |rest| == 0 || !IsDecimalDigit(rest[0])
    requires !HasHexPrefix(z + rest)
    ensures ParseInt(w + ['+'] + z + rest) == Num(DigitsValue(z, 10))
  {
    var u := z + rest;
    DecimalUnsigned(z, rest);
    Regroup(w, ['+'], z, rest);
    ParseIntSkipsWhiteSpace(w, ['+'] + u);
    ParseSignedPlus(u);
  }

  lemma DecimalUnsigned(z: string, rest: string)
    requires |z| > 0 && forall i :: 0 <= i < |z| ==> IsDecimalDigit(z[i])
    requires |rest| == 0 || !IsDecimalDigit(rest[0])
    requires !HasHexPrefix(z + rest)
    ensures (z + rest)[0] == z[0]
    ensures !IsWhiteSpace(z[0]) && z[0] != '+' && z[0] != '-'
    ensures ParseUnsigned(z + rest) == Num(DigitsValue(z, 10))
  {
    assert forall i :: 0 <= i < |z| ==> IsRadixDigit(z[i], 10);
    DigitPrefixOfDigits(z, rest, 10);
  }

  /** Text that starts with neither sign is read as an unsigned number. */
  lemma ParseSignedUnsigned(t: string)
    requires |t| > 0 && t[0] != '+' && t[0] != '-'
    ensures ParseSigned(t) == ApplySign(ParseUnsigned(t), false)
  {
  }

  /** After a plus sign the unsigned number that follows is kept. */
  lemma ParseSignedPlus(u: string)
    ensures ParseSigned(['+'] + u) == ApplySign(ParseUnsigned(u), false)
  {
    assert (['+'] + u)[1..] == u;
  }

  /** After the "0x" or "0X" prefix the hexadecimal digits are read (" 0x1F" gives 31). */
  lemma ParseIntReadsHex(w: string, x: char, z: string, rest: string)
    requires AllWhiteSpace(w)
    requires x == 'x' || x == 'X'
    requires |z| > 0 && forall i :: 0 <= i < |z| ==> IsRadixDigit(z[i], 16)
    requires |rest| == 0 || !IsRadixDigit(rest[0], 16)
    ensures ParseInt(w + ['0', x] + z + rest) == Num(DigitsValue(z, 16))
  {
    var t := ['0', x] + (z + rest);
    Regroup(w, ['0', x], z, rest);
    HexUnsigned(x, z, rest);
    ParseIntSkipsWhiteSpace(w, t);
    ParseSignedUnsigned(t);
  }

  lemma HexUnsigned(x: char, z: string, rest: string)
    requires x == 'x' || x == 'X'
    requires |z| > 0 && forall i :: 0 <= i < |z| ==> IsRadixDigit(z[i], 16)
    requires |rest| == 0 || !IsRadixDigit(rest[0], 16)
    ensures (['0', x] + (z + rest))[0] == '0'
    ensures ParseUnsigned(['0', x] + (z + rest)) == Num(DigitsValue(z, 16))
  {
    var t := ['0', x] + (z + rest);
    assert t[0] == '0' && t[1] == x && t[2..] == z + rest;
    DigitPrefixOfDigits(z, rest, 16);
  }

  /** Four-way concatenation, regrouped to the right. */
  lemma Regroup(a: string, b: string, c: string, d: string)
    ensures a + b + c + d == a + (b + (c + d))
  {
    assert a + b + c == a + (b + c);
    assert b + c + d == b + (c + d);
    assert a + (b + c) + d == a + (b + c + d);
  }
}
