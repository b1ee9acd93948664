/**
 * The two number/string conversions the handlers use: the global
 * `parseInt(string)` with no radix argument (section 19.2.5 of ECMA-262),
 * applied to the `:id` route parameter, and the decimal rendering of a
 * non-negative integer that a template literal `${n}` performs.
 */
module JsNumbers {
  import opened Wrappers

  /** The code points ECMA-262 calls StrWhiteSpaceChar (WhiteSpace and LineTerminator). */
  predicate IsWhiteSpace(c: char) {
    || c == '\t' || c == '\n' || c == '\r' || c == '\U{B}' || c == '\U{C}'
    || c == ' ' || c == '\U{A0}' || c == '\U{1680}' || ('\U{2000}' <= c <= '\U{200A}')
    || c == '\U{2028}' || c == '\U{2029}' || c == '\U{202F}' || c == '\U{205F}'
    || c == '\U{3000}' || c == '\U{FEFF}'
  }

  /** Drops the leading white space of `s`. */
  function TrimStart(s: string): (t: string)
    ensures |t| <= |s| && t == s[|s| - |t|..]
    ensures forall j :: 0 <= j < |s| - |t| ==> IsWhiteSpace(s[j])
    ensures t == [] || !IsWhiteSpace(t[0])
  {
    if |s| > 0 && IsWhiteSpace(s[0]) then TrimStart(s[1..]) else s
  }

  /** The value of `c` as a digit in radices up to 36, or -1 when it is no letter or digit. */
  function DigitValue(c: char): (d: int)
    ensures -1 <= d < 36
  {
    if '0' <= c <= '9' then c as int - '0' as int
    else if 'a' <= c <= 'z' then c as int - 'a' as int + 10
    else if 'A' <= c <= 'Z' then c as int - 'A' as int + 10
    else -1
  }

  predicate IsDigit(c: char, radix: nat) {
    0 <= DigitValue(c) < radix
  }

  /** The length of the longest prefix of `s` made of radix-`radix` digits. */
  function DigitRun(s: string, radix: nat): (n: nat)
    ensures n <= |s|
    ensures forall j :: 0 <= j < n ==> IsDigit(s[j], radix)
    ensures n < |s| ==> !IsDigit(s[n], radix)
  {
    if |s| == 0 || !IsDigit(s[0], radix) then 0 else 1 + DigitRun(s[1..], radix)
  }

  /** The number that the digit string `ds` denotes in radix `radix`, most significant digit first. */
  function DigitsValue(ds: string, radix: nat): nat
    requires forall j :: 0 <= j < |ds| ==> IsDigit(ds[j], radix)
  {
    if |ds| == 0 then 0
    else
      var prefix, last := ds[..|ds| - 1], ds[|ds| - 1];
      assert IsDigit(last, radix);
      assert forall j :: 0 <= j < |prefix| ==> prefix[j] == ds[j];
      var high := DigitsValue(prefix, radix);
      ProductNonNegative(high, radix);
      high * radix + DigitValue(last)
  }

  /** The text starts with `0x` or `0X`, which selects radix 16. */
  predicate HexPrefix(u: string) {
    |u| >= 2 && u[0] == '0' && (u[1] == 'x' || u[1] == 'X')
  }

  /** The text after the white space without its one leading `-` or `+`, if any. */
  function SignStripped(t: string): (u: string)
    ensures |t| > 0 && (t[0] == '-' || t[0] == '+') ==> u == t[1..]
    ensures (|t| == 0 || (t[0] != '-' && t[0] != '+')) ==> u == t
  {
    if |t| > 0 && (t[0] == '-' || t[0] == '+') then t[1..] else t
  }

  /**
   * When `parseInt` finds a number after the sign: a decimal digit that is
   * not the `0` of a hexadecimal prefix, or such a prefix followed by a
   * hexadecimal digit.
   */
  predicate StartsNumber(u: string) {
    if HexPrefix(u) then |u| > 2 && IsDigit(u[2], 16) else |u| > 0 && IsDigit(u[0], 10)
  }

  lemma ProductNonNegative(a: nat, b: nat)
    ensures a * b >= 0
  {
  }

  /**
   * `parseInt(s)`: skip leading white space, take an optional sign, then a
   * `0x`/`0X` prefix selects radix 16 (radix 10 otherwise), and the longest
   * run of digits that follows is the value. No digit at all gives NaN,
   * here `None`. Trailing characters are ignored.
   */
  function ParseInt(s: string): (r: Option<int>)
    ensures r.Some? <==> StartsNumber(SignStripped(TrimStart(s)))
    ensures r.Some? && r.value < 0 ==> |TrimStart(s)| > 0 && TrimStart(s)[0] == '-'
  {
    ParseSigned(TrimStart(s))
  }

  /** `parseInt` once the white space is gone: an optional `-` or `+` before the magnitude. */
  function ParseSigned(t: string): (r: Option<int>)
    ensures r.Some? <==> StartsNumber(SignStripped(t))
    ensures r.Some? && r.value < 0 ==> |t| > 0 && t[0] == '-'
    ensures r.Some? && |t| > 0 && t[0] == '-' ==> r.value <= 0
  {
    match ParseMagnitude(SignStripped(t))
    case None => None
    case Some(m) => if |t| > 0 && t[0] == '-' then Some(-m) else Some(m)
  }

  /** The unsigned part: an optional hexadecimal prefix, then the longest run of digits. */
  function ParseMagnitude(u: string): (r: Option<int>)
    ensures r.Some? <==> StartsNumber(u)
    ensures r.Some? ==> r.value >= 0
  {
    var radix := if HexPrefix(u) then 16 else 10;
    var z := if HexPrefix(u) then u[2..] else u;
    var n := DigitRun(z, radix);
    if n == 0 then None else Some(DigitsValue(z[..n], radix))
  }

  function DecimalDigit(d: nat): (c: char)
    requires d < 10
    ensures IsDigit(c, 10) && DigitValue(c) == d
  {
    ('0' as int + d) as char
  }

  /** `${n}` for a non-negative integer `n`: its decimal digits without leading zeros. */
  function NatToString(n: nat): (s: string)
    ensures |s| > 0
    ensures forall j :: 0 <= j < |s| ==> IsDigit(s[j], 10)
    ensures s[0] != '0' || s == "0"
  {
    if n < 10 then [DecimalDigit(n)] else NatToString(n / 10) + [DecimalDigit(n % 10)]
  }

  /** The decimal rendering of any integer, with a leading minus sign when negative. */
  function IntToString(i: int): (s: string)
    ensures |s| > 0
  {
    if i < 0 then "-" + NatToString(-i) else NatToString(i)
  }

  /** Reading back the digits of `NatToString(n)` gives `n`. */
  lemma {:induction false} NatToStringValue(n: nat)
    ensures DigitsValue(NatToString(n), 10) == n
  {
    var s := NatToString(n);
    if n >= 10 {
      var p := NatToString(n / 10);
      assert s == p + [DecimalDigit(n % 10)];
      assert s[..|s| - 1] == p;
      NatToStringValue(n / 10);
    }
  }

  /** Leading white space never changes what `parseInt` returns. */
  lemma {:induction false} ParseIntSkipsWhiteSpace(ws: string, s: string)
    requires forall j :: 0 <= j < |ws| ==> IsWhiteSpace(ws[j])
    ensures ParseInt(ws + s) == ParseInt(s)
  {
    TrimStartOfWhiteSpace(ws, s);
  }

  lemma {:induction false} TrimStartOfWhiteSpace(ws: string, s: string)
    requires forall j :: 0 <= j < |ws| ==> IsWhiteSpace(ws[j])
    ensures TrimStart(ws + s) == TrimStart(s)
  {
    if |ws| > 0 {
      assert (ws + s)[1..] == ws[1..] + s;
      TrimStartOfWhiteSpace(ws[1..], s);
    } else {
      assert ws + s == s;
    }
  }

  /** A decimal rendering followed by anything that is no letter or digit reads back as its value. */
  lemma ParseMagnitudeOfNatToString(n: nat, rest: string)
    requires rest == [] || DigitValue(rest[0]) < 0
    ensures ParseMagnitude(NatToString(n) + rest) == Some(n)
  {
    var digits := NatToString(n);
    var u := digits + rest;
    DigitRunOfPrefix(digits, rest, 10);
    assert u[..|digits|] == digits;
    NatToStringValue(n);
    assert |digits| >= 2 ==> u[0] != '0';
    assert |digits| == 1 && |u| >= 2 ==> u[1] == rest[0];
  }

  lemma {:induction false} DigitRunOfPrefix(digits: string, rest: string, radix: nat)
    requires forall j :: 0 <= j < |digits| ==> IsDigit(digits[j], radix)
    requires rest == [] || !IsDigit(rest[0], radix)
    ensures DigitRun(digits + rest, radix) == |digits|
  {
    if |digits| == 0 {
      assert digits + rest == rest;
    } else {
      assert (digits + rest)[1..] == digits[1..] + rest;
      DigitRunOfPrefix(digits[1..], rest, radix);
    }
  }

  lemma TrimStartKeeps(s: string)
    requires |s| > 0 && !IsWhiteSpace(s[0])
    ensures TrimStart(s) == s
  {
  }

  /**
   * Directly before the number, `+` changes nothing and `-` negates the
   * result; NaN stays NaN.
   */
  lemma ParseIntSign(s: string)
    requires |s| > 0 && !IsWhiteSpace(s[0]) && s[0] != '-' && s[0] != '+'
    ensures ParseInt("+" + s) == ParseInt(s)
    ensures ParseInt("-" + s) == if ParseInt(s).Some? then Some(-ParseInt(s).value) else None
  {
    TrimStartKeeps(s);
    var plus, minus := "+" + s, "-" + s;
    assert plus[0] == '+' && plus[1..] == s;
    assert minus[0] == '-' && minus[1..] == s;
    TrimStartKeeps(plus);
    TrimStartKeeps(minus);
  }

  /** Text starting with a decimal digit has no sign and no white space to skip. */
  lemma ParseIntUnsigned(u: string)
    requires |u| > 0 && IsDigit(u[0], 10)
    ensures ParseInt(u) == ParseMagnitude(u)
  {
    assert SignStripped(u) == u;
    TrimStartKeeps(u);
  }

  /** Text starting with `0` has no sign and no white space to skip. */
  lemma ParseIntLeadingZero(u: string)
    requires |u| > 0 && u[0] == '0'
    ensures ParseInt(u) == ParseMagnitude(u)
  {
    DecimalDigitIsPlain(u[0]);
    ParseIntUnsigned(u);
  }

  lemma ParseMagnitudeHex(ds: string, rest: string)
    requires |ds| > 0 && forall j :: 0 <= j < |ds| ==> IsDigit(ds[j], 16)
    requires rest == [] || !IsDigit(rest[0], 16)
    ensures ParseMagnitude("0x" + (ds + rest)) == Some(DigitsValue(ds, 16))
  {
    var v := ds + rest;
    var u := "0x" + v;
    assert u[2..] == v;
    assert HexPrefix(u) && u[2] == ds[0];
    DigitRunOfPrefix(ds, rest, 16);
    assert v[..|ds|] == ds;
  }

  /**
   * With a `0x` prefix the digits are read in radix 16, up to the first
   * character that is no hexadecimal digit (so `parseInt("0x1A")` is 26).
   */
  lemma ParseIntHex(ds: string, rest: string)
    requires |ds| > 0 && forall j :: 0 <= j < |ds| ==> IsDigit(ds[j], 16)
    requires rest == [] || !IsDigit(rest[0], 16)
    ensures ParseInt("0x" + ds + rest) == Some(DigitsValue(ds, 16))
  {
    var u := "0x" + (ds + rest);
    assert "0x" + ds + rest == u;
    assert u[0] == '0';
    ParseMagnitudeHex(ds, rest);
    ParseIntLeadingZero(u);
  }

  /**
   * Without a `0x` prefix the longest run of decimal digits is the value,
   * leading zeros included (so `parseInt("007")` is 7 and
   * `parseInt("12abc")` is 12).
   */
  lemma ParseIntDecimal(ds: string, rest: string)
    requires |ds| > 0 && forall j :: 0 <= j < |ds| ==> IsDigit(ds[j], 10)
    requires rest == [] || !IsDigit(rest[0], 10)
    requires !HexPrefix(ds + rest)
    ensures ParseInt(ds + rest) == Some(DigitsValue(ds, 10))
  {
    var u := ds + rest;
    assert u[0] == ds[0];
    ParseIntUnsigned(u);
    DigitRunOfPrefix(ds, rest, 10);
    assert u[..|ds|] == ds;
  }

  /** A non-negative number's decimal rendering reads back as the number. */
  lemma ParseIntOfNatToString(n: nat, rest: string)
    requires rest == [] || DigitValue(rest[0]) < 0
    ensures ParseInt(NatToString(n) + rest) == Some(n)
  {
    var u := NatToString(n) + rest;
    ParseMagnitudeOfNatToString(n, rest);
    assert u[0] == NatToString(n)[0];
    ParseIntUnsigned(u);
  }

  /** A minus sign before the unsigned part negates what `parseInt` reads. */
  lemma ParseIntNegate(u: string, v: int)
    requires ParseMagnitude(u) == Some(v)
    ensures ParseInt("-" + u) == Some(-v)
  {
    var t := "-" + u;
    assert t[0] == '-' && t[1..] == u;
    TrimStartKeeps(t);
    assert SignStripped(t) == u;
  }

  /** A decimal digit is neither white space nor a sign. */
  lemma DecimalDigitIsPlain(c: char)
    requires IsDigit(c, 10)
    ensures '0' <= c <= '9' && !IsWhiteSpace(c) && c != '-' && c != '+'
  {
  }

  /**
   * `parseInt` is a left inverse of the decimal rendering, also when the
   * number is followed by text that does not start with a letter or digit
   * (so `parseInt("12 abc")` is 12).
   */
  lemma ParseIntOfIntToString(i: int, rest: string)
    requires rest == [] || DigitValue(rest[0]) < 0
    ensures ParseInt(IntToString(i) + rest) == Some(i)
  {
    if i < 0 {
      var m: nat := -i;
      var u := NatToString(m) + rest;
      assert IntToString(i) + rest == "-" + u;
      ParseMagnitudeOfNatToString(m, rest);
      ParseIntNegate(u, m);
    } else {
      assert IntToString(i) + rest == NatToString(i) + rest;
      ParseIntOfNatToString(i, rest);
    }
  }
}
