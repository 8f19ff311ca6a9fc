/**
 * JavaScript's global `parseInt(string)` called without a radix, as section 19.2.5
 * of ECMA-262 (2023 edition) defines it: leading white space is skipped, one sign
 * is taken, a `0x`/`0X` prefix switches to radix 16, and then the longest run of
 * digits of the radix is read. An empty run is NaN, written here as `None`.
 */
module JsParseInt {
  import opened Wrappers

  /** WhiteSpace and LineTerminator code points of ECMA-262 sections 12.2 and 12.3. */
  predicate IsJsWhiteSpace(c: char) {
    c == '\t' || c == '\U{000B}' || c == '\U{000C}' || c == ' ' || c == '\U{00A0}'
    || c == '\U{FEFF}' || c == '\U{1680}' || ('\U{2000}' <= c <= '\U{200A}')
    || c == '\U{202F}' || c == '\U{205F}' || c == '\U{3000}'
    || c == '\n' || c == '\r' || c == '\U{2028}' || c == '\U{2029}'
  }

  predicate IsDecimalDigit(c: char) {
    '0' <= c <= '9'
  }

  predicate IsHexDigit(c: char) {
    IsDecimalDigit(c) || ('a' <= c <= 'f') || ('A' <= c <= 'F')
  }

  /** A digit of radix 16 or, for any other radix used here, of radix 10. */
  predicate IsRadixDigit(c: char, radix: nat) {
    if radix == 16 then IsHexDigit(c) else IsDecimalDigit(c)
  }

  function DigitValue(c: char): (d: nat)
    requires IsHexDigit(c)
    ensures d < 16
    ensures IsDecimalDigit(c) ==> d < 10
  {
    if IsDecimalDigit(c) then c as nat - '0' as nat
    else if 'a' <= c <= 'f' then c as nat - 'a' as nat + 10
    else c as nat - 'A' as nat + 10
  }

  /** The input with its leading white space removed. */
  function TrimStart(s: string): (t: string)
    ensures |t| <= |s| && t == s[|s| - |t|..]
    ensures t == [] || !IsJsWhiteSpace(t[0])
    ensures forall i :: 0 <= i < |s| - |t| ==> IsJsWhiteSpace(s[i])
  {
    if s != [] && IsJsWhiteSpace(s[0]) then TrimStart(s[1..]) else s
  }

  /** The length of the longest prefix of `s` made of digits of `radix`. */
  function DigitRun(s: string, radix: nat): (n: nat)
    ensures n <= |s|
    ensures forall i :: 0 <= i < n ==> IsRadixDigit(s[i], radix)
    ensures n < |s| ==> !IsRadixDigit(s[n], radix)
  {
    if s != [] && IsRadixDigit(s[0], radix) then 1 + DigitRun(s[1..], radix) else 0
  }

  /** The number that a run of digits denotes in `radix`, most significant digit first. */
  function DigitsValue(z: string, radix: nat): nat
    requires radix == 10 || radix == 16
    requires forall i :: 0 <= i < |z| ==> IsRadixDigit(z[i], radix)
  {
    if z == [] then 0
    else
      assert IsRadixDigit(z[|z| - 1], radix);
      DigitsValue(z[..|z| - 1], radix) * radix + DigitValue(z[|z| - 1])
  }

  /** The value of the longest digit run at the start of `d`, or NaN if it is empty. */
  function ReadDigits(d: string, radix: nat): (r: Option<nat>)
    requires radix == 10 || radix == 16
  {
    var n := DigitRun(d, radix);
    if n == 0 then None else Some(DigitsValue(d[..n], radix))
  }

  /** The part after the sign: a `0x`/`0X` prefix selects radix 16, otherwise radix 10. */
  function ParseUnsigned(u: string): (r: Option<nat>)
  {
    if |u| >= 2 && u[0] == '0' && (u[1] == 'x' || u[1] == 'X') then ReadDigits(u[2..], 16)
    else ReadDigits(u, 10)
  }

  /** The part after leading white space: an optional sign and the number. */
  function ParseSigned(t: string): (r: Option<int>)
  {
    if t != [] && t[0] == '-' then
      match ParseUnsigned(t[1..])
      case None => None
      case Some(v) => Some(-(v as int))
    else if t != [] && t[0] == '+' then
      match ParseUnsigned(t[1..])
      case None => None
      case Some(v) => Some(v)
    else
      match ParseUnsigned(t)
      case None => None
      case Some(v) => Some(v)
  }

  /** `parseInt(s)`; `None` is the NaN that a string without leading digits gives. */
  function ParseInt(s: string): (r: Option<int>)
  {
    ParseSigned(TrimStart(s))
  }

  /** The decimal numeral of `n` without leading zeros, as `String(n)` writes it. */
  function DecimalString(n: nat): (s: string)
    ensures |s| > 0
    ensures forall i :: 0 <= i < |s| ==> IsDecimalDigit(s[i])
    ensures n > 0 ==> s[0] != '0'
    decreases n
  {
    if n < 10 then ['0' + n as char]
    else DecimalString(n / 10) + ['0' + (n % 10) as char]
  }

  /** Reading back the numeral of `n` gives `n`. */
  lemma {:induction false} DecimalStringValue(n: nat)
    ensures DigitsValue(DecimalString(n), 10) == n
    decreases n
  {
    var s := DecimalString(n);
    if n >= 10 {
      DecimalStringValue(n / 10);
      assert s[..|s| - 1] == DecimalString(n / 10);
    }
  }

  /** The digit run of a numeral followed by a non-digit stops exactly at the numeral's end. */
  lemma {:induction false} DigitRunOfNumeral(z: string, suffix: string, radix: nat)
    requires forall i :: 0 <= i < |z| ==> IsRadixDigit(z[i], radix)
    requires suffix == [] || !IsRadixDigit(suffix[0], radix)
    ensures DigitRun(z + suffix, radix) == |z|
  {
    if z != [] {
      assert (z + suffix)[1..] == z[1..] + suffix;
      DigitRunOfNumeral(z[1..], suffix, radix);
    } else {
      assert z + suffix == suffix;
    }
  }

  lemma DigitIsNotSpaceOrSign(c: char)
    requires IsDecimalDigit(c)
    ensures !IsJsWhiteSpace(c) && c != '-' && c != '+'
  {
  }

  /** A non-empty numeral followed by a non-digit reads as the numeral's value. */
  lemma ReadNumeral(z: string, suffix: string, radix: nat)
    requires radix == 10 || radix == 16
    requires z != [] && forall i :: 0 <= i < |z| ==> IsRadixDigit(z[i], radix)
    requires suffix == [] || !IsRadixDigit(suffix[0], radix)
    ensures ReadDigits(z + suffix, radix) == Some(DigitsValue(z, radix))
  {
    DigitRunOfNumeral(z, suffix, radix);
    assert (z + suffix)[..|z|] == z;
  }

  /** The unsigned part of `parseInt` reads back a decimal numeral. */
  lemma NumeralUnsigned(n: nat, suffix: string)
    requires suffix == [] || !IsDecimalDigit(suffix[0])
    requires n == 0 ==> suffix == [] || (suffix[0] != 'x' && suffix[0] != 'X')
    ensures ParseUnsigned(DecimalString(n) + suffix) == Some(n)
  {
    var z := DecimalString(n);
    var s := z + suffix;
    assert s[0] == z[0];
    assert !(|s| >= 2 && s[0] == '0' && (s[1] == 'x' || s[1] == 'X')) by {
      if |z| == 1 && |s| >= 2 { assert s[1] == suffix[0]; }
    }
    ReadNumeral(z, suffix, 10);
    DecimalStringValue(n);
  }

  /**
   * `parseInt` reads back a decimal numeral followed by any suffix that does not
   * continue it: `parseInt(String(n) + "px") == n`. The one exception is a zero
   * followed by `x` or `X`, which the radix-16 prefix rule claims.
   */
  lemma DecimalRoundTrip(n: nat, suffix: string)
    requires suffix == [] || !IsDecimalDigit(suffix[0])
    requires n == 0 ==> suffix == [] || (suffix[0] != 'x' && suffix[0] != 'X')
    ensures ParseInt(DecimalString(n) + suffix) == Some(n)
  {
    var s := DecimalString(n) + suffix;
    assert s[0] == DecimalString(n)[0];
    DigitIsNotSpaceOrSign(s[0]);
    assert TrimStart(s) == s;
    NumeralUnsigned(n, suffix);
  }

  /** A leading `-` negates the value read after it. */
  lemma NegativeRoundTrip(n: nat, suffix: string)
    requires suffix == [] || !IsDecimalDigit(suffix[0])
    requires n == 0 ==> suffix == [] || (suffix[0] != 'x' && suffix[0] != 'X')
    ensures ParseInt("-" + DecimalString(n) + suffix) == Some(-(n as int))
  {
    var s := "-" + DecimalString(n) + suffix;
    assert TrimStart(s) == s;
    assert s[1..] == DecimalString(n) + suffix;
    NumeralUnsigned(n, suffix);
  }

  /** Leading white space does not change the result. */
  lemma {:induction false} WhiteSpaceIgnored(ws: string, s: string)
    requires forall i :: 0 <= i < |ws| ==> IsJsWhiteSpace(ws[i])
    ensures ParseInt(ws + s) == ParseInt(s)
  {
    TrimStartSkips(ws, s);
  }

  lemma {:induction false} TrimStartSkips(ws: string, s: string)
    requires forall i :: 0 <= i < |ws| ==> IsJsWhiteSpace(ws[i])
    ensures TrimStart(ws + s) == TrimStart(s)
  {
    if ws != [] {
      assert (ws + s)[1..] == ws[1..] + s;
      TrimStartSkips(ws[1..], s);
    } else {
      assert ws + s == s;
    }
  }

  /**
   * For a string that starts with neither white space, a sign nor a `0x` prefix,
   * the result is NaN exactly when the string does not start with a decimal digit.
   */
  lemma NaNWithoutLeadingDigit(s: string)
    requires s == [] || !(IsJsWhiteSpace(s[0]) || s[0] == '-' || s[0] == '+')
    requires !(|s| >= 2 && s[0] == '0' && (s[1] == 'x' || s[1] == 'X'))
    ensures ParseInt(s).None? <==> (s == [] || !IsDecimalDigit(s[0]))
  {
    assert TrimStart(s) == s;
  }

  /** `parseInt("16px")` is 16. */
  lemma SixteenPixels()
    ensures ParseInt("16px") == Some(16)
  {
    assert DecimalString(1) == "1";
    assert DecimalString(16) + "px" == "16px";
    DecimalRoundTrip(16, "px");
  }
}
