/**
 * The string behaviour of the JavaScript runtime that the kudos code relies on:
 * `String.prototype.trim`, the UTF-16 `length` of a string, the decimal rendering
 * of a non-negative integer (template literals, `String(n)`), and `Number(s)` as
 * `z.coerce.number()` applies it to a query-string value.
 */
module JsStrings {
  import opened Wrappers

  // ---------------------------------------------------------------------------
  // String.prototype.trim
  // ---------------------------------------------------------------------------

  /** The WhiteSpace and LineTerminator code points of ECMAScript (sections 12.2
      and 12.3 of ECMA-262), which `trim` removes from both ends: TAB, VT, FF,
      ZWNBSP, every space separator of Unicode category Zs, LF, CR, LS and PS. */
  predicate IsJsWhitespace(c: char) {
    || c == '\t' || c == '\U{000B}' || c == '\U{000C}' || c == '\U{FEFF}'
    || c == ' ' || c == '\U{00A0}' || c == '\U{1680}' || ('\U{2000}' <= c <= '\U{200A}')
    || c == '\U{202F}' || c == '\U{205F}' || c == '\U{3000}'
    || c == '\n' || c == '\r' || c == '\U{2028}' || c == '\U{2029}'
  }

  predicate AllWhitespace(s: string) {
    forall i :: 0 <= i < |s| ==> IsJsWhitespace(s[i])
  }

  /** A string with no whitespace at either end; exactly the strings `trim` leaves alone. */
  predicate IsTrimmed(s: string) {
    s == [] || (!IsJsWhitespace(s[0]) && !IsJsWhitespace(s[|s| - 1]))
  }

  /** Removes the leading whitespace: the result is a suffix of `s`, all that was
      dropped is whitespace, and the result does not start with whitespace. */
  function TrimStart(s: string): (r: string)
    ensures |r| <= |s| && r == s[|s| - |r|..]
    ensures AllWhitespace(s[..|s| - |r|])
    ensures r != [] ==> !IsJsWhitespace(r[0])
  {
    if s != [] && IsJsWhitespace(s[0]) then TrimStart(s[1..]) else s
  }

  /** Removes the trailing whitespace: the result is a prefix of `s`, all that was
      dropped is whitespace, and the result does not end with whitespace. */
  function TrimEnd(s: string): (r: string)
    ensures |r| <= |s| && r == s[..|r|]
    ensures AllWhitespace(s[|r|..])
    ensures r != [] ==> !IsJsWhitespace(r[|r| - 1])
  {
    if s != [] && IsJsWhitespace(s[|s| - 1]) then TrimEnd(s[..|s| - 1]) else s
  }

  /** `s.trim()`: whitespace removed from both ends. */
  function Trim(s: string): (r: string)
    ensures IsTrimmed(r) && |r| <= |s|
  {
    TrimEnd(TrimStart(s))
  }

  /** What `trim` removes is whitespace at the two ends, and what it keeps is
      the infix of `s` between them. */
  lemma TrimIsInfix(s: string)
    ensures exists i, j :: 0 <= i <= j <= |s| && Trim(s) == s[i..j] && AllWhitespace(s[..i]) && AllWhitespace(s[j..])
  {
    var t := TrimStart(s);
    var r := TrimEnd(t);
    var i := |s| - |t|;
    assert r == s[i..i + |r|];
    assert s[i + |r|..] == t[|r|..];
  }

  /** Trimming a string that is already trimmed changes nothing; in particular
      `trim` is idempotent. */
  lemma TrimmedIsFixed(s: string)
    requires IsTrimmed(s)
    ensures Trim(s) == s
  {
    assert TrimStart(s) == s;
  }

  lemma TrimIdempotent(s: string)
    ensures Trim(Trim(s)) == Trim(s)
  {
    TrimmedIsFixed(Trim(s));
  }

  /** `trim` yields the empty string exactly when the string is whitespace only. */
  lemma {:induction false} TrimEmptyIffAllWhitespace(s: string)
    ensures Trim(s) == [] <==> AllWhitespace(s)
  {
    TrimIsInfix(s);
    var i, j :| 0 <= i <= j <= |s| && Trim(s) == s[i..j] && AllWhitespace(s[..i]) && AllWhitespace(s[j..]);
    if Trim(s) == [] {
      assert i == j;
      forall k | 0 <= k < |s| ensures IsJsWhitespace(s[k]) {
        if k < i { assert s[k] == s[..i][k]; } else { assert s[k] == s[j..][k - j]; }
      }
    }
  }

  // ---------------------------------------------------------------------------
  // String length in UTF-16 code units
  // ---------------------------------------------------------------------------

  /** How many UTF-16 code units encode `c`: two for a code point above U+FFFF. */
  function CodeUnits(c: char): nat {
    if c as int > 0xFFFF then 2 else 1
  }

  /** The JavaScript `length` of a string, which counts UTF-16 code units, not
      code points; zod's `min`/`max` on strings compare against it. */
  function Utf16Length(s: string): nat {
    if s == [] then 0 else CodeUnits(s[0]) + Utf16Length(s[1..])
  }

  /** Every character takes one or two code units. */
  lemma {:induction false} Utf16LengthBounds(s: string)
    ensures |s| <= Utf16Length(s) <= 2 * |s|
  {
    if s != [] {
      Utf16LengthBounds(s[1..]);
    }
  }

  predicate AllBmp(s: string) {
    forall i :: 0 <= i < |s| ==> s[i] as int <= 0xFFFF
  }

  /** For text inside the Basic Multilingual Plane the JavaScript length is the
      number of characters. */
  lemma {:induction false} Utf16LengthOfBmp(s: string)
    requires AllBmp(s)
    ensures Utf16Length(s) == |s|
  {
    if s != [] {
      assert AllBmp(s[1..]) by {
        forall i | 0 <= i < |s[1..]| ensures s[1..][i] as int <= 0xFFFF { assert s[1..][i] == s[i + 1]; }
      }
      Utf16LengthOfBmp(s[1..]);
    }
  }

  /** `c.repeat(n)` for a single character. */
  function Repeat(c: char, n: nat): (s: string)
    ensures |s| == n && forall i :: 0 <= i < n ==> s[i] == c
  {
    if n == 0 then [] else [c] + Repeat(c, n - 1)
  }

  // ---------------------------------------------------------------------------
  // Decimal digits
  // ---------------------------------------------------------------------------

  predicate IsDigit(c: char) {
    '0' <= c <= '9'
  }

  predicate AllDigits(s: string) {
    forall i :: 0 <= i < |s| ==> IsDigit(s[i])
  }

  function DigitChar(d: int): (c: char)
    requires 0 <= d < 10
    ensures IsDigit(c) && c as int - '0' as int == d
  {
    ('0' as int + d) as char
  }

  /** The value of a run of decimal digits, most significant first. */
  function DigitsValue(s: string): nat
    requires AllDigits(s)
  {
    if s == [] then 0 else DigitsValue(s[..|s| - 1]) * 10 + (s[|s| - 1] as int - '0' as int)
  }

  /** `String(n)` for a non-negative integer: its shortest decimal rendering. */
  function DecimalString(n: nat): (s: string)
    ensures s != [] && AllDigits(s)
    ensures |s| > 1 ==> s[0] != '0'
  {
    if n < 10 then [DigitChar(n)] else DecimalString(n / 10) + [DigitChar(n % 10)]
  }

  /** Reading back the decimal rendering of `n` gives `n`. */
  lemma {:induction false} DecimalStringRoundTrip(n: nat)
    ensures DigitsValue(DecimalString(n)) == n
  {
    if n >= 10 {
      var s := DecimalString(n);
      assert s[..|s| - 1] == DecimalString(n / 10);
      DecimalStringRoundTrip(n / 10);
    }
  }

  function Pow10(k: nat): (p: nat)
    ensures p >= 1
  {
    if k == 0 then 1 else 10 * Pow10(k - 1)
  }

  /** The last `width` decimal digits of `n`, left-padded with zeros, as
      `padStart(width, '0')` gives them for `n < 10^width`. */
  function Pad(n: nat, width: nat): (s: string)
    ensures |s| == width && AllDigits(s)
  {
    if width == 0 then [] else Pad(n / 10, width - 1) + [DigitChar(n % 10)]
  }

  /** Reading back a zero-padded rendering gives the number, when it fits. */
  lemma {:induction false} PadRoundTrip(n: nat, width: nat)
    requires n < Pow10(width)
    ensures DigitsValue(Pad(n, width)) == n
  {
    if width > 0 {
      var s := Pad(n, width);
      assert s[..|s| - 1] == Pad(n / 10, width - 1);
      PadRoundTrip(n / 10, width - 1);
    }
  }

  // ---------------------------------------------------------------------------
  // Number(s)
  // ---------------------------------------------------------------------------

  /** An optional sign followed by at least one decimal digit. */
  function SignedDecimal(t: string): (r: Option<int>)
    ensures r.Some? <==> (AllDigits(t) && t != []) || (|t| > 1 && (t[0] == '-' || t[0] == '+') && AllDigits(t[1..]))
  {
    if t != [] && AllDigits(t) then Some(DigitsValue(t))
    else if |t| > 1 && t[0] == '+' && AllDigits(t[1..]) then Some(DigitsValue(t[1..]))
    else if |t| > 1 && t[0] == '-' && AllDigits(t[1..]) then Some(-(DigitsValue(t[1..]) as int))
    else None
  }

  /** `Number(s)` on the strings whose integral value the model captures: the
      surrounding whitespace is ignored, the empty string is 0, and an optionally
      signed run of decimal digits is its value. Every other string is None. */
  function NumberFromString(s: string): (r: Option<int>)
    ensures AllWhitespace(s) ==> r == Some(0)
  {
    TrimEmptyIffAllWhitespace(s);
    var t := Trim(s);
    if t == [] then Some(0) else SignedDecimal(t)
  }

  /** `Number` ignores whitespace around its argument: any string reads as
      its trim does. */
  lemma NumberIgnoresSurroundingWhitespace(s: string)
    ensures NumberFromString(s) == NumberFromString(Trim(s))
  {
    TrimIdempotent(s);
  }

  /** A trimmed, non-empty string reads as the signed decimal it spells. */
  lemma NumberOfTrimmed(t: string)
    requires t != [] && IsTrimmed(t)
    ensures NumberFromString(t) == SignedDecimal(t)
  {
    TrimmedIsFixed(t);
  }

  /** The rendering `String(n)` of a non-negative integer reads back through
      `Number` as `n`. */
  lemma NumberOfDecimalString(n: nat)
    ensures NumberFromString(DecimalString(n)) == Some(n)
  {
    var d := DecimalString(n);
    assert IsTrimmed(d) by {
      assert IsDigit(d[0]) && IsDigit(d[|d| - 1]);
    }
    NumberOfTrimmed(d);
    DecimalStringRoundTrip(n);
  }

  /** The same rendering with a minus sign reads back as `-n`. */
  lemma NumberOfNegatedDecimalString(n: nat)
    ensures NumberFromString("-" + DecimalString(n)) == Some(-(n as int))
  {
    var d := DecimalString(n);
    NegatedDigits(d);
    NumberOfTrimmed("-" + d);
    DecimalStringRoundTrip(n);
  }

  /** A minus sign before a run of digits is a trimmed signed decimal worth
      minus the digits' value. */
  lemma NegatedDigits(d: string)
    requires d != [] && AllDigits(d)
    ensures IsTrimmed("-" + d)
    ensures SignedDecimal("-" + d) == Some(-(DigitsValue(d) as int))
  {
    var m := "-" + d;
    assert m[1..] == d;
    assert IsDigit(m[|m| - 1]);
    assert !IsDigit(m[0]);
  }
}
