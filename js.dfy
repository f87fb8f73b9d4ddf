/** The pieces of JavaScript's runtime that the modelled code leans on:
    nullable values, thrown errors, string truthiness, `String.prototype.endsWith`,
    `String.prototype.includes`, `String.prototype.length` and `Number.prototype.toString`
    on integers. */
module Js {

  datatype Option<+T> = None | Some(value: T)

  /** How a call ends: with a value, or with a thrown error. */
  datatype Result<+T, +E> = Success(value: T) | Failure(error: E)

  /** A thrown `Error`: its optional `code` (`'ENOENT'` for a missing file) and its `message`. */
  datatype JsError = JsError(code: Option<string>, message: string)

  /** The `TypeError` a property read on null or undefined throws:
      `base` is `"null"` or `"undefined"`, `key` the property read. */
  function TypeErrorReading(base: string, key: string): JsError {
    JsError(None, "Cannot read properties of " + base + " (reading '" + key + "')")
  }

  /** `!!s` for a value that is a string or null/undefined: the empty string is falsy. */
  predicate Truthy(s: Option<string>) {
    s.Some? && s.value != ""
  }

  predicate StartsWith(s: string, prefix: string) {
    |prefix| <= |s| && s[..|prefix|] == prefix
  }

  /** `s.endsWith(suffix)` */
  predicate EndsWith(s: string, suffix: string) {
    |suffix| <= |s| && s[|s| - |suffix|..] == suffix
  }

  /** `s.includes(sub)`: some position of `s` starts an occurrence of `sub`. */
  predicate Includes(s: string, sub: string)
    decreases |s|
  {
    StartsWith(s, sub) || (|s| > 0 && Includes(s[1..], sub))
  }

  /** Whatever surrounds it, an occurrence of `sub` is found. */
  lemma {:induction false} IncludesInfix(before: string, sub: string, after: string)
    ensures Includes(before + sub + after, sub)
  {
    var s := before + sub + after;
    if before == [] {
      assert s[..|sub|] == sub;
    } else {
      assert s[1..] == before[1..] + sub + after;
      IncludesInfix(before[1..], sub, after);
    }
  }

  /** A string that lacks one of the characters of `sub` holds no occurrence of it. */
  lemma {:induction false} MissingCharExcludes(s: string, sub: string, c: char)
    requires c in sub && c !in s
    ensures !Includes(s, sub)
    decreases |s|
  {
    if |s| > 0 {
      MissingCharExcludes(s[1..], sub, c);
    }
  }

  /** `s.length`: a JavaScript string counts UTF-16 code units, so a character above U+FFFF
      (stored as a surrogate pair) counts twice. */
  function Utf16Length(s: string): (n: nat)
    ensures |s| <= n <= 2 * |s|
    ensures n == |s| <==> forall i :: 0 <= i < |s| ==> s[i] as int <= 0xFFFF
    decreases |s|
  {
    if s == [] then 0
    else (if s[0] as int > 0xFFFF then 2 else 1) + Utf16Length(s[1..])
  }

  /** The length of a concatenation is the sum of the lengths. */
  lemma {:induction false} Utf16LengthAppend(a: string, b: string)
    ensures Utf16Length(a + b) == Utf16Length(a) + Utf16Length(b)
    decreases |a|
  {
    if a == [] {
      assert a + b == b;
    } else {
      assert (a + b)[0] == a[0];
      assert (a + b)[1..] == a[1..] + b;
      Utf16LengthAppend(a[1..], b);
    }
  }

  predicate IsDigit(c: char) {
    '0' <= c <= '9'
  }

  function DigitChar(d: nat): (c: char)
    requires d < 10
    ensures IsDigit(c)
  {
    "0123456789"[d]
  }

  function DigitValue(c: char): (d: nat)
    requires IsDigit(c)
    ensures d < 10
  {
    (c as int) - ('0' as int)
  }

  /** The decimal numeral of a natural number, most significant digit first, with no leading zero. */
  function NatToString(n: nat): (s: string)
    decreases n
  {
    if n < 10 then [DigitChar(n)] else NatToString(n / 10) + [DigitChar(n % 10)]
  }

  /** `n.toString()` for an integral JavaScript number below 1e21 in magnitude (larger
      ones print in exponent form, which is not modelled). */
  function NumberToString(n: int): (s: string) {
    if n < 0 then "-" + NatToString(-n) else NatToString(n)
  }

  /** The value of a non-empty string of decimal digits, or None when it is not one. */
  function DigitsValue(s: string): (r: Option<nat>)
    decreases |s|
  {
    if s == [] || !IsDigit(s[|s| - 1]) then None
    else if |s| == 1 then Some(DigitValue(s[0]))
    else match DigitsValue(s[..|s| - 1])
      case None => None
      case Some(high) => Some(10 * high + DigitValue(s[|s| - 1]))
  }

  /** Reads back an optionally signed decimal numeral: the inverse of NumberToString. */
  function DecimalValue(s: string): (r: Option<int>) {
    if |s| > 0 && s[0] == '-' then
      match DigitsValue(s[1..])
      case None => None
      case Some(v) => Some(-(v as int))
    else
      match DigitsValue(s)
      case None => None
      case Some(v) => Some(v)
  }

  lemma {:induction false} NatToStringRoundTrip(n: nat)
    ensures NatToString(n) != [] && NatToString(n)[0] != '-'
    ensures DigitsValue(NatToString(n)) == Some(n)
    decreases n
  {
    var s := NatToString(n);
    if n < 10 {
      assert s == [DigitChar(n)];
      assert DigitValue(DigitChar(n)) == n;
    } else {
      NatToStringRoundTrip(n / 10);
      var high := NatToString(n / 10);
      assert s[..|s| - 1] == high;
      assert s[|s| - 1] == DigitChar(n % 10);
      assert DigitValue(DigitChar(n % 10)) == n % 10;
      assert s[0] == high[0];
    }
  }

  /** Printing an integer and reading the numeral back gives the integer again. */
  lemma NumberToStringRoundTrip(n: int)
    ensures DecimalValue(NumberToString(n)) == Some(n)
  {
    if n < 0 {
      var digits := NatToString(-n);
      NatToStringRoundTrip(-n);
      var s := "-" + digits;
      assert s[0] == '-' && s[1..] == digits;
      assert DecimalValue(s) == Some(-(-n));
    } else {
      NatToStringRoundTrip(n);
      assert NatToString(n)[0] != '-';
    }
  }
}
