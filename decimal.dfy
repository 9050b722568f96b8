/**
 * Digits and positional notation: the text forms that JavaScript gives to
 * integers (`Number.prototype.toString`, `BigInt.prototype.toString`) and the
 * digit parsing that `JSON.parse`, `BigInt(string)` and `Number(string)` do.
 */
module Decimal {
  import opened Wrappers

  /** The value of an ASCII digit or Latin letter digit (a/A = 10 ... f/F = 15). */
  function CharValue(c: char): (r: Option<nat>)
    ensures r.Some? ==> r.value < 16
  {
    if '0' <= c <= '9' then Some(c as int - '0' as int)
    else if 'a' <= c <= 'f' then Some(c as int - 'a' as int + 10)
    else if 'A' <= c <= 'F' then Some(c as int - 'A' as int + 10)
    else None
  }

  predicate IsDigitIn(c: char, base: nat) {
    CharValue(c).Some? && CharValue(c).value < base
  }

  predicate IsDigit(c: char) {
    '0' <= c <= '9'
  }

  predicate AllDigitsIn(s: string, base: nat) {
    forall i :: 0 <= i < |s| ==> IsDigitIn(s[i], base)
  }

  /** The number a digit string denotes in the given base, most significant digit first. */
  function ValueIn(s: string, base: nat): nat
    requires AllDigitsIn(s, base)
  {
    if s == [] then 0
    else ValueIn(s[..|s| - 1], base) * base + CharValue(s[|s| - 1]).value
  }

  /** The lower-case digit character for `d`, as JavaScript prints it. */
  function DigitChar(d: nat): (c: char)
    requires d < 16
    ensures CharValue(c) == Some(d)
    ensures d < 10 ==> IsDigit(c)
  {
    "0123456789abcdef"[d]
  }

  /**
   * The decimal digits of `n` with no leading zero: what `String(n)` gives for
   * a non-negative integer.
   */
  function NatToDigits(n: nat): (s: string)
    ensures |s| > 0
    ensures forall i :: 0 <= i < |s| ==> IsDigit(s[i])
    ensures s[0] == '0' <==> n == 0
    ensures n == 0 ==> s == "0"
  {
    if n < 10 then [DigitChar(n)] else NatToDigits(n / 10) + [DigitChar(n % 10)]
  }

  lemma DigitIsDecimalDigit(c: char)
    requires IsDigit(c)
    ensures IsDigitIn(c, 10) && CharValue(c).value == c as int - '0' as int
  {
  }

  lemma {:induction false} DigitsAreDecimal(s: string)
    requires forall i :: 0 <= i < |s| ==> IsDigit(s[i])
    ensures AllDigitsIn(s, 10)
  {
    forall i | 0 <= i < |s| ensures IsDigitIn(s[i], 10) {
      DigitIsDecimalDigit(s[i]);
    }
  }

  /** Reading back the digits `NatToDigits` prints gives the number again. */
  lemma {:induction false} NatToDigitsRoundTrip(n: nat)
    ensures AllDigitsIn(NatToDigits(n), 10)
    ensures ValueIn(NatToDigits(n), 10) == n
  {
    var s := NatToDigits(n);
    DigitsAreDecimal(s);
    if n >= 10 {
      NatToDigitsRoundTrip(n / 10);
      assert s[..|s| - 1] == NatToDigits(n / 10);
    }
  }

  /** The decimal text of an integer, as `String(i)` gives it for a safe integer or bigint. */
  function IntToDecimal(i: int): (s: string)
    ensures |s| > 0
    ensures s[0] == '-' <==> i < 0
    ensures i >= 0 ==> s == NatToDigits(i)
    ensures i < 0 ==> s == "-" + NatToDigits(-i)
  {
    if i < 0 then "-" + NatToDigits(-i) else NatToDigits(i)
  }

  /** The length of the longest prefix of `s` that consists of digits of `base`. */
  function SpanDigitsIn(s: string, base: nat): (k: nat)
    ensures k <= |s|
    ensures AllDigitsIn(s[..k], base)
    ensures k == |s| || !IsDigitIn(s[k], base)
  {
    if s == [] || !IsDigitIn(s[0], base) then 0
    else
      var k := 1 + SpanDigitsIn(s[1..], base);
      assert s[..k] == [s[0]] + s[1..][..k - 1];
      k
  }

  /** A digit string followed by a non-digit spans exactly its own length. */
  lemma {:induction false} SpanDigitsOfDigits(ds: string, rest: string, base: nat)
    requires AllDigitsIn(ds, base)
    requires rest == [] || !IsDigitIn(rest[0], base)
    ensures SpanDigitsIn(ds + rest, base) == |ds|
  {
    if ds != [] {
      assert (ds + rest)[1..] == ds[1..] + rest;
      SpanDigitsOfDigits(ds[1..], rest, base);
    }
  }

  /**
   * An optionally signed decimal integer literal (`-`, `+` or no sign, then
   * one or more decimal digits, leading zeros allowed); `None` for any other
   * text.
   */
  function SignedDecimal(s: string): (r: Option<int>)
    ensures r.Some? ==> |s| > 0
  {
    if s == [] then None
    else
      var digits := if s[0] == '-' || s[0] == '+' then s[1..] else s;
      if digits == [] || !AllDigitsIn(digits, 10) then None
      else if s[0] == '-' then Some(-(ValueIn(digits, 10) as int))
      else Some(ValueIn(digits, 10))
  }

  /** A digit string, with or without a minus sign in front, reads as its value. */
  lemma SignedDecimalOfDigits(ds: string)
    requires ds != [] && IsDigit(ds[0]) && AllDigitsIn(ds, 10)
    ensures SignedDecimal(ds) == Some(ValueIn(ds, 10) as int)
    ensures SignedDecimal("-" + ds) == Some(-(ValueIn(ds, 10) as int))
  {
    assert ds[0] != '-' && ds[0] != '+';
    assert ("-" + ds)[0] == '-' && ("-" + ds)[1..] == ds;
  }

  /** `SignedDecimal` reads back every integer `IntToDecimal` prints. */
  lemma IntToDecimalRoundTrip(i: int)
    ensures SignedDecimal(IntToDecimal(i)) == Some(i)
  {
    var n: nat := if i < 0 then -i else i;
    NatToDigitsRoundTrip(n);
    SignedDecimalOfDigits(NatToDigits(n));
  }

  /**
   * A non-decimal integer literal as JavaScript's string-to-number reads it:
   * `0x`/`0X` hexadecimal, `0o`/`0O` octal or `0b`/`0B` binary digits, no sign.
   */
  function NonDecimal(s: string): (r: Option<nat>)
  {
    if |s| < 3 || s[0] != '0' then None
    else
      var base := if s[1] in "xX" then 16 else if s[1] in "oO" then 8 else if s[1] in "bB" then 2 else 0;
      if base != 0 && AllDigitsIn(s[2..], base) then Some(ValueIn(s[2..], base)) else None
  }

  /**
   * The white space and line terminators that JavaScript's `String.prototype.trim`
   * and its string-to-number conversions strip.
   */
  predicate IsJsWhiteSpace(c: char) {
    var k := c as int;
    (0x09 <= k <= 0x0D) || k == 0x20 || k == 0xA0 || k == 0x1680
    || (0x2000 <= k <= 0x200A) || k == 0x2028 || k == 0x2029
    || k == 0x202F || k == 0x205F || k == 0x3000 || k == 0xFEFF
  }

  /** `s` with leading and trailing JavaScript white space removed. */
  function Trim(s: string): (r: string)
    ensures |r| <= |s|
    ensures r != [] ==> !IsJsWhiteSpace(r[0]) && !IsJsWhiteSpace(r[|r| - 1])
    ensures forall i :: 0 <= i < |s| && !IsJsWhiteSpace(s[i]) ==> r != []
  {
    if s == [] then []
    else if IsJsWhiteSpace(s[0]) then Trim(s[1..])
    else if IsJsWhiteSpace(s[|s| - 1]) then Trim(s[..|s| - 1])
    else s
  }
}
