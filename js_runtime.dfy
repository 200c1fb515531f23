/**
  The two pieces of the JavaScript runtime the page relies on:
  `String.prototype.substring` as the ECMAScript language specification
  defines it, with its index clamping and argument swap, and the decimal form produced by
  `BigInt.prototype.toString()` with the default radix.
 */
module JsRuntime {

  import opened Wrappers

  function Min(a: int, b: int): int { if a <= b then a else b }
  function Max(a: int, b: int): int { if a <= b then b else a }

  /** An index clamped into `[0, len]`, as `substring` does with each argument. */
  function Clamp(i: int, len: nat): (r: nat)
    ensures r <= len
    ensures 0 <= i <= len ==> r == i
    ensures i < 0 ==> r == 0
    ensures len < i ==> r == len
  {
    if i < 0 then 0 else if i > len then len else i
  }

  /**
    `s.substring(start, end)`: both indices are clamped into `[0, |s|]`,
    then the smaller one starts and the larger one ends the slice.
   */
  function Substring(s: string, start: int, end: int): (r: string)
    ensures |r| <= |s|
    ensures 0 <= start <= end <= |s| ==> r == s[start..end]
  {
    var a := Clamp(start, |s|);
    var b := Clamp(end, |s|);
    s[Min(a, b)..Max(a, b)]
  }

  /** The argument rules of `substring`: swapping, and clamping at both ends. */
  lemma SubstringRules(s: string, start: int, end: int)
    ensures Substring(s, end, start) == Substring(s, start, end)
    ensures start < 0 ==> Substring(s, start, end) == Substring(s, 0, end)
    ensures |s| < end ==> Substring(s, start, end) == Substring(s, start, |s|)
  {
  }

  /** `s.substring(start)`: the end defaults to the length of the string. */
  function SubstringFrom(s: string, start: int): (r: string)
    ensures 0 <= start <= |s| ==> r == s[start..]
    ensures start < 0 ==> r == s
    ensures |s| < start ==> r == ""
  {
    Substring(s, start, |s|)
  }

  predicate IsDigit(c: char) { '0' <= c <= '9' }

  predicate AllDigits(s: string) { forall i :: 0 <= i < |s| ==> IsDigit(s[i]) }

  function DigitChar(d: nat): (c: char)
    requires d < 10
    ensures IsDigit(c)
  {
    ['0', '1', '2', '3', '4', '5', '6', '7', '8', '9'][d]
  }

  function DigitValue(c: char): (d: nat)
    requires IsDigit(c)
    ensures d < 10
  {
    (c as int - '0' as int) as nat
  }

  /** The shortest decimal numeral of `n`: digits only, no leading zero. */
  function NatToDecimal(n: nat): (s: string)
    ensures |s| > 0
    ensures AllDigits(s)
    ensures |s| > 1 ==> s[0] != '0'
    decreases n
  {
    if n < 10 then [DigitChar(n)] else NatToDecimal(n / 10) + [DigitChar(n % 10)]
  }

  /** `BigInt.prototype.toString()`: a minus sign before the magnitude when negative. */
  function BigIntToString(i: int): (s: string)
    ensures |s| > 0
    ensures i < 0 <==> s[0] == '-'
  {
    if i < 0 then "-" + NatToDecimal(-i) else NatToDecimal(i)
  }

  /** The value of a string of decimal digits, read most significant digit first. */
  function ParseDecimal(s: string): nat
    requires AllDigits(s)
  {
    if s == [] then 0 else ParseDecimal(s[..|s| - 1]) * 10 + DigitValue(s[|s| - 1])
  }

  /** The integer a numeral produced by `BigIntToString` denotes, when it is one. */
  function ParseBigInt(s: string): (r: Option<int>)
  {
    if |s| > 0 && s[0] == '-' then
      if |s| > 1 && AllDigits(s[1..]) then var m: int := ParseDecimal(s[1..]); Some(-m)
      else None
    else if |s| > 0 && AllDigits(s) then Some(ParseDecimal(s))
    else None
  }

  lemma {:induction false} DecimalRoundTrip(n: nat)
    ensures ParseDecimal(NatToDecimal(n)) == n
    decreases n
  {
    if n >= 10 {
      var s := NatToDecimal(n);
      var hi := NatToDecimal(n / 10);
      assert s == hi + [DigitChar(n % 10)];
      assert s[..|s| - 1] == hi;
      DecimalRoundTrip(n / 10);
    }
  }

  /** Reading back the string form of a bigint gives the bigint. */
  lemma BigIntRoundTrip(i: int)
    ensures ParseBigInt(BigIntToString(i)) == Some(i)
  {
    var s := BigIntToString(i);
    if i < 0 {
      var m := NatToDecimal(-i);
      assert s[1..] == m;
      DecimalRoundTrip(-i);
    } else {
      assert IsDigit(s[0]) && s[0] != '-';
      DecimalRoundTrip(i);
    }
  }

  /** Distinct bigints have distinct string forms. */
  lemma BigIntToStringInjective(i: int, j: int)
    ensures BigIntToString(i) == BigIntToString(j) ==> i == j
  {
    BigIntRoundTrip(i);
    BigIntRoundTrip(j);
  }
}
