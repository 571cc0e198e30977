/**
 * 64-bit integers as the codec reads and writes them: `long.TryParse` with the default
 * integer style (optional sign, decimal digits, range-checked) and the invariant-culture
 * `ToString` of a `long`.
 */
module Numbers {
  import opened Optional
  import opened Text

  const INT64_MIN: int := -0x8000_0000_0000_0000
  const INT64_MAX: int := 0x7FFF_FFFF_FFFF_FFFF

  type Int64 = x: int | INT64_MIN <= x <= INT64_MAX

  predicate IsDigit(c: char) {
    '0' <= c <= '9'
  }

  predicate AllDigits(s: string) {
    forall i :: 0 <= i < |s| ==> IsDigit(s[i])
  }

  function DigitValue(c: char): nat
    requires IsDigit(c)
  {
    c as int - '0' as int
  }

  function DigitChar(d: nat): (c: char)
    requires d < 10
    ensures IsDigit(c) && DigitValue(c) == d
  {
    ('0' as int + d) as char
  }

  /** Value of a decimal digit string, most significant digit first. */
  function DigitsValue(s: string): nat
    requires AllDigits(s)
  {
    if |s| == 0 then 0 else DigitsValue(DropLast(s)) * 10 + DigitValue(Last(s))
  }

  /** `long.TryParse(s, out v)`: an optional `-` or `+` followed by one or more decimal
      digits whose signed value fits in 64 bits. */
  function ParseInt64(s: string): (r: Option<Int64>)
    ensures r.Some? ==> |s| > 0 && (IsDigit(s[0]) || s[0] == '-' || s[0] == '+') && AllDigits(s[1..])
    ensures r.Some? ==> '.' !in s
  {
    if |s| > 0 && (s[0] == '-' || s[0] == '+') then
      assert s == [s[0]] + s[1..];
      SignedDigits(s[1..], s[0] == '-')
    else
      SignedDigits(s, false)
  }

  /** The digit part of `long.TryParse`, with the sign already read. */
  function SignedDigits(body: string, negative: bool): (r: Option<Int64>)
    ensures r.Some? ==> |body| > 0 && AllDigits(body) && '.' !in body
  {
    if |body| == 0 || !AllDigits(body) then None
    else
      var v: int := if negative then -(DigitsValue(body) as int) else DigitsValue(body);
      if INT64_MIN <= v <= INT64_MAX then Some(v) else None
  }

  /** Shortest decimal rendering of a natural number. */
  function DecimalString(n: nat): (r: string)
    ensures |r| >= 1 && AllDigits(r)
  {
    if n < 10 then [DigitChar(n)] else DecimalString(n / 10) + [DigitChar(n % 10)]
  }

  /** The decimal rendering denotes the number it renders. */
  lemma {:induction false} DecimalValue(n: nat)
    ensures DigitsValue(DecimalString(n)) == n
  {
    if n >= 10 {
      var r := DecimalString(n);
      assert DropLast(r) == DecimalString(n / 10);
      DecimalValue(n / 10);
    }
  }

  /** `long.ToString(CultureInfo.InvariantCulture)`: a `-` for negatives, then the digits. */
  function LongToString(n: Int64): string {
    if n < 0 then "-" + DecimalString(-(n as int)) else DecimalString(n)
  }

  lemma ReadDigits(d: string, negative: bool, v: int)
    requires |d| > 0 && AllDigits(d)
    requires v == (if negative then -(DigitsValue(d) as int) else DigitsValue(d))
    requires INT64_MIN <= v <= INT64_MAX
    ensures SignedDigits(d, negative) == Some(v)
  {
    hide DigitsValue, AllDigits;
  }

  /** A leading minus sign is read as the sign of the digits after it. */
  lemma MinusSign(d: string)
    ensures ParseInt64("-" + d) == SignedDigits(d, true)
  {
    var s := "-" + d;
    assert s[0] == '-';
    assert s[1..] == d;
  }

  /** Text starting with a digit is read as unsigned digits. */
  lemma NoSign(d: string)
    requires |d| > 0 && IsDigit(d[0])
    ensures ParseInt64(d) == SignedDigits(d, false)
  {
  }

  /** Reading back the invariant rendering of any 64-bit integer gives that integer. */
  lemma LongRoundTrip(n: Int64)
    ensures ParseInt64(LongToString(n)) == Some(n)
  {
    if n < 0 {
      NegativeRoundTrip(n, -(n as int));
    } else {
      var d := DecimalString(n);
      DecimalValue(n);
      NoSign(d);
      ReadDigits(d, false, n);
    }
  }

  lemma NegativeRoundTrip(n: Int64, m: nat)
    requires n < 0 && m == -(n as int)
    ensures ParseInt64(LongToString(n)) == Some(n)
  {
    var d := DecimalString(m);
    assert LongToString(n) == "-" + d;
    MinusSign(d);
    DecimalValue(m);
    ReadDigits(d, true, n);
  }
}
