/** Python's integer spellings that the scripts produce or parse: `hex(n)`,
    `str(n)` and base-2 digit strings. */
module Numerals {

  const HEX_DIGITS := "0123456789abcdef"

  /** The lower-case hexadecimal digit of `d`. */
  function HexDigit(d: nat): (c: char)
    requires d < 16
    ensures c in HEX_DIGITS
  {
    HEX_DIGITS[d]
  }

  /** The value of one lower-case hexadecimal digit. */
  function HexDigitValue(c: char): (d: nat)
    ensures d < 16
  {
    if '0' <= c <= '9' then c as int - '0' as int
    else if 'a' <= c <= 'f' then c as int - 'a' as int + 10
    else 0
  }

  lemma HexDigitRoundTrip(d: nat)
    requires d < 16
    ensures HexDigitValue(HexDigit(d)) == d
  {
  }

  /** The digits of `hex(n)` after `0x`: lower case, no leading zero. */
  function HexDigits(n: nat): (r: string)
    ensures |r| >= 1
    ensures forall i :: 0 <= i < |r| ==> r[i] in HEX_DIGITS
    ensures r[0] == '0' <==> n == 0
    ensures n < 16 <==> |r| == 1
    decreases n
  {
    if n < 16 then [HexDigit(n)] else HexDigits(n / 16) + [HexDigit(n % 16)]
  }

  /** The number a string of hexadecimal digits denotes. */
  function HexValue(s: string): nat
  {
    if s == [] then 0 else HexValue(s[..|s| - 1]) * 16 + HexDigitValue(s[|s| - 1])
  }

  /** Reading back the digits of `hex(n)` gives `n`. */
  lemma {:induction false} HexRoundTrip(n: nat)
    ensures HexValue(HexDigits(n)) == n
    decreases n
  {
    HexDigitRoundTrip(n % 16);
    if n >= 16 {
      HexRoundTrip(n / 16);
      var r := HexDigits(n);
      assert r[..|r| - 1] == HexDigits(n / 16);
    }
  }

  /** Python's `hex(v)`: `0x` and the digits, with a leading `-` for negatives. */
  function PyHex(v: int): (r: string)
    ensures v >= 0 ==> r == "0x" + HexDigits(v)
    ensures v < 0 ==> r == "-0x" + HexDigits(-v)
    ensures v >= 0 ==> HexValue(r[2..]) == v
    ensures v < 0 ==> HexValue(r[3..]) == -v
  {
    var d := HexDigits(if v < 0 then -v else v);
    HexRoundTrip(if v < 0 then -v else v);
    if v < 0 then assert ("-0x" + d)[3..] == d; "-0x" + d
    else assert ("0x" + d)[2..] == d; "0x" + d
  }

  /** The decimal digits of `n` with no leading zero. */
  function DecimalDigits(n: nat): (r: string)
    ensures |r| >= 1
    ensures forall i :: 0 <= i < |r| ==> '0' <= r[i] <= '9'
    ensures r[0] == '0' <==> n == 0
    decreases n
  {
    if n < 10 then ["0123456789"[n]] else DecimalDigits(n / 10) + ["0123456789"[n % 10]]
  }

  /** The number a string of decimal digits denotes. */
  function DecimalValue(s: string): nat
  {
    if s == [] then 0 else DecimalValue(s[..|s| - 1]) * 10 + (if '0' <= s[|s| - 1] <= '9' then s[|s| - 1] as int - '0' as int else 0)
  }

  /** Reading back `str(n)` gives `n`. */
  lemma {:induction false} DecimalRoundTrip(n: nat)
    ensures DecimalValue(DecimalDigits(n)) == n
    decreases n
  {
    if n >= 10 {
      DecimalRoundTrip(n / 10);
      var r := DecimalDigits(n);
      assert r[..|r| - 1] == DecimalDigits(n / 10);
    }
  }

  /** Python's `str(v)` for an integer. */
  function IntToString(v: int): (r: string)
    ensures v >= 0 ==> r == DecimalDigits(v)
    ensures v < 0 ==> r == "-" + DecimalDigits(-v)
    ensures v >= 0 ==> DecimalValue(r) == v
    ensures v < 0 ==> DecimalValue(r[1..]) == -v
  {
    var d := DecimalDigits(if v < 0 then -v else v);
    DecimalRoundTrip(if v < 0 then -v else v);
    if v < 0 then assert ("-" + d)[1..] == d; "-" + d else d
  }

  predicate IsBit(c: char) {
    c == '0' || c == '1'
  }

  /** The value of a string of binary digits, most significant first. */
  function BinValue(s: string): (v: nat)
    requires forall i :: 0 <= i < |s| ==> IsBit(s[i])
  {
    if s == [] then 0 else BinValue(s[..|s| - 1]) * 2 + (if s[|s| - 1] == '1' then 1 else 0)
  }

  /** `k` binary digits denote a number below 2^k. */
  lemma {:induction false} BinValueBound(s: string)
    requires forall i :: 0 <= i < |s| ==> IsBit(s[i])
    ensures BinValue(s) < Pow2(|s|)
  {
    if s != [] {
      BinValueBound(s[..|s| - 1]);
    }
  }

  function Pow2(k: nat): (p: nat)
    ensures p >= 1
  {
    if k == 0 then 1 else 2 * Pow2(k - 1)
  }
}
