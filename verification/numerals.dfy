/** Numbers as the system renders them: template-literal interpolation of an
    integer, `Number.prototype.toFixed(2)` and `Math.round`, over exact
    reals. */
module Numerals {

  predicate IsDigit(c: char) {
    '0' <= c <= '9'
  }

  function Digit(d: nat): (c: char)
    requires d < 10
    ensures IsDigit(c)
  {
    ('0' as int + d) as char
  }

  function DigitValue(c: char): int {
    c as int - '0' as int
  }

  /** The decimal digits of `n`, most significant first, without leading
      zeros. */
  function NatToString(n: nat): (r: string)
    ensures |r| >= 1
    ensures forall i :: 0 <= i < |r| ==> IsDigit(r[i])
    ensures |r| > 1 ==> r[0] != '0'
  {
    if n < 10 then [Digit(n)] else NatToString(n / 10) + [Digit(n % 10)]
  }

  /** Reads a string of decimal digits back as a number. */
  function ParseNat(s: string): int {
    if s == [] then 0 else ParseNat(s[..|s| - 1]) * 10 + DigitValue(s[|s| - 1])
  }

  lemma {:induction false} ParseNatToString(n: nat)
    ensures ParseNat(NatToString(n)) == n
  {
    if n >= 10 {
      var s := NatToString(n);
      assert s[..|s| - 1] == NatToString(n / 10);
      ParseNatToString(n / 10);
    }
  }

  /** `${n}` for an integer `n`. */
  function IntToString(n: int): (r: string)
    ensures |r| >= 1
    ensures n < 0 <==> r[0] == '-'
  {
    if n < 0 then "-" + NatToString(-n) else NatToString(n)
  }

  function ParseInt(s: string): int {
    if |s| > 0 && s[0] == '-' then -ParseNat(s[1..]) else ParseNat(s)
  }

  /** Rendering an integer and reading it back gives the integer. */
  lemma IntToStringRoundTrip(n: int)
    ensures ParseInt(IntToString(n)) == n
  {
    if n < 0 {
      assert IntToString(n)[1..] == NatToString(-n);
      ParseNatToString(-n);
    } else {
      ParseNatToString(n);
    }
  }

  /** `Math.round(x)`: the nearest integer, halves rounded up. */
  function Round(x: real): (r: int)
    ensures r as real - 0.5 <= x < r as real + 0.5
  {
    (x + 0.5).Floor
  }

  lemma RoundMonotone(x: real, y: real)
    requires x <= y
    ensures Round(x) <= Round(y)
  {
  }

  /** The whole number of cents `toFixed(2)` shows for a non-negative `x`:
      the nearest one, the larger on a tie. */
  function RoundCents(x: real): (c: nat)
    requires x >= 0.0
    ensures c as real / 100.0 - 0.005 <= x < c as real / 100.0 + 0.005
  {
    (x * 100.0 + 0.5).Floor
  }

  /** The signed number of cents `toFixed(2)` shows for `x`. */
  function Cents(x: real): int {
    if x < 0.0 then -(RoundCents(-x) as int) else RoundCents(x)
  }

  function Fixed2Magnitude(x: real): (r: string)
    requires x >= 0.0
    ensures |r| >= 4 && r[|r| - 3] == '.'
    ensures IsDigit(r[0])
  {
    var c := RoundCents(x);
    NatToString(c / 100) + "." + [Digit(c % 100 / 10), Digit(c % 10)]
  }

  /** `x.toFixed(2)`: the sign for a negative `x`, then the rounded magnitude
      with exactly two fraction digits. */
  function ToFixed2(x: real): (r: string)
    ensures |r| >= 4 && r[|r| - 3] == '.'
    ensures r[0] == '-' <==> x < 0.0
  {
    if x < 0.0 then "-" + Fixed2Magnitude(-x) else Fixed2Magnitude(x)
  }

  /** Reads a `toFixed(2)` rendering back as a signed number of cents. */
  function ParseFixed2(s: string): int {
    if |s| > 0 && s[0] == '-' then -ParseUnsignedFixed2(s[1..]) else ParseUnsignedFixed2(s)
  }

  function ParseUnsignedFixed2(s: string): int {
    if |s| < 4 then 0
    else ParseNat(s[..|s| - 3]) * 100 + DigitValue(s[|s| - 2]) * 10 + DigitValue(s[|s| - 1])
  }

  lemma Fixed2MagnitudeRoundTrip(x: real)
    requires x >= 0.0
    ensures ParseUnsignedFixed2(Fixed2Magnitude(x)) == RoundCents(x)
  {
    var c := RoundCents(x);
    var r := Fixed2Magnitude(x);
    assert r[..|r| - 3] == NatToString(c / 100);
    ParseNatToString(c / 100);
  }

  /** The two-decimal rendering shows the value to within half a cent, and
      reading it back recovers exactly the cents it shows. */
  lemma ToFixed2RoundTrip(x: real)
    ensures ParseFixed2(ToFixed2(x)) == Cents(x)
    ensures Cents(x) as real / 100.0 - 0.005 <= x <= Cents(x) as real / 100.0 + 0.005
  {
    if x < 0.0 {
      assert ToFixed2(x)[1..] == Fixed2Magnitude(-x);
      Fixed2MagnitudeRoundTrip(-x);
    } else {
      Fixed2MagnitudeRoundTrip(x);
    }
  }

  /** Reading a two-decimal rendering back gives the cents it shows. */
  lemma ToFixed2Parses(x: real)
    ensures ParseFixed2(ToFixed2(x)) == Cents(x)
  {
    ToFixed2RoundTrip(x);
  }
}
