/** The C++ int, std::to_string and std::stoi (base 10). */
module Decimal {
  import opened Base
  import opened Text

  const IntMin: int := -0x8000_0000
  const IntMax: int := 0x7FFF_FFFF

  /** The range of the 32-bit C++ int every register holds. */
  predicate IsInt32(x: int) {
    IntMin <= x <= IntMax
  }

  predicate AllDigits(s: string) {
    forall i :: 0 <= i < |s| ==> IsDigit(s[i])
  }

  function DigitValue(c: char): (d: nat)
    requires IsDigit(c)
    ensures d < 10
  {
    (c as int) - ('0' as int)
  }

  function DigitChar(d: nat): (c: char)
    requires d < 10
    ensures IsDigit(c) && DigitValue(c) == d
  {
    (('0' as int) + d) as char
  }

  /** Decimal digits of n without leading zeros. */
  function NatDigits(n: nat): (s: string)
    ensures s != [] && AllDigits(s)
    ensures |s| > 1 ==> s[0] != '0'
    decreases n
  {
    if n < 10 then [DigitChar(n)] else NatDigits(n / 10) + [DigitChar(n % 10)]
  }

  /** std::to_string(int): a '-' for negative numbers, then the digits. */
  function ToDecimal(n: int): string {
    if n < 0 then "-" + NatDigits(-n) else NatDigits(n)
  }

  /** The number the leading run of digits of s denotes, read left to
      right onto acc. */
  function ReadDigits(s: string, acc: nat): (v: nat)
    ensures v >= acc
  {
    if s != [] && IsDigit(s[0]) then ReadDigits(s[1..], acc * 10 + DigitValue(s[0])) else acc
  }

  /** std::stoi(t): skip leading white space (as ltrim does), read an
      optional sign and the longest run of digits after it; no digit at all
      is invalid_argument, a value outside int is out_of_range. Anything
      after the digits is ignored, so "5," reads as 5. */
  function ParseInt(t: string): (r: Result<int>)
    ensures r.Ok? ==> IsInt32(r.value)
    ensures r.Ok? || r == Err(BadLiteral(t)) || r == Err(LiteralOutOfRange(t))
  {
    var u := t[LeadingSpaces(t)..];
    var signed := u != [] && (u[0] == '-' || u[0] == '+');
    var body := if signed then u[1..] else u;
    if body == [] || !IsDigit(body[0]) then Err(BadLiteral(t))
    else
      var magnitude: int := ReadDigits(body, 0);
      var v := if signed && u[0] == '-' then -magnitude else magnitude;
      if IsInt32(v) then Ok(v) else Err(LiteralOutOfRange(t))
  }

  /** One more digit at the end multiplies what was read by ten and adds
      the digit. */
  lemma {:induction false} ReadDigitsSnoc(d: string, c: char, acc: nat)
    requires AllDigits(d) && IsDigit(c)
    ensures ReadDigits(d + [c], acc) == ReadDigits(d, acc) * 10 + DigitValue(c)
    decreases |d|
  {
    if d == [] {
      assert d + [c] == [c];
      assert [c][1..] == [];
    } else {
      assert (d + [c])[1..] == d[1..] + [c];
      ReadDigitsSnoc(d[1..], c, acc * 10 + DigitValue(d[0]));
    }
  }

  /** Reading the digits of n gives n back. */
  lemma {:induction false} ReadNatDigits(n: nat)
    ensures ReadDigits(NatDigits(n), 0) == n
    decreases n
  {
    if n >= 10 {
      ReadNatDigits(n / 10);
      ReadDigitsSnoc(NatDigits(n / 10), DigitChar(n % 10), 0);
    } else {
      assert NatDigits(n)[1..] == [];
    }
  }

  /** Reading stops at the first character that is not a digit. */
  lemma {:induction false} ReadDigitsStops(d: string, rest: string, acc: nat)
    requires AllDigits(d)
    requires rest == [] || !IsDigit(rest[0])
    ensures ReadDigits(d + rest, acc) == ReadDigits(d, acc)
    decreases |d|
  {
    if d == [] {
      assert d + rest == rest;
    } else {
      assert (d + rest)[1..] == d[1..] + rest;
      ReadDigitsStops(d[1..], rest, acc * 10 + DigitValue(d[0]));
    }
  }

  /** std::stoi reads back what std::to_string writes, also when other text
      that does not start with a digit follows it. */
  lemma ParseToDecimal(n: int, rest: string)
    requires IsInt32(n)
    requires rest == [] || !IsDigit(rest[0])
    ensures ParseInt(ToDecimal(n) + rest) == Ok(n)
  {
    var d := NatDigits(Abs(n));
    ReadDigitsStops(d, rest, 0);
    ReadNatDigits(Abs(n));
    assert (d + rest)[0] == d[0];
    if n < 0 {
      AppendAssoc("-", d, rest);
      ParseSigned(d + rest, Abs(n));
    } else {
      ParseUnsigned(d + rest, Abs(n));
    }
  }

  lemma ParseSigned(body: string, v: int)
    requires body != [] && IsDigit(body[0])
    requires v == ReadDigits(body, 0) && IsInt32(-v)
    ensures ParseInt(['-'] + body) == Ok(-v)
  {
    assert (['-'] + body)[1..] == body;
  }

  lemma ParseUnsigned(body: string, v: int)
    requires body != [] && IsDigit(body[0])
    requires v == ReadDigits(body, 0) && IsInt32(v)
    ensures ParseInt(body) == Ok(v)
  {
    assert LeadingSpaces(body) == 0;
  }

  function Abs(x: int): nat {
    if x < 0 then -x else x
  }
}
