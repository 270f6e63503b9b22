/** Decimal rendering of integers as printf's %u, %d and %ld produce it
    (no leading zeros, a '-' before a negative value), and a parser that
    reads such a rendering back. */
module Decimal {
  import opened Wrappers

  predicate IsDigit(c: char) {
    '0' <= c <= '9'
  }

  predicate AllDigits(s: string) {
    forall i :: 0 <= i < |s| ==> IsDigit(s[i])
  }

  function DigitChar(d: nat): (c: char)
    requires d < 10
    ensures IsDigit(c)
    ensures DigitValue(c) == d
  {
    (('0' as int) + d) as char
  }

  function DigitValue(c: char): (d: nat)
    requires IsDigit(c)
    ensures d < 10
  {
    (c as int) - ('0' as int)
  }

  /** The rendering of a non-negative value: at least one digit, and no
      leading zero unless the value itself is zero. */
  function NatToDecimal(n: nat): (s: string)
    ensures 0 < |s|
    ensures AllDigits(s)
    ensures 1 < |s| ==> s[0] != '0'
    decreases n
  {
    if n < 10 then [DigitChar(n)] else NatToDecimal(n / 10) + [DigitChar(n % 10)]
  }

  /** %d / %ld: a '-' in front of the magnitude of a negative value. */
  function IntToDecimal(i: int): (s: string)
    ensures 0 < |s|
    ensures s[0] == '-' <==> i < 0
    ensures i < 0 ==> AllDigits(s[1..])
    ensures 0 <= i ==> AllDigits(s)
  {
    if i < 0 then "-" + NatToDecimal(-i) else NatToDecimal(i)
  }

  /** The value of a string of digits, most significant first. */
  function DigitsValue(s: string): nat
    requires AllDigits(s)
  {
    if |s| == 0 then 0 else DigitsValue(s[..|s| - 1]) * 10 + DigitValue(s[|s| - 1])
  }

  /** The length of the longest prefix of `s` made of digits. */
  function DigitRun(s: string): (k: nat)
    ensures k <= |s|
    ensures AllDigits(s[..k])
    ensures k < |s| ==> !IsDigit(s[k])
  {
    if |s| == 0 || !IsDigit(s[0]) then 0 else 1 + DigitRun(s[1..])
  }

  /** Reads a maximal non-empty run of digits; returns its value and what
      follows it. */
  function ParseNat(s: string): (r: Option<(nat, string)>)
    ensures r.None? <==> (|s| == 0 || !IsDigit(s[0]))
  {
    var k := DigitRun(s);
    if k == 0 then None else Some((DigitsValue(s[..k]), s[k..]))
  }

  /** Reads an optional '-' followed by a maximal non-empty run of digits. */
  function ParseInt(s: string): (r: Option<(int, string)>)
    ensures 0 < |s| && IsDigit(s[0]) ==> r.Some?
  {
    if 0 < |s| && s[0] == '-' then
      match ParseNat(s[1..])
      case Some((v, rest)) => Some((0 - (v as int), rest))
      case None => None
    else
      match ParseNat(s)
      case Some((v, rest)) => Some((v as int, rest))
      case None => None
  }

  /** A string that may follow a number without extending it. */
  predicate StopsNumber(rest: string) {
    |rest| == 0 || !IsDigit(rest[0])
  }

  lemma {:induction false} DigitsValueOfDecimal(n: nat)
    ensures DigitsValue(NatToDecimal(n)) == n
    decreases n
  {
    var s := NatToDecimal(n);
    if n < 10 {
      assert s[..|s| - 1] == [];
    } else {
      DigitsValueOfDecimal(n / 10);
      assert s[..|s| - 1] == NatToDecimal(n / 10);
    }
  }

  lemma {:induction false} DigitRunOfDigits(d: string, rest: string)
    requires AllDigits(d)
    requires StopsNumber(rest)
    ensures DigitRun(d + rest) == |d|
    decreases |d|
  {
    if |d| == 0 {
      assert d + rest == rest;
    } else {
      assert (d + rest)[1..] == d[1..] + rest;
      DigitRunOfDigits(d[1..], rest);
    }
  }

  /** Reading back the rendering of a non-negative value gives the value
      and leaves whatever followed it, when that does not start with a
      digit. */
  lemma NatRoundTrip(n: nat, rest: string)
    requires StopsNumber(rest)
    ensures ParseNat(NatToDecimal(n) + rest) == Some((n, rest))
  {
    var d := NatToDecimal(n);
    DigitRunOfDigits(d, rest);
    assert (d + rest)[..|d|] == d;
    assert (d + rest)[|d|..] == rest;
    DigitsValueOfDecimal(n);
  }

  lemma ParseIntSigned(t: string, v: nat, rest: string)
    requires ParseNat(t) == Some((v, rest))
    ensures ParseInt("-" + t) == Some((0 - v, rest))
  {
    assert ("-" + t)[1..] == t;
  }

  lemma ParseIntUnsigned(t: string, v: nat, rest: string)
    requires ParseNat(t) == Some((v, rest))
    ensures ParseInt(t) == Some((v as int, rest))
  {
  }

  lemma NegativeRoundTrip(i: int, rest: string)
    requires i < 0
    requires StopsNumber(rest)
    ensures ParseInt(IntToDecimal(i) + rest) == Some((i, rest))
  {
    var t := NatToDecimal(-i) + rest;
    assert IntToDecimal(i) + rest == "-" + t;
    NatRoundTrip(-i, rest);
    ParseIntSigned(t, -i, rest);
  }

  lemma NonNegativeRoundTrip(i: int, rest: string)
    requires 0 <= i
    requires StopsNumber(rest)
    ensures ParseInt(IntToDecimal(i) + rest) == Some((i, rest))
  {
    var t := NatToDecimal(i) + rest;
    assert IntToDecimal(i) + rest == t;
    NatRoundTrip(i, rest);
    ParseIntUnsigned(t, i, rest);
  }

  /** Reading back the %ld rendering of any value gives the value and
      leaves whatever followed it, when that does not start with a
      digit. */
  lemma IntRoundTrip(i: int, rest: string)
    requires StopsNumber(rest)
    ensures ParseInt(IntToDecimal(i) + rest) == Some((i, rest))
  {
    if i < 0 {
      NegativeRoundTrip(i, rest);
    } else {
      NonNegativeRoundTrip(i, rest);
    }
  }
}
