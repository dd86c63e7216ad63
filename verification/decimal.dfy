/** Decimal rendering of integers, as a JavaScript template literal prints an
    integral number (`${x}`) of magnitude up to 2^53 (beyond it a double no
    longer holds every integer and JavaScript prints a rounded value), and
    the parser that inverts it. The slide counter text is built from two
    such renderings. */
module Decimal {

  import opened Wrappers

  predicate IsDigit(c: char) {
    '0' <= c <= '9'
  }

  predicate AllDigits(s: string) {
    forall i :: 0 <= i < |s| ==> IsDigit(s[i])
  }

  function DigitValue(c: char): (d: nat)
    requires IsDigit(c)
    ensures d < 10
  {
    c as int - '0' as int
  }

  function DigitChar(d: nat): (c: char)
    requires d < 10
    ensures IsDigit(c) && DigitValue(c) == d
  {
    ('0' as int + d) as char
  }

  /** The shortest decimal numeral of `x`: digits only, no leading zero. */
  function NatToString(x: nat): (s: string)
    ensures |s| >= 1 && AllDigits(s)
    ensures |s| > 1 ==> s[0] != '0'
    decreases x
  {
    if x < 10 then [DigitChar(x)] else NatToString(x / 10) + [DigitChar(x % 10)]
  }

  /** A number printed the JavaScript way: a minus sign before the magnitude
      of a negative number. */
  function IntToString(x: int): (s: string)
    ensures |s| >= 1 && ' ' !in s
    ensures x >= 0 ==> AllDigits(s) && (|s| > 1 ==> s[0] != '0')
    ensures x < 0 ==> |s| >= 2 && s[0] == '-' && AllDigits(s[1..]) && s[1] != '0'
  {
    if x < 0 then "-" + NatToString(-x) else NatToString(x)
  }

  /** The value a string of digits denotes (leading zeros allowed). */
  function DigitsValue(s: string): nat
    requires AllDigits(s)
    decreases |s|
  {
    if |s| == 0 then 0 else DigitsValue(s[..|s| - 1]) * 10 + DigitValue(s[|s| - 1])
  }

  function ParseNat(s: string): (r: Option<nat>)
    ensures r.Some? <==> |s| >= 1 && AllDigits(s)
  {
    if |s| >= 1 && AllDigits(s) then Some(DigitsValue(s)) else None
  }

  function ParseInt(s: string): (r: Option<int>)
    ensures |s| == 0 ==> r == None
  {
    if |s| >= 1 && s[0] == '-' then
      match ParseNat(s[1..])
      case Some(v) => Some(-(v as int))
      case None => None
    else
      match ParseNat(s)
      case Some(v) => Some(v)
      case None => None
  }

  lemma {:induction false} NatRoundTrip(x: nat)
    ensures ParseNat(NatToString(x)) == Some(x)
  {
    var s := NatToString(x);
    assert AllDigits(s);
    if x < 10 {
      assert s == [DigitChar(x)];
      assert DigitsValue(s) == DigitsValue(s[..0]) * 10 + DigitValue(s[0]);
    } else {
      NatRoundTrip(x / 10);
      var p := NatToString(x / 10);
      var d := DigitChar(x % 10);
      assert DigitsValue(p) == x / 10;
      assert s == p + [d];
      assert s[..|s| - 1] == p;
      assert s[|s| - 1] == d;
      assert DigitsValue(s) == DigitsValue(p) * 10 + DigitValue(d);
      assert DigitsValue(s) == x;
    }
  }

  /** Parsing a rendered number gives the number back, so the text of a
      number determines it. */
  lemma IntRoundTrip(x: int)
    ensures ParseInt(IntToString(x)) == Some(x)
  {
    if x < 0 {
      var s := IntToString(x);
      assert s[1..] == NatToString(-x);
      NatRoundTrip(-x);
    } else {
      NatRoundTrip(x);
    }
  }
}
