/** Vector ids are decimal strings: the loader reads existing ids with Python's
    `int()` and writes new ones with `str()` (the `astype(str)` of a column of
    integers). This module gives both directions for optionally signed ASCII
    decimal numerals and proves that a written id reads back as the integer it
    was written from. */
module Decimal {

  import opened Seqs

  predicate IsDigit(c: char)
  {
    '0' <= c <= '9'
  }

  predicate AllDigits(s: string)
  {
    forall i :: 0 <= i < |s| ==> IsDigit(s[i])
  }

  /** The value of a string of decimal digits, most significant digit first. */
  function DigitsValue(s: string): nat
    requires AllDigits(s)
  {
    if s == [] then 0 else DigitsValue(s[..|s| - 1]) * 10 + (s[|s| - 1] as int - '0' as int)
  }

  /** The shortest decimal numeral of `n` (no leading zeros, "0" for zero). */
  function NatDigits(n: nat): (s: string)
    ensures s != [] && AllDigits(s)
    ensures s[0] == '0' <==> n == 0
  {
    var last := (n % 10 + '0' as int) as char;
    if n < 10 then [last] else NatDigits(n / 10) + [last]
  }

  /** An optional sign followed by at least one decimal digit. */
  predicate IsNumeral(s: string)
  {
    var digits := if s != [] && (s[0] == '-' || s[0] == '+') then s[1..] else s;
    digits != [] && AllDigits(digits)
  }

  /** Python's `int(s)` on a numeral with an optional sign: `None` where Python
      raises `ValueError`. */
  function ParseInt(s: string): (r: Option<int>)
    ensures r.Some? <==> IsNumeral(s)
    ensures r.Some? && r.value < 0 ==> s[0] == '-'
  {
    if s != [] && AllDigits(s) then Some(DigitsValue(s) as int)
    else if |s| > 1 && s[0] == '-' && AllDigits(s[1..]) then Some(0 - DigitsValue(s[1..]) as int)
    else if |s| > 1 && s[0] == '+' && AllDigits(s[1..]) then Some(DigitsValue(s[1..]))
    else None
  }

  /** Python's `str(n)` for an integer: a minus sign exactly for negative
      numbers, then digits with no leading zero (a lone "0" for zero). */
  function FormatInt(n: int): (s: string)
    ensures s != [] && (s[0] == '-' <==> n < 0)
    ensures var digits := if n < 0 then s[1..] else s;
      digits != [] && AllDigits(digits) && (digits[0] == '0' <==> n == 0)
  {
    if n < 0 then "-" + NatDigits(-n) else NatDigits(n)
  }

  lemma {:induction false} DigitsRoundTrip(n: nat)
    ensures DigitsValue(NatDigits(n)) == n
  {
    if n >= 10 {
      var s := NatDigits(n);
      assert s[..|s| - 1] == NatDigits(n / 10);
      DigitsRoundTrip(n / 10);
    }
  }

  /** A written id reads back as the integer it was written from. */
  lemma ParseFormat(n: int)
    ensures ParseInt(FormatInt(n)) == Some(n)
  {
    if n < 0 {
      DigitsRoundTrip(-n);
      assert FormatInt(n)[1..] == NatDigits(-n);
    } else {
      DigitsRoundTrip(n);
    }
  }

  /** A list holding `str(start), str(start + 1), ...` reads back as
      `start, start + 1, ...`. */
  lemma ConsecutiveParseBack(ids: seq<string>, start: int)
    requires forall k :: 0 <= k < |ids| ==> ids[k] == FormatInt(start + k)
    ensures forall k :: 0 <= k < |ids| ==> ParseInt(ids[k]) == Some(start + k)
  {
    forall k | 0 <= k < |ids|
      ensures ParseInt(ids[k]) == Some(start + k)
    {
      ParseFormat(start + k);
    }
  }

  /** A run of `z` zero digits. */
  function Zeros(z: nat): (s: string)
    ensures |s| == z && AllDigits(s)
  {
    seq(z, i => '0')
  }

  lemma {:induction false} ZerosValue(z: nat)
    ensures DigitsValue(Zeros(z)) == 0
    decreases z
  {
    if z > 0 {
      assert Zeros(z)[..z - 1] == Zeros(z - 1);
      ZerosValue(z - 1);
    }
  }

  /** Leading zeros do not change the value of a digit string. */
  lemma {:induction false} LeadingZerosValue(z: nat, d: string)
    requires AllDigits(d)
    ensures AllDigits(Zeros(z) + d) && DigitsValue(Zeros(z) + d) == DigitsValue(d)
    decreases |d|
  {
    var s := Zeros(z) + d;
    assert AllDigits(s) by {
      forall i | 0 <= i < |s|
        ensures IsDigit(s[i])
      {
        if i >= z { assert s[i] == d[i - z]; }
      }
    }
    if d == [] {
      assert s == Zeros(z);
      ZerosValue(z);
    } else {
      assert s[..|s| - 1] == Zeros(z) + d[..|d| - 1];
      LeadingZerosValue(z, d[..|d| - 1]);
    }
  }

  lemma DigitsParse(s: string)
    requires s != [] && AllDigits(s)
    ensures ParseInt(s) == Some(DigitsValue(s))
  {
  }

  lemma PlusValue(d: string)
    requires d != [] && AllDigits(d)
    ensures ParseInt("+" + d) == Some(DigitsValue(d))
  {
    var plus := "+" + d;
    assert plus[0] == '+' && plus[1..] == d && !IsDigit(plus[0]);
  }

  lemma MinusValue(d: string)
    requires d != [] && AllDigits(d)
    ensures ParseInt("-" + d) == Some(0 - DigitsValue(d) as int)
  {
    var minus := "-" + d;
    assert minus[0] == '-' && minus[1..] == d && !IsDigit(minus[0]);
  }

  /** What `int()` returns on every numeral: a digit string reads as its
      decimal value, leading zeros and a '+' change nothing, and a '-' negates
      (so "007" is 7, "+5" is 5 and "-0" is 0). */
  lemma NumeralValue(z: nat, d: string)
    requires d != [] && AllDigits(d)
    ensures ParseInt(d) == Some(DigitsValue(d))
    ensures ParseInt(Zeros(z) + d) == ParseInt(d)
    ensures ParseInt("+" + d) == ParseInt(d)
    ensures ParseInt("-" + d) == Some(-ParseInt(d).value)
  {
    DigitsParse(d);
    LeadingZerosValue(z, d);
    DigitsParse(Zeros(z) + d);
    PlusValue(d);
    MinusValue(d);
  }

  /** Distinct integers are written as distinct strings. */
  lemma FormatInjective(a: int, b: int)
    ensures FormatInt(a) == FormatInt(b) <==> a == b
  {
    ParseFormat(a);
    ParseFormat(b);
  }
}
