/** Decimal rendering of natural numbers, as template literals (`${n}`) and
    `String.prototype.padStart(2, '0')` produce it, with the parse that undoes it. */
module Digits {

  predicate IsDigit(c: char) { '0' <= c <= '9' }

  predicate AllDigits(s: string) { forall i :: 0 <= i < |s| ==> IsDigit(s[i]) }

  function Digit(d: nat): (c: char)
    requires d < 10
    ensures IsDigit(c) && c as int - '0' as int == d
  {
    (d + '0' as int) as char
  }

  /** `${n}` for a non-negative integer: no leading zeros. */
  function Decimal(n: nat): (s: string)
    ensures 1 <= |s| && AllDigits(s)
    ensures n < 10 <==> |s| == 1
  {
    if n < 10 then [Digit(n)] else Decimal(n / 10) + [Digit(n % 10)]
  }

  /** The value of a string of decimal digits, most significant first. */
  function Value(s: string): nat
    requires AllDigits(s)
  {
    if s == [] then 0 else Value(s[..|s| - 1]) * 10 + (s[|s| - 1] as int - '0' as int)
  }

  /** `padStart(2, '0')`: left-pad with zeros up to length two; longer strings are kept. */
  function PadStart2(s: string): (r: string)
    ensures |r| == if |s| < 2 then 2 else |s|
    ensures r[|r| - |s|..] == s
    ensures forall i :: 0 <= i < |r| - |s| ==> r[i] == '0'
  {
    if |s| == 0 then "00" else if |s| == 1 then ['0'] + s else s
  }

  lemma {:induction false} DecimalRoundTrip(n: nat)
    ensures Value(Decimal(n)) == n
  {
    if n >= 10 {
      DecimalRoundTrip(n / 10);
      var s := Decimal(n / 10);
      assert (s + [Digit(n % 10)])[..|s|] == s;
    }
  }

  /** Leading zeros do not change the value. */
  lemma {:induction false} LeadingZero(s: string)
    requires AllDigits(s)
    ensures AllDigits(['0'] + s) && Value(['0'] + s) == Value(s)
  {
    if s != [] {
      var p := s[..|s| - 1];
      LeadingZero(p);
      assert (['0'] + s)[..|s|] == ['0'] + p;
    }
  }

  /** A number below 100, zero-padded, is exactly two digits that read back as the number. */
  lemma TwoDigits(n: nat)
    requires n < 100
    ensures |PadStart2(Decimal(n))| == 2 && AllDigits(PadStart2(Decimal(n)))
    ensures Value(PadStart2(Decimal(n))) == n
  {
    DecimalRoundTrip(n);
    var s := Decimal(n);
    if n < 10 {
      LeadingZero(s);
      assert PadStart2(s) == ['0'] + s;
    } else {
      assert |Decimal(n / 10)| == 1;
    }
  }
}
