/** Decimal printing and parsing of integers, as `std::to_string` and `std::stoll` do it. */
module Decimal {

  predicate IsDigit(c: char) {
    '0' <= c <= '9'
  }

  function DigitChar(d: nat): (c: char)
    requires d < 10
    ensures IsDigit(c)
  {
    '0' + d as char
  }

  function DigitValue(c: char): (d: nat)
    requires IsDigit(c)
    ensures d < 10
  {
    (c - '0') as nat
  }

  predicate AllDigits(s: string) {
    forall c :: c in s ==> IsDigit(c)
  }

  function PrintNat(n: nat): (s: string)
    ensures s != [] && AllDigits(s)
  {
    if n < 10 then [DigitChar(n)] else PrintNat(n / 10) + [DigitChar(n % 10)]
  }

  function ParseNat(s: string): nat
    requires AllDigits(s)
  {
    if s == [] then 0 else 10 * ParseNat(s[..|s| - 1]) + DigitValue(s[|s| - 1])
  }

  function PrintInt(n: int): (s: string)
    ensures s != []
  {
    if n < 0 then "-" + PrintNat(-n) else PrintNat(n)
  }

  predicate IsInt(s: string) {
    if s != [] && s[0] == '-' then s[1..] != [] && AllDigits(s[1..]) else s != [] && AllDigits(s)
  }

  function ParseInt(s: string): int
    requires IsInt(s)
  {
    if s[0] == '-' then 0 - ParseNat(s[1..]) as int else ParseNat(s)
  }

  /** The units come last, and only 0 itself starts with a zero. */
  lemma {:induction false} DigitOrder(n: nat)
    ensures var s := PrintNat(n); DigitValue(s[|s| - 1]) == n % 10 && (s[0] == '0' <==> n == 0)
  {
    if n >= 10 {
      DigitOrder(n / 10);
    }
  }

  lemma {:induction false} NatRoundTrip(n: nat)
    ensures ParseNat(PrintNat(n)) == n
  {
    if n >= 10 {
      NatRoundTrip(n / 10);
      assert PrintNat(n)[..|PrintNat(n)| - 1] == PrintNat(n / 10);
    }
  }

  /** Printing then parsing gives the number back, negative ones included. */
  lemma IntRoundTrip(n: int)
    ensures IsInt(PrintInt(n)) && ParseInt(PrintInt(n)) == n
  {
    NatRoundTrip(if n < 0 then -n else n);
    if n < 0 {
      assert PrintInt(n)[1..] == PrintNat(-n);
    } else {
      assert PrintInt(n)[0] in PrintInt(n);
    }
  }
}
