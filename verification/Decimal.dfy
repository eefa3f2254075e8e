/** Integers written in decimal, as a template literal and a cast to text both do. */
module Decimal {

  function Digit(d: nat): char
    requires d < 10
  {
    (d + '0' as int) as char
  }

  predicate IsDigit(c: char) {
    '0' <= c <= '9'
  }

  function NatText(n: nat): (text: string)
    ensures text != [] && forall i :: 0 <= i < |text| ==> IsDigit(text[i])
  {
    if n < 10 then [Digit(n)] else NatText(n / 10) + [Digit(n % 10)]
  }

  function IntText(n: int): string {
    if n < 0 then "-" + NatText(-n) else NatText(n)
  }

  // Reads the digits back.
  function Value(text: string): int
    decreases |text|
  {
    if text == [] then 0
    else 10 * Value(text[..|text| - 1]) + (text[|text| - 1] as int - '0' as int)
  }

  lemma {:induction false} NatRoundTrip(n: nat)
    ensures Value(NatText(n)) == n
  {
    if n >= 10 {
      NatRoundTrip(n / 10);
      var text := NatText(n);
      assert text[..|text| - 1] == NatText(n / 10);
    } else {
      assert [Digit(n)][..0] == [];
    }
  }

  /** Different integers have different texts. */
  lemma IntTextInjective(m: int, n: int)
    requires IntText(m) == IntText(n)
    ensures m == n
  {
    assert IntText(m)[0] == '-' <==> m < 0;
    assert IntText(n)[0] == '-' <==> n < 0;
    if m < 0 {
      assert IntText(m)[1..] == NatText(-m) && IntText(n)[1..] == NatText(-n);
      NatRoundTrip(-m);
      NatRoundTrip(-n);
    } else {
      NatRoundTrip(m);
      NatRoundTrip(n);
    }
  }
}
