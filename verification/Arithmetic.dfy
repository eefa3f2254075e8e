/** The two facts about products and remainders that the bit masks and the shard sizes need. */
module Arithmetic {

  lemma {:induction false} Gap(a: nat, b: nat, d: nat)
    requires a > b
    ensures a * d >= b * d + d
  {
    if a == b + 1 {
      assert a * d == b * d + d;
    } else {
      Gap(a - 1, b, d);
      assert a * d == (a - 1) * d + d;
    }
  }

  /** Quotient and remainder are unique. */
  lemma Remainder(v: nat, d: nat, q: nat, r: nat)
    requires v == q * d + r && r < d
    ensures v / d == q && v % d == r
  {
    var q', r' := v / d, v % d;
    assert v == q' * d + r';
    if q' < q {
      Gap(q, q', d);
      assert false;
    } else if q' > q {
      Gap(q', q, d);
      assert false;
    }
  }
}
