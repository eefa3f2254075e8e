/** What the hash does with every bit of its key: the exclusive or bit by bit, each round a bijection on
    32-bit values, and so no two keys of one length that differ in a single place share a hash. */
module FnvBits {
  import opened Arithmetic
  import opened Fnv

  function Bit(n: nat, k: nat): nat {
    n / Pow2(k) % 2
  }

  lemma HalfBit(n: nat, k: nat)
    ensures Bit(n, k + 1) == Bit(n / 2, k)
  {
    var m := Pow2(k);
    var q, r := (n / 2) / m, (n / 2) % m;
    assert n / 2 == q * m + r;
    assert n == q * (2 * m) + (2 * r + n % 2);
    Remainder(n, 2 * m, q, 2 * r + n % 2);
  }

  lemma LowBit(n: nat)
    ensures Bit(n, 0) == n % 2
  {
    assert Pow2(0) == 1;
  }

  /** Bit by bit: a bit of the exclusive or is set exactly when exactly one of the two is. */
  lemma {:induction false} XorBit(a: nat, b: nat, k: nat)
    ensures Bit(Xor(a, b), k) == 1 <==> Bit(a, k) != Bit(b, k)
  {
    if k == 0 {
      LowBit(a);
      LowBit(b);
      LowBit(Xor(a, b));
      Doubled(a, b);
    } else {
      Doubled(a, b);
      HalfBit(a, k - 1);
      HalfBit(b, k - 1);
      HalfBit(Xor(a, b), k - 1);
      XorBit(a / 2, b / 2, k - 1);
    }
  }

  // One level of the definition, halves and low bits.
  lemma Doubled(a: nat, b: nat)
    ensures Xor(a, b) / 2 == Xor(a / 2, b / 2)
    ensures Xor(a, b) % 2 == (if a % 2 == b % 2 then 0 else 1)
  {
    var half, low := Xor(a / 2, b / 2), if a % 2 == b % 2 then 0 else 1;
    assert Xor(a, b) == half * 2 + low by { if a == 0 && b == 0 { assert half == 0; } }
    Remainder(Xor(a, b), 2, half, low);
  }

  lemma {:induction false} XorCancels(a: nat, b: nat, c: nat)
    requires Xor(a, c) == Xor(b, c)
    ensures a == b
    decreases a + b + c
  {
    Doubled(a, c);
    Doubled(b, c);
    if a + b + c > 0 {
      XorCancels(a / 2, b / 2, c / 2);
    }
  }

  lemma {:induction false} XorCommutes(a: nat, b: nat)
    ensures Xor(a, b) == Xor(b, a)
    decreases a + b
  {
    if a + b > 0 { XorCommutes(a / 2, b / 2); }
  }

  // The inverse of the prime modulo 2^32.
  const UNPRIME: nat := 899433627

  lemma PrimeIsInvertible()
    ensures FNV_PRIME * UNPRIME == 1 + 3513497 * TWO_32
  {}

  // A round's multiplication can be undone.
  lemma Unmultiplied(x: nat)
    requires x < TWO_32
    ensures ((x * FNV_PRIME) % TWO_32 * UNPRIME) % TWO_32 == x
  {
    var y := x * FNV_PRIME;
    var q, r := y / TWO_32, y % TWO_32;
    assert y == q * TWO_32 + r;
    PrimeIsInvertible();
    Undone(x, q, r, y);
  }

  lemma Undone(x: nat, q: nat, r: nat, y: nat)
    requires x < TWO_32 && y == x * FNV_PRIME && y == q * TWO_32 + r
    ensures (r * UNPRIME) % TWO_32 == x
  {
    PrimeIsInvertible();
    var k := x * 3513497 - q * UNPRIME;
    assert y * UNPRIME == x * (FNV_PRIME * UNPRIME) == x + (x * 3513497) * TWO_32;
    assert y * UNPRIME == (q * UNPRIME) * TWO_32 + r * UNPRIME;
    assert r * UNPRIME == k * TWO_32 + x;
    if k < 0 {
      assert false;
    }
    Remainder(r * UNPRIME, TWO_32, k, x);
  }

  lemma MixTellsHashesApart(h: nat, g: nat, octet: nat)
    requires h < TWO_32 && g < TWO_32 && octet < TWO_32 && h != g
    ensures Mix(h, octet) != Mix(g, octet)
  {
    Pow2Of32();
    XorBound(h, octet, 32);
    XorBound(g, octet, 32);
    if Mix(h, octet) == Mix(g, octet) {
      Unmultiplied(Xor(h, octet));
      Unmultiplied(Xor(g, octet));
      XorCancels(h, g, octet);
      assert false;
    }
  }

  lemma MixTellsOctetsApart(hash: nat, a: nat, b: nat)
    requires hash < TWO_32 && a < TWO_32 && b < TWO_32 && a != b
    ensures Mix(hash, a) != Mix(hash, b)
  {
    Pow2Of32();
    XorBound(hash, a, 32);
    XorBound(hash, b, 32);
    if Mix(hash, a) == Mix(hash, b) {
      Unmultiplied(Xor(hash, a));
      Unmultiplied(Xor(hash, b));
      XorCommutes(hash, a);
      XorCommutes(hash, b);
      XorCancels(a, b, hash);
      assert false;
    }
  }

  ghost predicate DifferOnlyAt(a: seq<nat>, b: seq<nat>, i: nat) {
    |a| == |b| && i < |a| && a[i] != b[i] && forall j :: 0 <= j < |a| && j != i ==> a[j] == b[j]
  }

  lemma {:induction false} OnePlaceTells(a: seq<nat>, b: seq<nat>, i: nat)
    requires DifferOnlyAt(a, b, i) && forall j :: 0 <= j < |a| ==> a[j] < TWO_32 && b[j] < TWO_32
    ensures Fnv1a(a) != Fnv1a(b)
    decreases |a|
  {
    var n := |a| - 1;
    Fnv1aRange(a[..n]);
    Fnv1aRange(b[..n]);
    if i == n {
      assert a[..n] == b[..n];
      MixTellsOctetsApart(Fnv1a(a[..n]), a[n], b[n]);
    } else {
      OnePlaceTells(a[..n], b[..n], i);
      MixTellsHashesApart(Fnv1a(a[..n]), Fnv1a(b[..n]), a[n]);
    }
  }

  /** Every character counts in full: two ASCII keys of one length that differ in a single place never
      share a hash. */
  lemma OneCharacterTells(k1: string, k2: string, i: nat)
    requires Ascii(k1) && Ascii(k2) && |k1| == |k2| && i < |k1| && k1[i] != k2[i]
    requires forall j :: 0 <= j < |k1| && j != i ==> k1[j] == k2[j]
    ensures Fnv1a(Codes(k1)) != Fnv1a(Codes(k2))
  {
    OnePlaceTells(Codes(k1), Codes(k2), i);
  }

  lemma {:induction false} XorNothing(a: nat)
    ensures Xor(a, 0) == a
  {
    if a > 0 { XorNothing(a / 2); }
  }

  // One bit at a time: `low` is whether the two low bits differ.
  lemma PeelBit(a: nat, b: nat, x: nat, y: nat, low: nat, r: nat)
    requires a == 2 * x + a % 2 && b == 2 * y + b % 2 && low == (if a % 2 == b % 2 then 0 else 1)
    requires Xor(x, y) == r
    ensures Xor(a, b) == 2 * r + low
  {
    Doubled(a, b);
  }

  lemma OffsetXorA(offset: nat, code: nat)
    requires offset == 0x811c9dc5 && code == 0x61
    ensures Xor(offset, code) == 0x811c9da4
  {
    XorNothing(16922939);
    PeelBit(33845879, 1, 16922939, 0, 0, 16922939);
    PeelBit(67691758, 3, 33845879, 1, 1, 33845878);
    PeelBit(135383516, 6, 67691758, 3, 0, 67691757);
    PeelBit(270767032, 12, 135383516, 6, 0, 135383514);
    PeelBit(541534065, 24, 270767032, 12, 1, 270767028);
    PeelBit(1083068130, 48, 541534065, 24, 0, 541534057);
    PeelBit(offset, code, 1083068130, 48, 0, 1083068114);
  }

  lemma OneRound(hash: nat, octet: nat, x: nat, q: nat, r: nat)
    requires Xor(hash, octet) == x && x * FNV_PRIME == q * TWO_32 + r && r < TWO_32
    ensures Mix(hash, octet) == r
  {
    Remainder(x * FNV_PRIME, TWO_32, q, r);
  }

  lemma MixOffsetA(offset: nat, code: nat)
    requires offset == 0x811c9dc5 && code == 0x61
    ensures Mix(offset, code) == 0xe40c292c
  {
    OffsetXorA(offset, code);
    OneRound(offset, code, 0x811c9da4, 8461672, 0xe40c292c);
  }

  lemma OneCode(codes: seq<nat>)
    requires |codes| == 1
    ensures Fnv1a(codes) == Mix(FNV_OFFSET, codes[0])
  {
    assert codes[..0] == [];
  }

  /** The published vector for the text "a". */
  lemma KnownVector(codes: seq<nat>)
    requires |codes| == 1 && codes[0] == 0x61
    ensures Fnv1a(codes) == 0xe40c292c
  {
    OneCode(codes);
    MixOffsetA(FNV_OFFSET, codes[0]);
  }
}
