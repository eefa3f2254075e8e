/** FNV-1a over a location key, twice: the JavaScript loop on signed 32-bit values and the PL/pgSQL
    loop on BIGINT. Both are proved against the 32-bit algorithm of draft-eastlake-fnv, section 2. */
module Fnv {
  import opened Arithmetic
  import opened Domain

  const TWO_32: int := 0x1_0000_0000
  const TWO_63: int := 0x8000_0000_0000_0000
  const FNV_OFFSET: nat := 0x811c9dc5
  const FNV_PRIME: nat := 0x01000193

  // ---- Bitwise operations on naturals ----

  function Xor(a: nat, b: nat): nat {
    if a == 0 && b == 0 then 0 else 2 * Xor(a / 2, b / 2) + (if a % 2 == b % 2 then 0 else 1)
  }

  function And(a: nat, b: nat): nat {
    if a == 0 && b == 0 then 0 else 2 * And(a / 2, b / 2) + (if a % 2 == 1 && b % 2 == 1 then 1 else 0)
  }

  function Pow2(k: nat): (r: nat)
    ensures r >= 1
  {
    if k == 0 then 1 else 2 * Pow2(k - 1)
  }

  lemma Pow2Of32()
    ensures Pow2(32) == TWO_32
  {
    assert Pow2(8) == 256;
    assert Pow2(16) == 65536 by { assert Pow2(12) == 4096; }
    assert Pow2(24) == 16777216 by { assert Pow2(20) == 1048576; }
    assert Pow2(28) == 268435456;
  }

  lemma {:induction false} XorBound(a: nat, b: nat, k: nat)
    requires a < Pow2(k) && b < Pow2(k)
    ensures Xor(a, b) < Pow2(k)
  {
    if k > 0 { XorBound(a / 2, b / 2, k - 1); }
  }

  // Masking with k ones is the remainder modulo 2^k.
  lemma {:induction false} AndMask(v: nat, k: nat)
    ensures And(v, Pow2(k) - 1) == v % Pow2(k)
  {
    if k == 0 {
      AndZero(v);
    } else {
      AndMask(v / 2, k - 1);
      var m := Pow2(k - 1);
      assert (Pow2(k) - 1) / 2 == m - 1 && (Pow2(k) - 1) % 2 == 1;
      HalvedRemainder(v, m);
    }
  }

  lemma {:induction false} AndZero(v: nat)
    ensures And(v, 0) == 0
  {
    if v > 0 { AndZero(v / 2); }
  }

  lemma HalvedRemainder(v: nat, m: nat)
    requires m > 0
    ensures v % (2 * m) == 2 * ((v / 2) % m) + v % 2
  {
    var q, r := (v / 2) / m, (v / 2) % m;
    assert v / 2 == q * m + r;
    assert v == q * (2 * m) + (2 * r + v % 2);
    Remainder(v, 2 * m, q, 2 * r + v % 2);
  }

  // ---- The algorithm ----

  function Mix(hash: nat, octet: nat): nat {
    (Xor(hash, octet) * FNV_PRIME) % TWO_32
  }

  lemma MixParity(hash: nat, octet: nat)
    ensures Mix(hash, octet) % 2 == (hash + octet) % 2
  {
    var x := Xor(hash, octet);
    XorParity(hash, octet);
    OddProduct(x, x * FNV_PRIME);
  }

  lemma SameParity(a: int, b: int, k: int)
    requires a == b + 2 * k
    ensures a % 2 == b % 2
  {}

  lemma XorParity(a: nat, b: nat)
    ensures Xor(a, b) % 2 == (a + b) % 2
  {
    if a != 0 || b != 0 {
      var low := if a % 2 == b % 2 then 0 else 1;
      SameParity(Xor(a, b), low, Xor(a / 2, b / 2));
      SameParity(a + b, a % 2 + b % 2, a / 2 + b / 2);
    }
  }

  // An odd factor and a reduction modulo a power of two both keep the low bit.
  lemma OddProduct(x: nat, y: nat)
    requires y == x * FNV_PRIME
    ensures y % TWO_32 % 2 == x % 2
  {
    var q, r := y / TWO_32, y % TWO_32;
    assert y == q * TWO_32 + r;
    SameParity(r, x, 8388809 * x - 2147483648 * q);
  }

  function Fnv1a(codes: seq<nat>): nat {
    if codes == [] then FNV_OFFSET else Mix(Fnv1a(codes[..|codes| - 1]), codes[|codes| - 1])
  }

  lemma {:induction false} Fnv1aRange(codes: seq<nat>)
    ensures Fnv1a(codes) < TWO_32
  {
    if codes != [] { Fnv1aRange(codes[..|codes| - 1]); }
  }

  // The low bit alone: the prime is odd, so every round passes a flipped low bit on.
  function Parity(codes: seq<nat>): nat {
    if codes == [] then 1 else (Parity(codes[..|codes| - 1]) + codes[|codes| - 1]) % 2
  }

  lemma HalfAway(hash: nat, bit: nat, octet: nat)
    requires hash % 2 == bit
    ensures (hash + octet) % 2 == (bit + octet) % 2
  {
    SameParity(hash + octet, bit + octet, hash / 2);
  }

  lemma {:induction false} HashParity(codes: seq<nat>)
    ensures Fnv1a(codes) % 2 == Parity(codes)
  {
    if codes != [] {
      var front, last := codes[..|codes| - 1], codes[|codes| - 1];
      HashParity(front);
      MixParity(Fnv1a(front), last);
      HalfAway(Fnv1a(front), Parity(front), last);
    }
  }

  lemma {:induction false} FirstCodeFlips(a: nat, b: nat, rest: seq<nat>)
    requires a % 2 != b % 2
    ensures Parity([a] + rest) != Parity([b] + rest)
    decreases |rest|
  {
    var left, right := [a] + rest, [b] + rest;
    if rest != [] {
      FirstCodeFlips(a, b, rest[..|rest| - 1]);
      assert left[..|rest|] == [a] + rest[..|rest| - 1] && right[..|rest|] == [b] + rest[..|rest| - 1];
    }
  }

  predicate Ascii(key: string) {
    forall i :: 0 <= i < |key| ==> key[i] as int < 128
  }

  function Codes(key: string): seq<nat> {
    seq(|key|, i requires 0 <= i < |key| => key[i] as nat)
  }

  // ---- JavaScript numbers ----

  function ToUint32(x: int): int {
    x % TWO_32
  }

  function ToInt32(x: int): int {
    if x % TWO_32 < TWO_32 / 2 then x % TWO_32 else x % TWO_32 - TWO_32
  }

  // `a ^ b` on numbers: both operands become 32-bit patterns, the result is signed.
  function JsXor(a: int, b: int): int {
    ToInt32(Xor(ToUint32(a), ToUint32(b)))
  }

  function Imul(a: int, b: int): int {
    ToInt32(ToInt32(a) * ToInt32(b))
  }

  lemma Shifted(a: int, k: int)
    ensures (a - k * TWO_32) % TWO_32 == a % TWO_32
  {}

  lemma SignedTimesPrime(x: nat)
    requires x < TWO_32
    ensures ToUint32(Imul(ToInt32(x), FNV_PRIME)) == (x * FNV_PRIME) % TWO_32
  {
    var signed := ToInt32(x);
    assert signed == x || signed == x - TWO_32;
    assert ToInt32(signed) == signed && ToInt32(FNV_PRIME) == FNV_PRIME;
    var product := signed * FNV_PRIME;
    assert product == x * FNV_PRIME || product == x * FNV_PRIME - FNV_PRIME * TWO_32;
    Shifted(x * FNV_PRIME, FNV_PRIME);
    assert product % TWO_32 == (x * FNV_PRIME) % TWO_32;
    Unwrapped(product);
  }

  lemma Unwrapped(y: int)
    ensures ToUint32(ToInt32(y)) == y % TWO_32
  {}

  lemma Small(y: nat)
    requires y < TWO_32
    ensures ToUint32(y) == y
  {}

  lemma JsMix(hash: nat, octet: nat)
    requires hash < TWO_32 && octet < 128
    ensures ToUint32(Imul(JsXor(hash, octet), FNV_PRIME)) == Mix(hash, octet)
  {
    Pow2Of32();
    XorBound(hash, octet, 32);
    Small(hash);
    Small(octet);
    SignedTimesPrime(Xor(hash, octet));
  }

  /** `hashLocation`. */
  method HashLocation(key: string) returns (hash: nat)
    requires Ascii(key)
    ensures hash == Fnv1a(Codes(key)) && hash < TWO_32
  {
    var h: int := FNV_OFFSET;
    var i := 0;
    while i < |key|
      invariant 0 <= i <= |key| && 0 <= h < TWO_32
      invariant h == Fnv1a(Codes(key)[..i])
    {
      assert Codes(key)[..i + 1][..i] == Codes(key)[..i];
      JsMix(h, key[i] as int);
      h := JsXor(h, key[i] as int);
      h := ToUint32(Imul(h, FNV_PRIME));
      i := i + 1;
    }
    assert Codes(key)[..|key|] == Codes(key);
    hash := h;
  }

  // ---- PL/pgSQL BIGINT ----

  // Multiplication raises an error outside the signed 64-bit range.
  function BigintMul(a: int, b: int): Option<int> {
    if -TWO_63 <= a * b < TWO_63 then Some(a * b) else None
  }

  lemma BigintMix(hash: nat, octet: nat)
    requires hash < TWO_32 && octet < 128
    ensures Xor(hash, octet) < TWO_32
    ensures BigintMul(Xor(hash, octet), FNV_PRIME) == Some(Xor(hash, octet) * FNV_PRIME)
    ensures And(Xor(hash, octet) * FNV_PRIME, 4294967295) == Mix(hash, octet)
  {
    Pow2Of32();
    XorBound(hash, octet, 32);
    AndMask(Xor(hash, octet) * FNV_PRIME, 32);
  }

  /** `fnv1a_location`, given its key: never raises, and yields the same hash. */
  method HashLocationSql(key: string) returns (hash: Option<nat>)
    requires Ascii(key)
    ensures hash == Some(Fnv1a(Codes(key)))
  {
    var h: nat := 2166136261;
    var i := 1;
    while i <= |key|
      invariant 1 <= i <= |key| + 1 && h < TWO_32
      invariant h == Fnv1a(Codes(key)[..i - 1])
    {
      var octet := key[i - 1] as int;
      assert Codes(key)[..i][..i - 1] == Codes(key)[..i - 1];
      BigintMix(h, octet);
      h := Xor(h, octet);
      var product := BigintMul(h, 16777619);
      if product.None? {
        return None;
      }
      h := And(product.value, 4294967295);
      i := i + 1;
    }
    assert Codes(key)[..|key|] == Codes(key);
    hash := Some(h);
  }
}
