/** Fixed-width words, little-endian byte strings and bitwise arithmetic on naturals. */
module Words {
  const TWO8: int := 0x100
  const TWO16: int := 0x1_0000
  const TWO32: int := 0x1_0000_0000
  const TWO64: int := 0x1_0000_0000_0000_0000

  type byte = x: int | 0 <= x < 0x100
  type u16 = x: int | 0 <= x < 0x1_0000
  type u32 = x: int | 0 <= x < 0x1_0000_0000
  type u64 = x: int | 0 <= x < 0x1_0000_0000_0000_0000

  function Min(a: nat, b: nat): nat {
    if a < b then a else b
  }

  /** The value left in an unsigned 8-, 32- or 64-bit variable after storing x in it. */
  function Wrap8(x: nat): byte { x % 0x100 }
  function Wrap32(x: nat): u32 { x % 0x1_0000_0000 }
  function Wrap64(x: nat): u64 { x % 0x1_0000_0000_0000_0000 }

  lemma WrapAdd64(a: nat, b: nat, c: nat)
    ensures Wrap64(Wrap64(a + b) + c) == Wrap64(a + (b + c))
  {
  }

  lemma WrapNext32(n: nat)
    ensures Wrap32(Wrap32(n) + 1) == Wrap32(n + 1)
  {
  }

  function Pow256(n: nat): (p: nat)
    ensures p > 0
  {
    if n == 0 then 1 else 256 * Pow256(n - 1)
  }

  lemma Pow256Values()
    ensures Pow256(1) == TWO8 && Pow256(2) == TWO16 && Pow256(4) == TWO32 && Pow256(8) == TWO64
  {
    assert Pow256(2) == 256 * Pow256(1);
    assert Pow256(3) == 256 * Pow256(2);
    assert Pow256(4) == 256 * Pow256(3);
    assert Pow256(5) == 256 * Pow256(4);
    assert Pow256(6) == 256 * Pow256(5);
    assert Pow256(7) == 256 * Pow256(6);
    assert Pow256(8) == 256 * Pow256(7);
  }

  /** What memcpy of these bytes into a zeroed little-endian integer leaves in it. */
  function LeValue(b: seq<byte>): nat {
    if |b| == 0 then 0 else b[0] + 256 * LeValue(b[1..])
  }

  /** The first n bytes of the little-endian representation of v. */
  function LeBytes(v: nat, n: nat): (b: seq<byte>)
    ensures |b| == n
  {
    if n == 0 then [] else [v % 256] + LeBytes(v / 256, n - 1)
  }

  lemma ModSplit(v: nat, p: nat)
    requires p > 0
    ensures v % (256 * p) == v % 256 + 256 * ((v / 256) % p)
  {
    var q := v / 256;
    var k := q / p;
    var r := v % 256 + 256 * (q % p);
    assert v == 256 * q + v % 256;
    assert q == k * p + q % p;
    assert 256 * (k * p) == k * (256 * p);
    assert v == k * (256 * p) + r;
    assert 0 <= r < 256 * p;
    DivModUnique(v, 256 * p, k, r);
  }

  lemma DivModUnique(v: nat, d: nat, k: int, r: int)
    requires d > 0 && v == k * d + r && 0 <= r < d
    ensures v % d == r && v / d == k
  {
    QuotientUnique(d, k, r, v / d, v % d);
  }

  lemma QuotientUnique(d: nat, k: int, r: int, k': int, r': int)
    requires k * d + r == k' * d + r' && 0 <= r < d && 0 <= r' < d
    ensures k == k' && r == r'
  {
    if k < k' { MulAtLeast(k' - k, d); }
    if k' < k { MulAtLeast(k - k', d); }
  }

  lemma MulAtLeast(a: int, d: nat)
    requires a >= 1
    ensures a * d >= d
  {
  }

  /** Decoding the first n bytes of v gives v reduced to n bytes. */
  lemma {:induction false} LeValueOfBytes(v: nat, n: nat)
    ensures LeValue(LeBytes(v, n)) == v % Pow256(n)
  {
    if n > 0 {
      LeValueOfBytes(v / 256, n - 1);
      assert LeBytes(v, n)[1..] == LeBytes(v / 256, n - 1);
      ModSplit(v, Pow256(n - 1));
    }
  }

  /** Re-encoding a decoded byte string gives it back, and the value fits its width. */
  lemma {:induction false} LeBytesOfValue(b: seq<byte>)
    ensures LeBytes(LeValue(b), |b|) == b
    ensures LeValue(b) < Pow256(|b|)
  {
    if |b| > 0 {
      LeBytesOfValue(b[1..]);
      assert b == [b[0]] + b[1..];
    }
  }

  lemma {:induction false} LeBytesZero(n: nat)
    ensures forall i :: 0 <= i < n ==> LeBytes(0, n)[i] == 0
  {
    if n > 0 {
      LeBytesZero(n - 1);
    }
  }

  function Pow2(n: nat): (p: nat)
    ensures p > 0
  {
    if n == 0 then 1 else 2 * Pow2(n - 1)
  }

  function Shl(x: nat, n: nat): nat {
    x * Pow2(n)
  }

  /** Bitwise OR, one bit at a time. */
  function BitOr(x: nat, y: nat): nat
    decreases x + y
  {
    if x == 0 then y
    else if y == 0 then x
    else (if x % 2 == 1 || y % 2 == 1 then 1 else 0) + 2 * BitOr(x / 2, y / 2)
  }

  /** OR with low bits that are all clear in the other operand is addition. */
  lemma {:induction false} OrDisjoint(x: nat, y: nat, n: nat)
    requires x % Pow2(n) == 0 && y < Pow2(n)
    ensures BitOr(x, y) == x + y
    decreases n
  {
    if x != 0 && y != 0 {
      var p := Pow2(n - 1);
      var k := x / Pow2(n);
      assert x == k * (2 * p) == 2 * (k * p);
      assert x / 2 == k * p && x % 2 == 0;
      DivModUnique(x / 2, p, k, 0);
      OrDisjoint(x / 2, y / 2, n - 1);
    }
  }
}
