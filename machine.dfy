/** Fixed-width C integer types of the 32-bit target and their wrap-around. */
module Machine {

  const TWO8: int := 0x100
  const TWO16: int := 0x1_0000
  const TWO32: int := 0x1_0000_0000

  type u8 = x: int | 0 <= x < 0x100
  type u16 = x: int | 0 <= x < 0x1_0000
  type u32 = x: int | 0 <= x < 0x1_0000_0000

  /** The null pointer: address 0. */
  const NULL: u32 := 0

  /** A pointer that may be NULL, seen through the value it points to. */
  datatype Option<T> = None | Some(value: T)

  /**
   * Conversion of an arbitrary integer to uint32_t: add or subtract 2^32
   * until the value is in range (WrapMod shows this is reduction modulo
   * 2^32).  Written recursively so that the verifier unfolds it only when
   * a proof asks for it.
   */
  function Wrap32(x: int): u32
    decreases if x < 0 then TWO32 - x else x
  {
    if x < 0 then Wrap32(x + TWO32) else if x < TWO32 then x else Wrap32(x - TWO32)
  }

  /** Conversion of an arbitrary integer to uint16_t (reduction modulo 2^16). */
  function Wrap16(x: int): u16
  {
    x % TWO16
  }

  lemma Wrap16Small(x: int)
    requires 0 <= x < TWO16
    ensures Wrap16(x) == x
  {
  }

  /** Conversion of an arbitrary integer to uint8_t (reduction modulo 2^8). */
  function Wrap8(x: int): u8
  {
    x % TWO8
  }

  /** Adding to a uint16_t-converted value is adding to the value, modulo 2^16. */
  lemma Wrap16Add(a: int, b: int)
    ensures Wrap16(Wrap16(a) + b) == Wrap16(a + b)
  {
    var q := a / TWO16;
    assert a == q * TWO16 + Wrap16(a);
    assert a + b == q * TWO16 + (Wrap16(a) + b);
    var r := Wrap16(Wrap16(a) + b);
    var k := (Wrap16(a) + b) / TWO16;
    assert Wrap16(a) + b == k * TWO16 + r;
    assert a + b == (q + k) * TWO16 + r;
    DivMod(a + b, TWO16, q + k, r);
  }

  function Pow2(k: nat): (r: nat)
    ensures r >= 1
  {
    if k == 0 then 1 else 2 * Pow2(k - 1)
  }

  lemma {:induction false} Pow2Add(a: nat, b: nat)
    ensures Pow2(a + b) == Pow2(a) * Pow2(b)
    decreases a
  {
    if a > 0 {
      Pow2Add(a - 1, b);
      assert Pow2(a + b) == 2 * Pow2(a - 1 + b);
    }
  }

  lemma Pow2Of16()
    ensures Pow2(16) == TWO16
  {
    assert Pow2(8) == 256;
    Pow2Add(8, 8);
  }

  lemma Pow2Of32()
    ensures Pow2(32) == TWO32
  {
    Pow2Of16();
    Pow2Add(16, 16);
  }

  lemma MulAtLeast(x: int, d: int)
    requires x >= 1 && d > 0
    ensures x * d >= d
  {
    assert x * d == (x - 1) * d + d;
    assert (x - 1) * d >= 0;
  }

  lemma MulMonotonic(x: int, y: int, a: int)
    requires x <= y && a >= 0
    ensures x * a <= y * a
  {
    assert y * a == x * a + (y - x) * a;
    assert (y - x) * a >= 0;
  }

  /** Multiplying a uint16_t-converted factor is multiplying the factor, modulo 2^16. */
  lemma Wrap16Mul(a: int, b: int)
    ensures Wrap16(Wrap16(a) * b) == Wrap16(a * b)
  {
    var q := a / TWO16;
    var r := Wrap16(a);
    assert a == q * TWO16 + r;
    assert a * b == (q * b) * TWO16 + r * b by {
      assert a * b == (q * TWO16 + r) * b;
      assert (q * TWO16 + r) * b == (q * TWO16) * b + r * b;
      assert (q * TWO16) * b == (q * b) * TWO16;
    }
    var k := (r * b) / TWO16;
    var t := Wrap16(r * b);
    assert r * b == k * TWO16 + t;
    assert a * b == (q * b + k) * TWO16 + t;
    DivMod(a * b, TWO16, q * b + k, t);
  }

  /** Euclidean division is unique. */
  lemma DivMod(n: int, d: int, q: int, r: int)
    requires d > 0 && n == q * d + r && 0 <= r < d
    ensures n / d == q && n % d == r
  {
    var q', r' := n / d, n % d;
    assert n == q' * d + r';
    assert (q - q') * d == r' - r;
    if q > q' {
      MulAtLeast(q - q', d);
    }
    if q < q' {
      assert (q' - q) * d == r - r';
      MulAtLeast(q' - q, d);
    }
  }

  /** Euclidean division splits a number into quotient and remainder. */
  lemma QuotRem(n: int, d: int)
    requires d > 0
    ensures n == (n / d) * d + n % d
  {
  }

  /** Wrap32 is reduction modulo 2^32. */
  lemma {:induction false} WrapMod(x: int)
    ensures Wrap32(x) == x % TWO32
    decreases if x < 0 then TWO32 - x else x
  {
    if x < 0 {
      WrapMod(x + TWO32);
      var q := (x + TWO32) / TWO32;
      assert x + TWO32 == q * TWO32 + Wrap32(x);
      DivMod(x, TWO32, q - 1, Wrap32(x));
    } else if x < TWO32 {
      DivMod(x, TWO32, 0, x);
    } else {
      WrapMod(x - TWO32);
      var q := (x - TWO32) / TWO32;
      assert x - TWO32 == q * TWO32 + Wrap32(x);
      DivMod(x, TWO32, q + 1, Wrap32(x));
    }
  }

  /** Adding back what was subtracted in uint32_t restores the value. */
  lemma WrapCancel(x: u32, d: int)
    ensures Wrap32(Wrap32(x - d) + d) == x
  {
    var y := x - d;
    WrapMod(y);
    WrapMod(Wrap32(y) + d);
    var q := y / TWO32;
    assert y == q * TWO32 + Wrap32(y);
    DivMod(Wrap32(y) + d, TWO32, -q, x);
  }

  /** A uint32_t difference is zero only between equal values. */
  lemma WrapDiffZero(a: u32, b: u32)
    ensures Wrap32(a - b) == 0 <==> a == b
  {
    if a < b {
      assert Wrap32(a - b) == Wrap32(a - b + TWO32);
    }
  }

  /** A value below 2^32 is its own uint32_t conversion. */
  lemma WrapSmall(x: int)
    requires 0 <= x < TWO32
    ensures Wrap32(x) == x
  {
  }

  /** A value in [2^32, 2^33) converts by subtracting 2^32 once. */
  lemma WrapOnce(x: int)
    requires TWO32 <= x < 2 * TWO32
    ensures Wrap32(x) == x - TWO32
  {
    assert Wrap32(x) == Wrap32(x - TWO32);
  }

  /** A value in [-2^32, 0) converts by adding 2^32 once. */
  lemma WrapNegOnce(x: int)
    requires -TWO32 <= x < 0
    ensures Wrap32(x) == x + TWO32
  {
    assert Wrap32(x) == Wrap32(x + TWO32);
  }

  /** Adding a multiple of 2^32 does not change a residue. */
  lemma ModShift(x: int, q: int)
    ensures (q * TWO32 + x) % TWO32 == x % TWO32
  {
    var r := x % TWO32;
    var k := x / TWO32;
    assert x == k * TWO32 + r;
    assert q * TWO32 + x == (q + k) * TWO32 + r;
    DivMod(q * TWO32 + x, TWO32, q + k, r);
  }

  /** Adding a multiple of 2^32 does not change the uint32_t conversion. */
  lemma WrapShift(x: int, q: int)
    ensures Wrap32(q * TWO32 + x) == Wrap32(x)
  {
    WrapMod(x);
    WrapMod(q * TWO32 + x);
    ModShift(x, q);
  }

  /** Adding a uint32_t-converted term is adding the term, modulo 2^32. */
  lemma SumWrap(a: int, b: int)
    ensures Wrap32(a + Wrap32(b)) == Wrap32(a + b)
  {
    WrapMod(b);
    var q := b / TWO32;
    assert b == q * TWO32 + Wrap32(b);
    assert a + b == q * TWO32 + (a + Wrap32(b));
    WrapShift(a + Wrap32(b), q);
  }

  /** Multiplying by a uint32_t-converted factor is multiplying by the factor, modulo 2^32. */
  lemma ProductWrap(i: int, m: int)
    ensures Wrap32(i * Wrap32(m)) == Wrap32(i * m)
  {
    WrapMod(m);
    var q := m / TWO32;
    var c := Wrap32(m);
    assert m == q * TWO32 + c;
    assert i * m == (i * q) * TWO32 + i * c by {
      assert i * (q * TWO32 + c) == i * (q * TWO32) + i * c;
      assert i * (q * TWO32) == (i * q) * TWO32;
    }
    WrapShift(i * c, i * q);
  }

  function Min(a: int, b: int): (r: int)
    ensures r <= a && r <= b && (r == a || r == b)
  {
    if a <= b then a else b
  }

  /** C's `a / 2` on int: the quotient truncated toward zero, not floored. */
  function CHalf(a: int): (q: int)
    ensures a >= 0 ==> 0 <= q && 2 * q <= a <= 2 * q + 1
    ensures a < 0 ==> q <= 0 && 2 * q - 1 <= a <= 2 * q
  {
    if a >= 0 then a / 2 else -((-a) / 2)
  }
}
