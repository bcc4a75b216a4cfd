/**
 * Alignment arithmetic of the allocator header: AkieGUI_ALIGN and the
 * AkieGUI_ALIGN_UP mask expression, evaluated in uint32_t.
 */
module Align {
  import opened Machine

  /** AkieGUI_ALIGN: the default alignment, unless the build overrides it. */
  const ALIGN: u32 := 16

  /** Bitwise AND of two naturals, one bit at a time from the least significant. */
  function And(x: nat, y: nat): (r: nat)
    ensures r <= x && r <= y
    decreases x
  {
    if x == 0 || y == 0 then 0
    else 2 * And(x / 2, y / 2) + (if x % 2 == 1 && y % 2 == 1 then 1 else 0)
  }

  /** The one's complement ~v of a uint32_t. */
  function Not32(v: u32): u32
  {
    TWO32 - 1 - v
  }

  /**
   * AkieGUI_ALIGN_UP(x, a) = (x + a - 1) & ~(a - 1), every step in uint32_t,
   * for any a (the macro does not check that a is a power of two).
   */
  function AlignUp(x: u32, a: u32): u32
  {
    And(Wrap32(x + a - 1), Not32(Wrap32(a - 1)))
  }

  predicate IsPow2(a: nat)
    decreases a
  {
    if a <= 1 then a == 1 else a % 2 == 0 && IsPow2(a / 2)
  }

  function Log2(a: nat): (k: nat)
    requires IsPow2(a)
    ensures Pow2(k) == a
    decreases a
  {
    if a == 1 then 0 else 1 + Log2(a / 2)
  }

  lemma {:induction false} Pow2IsPow2(k: nat)
    ensures IsPow2(Pow2(k))
  {
    if k > 0 {
      Pow2IsPow2(k - 1);
      assert Pow2(k) / 2 == Pow2(k - 1);
    }
  }

  lemma {:induction false} Pow2Monotonic(j: nat, k: nat)
    requires j <= k
    ensures Pow2(j) <= Pow2(k)
    decreases k - j
  {
    if j < k {
      Pow2Monotonic(j, k - 1);
    }
  }

  /** An exponent of a power of two that fits in uint32_t is below 32. */
  lemma Log2Below32(a: u32)
    requires IsPow2(a)
    ensures Log2(a) < 32
  {
    if Log2(a) >= 32 {
      Pow2Monotonic(32, Log2(a));
      Pow2Of32();
    }
  }

  /** Masking with 2^n - 1 keeps every value below 2^n. */
  lemma {:induction false} AndLowOnes(v: nat, n: nat)
    requires v < Pow2(n)
    ensures And(v, Pow2(n) - 1) == v
  {
    if n > 0 && v > 0 {
      var m := Pow2(n) - 1;
      assert m / 2 == Pow2(n - 1) - 1 && m % 2 == 1;
      AndLowOnes(v / 2, n - 1);
      assert And(v, m) == 2 * (v / 2) + v % 2;
    }
  }

  /** AND with an even mask shifts the AND of the halves. */
  lemma AndEven(v: nat, m: nat)
    requires m % 2 == 0
    ensures And(v, m) == 2 * And(v / 2, m / 2)
  {
  }

  /** If the halves AND to q * p, the whole AND to q * 2p under an even mask. */
  lemma AndShifted(v: nat, m: nat, q: int, p: int)
    requires m % 2 == 0 && And(v / 2, m / 2) == q * p
    ensures And(v, m) == q * (2 * p)
  {
    AndEven(v, m);
    MulTwice(q, p);
  }

  lemma MulTwice(q: int, p: int)
    ensures q * (2 * p) == 2 * (q * p)
  {
  }

  /** Rounding n down to a multiple of a loses less than a. */
  lemma RoundDownBounds(n: nat, a: nat)
    requires a >= 1
    ensures n - a < (n / a) * a <= n
  {
    var q, r := n / a, n % a;
    assert n == q * a + r && 0 <= r < a;
  }

  /** Halving v and then dividing by 2^(k-1) is dividing by 2^k. */
  lemma HalveThenDivide(v: nat, k: nat)
    requires k >= 1
    ensures (v / 2) / Pow2(k - 1) == v / Pow2(k)
  {
    var p := Pow2(k - 1);
    var q := (v / 2) / p;
    var r1 := (v / 2) % p;
    assert v / 2 == q * p + r1;
    assert v == 2 * (v / 2) + v % 2;
    assert v == q * Pow2(k) + (2 * r1 + v % 2);
    DivMod(v, Pow2(k), q, 2 * r1 + v % 2);
  }

  /** Masking with 2^n - 2^k (the high n - k bits) rounds down to a multiple of 2^k. */
  lemma {:induction false} AndHighMask(v: nat, n: nat, k: nat, m: nat)
    requires k <= n && v < Pow2(n) && m == Pow2(n) - Pow2(k)
    ensures And(v, m) == (v / Pow2(k)) * Pow2(k)
    decreases k
  {
    if k == 0 {
      AndLowOnes(v, n);
    } else if k == n {
      DivMod(v, Pow2(k), 0, v);
    } else if v == 0 {
      DivMod(v, Pow2(k), 0, 0);
    } else {
      MaskHalves(n, k);
      AndHighMask(v / 2, n - 1, k - 1, Pow2(n - 1) - Pow2(k - 1));
      HalveThenDivide(v, k);
      AndShifted(v, m, v / Pow2(k), Pow2(k - 1));
    }
  }

  /** The mask of bits k..n-1 is even, and halving it gives the mask of bits k-1..n-2. */
  lemma MaskHalves(n: nat, k: nat)
    requires 1 <= k < n
    ensures (Pow2(n) - Pow2(k)) % 2 == 0 && (Pow2(n) - Pow2(k)) / 2 == Pow2(n - 1) - Pow2(k - 1)
    ensures Pow2(k - 1) <= Pow2(n - 1)
  {
    Pow2Monotonic(k, n - 1);
  }

  /** For a power-of-two a, ALIGN_UP is rounding up in arithmetic modulo 2^32. */
  lemma AlignUpPow2(x: u32, a: u32)
    requires IsPow2(a)
    ensures AlignUp(x, a) == (Wrap32(x + a - 1) / a) * a
  {
    var k := Log2(a);
    Log2Below32(a);
    Pow2Of32();
    assert Not32(Wrap32(a - 1)) == Pow2(32) - Pow2(k);
    AndHighMask(Wrap32(x + a - 1), 32, k, Pow2(32) - Pow2(k));
  }

  /** For a power-of-two a, ALIGN_UP(x, a) is a multiple of a. */
  lemma AlignUpMultiple(x: u32, a: u32)
    requires IsPow2(a)
    ensures AlignUp(x, a) % a == 0
  {
    AlignUpPow2(x, a);
    var q := Wrap32(x + a - 1) / a;
    DivMod(q * a, a, q, 0);
  }

  /** Without uint32_t overflow, ALIGN_UP(x, a) is the least multiple of a that is at least x. */
  lemma AlignUpBounds(x: u32, a: u32)
    requires IsPow2(a) && x + a - 1 < TWO32
    ensures x <= AlignUp(x, a) < x + a
  {
    AlignUpPow2(x, a);
    var n := x + a - 1;
    assert Wrap32(n) == n;
    RoundDownBounds(n, a);
  }

  /** When x + a - 1 overflows uint32_t, ALIGN_UP(x, a) wraps to 0. */
  lemma AlignUpOverflow(x: u32, a: u32)
    requires IsPow2(a) && x + a - 1 >= TWO32
    ensures AlignUp(x, a) == 0
  {
    AlignUpPow2(x, a);
    var n := Wrap32(x + a - 1);
    assert n == x + a - 1 - TWO32 && n < a;
    DivMod(n, a, 0, n);
  }

  /** ALIGN_UP(x, a) == x exactly when x is already a multiple of a. */
  lemma AlignUpFixed(x: u32, a: u32)
    requires IsPow2(a)
    ensures AlignUp(x, a) == x <==> x % a == 0
  {
    AlignUpMultiple(x, a);
    if x % a == 0 {
      assert x + a - 1 < TWO32 by {
        Log2Below32(a);
        Pow2Of32();
        Pow2Divides(Log2(a), 32);
        MultipleBelow(x, a, TWO32);
      }
      AlignedStays(x, a);
    }
  }

  /** A multiple x of a with room for a - 1 more is its own ALIGN_UP. */
  lemma AlignedStays(x: u32, a: u32)
    requires IsPow2(a) && x % a == 0 && x + a - 1 < TWO32
    ensures AlignUp(x, a) == x
  {
    AlignUpPow2(x, a);
    var n := x + a - 1;
    assert Wrap32(n) == n;
    QuotRem(x, a);
    DivMod(n, a, x / a, a - 1);
  }

  lemma {:induction false} Pow2Divides(j: nat, k: nat)
    requires j <= k
    ensures Pow2(k) % Pow2(j) == 0
    decreases k
  {
    var p := Pow2(j);
    if j == k {
      DivMod(p, p, 1, 0);
    } else {
      Pow2Divides(j, k - 1);
      var q := Pow2(k - 1) / p;
      assert Pow2(k - 1) == q * p;
      assert Pow2(k) == (2 * q) * p;
      DivMod(Pow2(k), p, 2 * q, 0);
    }
  }

  /** A multiple of a below a bound that is itself a multiple of a leaves room for a whole a. */
  lemma MultipleBelow(m: nat, a: nat, b: nat)
    requires a >= 1 && m % a == 0 && b % a == 0 && m < b
    ensures m + a <= b
  {
    var i := m / a;
    var j := b / a;
    assert m == i * a && b == j * a;
    if j <= i {
      MulMonotonic(j, i, a);
    }
    MulAtLeast(j - i, a);
    assert b - m == (j - i) * a;
  }

  /** ALIGN_UP is idempotent for a power-of-two a. */
  lemma AlignUpIdempotent(x: u32, a: u32)
    requires IsPow2(a)
    ensures AlignUp(AlignUp(x, a), a) == AlignUp(x, a)
  {
    AlignUpMultiple(x, a);
    AlignUpFixed(AlignUp(x, a), a);
  }

  /** The default alignment is a power of two. */
  lemma DefaultAlignIsPow2()
    ensures IsPow2(ALIGN) && ALIGN == 16
  {
  }
}
