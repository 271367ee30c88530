/** The machine integers of the program and facts about floor division. */
module Ints {
  import opened Results

  const TWO_64: int := 0x1_0000_0000_0000_0000
  const U64_MAX: int := TWO_64 - 1
  const U16_MAX: int := 0xFFFF
  const I32_MIN: int := -0x8000_0000
  const I32_MAX: int := 0x7FFF_FFFF
  const I64_MIN: int := -0x8000_0000_0000_0000
  const I64_MAX: int := 0x7FFF_FFFF_FFFF_FFFF
  const I128_MAX: int := 0x7FFF_FFFF_FFFF_FFFF_FFFF_FFFF_FFFF_FFFF

  type u8 = x: int | 0 <= x < 256
  type u16 = x: int | 0 <= x <= 0xFFFF
  type u64 = x: int | 0 <= x < 0x1_0000_0000_0000_0000
  type i32 = x: int | -0x8000_0000 <= x <= 0x7FFF_FFFF
  type i64 = x: int | -0x8000_0000_0000_0000 <= x <= 0x7FFF_FFFF_FFFF_FFFF

  /** The cast `as u64` of a value that is not negative: it keeps the low 64 bits. */
  function AsU64(x: nat): (r: u64)
    ensures x < TWO_64 ==> r == x
    ensures r <= x
  {
    x % 0x1_0000_0000_0000_0000
  }

  function AddU64(a: u64, b: u64): Result<u64> {
    if a + b <= U64_MAX then Ok(a + b) else Err(MathOverflow)
  }

  function SubU64(a: u64, b: u64): Result<u64> {
    if b <= a then Ok(a - b) else Err(MathOverflow)
  }

  function AddU16(a: u16, b: u16): Result<u16> {
    if a + b <= U16_MAX then Ok(a + b) else Err(MathOverflow)
  }

  function SubU16(a: u16, b: u16): Result<u16> {
    if b <= a then Ok(a - b) else Err(MathOverflow)
  }

  function AddI64(a: i64, b: i64): Result<i64> {
    if I64_MIN <= a + b <= I64_MAX then Ok(a + b) else Err(MathOverflow)
  }

  /** Products and quotients of values that are not negative. */
  function Mul(a: nat, b: nat): (p: nat)
    ensures a > 0 && b > 0 ==> p > 0
  {
    a * b
  }

  function Div(x: nat, d: nat): nat
    requires d > 0
  {
    x / d
  }

  function Abs(x: int): nat {
    if x < 0 then -x else x
  }

  function Min(a: int, b: int): int {
    if a <= b then a else b
  }

  function CeilDiv(x: nat, d: nat): nat
    requires d > 0
  {
    (x + d - 1) / d
  }

  // ---- products ------------------------------------------------------------------------

  lemma MulMono(a: nat, b: nat, c: nat)
    requires a <= b
    ensures Mul(a, c) <= Mul(b, c)
  {
    MulLe(a, b, c);
  }

  lemma MulSum(a: nat, b: nat, c: nat)
    ensures Mul(a + b, c) == Mul(a, c) + Mul(b, c)
  {
  }

  lemma MulScaled(k: nat, a: nat, b: nat)
    ensures Mul(k * a, b) == k * Mul(a, b)
  {
    assert k * a * b == k * (a * b);
  }

  lemma MulSwap(a: nat, b: nat, c: nat)
    ensures Mul(Mul(a, b), c) == Mul(Mul(a, c), b)
  {
    assert a * b * c == a * c * b;
  }

  lemma MulCommutes(a: nat, b: nat)
    ensures Mul(a, b) == Mul(b, a)
  {
  }

  lemma MulUnits(a: nat)
    ensures Mul(1, a) == a && Mul(a, 1) == a && Mul(a, 0) == 0 && Mul(0, a) == 0
  {
  }

  lemma MulCancelLe(a: nat, b: nat, d: nat)
    requires d > 0 && Mul(a, d) <= Mul(b, d)
    ensures a <= b
  {
    CancelLe(a, b, d);
  }

  lemma MulCancelLt(a: nat, b: nat, d: nat)
    requires d > 0 && Mul(a, d) < Mul(b, d)
    ensures a < b
  {
    CancelLt(a, b, d);
  }

  // ---- floor division ------------------------------------------------------------------

  lemma DivBounds(x: nat, d: nat)
    requires d > 0
    ensures x / d * d <= x < x / d * d + d
  {
    assert x == d * (x / d) + x % d;
  }

  lemma DivAtLeast(x: nat, d: nat, q: int)
    requires d > 0 && q * d <= x
    ensures q <= x / d
  {
    DivBounds(x, d);
    if x / d < q {
      assert (x / d + 1) * d <= q * d by { MulLe(x / d + 1, q, d); }
    }
  }

  lemma DivBelow(x: nat, d: nat, q: int)
    requires d > 0 && x < q * d
    ensures x / d < q
  {
    DivBounds(x, d);
    if q <= x / d {
      MulLe(q, x / d, d);
    }
  }

  lemma MulLe(a: int, b: int, d: nat)
    requires a <= b
    ensures a * d <= b * d
  {
    assert (b - a) * d >= 0;
  }

  /** Cancelling a positive common factor from both sides of an inequality. */
  lemma CancelLe(a: int, b: int, d: nat)
    requires d > 0 && a * d <= b * d
    ensures a <= b
  {
    if b < a {
      MulLe(b + 1, a, d);
    }
  }

  lemma CancelLt(a: int, b: int, d: nat)
    requires d > 0 && a * d < b * d
    ensures a < b
  {
    if b <= a {
      MulLe(b, a, d);
    }
  }

  lemma CeilDivBounds(x: nat, d: nat)
    requires d > 0
    ensures x <= CeilDiv(x, d) * d < x + d
  {
    DivBounds(x + d - 1, d);
  }

  lemma CeilCovers(x: nat, d: nat)
    requires d > 0
    ensures x <= Mul(CeilDiv(x, d), d)
  {
    CeilDivBounds(x, d);
  }

  lemma DivMono(x: nat, y: nat, d: nat)
    requires d > 0 && x <= y
    ensures x / d <= y / d
  {
    DivBounds(x, d);
    DivAtLeast(y, d, x / d);
  }

  /** Flooring a sum loses at most one unit against the sum of the floors. */
  lemma DivSplit(x: nat, y: nat, d: nat)
    requires d > 0
    ensures x / d + y / d <= (x + y) / d <= x / d + y / d + 1
  {
    DivBounds(x, d);
    DivBounds(y, d);
    assert (x / d + y / d) * d == x / d * d + y / d * d;
    DivAtLeast(x + y, d, x / d + y / d);
    assert (x / d + y / d + 2) * d == x / d * d + d + (y / d * d + d);
    DivBelow(x + y, d, x / d + y / d + 2);
  }

  // ---- powers of ten -------------------------------------------------------------------

  function Pow10(n: nat): (p: nat)
    ensures p >= 1
  {
    if n == 0 then 1 else 10 * Pow10(n - 1)
  }

  lemma {:induction false} Pow10Add(a: nat, b: nat)
    ensures Pow10(a + b) == Pow10(a) * Pow10(b)
  {
    if b > 0 {
      Pow10Add(a, b - 1);
      assert Pow10(a + b) == 10 * Pow10(a + b - 1);
    }
  }

  lemma {:induction false} Pow10Mono(a: nat, b: nat)
    requires a <= b
    ensures Pow10(a) <= Pow10(b)
  {
    if a < b {
      Pow10Mono(a, b - 1);
    }
  }

  lemma Pow10Values()
    ensures Pow10(38) <= I128_MAX < Pow10(39)
  {
    assert Pow10(10) == 10_000_000_000;
    Pow10Add(10, 10);
    Pow10Add(20, 10);
    Pow10Add(30, 8);
    assert Pow10(8) == 100_000_000;
    assert Pow10(39) == 10 * Pow10(38);
  }
}
