/** The fixed-width integer types of Rust, as ranges of Dafny's unbounded integers. */
module RustInt {

  const U8_MAX: int := 0xFF
  const U16_MAX: int := 0xFFFF
  const U32_MAX: int := 0xFFFF_FFFF
  const U64_MAX: int := 0xFFFF_FFFF_FFFF_FFFF
  const I32_MIN: int := -0x8000_0000
  const I32_MAX: int := 0x7FFF_FFFF

  type U8 = x: int | 0 <= x <= U8_MAX
  type U16 = x: int | 0 <= x <= U16_MAX
  type U32 = x: int | 0 <= x <= U32_MAX
  type U64 = x: int | 0 <= x <= U64_MAX
  /** `usize` on a 64-bit target. */
  type Usize = x: int | 0 <= x <= U64_MAX
  type I32 = x: int | I32_MIN <= x <= I32_MAX

  predicate InI32(x: int) { I32_MIN <= x <= I32_MAX }

  /** Rust's `/` on signed integers: the quotient truncated toward zero. */
  function TruncDiv(a: int, b: int): int
    requires b != 0
  {
    var m := Abs(a) / Abs(b);
    if (a < 0) == (b < 0) then m else -m
  }

  /** The truncated quotient is no larger in magnitude than the dividend, and at most half
      of it when the divisor has magnitude two or more. */
  lemma TruncDivBound(a: int, b: int)
    requires b != 0
    ensures Abs(TruncDiv(a, b)) <= Abs(a)
    ensures Abs(b) >= 2 ==> Abs(TruncDiv(a, b)) <= Abs(a) / 2
  {
    var m := Abs(a) / Abs(b);
    assert m * Abs(b) <= Abs(a);
    assert m <= m * Abs(b);
    if Abs(b) >= 2 {
      assert 2 * m <= m * Abs(b);
    }
  }

  /** The remainder left by `TruncDiv` is smaller than the divisor and carries the
      dividend's sign, which is what "truncated toward zero" means. */
  lemma TruncDivRemainder(a: int, b: int)
    requires b != 0
    ensures var r := a - TruncDiv(a, b) * b;
      Abs(r) < Abs(b) && (r == 0 || (r < 0) == (a < 0))
  {
    var d := Abs(b);
    var m := Abs(a) / d;
    var k := Abs(a) % d;
    var p := m * d;
    assert Abs(a) == p + k && 0 <= k < d;
    // the product of the quotient and the divisor is `p` with the dividend's sign
    var q := TruncDiv(a, b);
    if b > 0 {
      assert d == b;
      if a >= 0 { assert q == m; } else { assert q == -m; assert q * b == -(m * b); }
    } else {
      assert d == -b;
      if a >= 0 { assert q == -m; assert q * b == m * d; }
      else { assert q == m; assert m * b == -(m * d); }
    }
    assert a >= 0 ==> q * b == p;
    assert a < 0 ==> q * b == -p;
  }

  /** A product of naturals is zero exactly when a factor is, and no smaller than either
      factor when the other is positive. */
  lemma MulNat(x: nat, y: nat)
    ensures x * y == 0 <==> x == 0 || y == 0
    ensures y > 0 ==> x * y >= x
    ensures x > 0 ==> x * y >= y
  {
    if x > 0 && y > 0 {
      assert x * y == x * (y - 1) + x;
      assert x * y == (x - 1) * y + y;
    }
  }

  function Abs(x: int): nat { if x < 0 then -x else x }
}
