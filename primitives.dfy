/** Machine integers of the on-chain program and a small Result type. */
module Primitives {

  const I64_MIN: int := -0x8000_0000_0000_0000
  const I64_MAX: int := 0x7fff_ffff_ffff_ffff
  const I128_MIN: int := -0x8000_0000_0000_0000_0000_0000_0000_0000
  const I128_MAX: int := 0x7fff_ffff_ffff_ffff_ffff_ffff_ffff_ffff
  const U64_MAX: int := 0xffff_ffff_ffff_ffff

  predicate IsI64(x: int) { I64_MIN <= x <= I64_MAX }
  predicate IsI128(x: int) { I128_MIN <= x <= I128_MAX }

  /** Rust `i64`: every amount and time of an employee record. */
  type I64 = x: int | IsI64(x)
  /** Rust `u64`: token balances and transfer amounts. */
  type U64 = x: int | 0 <= x <= U64_MAX
  /** Rust `u8`: address bumps and seed bytes. */
  type Byte = x: int | 0 <= x < 256

  datatype Option<+T> = None | Some(value: T)

  datatype Result<+T, +E> = Ok(value: T) | Err(error: E)

  /** `std::cmp::min`. */
  function Min(a: int, b: int): (m: int)
    ensures m <= a && m <= b
    ensures m == a || m == b
  {
    if a <= b then a else b
  }

  /** Rust's integer `/` for a positive divisor: the quotient is rounded toward zero
      (Dafny's own `/` rounds toward negative infinity for a negative dividend). */
  function DivTrunc(a: int, b: int): (q: int)
    requires b > 0
    ensures 0 <= a ==> 0 <= q && q * b <= a < q * b + b
    ensures a < 0 ==> q <= 0 && q * b - b < a <= q * b
  {
    if 0 <= a then
      DivFloorBounds(a, b);
      a / b
    else
      DivFloorBounds(-a, b);
      NegatedProduct((-a) / b, b);
      -((-a) / b)
  }

  /** Dafny's `/` on a non-negative dividend is the floor of the quotient. */
  lemma DivFloorBounds(a: int, b: int)
    requires 0 <= a && 0 < b
    ensures 0 <= a / b && (a / b) * b <= a < (a / b) * b + b
  {
    assert a == b * (a / b) + a % b;
    assert 0 <= a % b < b;
    assert b * (a / b) == (a / b) * b;
    if a / b < 0 {
      MulMonotone(a / b, -1, b);
    }
  }

  lemma NegatedProduct(p: int, b: int)
    ensures (-p) * b == -(p * b)
  {
  }

  /** The product of two i64 values always fits in an i128, so the widened
      multiplication of the vesting formula never overflows. */
  lemma ProductFitsI128(x: int, y: int)
    requires IsI64(x) && IsI64(y)
    ensures IsI128(x * y)
  {
    var m := 0x8000_0000_0000_0000;
    assert -m <= x <= m && -m <= y <= m;
    MulAbsBound(x, y, m);
    assert m * m <= I128_MAX;
  }

  lemma MulAbsBound(x: int, y: int, m: int)
    requires 0 <= m && -m <= x <= m && -m <= y <= m
    ensures -(m * m) <= x * y <= m * m
  {
    var ax, ay := if x < 0 then -x else x, if y < 0 then -y else y;
    MulMonotone(ax, m, ay);
    MulMonotone(ay, m, m);
    assert x * y == ax * ay || x * y == -(ax * ay);
  }

  /** Multiplying by a non-negative factor keeps order. */
  lemma MulMonotone(a: int, b: int, c: int)
    requires a <= b && 0 <= c
    ensures a * c <= b * c
  {
    assert b * c - a * c == (b - a) * c;
  }
}
