/** The scalar operations of the source on 64-bit floats, over `real`: absolute value,
    clamping, ceiling, and the casts that Rust defines to saturate or truncate. */
module Numeric {

  function Abs(x: real): real {
    if x < 0.0 then -x else x
  }

  function Max(x: real, y: real): real {
    if x < y then y else x
  }

  function Clamp01(x: real): real {
    if x < 0.0 then 0.0 else if 1.0 < x then 1.0 else x
  }

  function Ceil(x: real): int {
    -((-x).Floor)
  }

  /** `x.floor() as usize`: negative values saturate to zero. */
  function FloorToNat(x: real): nat {
    if x.Floor < 0 then 0 else x.Floor
  }

  /** The part before the decimal point, rounding toward zero. */
  function Truncate(x: real): int {
    if x < 0.0 then -((-x).Floor) else x.Floor
  }

  const I64_MIN := -0x8000_0000_0000_0000
  const I64_MAX := 0x7fff_ffff_ffff_ffff

  /** `x as i64`: truncation toward zero, saturating at both ends. */
  function ToI64(x: real): int {
    var t := Truncate(x);
    if t < I64_MIN then I64_MIN else if I64_MAX < t then I64_MAX else t
  }

  /** Rust's integer `x / 2`, which truncates toward zero. */
  function HalveTowardZero(x: int): int {
    if x < 0 then -((-x) / 2) else x / 2
  }

  lemma ToI64Error(x: real)
    requires I64_MIN as real <= x <= I64_MAX as real
    ensures -1.0 < ToI64(x) as real - x < 1.0
    ensures Abs(ToI64(x) as real) <= Abs(x)
  {
  }

  /** The cast saturates at both ends of the 64-bit range and truncates toward zero between them. */
  lemma ToI64Law(x: real)
    ensures x >= 9223372036854775807.0 ==> ToI64(x) == 9223372036854775807
    ensures x <= -9223372036854775808.0 ==> ToI64(x) == -9223372036854775808
    ensures 0.0 <= x < 9223372036854775808.0 ==> ToI64(x) as real <= x < ToI64(x) as real + 1.0
    ensures -9223372036854775809.0 < x <= 0.0 ==> ToI64(x) as real - 1.0 < x <= ToI64(x) as real
  {
  }

  lemma ProductNonNegative(x: real, y: real)
    requires 0.0 <= x && 0.0 <= y
    ensures 0.0 <= x * y
  {
  }

  lemma ProductPositive(x: real, y: real)
    requires 0.0 < x && 0.0 < y
    ensures 0.0 < x * y
  {
  }

  /** Multiplication under a name, so that proofs can treat a product as a unit. */
  function Product(x: real, y: real): real {
    x * y
  }

  function Square(x: real): real {
    Product(x, x)
  }

  lemma ProductSign(x: real, y: real)
    ensures 0.0 <= x && 0.0 <= y ==> 0.0 <= Product(x, y)
    ensures 0.0 < x && 0.0 < y ==> 0.0 < Product(x, y)
    ensures x < 0.0 && y < 0.0 ==> 0.0 < Product(x, y)
  {
  }

  lemma SquareSign(x: real)
    ensures 0.0 <= Square(x)
    ensures x != 0.0 ==> 0.0 < Square(x)
  {
    hide Product;
    ProductSign(x, x);
  }

  lemma ShrinkBelow(x: real, r: real)
    requires 0.0 < x && r < 1.0
    ensures x * r < x
  {
    ProductPositive(x, 1.0 - r);
  }

  // ----- weighted combinations

  /** `sum` is a combination, with total weight `total`, of values in [lo, hi]. */
  ghost predicate Band(lo: real, hi: real, total: real, sum: real) {
    lo * total <= sum <= hi * total
  }

  lemma BandZero(lo: real, hi: real)
    ensures Band(lo, hi, 0.0, 0.0)
  {
  }

  lemma BandSum(lo: real, hi: real, w: real, x: real, w': real, x': real)
    requires Band(lo, hi, w, x) && Band(lo, hi, w', x')
    ensures Band(lo, hi, w + w', x + x')
  {
    assert lo * (w + w') == lo * w + lo * w';
    assert hi * (w + w') == hi * w + hi * w';
  }

  lemma BandQuotient(lo: real, hi: real, total: real, sum: real)
    requires total > 0.0 && Band(lo, hi, total, sum)
    ensures lo <= sum / total <= hi
  {
    var q := sum / total;
    assert q * total == sum;
    if q < lo {
      ProductPositive(lo - q, total);
    } else if q > hi {
      ProductPositive(q - hi, total);
    }
  }

  // ----- sums over a sequence

  function Sum<T>(f: T -> real, s: seq<T>): real {
    if |s| == 0 then 0.0 else Sum(f, s[..|s| - 1]) + f(s[|s| - 1])
  }

  lemma SumStep<T>(f: T -> real, s: seq<T>, i: nat)
    requires i < |s|
    ensures Sum(f, s[..i + 1]) == Sum(f, s[..i]) + f(s[i])
  {
    assert s[..i + 1][..i] == s[..i];
  }
}
