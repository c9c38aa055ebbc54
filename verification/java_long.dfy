/**
 Java's 64-bit `long` arithmetic written out over Dafny's unbounded integers:
 two's-complement wrap-around and the truncating integer division of `/`.
 */
module JavaLong {

  const Modulus: int := 0x1_0000_0000_0000_0000
  const MinLong: int := -0x8000_0000_0000_0000
  const MaxLong: int := 0x7FFF_FFFF_FFFF_FFFF

  /** The values a Java `long` can hold. */
  type Long = x: int | MinLong <= x <= MaxLong

  /** The `long` that a Java computation yields for the mathematical value `x`. */
  function Wrap(x: int): (r: Long)
    ensures (x - r) % Modulus == 0
    ensures MinLong <= x <= MaxLong ==> r == x
  {
    var m := x % Modulus;
    if m > MaxLong then m - Modulus else m
  }

  /** Two integers that agree modulo 2^64 wrap to the same `long`. */
  lemma {:induction false} WrapCongruent(x: int, y: int)
    requires (x - y) % Modulus == 0
    ensures Wrap(x) == Wrap(y)
  {
    var k := (x - y) / Modulus;
    assert x == y + k * Modulus;
    ModShift(y, k);
  }

  lemma {:induction false} ModShift(y: int, k: int)
    ensures (y + k * Modulus) % Modulus == y % Modulus
    decreases if k < 0 then -k else k
  {
    if k > 0 {
      ModShift(y, k - 1);
      assert y + k * Modulus == (y + (k - 1) * Modulus) + Modulus;
    } else if k < 0 {
      ModShift(y, k + 1);
      assert y + k * Modulus == (y + (k + 1) * Modulus) - Modulus;
    }
  }

  /** Java's `a / b` for a positive divisor: the quotient truncated toward zero. */
  function Quot(a: int, b: int): (q: int)
    requires b > 0
    ensures 0 <= a ==> 0 <= q && q * b <= a < (q + 1) * b
    ensures a < 0 ==> q <= 0 && (q - 1) * b < a <= q * b
  {
    var n := if a >= 0 then a else -a;
    var d := n / b;
    assert n == d * b + n % b && 0 <= n % b < b;
    assert (d + 1) * b == d * b + b;
    if a >= 0 then d else -d
  }
}
