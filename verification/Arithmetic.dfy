/** Nonlinear facts, one at a time, so that no proof has to search for them. */
module Arithmetic {

  lemma Distribute(a: int, b: int, c: int)
    ensures a * (b + c) == a * b + a * c
  {
  }

  lemma MulNonNegative(a: nat, b: nat)
    ensures a * b >= 0
  {
  }

  lemma MulLe(d: nat, a: int, b: int)
    requires a <= b
    ensures d * a <= d * b
  {
    Distribute(d, a, b - a);
    MulNonNegative(d, b - a);
  }

  lemma MulLess(d: nat, a: int, b: int)
    requires a < b
    ensures d * a + d <= d * b
  {
    MulLe(d, a + 1, b);
    Distribute(d, a, 1);
  }

  lemma MulSum(total: int, a: int, b: int, c: int)
    requires total == a + b
    ensures total * c == a * c + b * c
  {
  }

  lemma Negate(a: int, b: int)
    ensures a * (-b) == -(a * b)
  {
  }

  /** Euclidean division is determined by its defining equation. */
  lemma DivUnique(m: nat, q: int, r: int, x: int)
    requires m > 0 && x == m * q + r && 0 <= r < m
    ensures x / m == q && x % m == r
  {
    assert x == m * (x / m) + x % m;
    if q < x / m { MulLess(m, q, x / m); }
    if x / m < q { MulLess(m, x / m, q); }
  }

  lemma MultipleOf(m: nat, i: int)
    requires m > 0
    ensures (i * m) % m == 0 && (i * m) / m == i
  {
    DivUnique(m, i, 0, i * m);
  }

  /** Two multiples closer than the modulus are equal. */
  lemma MultiplesApart(m: nat, x: int, y: int)
    requires m > 0 && x % m == 0 && y % m == 0 && y <= x < y + m
    ensures x == y
  {
    assert y == m * (y / m);
    DivUnique(m, y / m, x - y, x);
  }

  function Pow2(n: nat): (p: nat)
    ensures p >= 1
  {
    if n == 0 then 1 else 2 * Pow2(n - 1)
  }

  lemma {:induction false} PowAdd(a: nat, b: nat)
    ensures Pow2(a + b) == Pow2(a) * Pow2(b)
  {
    if a > 0 {
      PowAdd(a - 1, b);
      assert 2 * (Pow2(a - 1) * Pow2(b)) == (2 * Pow2(a - 1)) * Pow2(b);
    }
  }

  lemma {:induction false} PowMonotone(a: nat, b: nat)
    requires a <= b
    ensures Pow2(a) <= Pow2(b)
    decreases b
  {
    if a < b { PowMonotone(a, b - 1); }
  }

  function AlignDown(x: nat, align: nat): (y: nat)
    requires align > 0
    ensures y <= x < y + align && y % align == 0
  {
    DivUnique(align, x / align, 0, align * (x / align));
    x - x % align
  }

  function AlignUp(x: nat, align: nat): (y: nat)
    requires align > 0
    ensures y < x + align && x <= y && y % align == 0
  {
    AlignDown(x + align - 1, align)
  }
}
