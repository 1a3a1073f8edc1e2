/** Unsigned right shift and the few facts about division and products the
    plane and row arithmetic of the driver needs. */
module Arith {

  function Pow2(n: nat): (r: nat)
    ensures r >= 1
  {
    if n == 0 then 1 else 2 * Pow2(n - 1)
  }

  /** `v >> s` on a non-negative value, as the driver shifts widths, heights
      and coordinates by the chroma shifts. */
  function Shr(v: nat, s: nat): (r: nat)
  {
    v / Pow2(s)
  }

  /** a * b, typed as a natural number so that offsets built from it are
      known to be non-negative. */
  function Mul(a: nat, b: nat): (r: nat)
  {
    a * b
  }

  lemma MulLe(a: nat, i: nat, j: nat)
    requires i <= j
    ensures a * i <= a * j
  {
    assert a * j == a * i + a * (j - i);
  }

  lemma MulLe2(a: nat, b: nat, c: nat, d: nat)
    requires a <= c && b <= d
    ensures a * b <= c * d
  {
    MulLe(a, b, d);
    MulLe(d, a, c);
  }

  /** The quotient is the largest q with d * q <= n. */
  lemma DivLowerBound(n: nat, d: nat, q: nat)
    requires d > 0 && d * q <= n
    ensures q <= n / d
  {
    assert n == d * (n / d) + n % d;
    if n / d < q {
      MulLe(d, n / d + 1, q);
    }
  }

  lemma DivLe(n: nat, d: nat)
    requires d > 0
    ensures n / d <= n
  {
    assert n == d * (n / d) + n % d;
    MulLe(n / d, 1, d);
  }

  lemma DivAddLe(a: nat, b: nat, d: nat)
    requires d > 0
    ensures a / d + b / d <= (a + b) / d
  {
    assert a == d * (a / d) + a % d;
    assert b == d * (b / d) + b % d;
    assert d * (a / d + b / d) == d * (a / d) + d * (b / d);
    DivLowerBound(a + b, d, a / d + b / d);
  }

  /** Shifting never grows a value. */
  lemma ShrLe(v: nat, s: nat)
    ensures Shr(v, s) <= v
  {
    DivLe(v, Pow2(s));
  }

  /** The shifted parts of a sum fit in the shifted sum: a row starting at
      `x >> s` with `w >> s` bytes ends inside a line of `(x + w) >> s`. */
  lemma ShrAddLe(a: nat, b: nat, s: nat)
    ensures Shr(a, s) + Shr(b, s) <= Shr(a + b, s)
  {
    DivAddLe(a, b, Pow2(s));
  }

  lemma ShrMono(a: nat, b: nat, s: nat)
    requires a <= b
    ensures Shr(a, s) <= Shr(b, s)
  {
    ShrAddLe(a, b - a, s);
  }

  /** Halving an even value and doubling it back gives the value. */
  lemma ShrOneEven(v: nat)
    requires v % 2 == 0
    ensures 2 * Shr(v, 1) == v
  {
    assert Pow2(1) == 2;
  }

  /** Row i of a block that starts at row y of a plane with `rows` rows of
      `stride` bytes ends inside the plane when y + i < rows. */
  lemma RowBound(stride: nat, y: nat, i: nat, rows: nat)
    requires y + i < rows
    ensures stride * y + stride * i + stride <= stride * rows
  {
    assert stride * y + stride * i + stride == stride * (y + i + 1);
    MulLe(stride, y + i + 1, rows);
  }
}
