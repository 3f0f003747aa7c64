/** `round` of packages/core/src/scoring/engine.ts over the reals, and the order facts that its users need. */
module Rounding {
  /** The scales of two, three and four decimal places. */
  const E2 := 100.0
  const E3 := 1000.0
  const E4 := 10000.0

  /** The nearest number with so many decimal places; halves go up. */
  function Round(n: real, f: real): real
    requires f > 0.0
  {
    (n * f + 0.5).Floor as real / f
  }

  predicate IsWhole(y: real) {
    y == y.Floor as real
  }

  predicate IsDecimal(x: real, f: real) {
    IsWhole(x * f)
  }

  lemma Cancel(k: real, f: real)
    requires f > 0.0
    ensures k / f * f == k && k * f / f == k
  {
  }

  lemma SelfQuotient(d: real)
    requires d != 0.0
    ensures d / d == 1.0 && 0.0 / d == 0.0
  {
  }

  lemma ProductsKeepOrder(x: real, y: real, f: real)
    requires x <= y && f >= 0.0
    ensures x * f <= y * f
  {
  }

  lemma FloorsKeepOrder(x: real, y: real)
    requires x <= y
    ensures x.Floor <= y.Floor
  {
  }

  lemma RoundIsNearest(n: real, f: real)
    requires f > 0.0
    ensures IsDecimal(Round(n, f), f)
    ensures -0.5 <= Round(n, f) * f - n * f <= 0.5
  {
    var k := (n * f + 0.5).Floor;
    Cancel(k as real, f);
    assert Round(n, f) * f == k as real;
  }

  lemma HalfUpKeepsWholes(y: real)
    requires IsWhole(y)
    ensures (y + 0.5).Floor as real == y
  {
    assert (y + 0.5).Floor == y.Floor;
  }

  lemma RoundKeepsDecimals(n: real, f: real)
    requires f > 0.0
    requires IsDecimal(n, f)
    ensures Round(n, f) == n
  {
    var y := n * f;
    var k := (y + 0.5).Floor;
    assert Round(n, f) == k as real / f;
    HalfUpKeepsWholes(y);
    Cancel(n, f);
  }

  lemma RoundIsMonotone(m: real, n: real, f: real)
    requires f > 0.0
    requires m <= n
    ensures Round(m, f) <= Round(n, f)
  {
    ProductsKeepOrder(m, n, f);
    var y, z := m * f + 0.5, n * f + 0.5;
    FloorsKeepOrder(y, z);
    PositiveQuotientsKeepOrder(y.Floor as real, z.Floor as real, f);
  }

  lemma WholesAdd(x: real, y: real)
    requires IsWhole(x) && IsWhole(y)
    ensures IsWhole(x + y)
  {
    assert x + y == (x.Floor + y.Floor) as real;
  }

  lemma Distribute(x: real, y: real, f: real)
    ensures (x + y) * f == x * f + y * f
  {
  }

  lemma DecimalsAdd(x: real, y: real, f: real)
    requires IsDecimal(x, f) && IsDecimal(y, f)
    ensures IsDecimal(x + y, f)
  {
    Distribute(x, y, f);
    WholesAdd(x * f, y * f);
  }

  lemma PositiveQuotientsKeepOrder(a: real, b: real, c: real)
    requires a <= b && c > 0.0
    ensures a / c <= b / c
  {
    assert a / c * c == a && b / c * c == b;
  }
}
