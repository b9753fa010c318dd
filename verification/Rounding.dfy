/** Rounding as the services do it: `Math.round(x)` is the floor of x + 1/2. */
module Rounding {

  function Round(x: real): int {
    (x + 0.5).Floor
  }

  /** To the nearest half rupee. */
  function ToHalf(x: real): real {
    Round(x * 2.0) as real / 2.0
  }

  /** To two decimals. */
  function ToCents(x: real): real {
    Round(x * 100.0) as real / 100.0
  }

  predicate OnHalfGrid(x: real) {
    x * 2.0 == (x * 2.0).Floor as real
  }

  function Ceil(x: real): int {
    -((-x).Floor)
  }

  lemma RoundNear(x: real)
    ensures Round(x) as real - 0.5 <= x < Round(x) as real + 0.5
  {
  }

  lemma RoundMonotone(x: real, y: real)
    requires x <= y
    ensures Round(x) <= Round(y)
  {
  }

  lemma ToHalfNear(x: real)
    ensures -0.25 <= ToHalf(x) - x <= 0.25 && OnHalfGrid(ToHalf(x))
  {
    RoundNear(x * 2.0);
    assert ToHalf(x) * 2.0 == Round(x * 2.0) as real;
  }

  lemma ToHalfMonotone(x: real, y: real)
    requires x <= y
    ensures ToHalf(x) <= ToHalf(y)
  {
    RoundMonotone(x * 2.0, y * 2.0);
  }

  lemma RoundAtLeast(n: int, x: real)
    requires n as real <= x
    ensures n <= Round(x)
  {
  }

  /** Rounding never crosses a grid point. */
  lemma ToHalfAboveGrid(g: real, x: real)
    requires OnHalfGrid(g) && g <= x
    ensures g <= ToHalf(x)
  {
    var n := (g * 2.0).Floor;
    RoundAtLeast(n, x * 2.0);
    var k := Round(x * 2.0);
    assert n as real <= k as real;
    assert g == n as real / 2.0;
  }

  lemma MulMonotone(a: real, x: real, y: real)
    requires a >= 0.0 && x <= y
    ensures a * x <= a * y
  {
    assert a * (y - x) >= 0.0;
  }

  lemma MulWithin(a: real, x: real, e: real)
    requires a >= 0.0 && -e <= x <= e
    ensures -(a * e) <= a * x <= a * e
  {
    MulMonotone(a, x, e);
    MulMonotone(a, -e, x);
    assert a * (-e) == -(a * e);
  }
}
