/** Quantizing to millionths, half to even, as the decimal contexts of the agent do. */
module Rounding {
  const MILLION: real := 1000000.0

  predicate OnGrid(x: real) { (x * MILLION).Floor as real == x * MILLION }

  /** The nearest whole number, ties to the even one. */
  function Nearest(y: real): int {
    var n := y.Floor;
    if y - n as real > 0.5 || (y - n as real == 0.5 && n % 2 == 1) then n + 1 else n
  }

  function Quantize(x: real): real { Nearest(x * MILLION) as real / MILLION }

  /** `q` is the value in whole millionths that is nearest to `x`, of two the even one. */
  ghost predicate NearestMillionth(q: real, x: real) {
    var n := (q * MILLION).Floor;
    && q * MILLION == n as real
    && -0.5 <= x * MILLION - n as real <= 0.5
    && (x * MILLION - n as real == 0.5 || x * MILLION - n as real == -0.5 ==> n % 2 == 0)
  }

  lemma NearestUnique(y: real, n: int)
    ensures n == Nearest(y) <==>
              -0.5 <= y - n as real <= 0.5 && (y - n as real == 0.5 || y - n as real == -0.5 ==> n % 2 == 0)
  {}

  lemma Millionths(q: real, n: int)
    ensures q == n as real / MILLION <==> q * MILLION == n as real
  {}

  lemma QuantizeIff(x: real, q: real)
    ensures q == Quantize(x) <==> NearestMillionth(q, x)
  {
    NearestUnique(x * MILLION, (q * MILLION).Floor);
    Millionths(q, Nearest(x * MILLION));
  }

  lemma QuantizeKeepsIff(x: real)
    ensures Quantize(x) == x <==> OnGrid(x)
  {
    var y := x * MILLION;
    assert Quantize(x) == x ==> y == y.Floor as real || y == (y.Floor + 1) as real;
    assert (y.Floor as real) / MILLION == x <==> y.Floor as real == y;
  }

  /** Against a value on the grid, quantizing never crosses over. */
  lemma QuantizeComparesWithGrid(x: real, grid: real)
    requires OnGrid(grid)
    ensures x >= grid ==> Quantize(x) >= grid
    ensures Quantize(x) > grid ==> x > grid
  {
    var y, g := x * MILLION, (grid * MILLION).Floor;
    assert g as real == grid * MILLION;
    if x >= grid {
      assert y >= g as real;
      assert Nearest(y) >= g;
    }
    if Quantize(x) > grid {
      assert Quantize(x) * MILLION == Nearest(y) as real;
      assert Nearest(y) as real > g as real;
    }
  }
}
