/** Decimal rounding as the trading code performs it, over exact reals.

    Python's `round` breaks ties to the even neighbour; `Decimal.quantize` with
    ROUND_HALF_UP breaks them away from zero, which for the positive prices it is
    used on means upwards. */
module Rounding {

  function Abs(x: real): real { if x < 0.0 then -x else x }

  function Min(x: real, y: real): real { if x <= y then x else y }

  function Max(x: real, y: real): real { if x >= y then x else y }

  /** A product of two unknowns, named so that equal factors give equal terms. */
  function Times(x: real, y: real): real { x * y }

  /** A quotient of two unknowns, for the same reason. */
  function Over(n: real, d: real): real
    requires d != 0.0
  {
    n / d
  }

  lemma OverTimes(n: real, d: real)
    requires d != 0.0
    ensures Times(Over(n, d), d) == n
  {
    assert n / d * d == n;
  }

  lemma QuotientUnique(x: real, n: real, d: real)
    requires d != 0.0 && Times(x, d) == n
    ensures Over(n, d) == x
  {
    assert n / d * d == n;
    assert (n / d - x) * d == 0.0;
  }

  lemma Distribute(x: real, y: real, k: real)
    ensures Times(x + y, k) == Times(x, k) + Times(y, k)
    ensures Times(x - y, k) == Times(x, k) - Times(y, k)
  {
  }

  lemma TimesMonotone(x: real, y: real, k: real)
    requires x <= y && k >= 0.0
    ensures Times(x, k) <= Times(y, k)
    ensures x < y && k > 0.0 ==> Times(x, k) < Times(y, k)
  {
  }

  /** int(x) */
  function Trunc(x: real): real { if x >= 0.0 then x.Floor as real else -((-x).Floor as real) }

  /** Nearest integer, ties to even. */
  function HalfEven(x: real): (r: int)
    ensures x - 0.5 <= r as real <= x + 0.5
  {
    var f := (x + 0.5).Floor;
    if x + 0.5 == f as real && f % 2 != 0 then f - 1 else f
  }

  /** Nearest integer, ties upwards. */
  function HalfUp(x: real): (r: int)
    ensures x - 0.5 < r as real <= x + 0.5
  {
    (x + 0.5).Floor
  }

  /** The nearest integer, and of two equally near the even one. */
  lemma HalfEvenIff(x: real, k: int)
    ensures HalfEven(x) == k <==> Abs(x - k as real) < 0.5 || (Abs(x - k as real) == 0.5 && k % 2 == 0)
  {
    var f := (x + 0.5).Floor;
    assert f as real <= x + 0.5 < f as real + 1.0;
    if Abs(x - k as real) < 0.5 { assert f == k; }
    if Abs(x - k as real) == 0.5 { assert k == f || k == f - 1; }
  }

  /** The nearest integer, and of two equally near the higher one. */
  lemma HalfUpIff(x: real, k: int)
    ensures HalfUp(x) == k <==> k as real - 0.5 <= x < k as real + 0.5
  {
  }

  lemma HalfEvenMonotone(x: real, y: real)
    requires x <= y
    ensures HalfEven(x) <= HalfEven(y)
  {
  }

  lemma HalfUpMonotone(x: real, y: real)
    requires x <= y
    ensures HalfUp(x) <= HalfUp(y)
  {
  }

  lemma HalfEvenOfInt(k: int)
    ensures HalfEven(k as real) == k
  {
  }

  lemma HalfUpOfInt(k: int)
    ensures HalfUp(k as real) == k
  {
  }

  /** round(x, 2) */
  function Round2(x: real): real { HalfEven(x * 100.0) as real / 100.0 }

  /** round(x, 4) */
  function Round4(x: real): real { HalfEven(x * 10000.0) as real / 10000.0 }

  /** round(x, 6): the micro-share grid */
  function Round6(x: real): real { HalfEven(x * 1000000.0) as real / 1000000.0 }

  predicate OnGrid2(x: real) { Round2(x) == x }

  predicate OnGrid4(x: real) { Round4(x) == x }

  /** x is a whole number of micro-shares */
  predicate OnGrid6(x: real) { (x * 1000000.0).Floor as real == x * 1000000.0 }

  lemma Round6Slack(x: real)
    ensures Abs(Round6(x) - x) <= 0.0000005
  {
  }

  lemma Round6OnGrid(x: real)
    ensures OnGrid6(Round6(x))
  {
    var k := HalfEven(x * 1000000.0);
    assert Round6(x) * 1000000.0 == k as real;
    assert (k as real).Floor == k;
  }

  lemma Round6OfGrid(x: real)
    requires OnGrid6(x)
    ensures Round6(x) == x
  {
    HalfEvenOfInt((x * 1000000.0).Floor);
  }

  lemma Round6Monotone(x: real, y: real)
    requires x <= y
    ensures Round6(x) <= Round6(y)
  {
    HalfEvenMonotone(x * 1000000.0, y * 1000000.0);
  }

  lemma WholeMicroShares(x: real, k: int)
    requires x * 1000000.0 == k as real
    ensures OnGrid6(x)
  {
    assert (k as real).Floor == k;
  }

  lemma Grid6Closed(x: real, y: real)
    requires OnGrid6(x) && OnGrid6(y)
    ensures OnGrid6(x + y) && OnGrid6(x - y)
  {
    var a, b := (x * 1000000.0).Floor, (y * 1000000.0).Floor;
    WholeMicroShares(x + y, a + b);
    WholeMicroShares(x - y, a - b);
  }

  /** Grid points are at least a micro-share apart. */
  lemma Grid6Gap(x: real, y: real)
    requires OnGrid6(x) && OnGrid6(y) && x < y + 0.000001
    ensures x <= y
  {
    var a, b := (x * 1000000.0).Floor, (y * 1000000.0).Floor;
    assert x * 1000000.0 == a as real && y * 1000000.0 == b as real;
    assert a < b + 1;
  }

  lemma Round2Facts(x: real)
    ensures Abs(Round2(x) - x) <= 0.005
    ensures OnGrid2(Round2(x))
  {
    HalfEvenOfInt(HalfEven(x * 100.0));
    assert Round2(x) * 100.0 == HalfEven(x * 100.0) as real;
  }

  lemma Round2Monotone(x: real, y: real)
    requires x <= y
    ensures Round2(x) <= Round2(y)
  {
    HalfEvenMonotone(x * 100.0, y * 100.0);
  }

  lemma Grid2Closed(x: real, y: real)
    requires OnGrid2(x) && OnGrid2(y)
    ensures OnGrid2(x + y) && OnGrid2(x - y)
  {
    var a, b := HalfEven(x * 100.0), HalfEven(y * 100.0);
    assert x == a as real / 100.0 && y == b as real / 100.0;
    assert (x + y) * 100.0 == (a + b) as real;
    assert (x - y) * 100.0 == (a - b) as real;
    HalfEvenOfInt(a + b);
    HalfEvenOfInt(a - b);
  }

  lemma Round4Facts(x: real)
    ensures Abs(Round4(x) - x) <= 0.00005
  {
  }
}
