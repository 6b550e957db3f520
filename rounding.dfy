/**
 * Python's built-in `round`, taken on exact real values: `round(x)` gives the
 * nearest integer with ties going to the even neighbour, and `round(x, d)` does
 * the same on the grid of multiples of 10^-d.
 *
 * Scaling by 10^d is written as d multiplications (or divisions) by ten, so that
 * every step the verifier sees is linear arithmetic.
 */
module Rounding {

  /** `round(x)`: the nearest integer; on a tie, the even one. */
  function RoundHalfEven(x: real): (r: int)
    ensures x - 0.5 <= r as real <= x + 0.5
    ensures (r as real - x == 0.5 || x - r as real == 0.5) ==> r % 2 == 0
  {
    var f := x.Floor;
    var d := x - f as real;
    if d < 0.5 then f
    else if d > 0.5 then f + 1
    else if f % 2 == 0 then f else f + 1
  }

  /** The two properties above pin the result down: no other integer has both. */
  lemma RoundHalfEvenUnique(x: real, k: int)
    requires x - 0.5 <= k as real <= x + 0.5
    requires (k as real - x == 0.5 || x - k as real == 0.5) ==> k % 2 == 0
    ensures k == RoundHalfEven(x)
  {
  }

  lemma RoundHalfEvenMonotone(x: real, y: real)
    requires x <= y
    ensures RoundHalfEven(x) <= RoundHalfEven(y)
  {
  }

  lemma RoundHalfEvenOfInt(k: int)
    ensures RoundHalfEven(k as real) == k
  {
    RoundHalfEvenUnique(k as real, k);
  }

  /** x * 10^d */
  function ScaleUp(x: real, d: nat): real
  {
    if d == 0 then x else 10.0 * ScaleUp(x, d - 1)
  }

  /** y / 10^d */
  function ScaleDown(y: real, d: nat): real
    decreases d
  {
    if d == 0 then y else ScaleDown(y / 10.0, d - 1)
  }

  lemma {:induction false} ScaleDownUp(x: real, d: nat)
    ensures ScaleDown(ScaleUp(x, d), d) == x
    decreases d
  {
    if d > 0 {
      assert ScaleUp(x, d) / 10.0 == ScaleUp(x, d - 1);
      ScaleDownUp(x, d - 1);
    }
  }

  lemma {:induction false} ScaleUpDown(y: real, d: nat)
    ensures ScaleUp(ScaleDown(y, d), d) == y
    decreases d
  {
    if d > 0 {
      ScaleUpDown(y / 10.0, d - 1);
    }
  }

  lemma {:induction false} ScaleUpMonotone(x: real, y: real, d: nat)
    requires x <= y
    ensures ScaleUp(x, d) <= ScaleUp(y, d)
    decreases d
  {
    if d > 0 {
      ScaleUpMonotone(x, y, d - 1);
    }
  }

  lemma {:induction false} ScaleDownMonotone(x: real, y: real, d: nat)
    requires x <= y
    ensures ScaleDown(x, d) <= ScaleDown(y, d)
    decreases d
  {
    if d > 0 {
      ScaleDownMonotone(x / 10.0, y / 10.0, d - 1);
    }
  }

  lemma {:induction false} ScaleDownAdditive(x: real, y: real, d: nat)
    ensures ScaleDown(x + y, d) == ScaleDown(x, d) + ScaleDown(y, d)
    decreases d
  {
    if d > 0 {
      assert (x + y) / 10.0 == x / 10.0 + y / 10.0;
      ScaleDownAdditive(x / 10.0, y / 10.0, d - 1);
    }
  }

  lemma {:induction false} ScaleDownNegate(y: real, d: nat)
    ensures ScaleDown(-y, d) == -ScaleDown(y, d)
    decreases d
  {
    if d > 0 {
      assert -y / 10.0 == -(y / 10.0);
      ScaleDownNegate(y / 10.0, d - 1);
    }
  }

  /** `x` is a multiple of 10^-d. */
  predicate OnGrid(x: real, d: nat)
  {
    var y := ScaleUp(x, d);
    y == y.Floor as real
  }

  /** Half a unit in the d-th decimal place. */
  function HalfUnit(d: nat): real
  {
    ScaleDown(0.5, d)
  }

  lemma ScaleDownInjective(a: real, b: real, d: nat)
    requires ScaleDown(a, d) == ScaleDown(b, d)
    ensures a == b
  {
    ScaleUpDown(a, d);
    ScaleUpDown(b, d);
  }

  /** On a tie between two multiples of 10^-d, the rounded scaled value is even. */
  lemma TieGoesToEven(x: real, d: nat, k: int)
    requires k == RoundHalfEven(ScaleUp(x, d))
    ensures ScaleDown(k as real, d) - x == HalfUnit(d) || x - ScaleDown(k as real, d) == HalfUnit(d) ==> k % 2 == 0
  {
    var y := ScaleUp(x, d);
    ScaleDownUp(x, d);
    ScaleDownAdditive(k as real, -y, d);
    ScaleDownNegate(y, d);
    ScaleDownAdditive(y, -(k as real), d);
    ScaleDownNegate(k as real, d);
    if ScaleDown(k as real, d) - x == HalfUnit(d) {
      ScaleDownInjective(k as real - y, 0.5, d);
    }
    if x - ScaleDown(k as real, d) == HalfUnit(d) {
      ScaleDownInjective(y - k as real, 0.5, d);
    }
  }

  /** `round(x, d)`: the multiple of 10^-d nearest to x, ties to the even multiple. */
  function RoundTo(x: real, d: nat): (r: real)
    ensures OnGrid(r, d)
    ensures x - HalfUnit(d) <= r <= x + HalfUnit(d)
    ensures r - x == HalfUnit(d) || x - r == HalfUnit(d) ==> ScaleUp(r, d).Floor % 2 == 0
  {
    var y := ScaleUp(x, d);
    var k := RoundHalfEven(y);
    ScaleUpDown(k as real, d);
    ScaleDownMonotone(y - 0.5, k as real, d);
    ScaleDownMonotone(k as real, y + 0.5, d);
    ScaleDownAdditive(y, 0.5, d);
    ScaleDownAdditive(y, -0.5, d);
    ScaleDownNegate(0.5, d);
    ScaleDownUp(x, d);
    TieGoesToEven(x, d, k);
    ScaleDown(k as real, d)
  }

  lemma RoundToMonotone(x: real, y: real, d: nat)
    requires x <= y
    ensures RoundTo(x, d) <= RoundTo(y, d)
  {
    ScaleUpMonotone(x, y, d);
    RoundHalfEvenMonotone(ScaleUp(x, d), ScaleUp(y, d));
    ScaleDownMonotone(RoundHalfEven(ScaleUp(x, d)) as real, RoundHalfEven(ScaleUp(y, d)) as real, d);
  }

  /** A value already on the grid is left as it is. */
  lemma RoundToOnGrid(x: real, d: nat)
    requires OnGrid(x, d)
    ensures RoundTo(x, d) == x
  {
    RoundHalfEvenOfInt(ScaleUp(x, d).Floor);
    ScaleDownUp(x, d);
  }

  /** Rounding twice to the same number of places is rounding once. */
  lemma RoundToIdempotent(x: real, d: nat)
    ensures RoundTo(RoundTo(x, d), d) == RoundTo(x, d)
  {
    RoundToOnGrid(RoundTo(x, d), d);
  }

  lemma {:induction false} ScaleUpZero(d: nat)
    ensures ScaleUp(0.0, d) == 0.0
  {
    if d > 0 {
      ScaleUpZero(d - 1);
    }
  }

  lemma RoundToZero(d: nat)
    ensures RoundTo(0.0, d) == 0.0
  {
    ScaleUpZero(d);
    RoundToOnGrid(0.0, d);
  }

  lemma RoundToNonNegative(x: real, d: nat)
    requires x >= 0.0
    ensures RoundTo(x, d) >= 0.0
  {
    RoundToZero(d);
    RoundToMonotone(0.0, x, d);
  }
}
