/**
 * The fallback cost estimate: a per-1k-token linear price, rounded to six
 * decimal places as Python's `round(cost, 6)` does.
 */
module Pricing {
  import opened Rounding

  /** Default dollar prices per 1000 input and output tokens, used when the environment sets none. */
  const DefaultPriceInputPer1k: real := 0.01
  const DefaultPriceOutputPer1k: real := 0.03

  /** Decimal places the estimate is rounded to. */
  const CostPlaces: nat := 6

  /** The unrounded price: tokens / 1000 times the per-1k price, for input and output. */
  function RawCost(inputTokens: int, outputTokens: int, priceIn: real, priceOut: real): (r: real)
    ensures inputTokens >= 0 && outputTokens >= 0 && priceIn >= 0.0 && priceOut >= 0.0 ==> r >= 0.0
    ensures inputTokens == 0 && outputTokens == 0 ==> r == 0.0
  {
    (inputTokens as real / 1000.0) * priceIn + (outputTokens as real / 1000.0) * priceOut
  }

  /** `estimate_cost`: the raw price rounded to the nearest millionth of a dollar. */
  function EstimateCost(inputTokens: int, outputTokens: int, priceIn: real, priceOut: real): (r: real)
    ensures OnGrid(r, CostPlaces)
    ensures RawCost(inputTokens, outputTokens, priceIn, priceOut) - HalfUnit(CostPlaces) <= r
    ensures r <= RawCost(inputTokens, outputTokens, priceIn, priceOut) + HalfUnit(CostPlaces)
  {
    RoundTo(RawCost(inputTokens, outputTokens, priceIn, priceOut), CostPlaces)
  }

  lemma EstimateCostOfNothing(priceIn: real, priceOut: real)
    ensures EstimateCost(0, 0, priceIn, priceOut) == 0.0
  {
    RoundToZero(CostPlaces);
  }

  lemma MultiplyMonotone(a: real, b: real, p: real)
    requires a <= b && p >= 0.0
    ensures a * p <= b * p
  {
  }

  lemma EstimateCostMonotoneInInput(in1: int, in2: int, outputTokens: int, priceIn: real, priceOut: real)
    requires in1 <= in2 && priceIn >= 0.0
    ensures EstimateCost(in1, outputTokens, priceIn, priceOut) <= EstimateCost(in2, outputTokens, priceIn, priceOut)
  {
    MultiplyMonotone(in1 as real / 1000.0, in2 as real / 1000.0, priceIn);
    RoundToMonotone(RawCost(in1, outputTokens, priceIn, priceOut), RawCost(in2, outputTokens, priceIn, priceOut), CostPlaces);
  }

  lemma EstimateCostMonotoneInOutput(inputTokens: int, out1: int, out2: int, priceIn: real, priceOut: real)
    requires out1 <= out2 && priceOut >= 0.0
    ensures EstimateCost(inputTokens, out1, priceIn, priceOut) <= EstimateCost(inputTokens, out2, priceIn, priceOut)
  {
    MultiplyMonotone(out1 as real / 1000.0, out2 as real / 1000.0, priceOut);
    RoundToMonotone(RawCost(inputTokens, out1, priceIn, priceOut), RawCost(inputTokens, out2, priceIn, priceOut), CostPlaces);
  }

  lemma EstimateCostNonNegative(inputTokens: int, outputTokens: int, priceIn: real, priceOut: real)
    requires inputTokens >= 0 && outputTokens >= 0 && priceIn >= 0.0 && priceOut >= 0.0
    ensures EstimateCost(inputTokens, outputTokens, priceIn, priceOut) >= 0.0
  {
    RoundToNonNegative(RawCost(inputTokens, outputTokens, priceIn, priceOut), CostPlaces);
  }

  /** The estimate is already rounded: rounding it again to six places changes nothing. */
  lemma EstimateCostStable(inputTokens: int, outputTokens: int, priceIn: real, priceOut: real)
    ensures RoundTo(EstimateCost(inputTokens, outputTokens, priceIn, priceOut), CostPlaces)
         == EstimateCost(inputTokens, outputTokens, priceIn, priceOut)
  {
    RoundToIdempotent(RawCost(inputTokens, outputTokens, priceIn, priceOut), CostPlaces);
  }

  lemma {:induction false} ScaleUpSix(x: real)
    ensures ScaleUp(x, 6) == 1000000.0 * x
  {
    assert ScaleUp(x, 1) == 10.0 * x;
    assert ScaleUp(x, 2) == 100.0 * x;
    assert ScaleUp(x, 3) == 1000.0 * x;
    assert ScaleUp(x, 4) == 10000.0 * x;
    assert ScaleUp(x, 5) == 100000.0 * x;
  }

  /**
   * With the default prices every token count costs a whole number of millionths,
   * so rounding changes nothing and the estimate is exactly linear.
   */
  lemma EstimateCostDefaultPricesExact(inputTokens: int, outputTokens: int)
    ensures EstimateCost(inputTokens, outputTokens, DefaultPriceInputPer1k, DefaultPriceOutputPer1k)
         == inputTokens as real * 0.00001 + outputTokens as real * 0.00003
  {
    var raw := RawCost(inputTokens, outputTokens, DefaultPriceInputPer1k, DefaultPriceOutputPer1k);
    assert raw == inputTokens as real * 0.00001 + outputTokens as real * 0.00003;
    ScaleUpSix(raw);
    assert ScaleUp(raw, 6) == (10 * inputTokens + 30 * outputTokens) as real;
    RoundToOnGrid(raw, CostPlaces);
  }
}
