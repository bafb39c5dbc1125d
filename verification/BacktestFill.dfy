/**
 Simulated fills of the backtest (src/backtest/fill.ts, src/backtest/fee.ts). Fractions are
 numerators over 10^9, as the original makes them before any arithmetic.
 */
module BacktestFill {
  import opened Money
  import opened Orders

  const FRACTION_SCALE: int := 1_000_000_000

  // The open moved against the order by slippage and half the spread, before the tick.
  function RawPrice(open: Money, side: Side, slippage: int, halfSpread: int): Money {
    var factor := if side == Buy then FRACTION_SCALE + slippage + halfSpread
                  else FRACTION_SCALE - slippage - halfSpread;
    MulFraction(open, factor, FRACTION_SCALE)
  }

  function FillPrice(open: Money, side: Side, slippage: int, halfSpread: int, tick: Money): Money
    requires tick > 0
  {
    var raw := RawPrice(open, side, slippage, halfSpread);
    if side == Buy then CeilToIncrement(raw, tick) else FloorToIncrement(raw, tick)
  }

  function FeeOn(notional: Money, rate: int): Money {
    MulFraction(notional, rate, FRACTION_SCALE)
  }

  // No fill is better than the open: a purchase pays at least the open and a sale receives at
  // most the open, on the tick grid, and within one tick of the moved price.
  lemma FillIsAdverse(open: Money, slippage: int, halfSpread: int, tick: Money)
    requires open >= 0 && slippage >= 0 && halfSpread >= 0 && tick > 0
    ensures FillPrice(open, Sell, slippage, halfSpread, tick) <= open
    ensures open <= FillPrice(open, Buy, slippage, halfSpread, tick)
    ensures IsMultipleOf(FillPrice(open, Buy, slippage, halfSpread, tick), tick)
    ensures IsMultipleOf(FillPrice(open, Sell, slippage, halfSpread, tick), tick)
    ensures FillPrice(open, Buy, slippage, halfSpread, tick) - tick < RawPrice(open, Buy, slippage, halfSpread)
              <= FillPrice(open, Buy, slippage, halfSpread, tick)
    ensures RawPrice(open, Sell, slippage, halfSpread) >= 0 ==>
              FillPrice(open, Sell, slippage, halfSpread, tick) <= RawPrice(open, Sell, slippage, halfSpread)
                < FillPrice(open, Sell, slippage, halfSpread, tick) + tick
  {
    var bought, sold := RawPrice(open, Buy, slippage, halfSpread), RawPrice(open, Sell, slippage, halfSpread);
    MulFractionOfWhole(open, FRACTION_SCALE);
    MulFractionMonotone(open, FRACTION_SCALE, FRACTION_SCALE + slippage + halfSpread, FRACTION_SCALE);
    MulFractionMonotone(open, FRACTION_SCALE - slippage - halfSpread, FRACTION_SCALE, FRACTION_SCALE);
    TickRounding(bought, tick);
    TickRounding(sold, tick);
    TickRoundingSigned(bought, tick);
    TickRoundingSigned(sold, tick);
    hide CeilToIncrement, FloorToIncrement, IsMultipleOf, MulFraction;
  }

  // A purchase pays the least price on the grid that covers the moved price.
  lemma PurchasePaysLeastTick(open: Money, slippage: int, halfSpread: int, tick: Money, k: int)
    requires open >= 0 && slippage >= 0 && halfSpread >= 0 && tick > 0
    requires RawPrice(open, Buy, slippage, halfSpread) <= k * tick
    ensures FillPrice(open, Buy, slippage, halfSpread, tick) <= k * tick
  {
    var raw := RawPrice(open, Buy, slippage, halfSpread);
    FillIsAdverse(open, slippage, halfSpread, tick);
    var q := raw / tick;
    Split(raw, tick);
    MulLe(k, q, tick);
    MulLe(q, k, tick);
    MulStep(q, tick);
    hide MulFraction;
  }

  // The fee of a sale stays within its proceeds for every amount exactly when the rate is at
  // most one; the configuration check only demands that it is not negative.
  lemma FeeWithinNotional(notional: Money, rate: int)
    requires notional >= 0 && 0 <= rate <= FRACTION_SCALE
    ensures 0 <= FeeOn(notional, rate) <= notional
  {
    MulFractionOfWhole(notional, FRACTION_SCALE);
    MulFractionMonotone(notional, 0, rate, FRACTION_SCALE);
    MulFractionMonotone(notional, rate, FRACTION_SCALE, FRACTION_SCALE);
  }

  lemma FeeAboveNotional(rate: int)
    requires rate > FRACTION_SCALE
    ensures FeeOn(FRACTION_SCALE, rate) > FRACTION_SCALE
  {
    MulFractionIsFloor(FRACTION_SCALE, rate, FRACTION_SCALE);
    FloorUnique(FRACTION_SCALE * rate, FRACTION_SCALE, MulFraction(FRACTION_SCALE, rate, FRACTION_SCALE), rate);
  }
}
