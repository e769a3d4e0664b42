/**
 The caps the agent prices its orders with (order_pricing.py) and the fills it models
 against them (execution_realism.py): every such cap is a tick price, so quantizing
 the recorded cap changes nothing, and re-integration is exact without a condition.
 */
module CappedFill {
  import opened Wrappers
  import Pricing
  import Rounding
  import opened ModeledFill

  lemma WholeIsFine(price: real, n: int)
    requires price * Rounding.MILLION == n as real
    ensures Rounding.OnGrid(price)
  {
    assert (n as real).Floor == n;
  }

  /** A tick price is a whole number of millionths. */
  lemma TickPriceIsFine(price: real)
    requires price > 0.0 && Pricing.OnTickGrid(price)
    ensures Rounding.OnGrid(price)
  {
    var ticks := Pricing.TicksPerDollar(price);
    var n := (price * ticks).Floor;
    if price >= 1.0 {
      calc {
        price * Rounding.MILLION;
        price * 100.0 * 10000.0;
        n as real * 10000.0;
        (n * 10000) as real;
      }
      WholeIsFine(price, n * 10000);
    } else {
      calc {
        price * Rounding.MILLION;
        price * 10000.0 * 100.0;
        n as real * 100.0;
        (n * 100) as real;
      }
      WholeIsFine(price, n * 100);
    }
  }

  /** What the open path returns is a tick price, or nothing an order could be sent at. */
  lemma OpenCapIsTickPrice(side: Pricing.Side, quoteA: Pricing.Touches, quoteB: Pricing.Touches, bps: real,
                           strategyLimit: Option<real>)
    ensures var r := Pricing.MarketableLimitCap(side, quoteA, quoteB, bps, strategyLimit);
            r.Some? && r.value.cappedLimit.Some? && r.value.cappedLimit.value > 0.0 ==>
              Pricing.OnTickGrid(r.value.cappedLimit.value)
  {
    var touch := Pricing.Touch(side, quoteB);
    if touch.Some? && Pricing.RawCap(side, touch.value, bps) > 0.0 {
      Pricing.DownToGridIsGreatest(Pricing.RawCap(side, touch.value, bps), 1.0);
      Pricing.UpToGridShape(Pricing.RawCap(side, touch.value, bps));
    }
  }

  lemma ReduceCapIsTickPrice(side: Pricing.Side, quote: Pricing.Touches, bps: real)
    ensures var r := Pricing.ReduceCap(side, quote, bps);
            r.Some? ==> r.value > 0.0 && Pricing.OnTickGrid(r.value)
  {
    var touch := Pricing.Touch(side, quote);
    if touch.Some? && Pricing.RawCap(side, touch.value, bps) > 0.0 {
      Pricing.DownToGridIsGreatest(Pricing.RawCap(side, touch.value, bps), 1.0);
      Pricing.UpToGridShape(Pricing.RawCap(side, touch.value, bps));
    }
  }

  /** A cap that the agent's own pricing returned, on either path. */
  ghost predicate Priced(cap: real) {
    || (exists side, a, b, bps, strategyLimit :: PricedOpen(cap, side, a, b, bps, strategyLimit))
    || (exists side, quote, bps :: Pricing.ReduceCap(side, quote, bps) == Some(cap))
  }

  ghost predicate PricedOpen(cap: real, side: Pricing.Side, a: Pricing.Touches, b: Pricing.Touches, bps: real,
                             strategyLimit: Option<real>)
  {
    var r := Pricing.MarketableLimitCap(side, a, b, bps, strategyLimit);
    r.Some? && r.value.cappedLimit == Some(cap)
  }

  lemma PricedIsFine(cap: real)
    requires Priced(cap) && cap > 0.0
    ensures Rounding.OnGrid(cap)
  {
    if side, quote, bps :| Pricing.ReduceCap(side, quote, bps) == Some(cap) {
      ReduceCapIsTickPrice(side, quote, bps);
    } else {
      var side, a, b, bps, strategyLimit :| PricedOpen(cap, side, a, b, bps, strategyLimit);
      OpenCapIsTickPrice(side, a, b, bps, strategyLimit);
    }
    TickPriceIsFine(cap);
  }

  /** For every cap the agent prices an order with: whatever part of the order is
      filled, its recorded fill charges exactly what the model would have charged for an
      order of that size; and a full fill reproduces the modeled cost. */
  lemma PricedFillReintegrates(side: Side, qty: real, cap: real, q: Quote, depth: Option<Depth>, nowMs: int, filled: real)
    requires 0.0 < filled <= qty && Priced(cap)
    requires var r := ModelOf(side, qty, cap, q, depth, nowMs); r.Success? && r.value.Fillable?
    ensures var r, n := ModelOf(side, qty, cap, q, depth, nowMs), ModelOf(side, filled, cap, q, depth, nowMs);
            && n.Success? && n.value.Fillable? && Reintegrate(r.value, filled) == n.value.cost
            && Reintegrate(r.value, qty) == r.value.cost
  {
    PricedIsFine(cap);
    ReintegrationIsTheModel(side, qty, cap, q, depth, nowMs, filled);
    ReintegrationIsTheModel(side, qty, cap, q, depth, nowMs, qty);
  }
}
