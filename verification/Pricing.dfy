/**
 Limit pricing on the tick grid of Rule 612 of Regulation NMS (17 CFR 242.612):
 one cent at or above $1.00, a hundredth of a cent below (order_pricing.py).
 Prices are exact reals; the precision of decimal contexts is not modelled.
 */
module Pricing {
  import opened Wrappers

  datatype Side = Buy | Sell

  const TICK_DOLLAR: real := 0.01
  const TICK_SUB_DOLLAR: real := 0.0001

  // -------------------------------------------------------------- the tick grid

  function TickFor(price: real): real
    requires price > 0.0
  {
    if price >= 1.0 then TICK_DOLLAR else TICK_SUB_DOLLAR
  }

  /** Ticks per dollar at a price: the reciprocal of the tick. */
  function TicksPerDollar(price: real): real {
    if price >= 1.0 then 100.0 else 10000.0
  }

  function Whole(x: real): bool { x == x.Floor as real }

  predicate OnTickGrid(price: real)
    requires price > 0.0
  {
    Whole(price * TicksPerDollar(price))
  }

  /** Quantized to the grid of `raw` itself, toward zero. */
  function DownToGrid(raw: real): real
    requires raw > 0.0
  {
    (raw * TicksPerDollar(raw)).Floor as real / TicksPerDollar(raw)
  }

  function Ceiling(x: real): int { if Whole(x) then x.Floor else x.Floor + 1 }

  /** Quantized to the grid of `raw` itself, away from zero. */
  function UpToGrid(raw: real): real
    requires raw > 0.0
  {
    Ceiling(raw * TicksPerDollar(raw)) as real / TicksPerDollar(raw)
  }

  lemma FloorBelow(x: real, n: int)
    requires n as real <= x
    ensures n <= x.Floor
  {}

  /** Rounding down stays in the price's own tick zone, loses less than one tick
      and keeps every grid price at or below the raw one. */
  lemma DownToGridIsGreatest(raw: real, grid: real)
    requires raw > 0.0
    ensures raw - TickFor(raw) < DownToGrid(raw) <= raw
    ensures DownToGrid(raw) > 0.0 <==> raw >= TICK_SUB_DOLLAR
    ensures DownToGrid(raw) > 0.0 ==> OnTickGrid(DownToGrid(raw))
    ensures 0.0 < grid <= raw && OnTickGrid(grid) ==> grid <= DownToGrid(raw)
  {
    if raw >= 1.0 {
      FloorBelow(raw * 100.0, 100);
      if 0.0 < grid <= raw && OnTickGrid(grid) {
        if grid >= 1.0 {
          FloorBelow(raw * 100.0, (grid * 100.0).Floor);
        }
      }
    } else {
      if raw >= TICK_SUB_DOLLAR {
        FloorBelow(raw * 10000.0, 1);
      }
      if 0.0 < grid <= raw && OnTickGrid(grid) {
        FloorBelow(raw * 10000.0, (grid * 10000.0).Floor);
      }
    }
  }

  /** Rounding up lands on the grid even when it crosses $1.00, gains less than
      one tick, and equals rounding down exactly on the grid. */
  lemma UpToGridShape(raw: real)
    requires raw > 0.0
    ensures raw <= UpToGrid(raw) < raw + TickFor(raw)
    ensures OnTickGrid(UpToGrid(raw))
    ensures UpToGrid(raw) == DownToGrid(raw) + (if OnTickGrid(raw) then 0.0 else TickFor(raw))
  {
    if raw < 1.0 && UpToGrid(raw) >= 1.0 {
      assert Ceiling(raw * 10000.0) == 10000;
    }
  }

  // ------------------------------------------------------------ rounded ratios

  /** Nearest integer, ties to even. */
  function HalfEven(x: real): int {
    var n := x.Floor;
    var rest := x - n as real;
    if rest < 0.5 then n
    else if rest > 0.5 then n + 1
    else if n % 2 == 0 then n
    else n + 1
  }

  /** ROUND_HALF_EVEN at two decimals. */
  function ToBps(x: real): real { HalfEven(x * 100.0) as real / 100.0 }

  lemma ToBpsWithinHalf(x: real)
    ensures -0.005 <= ToBps(x) - x <= 0.005
  {}

  // --------------------------------------------------------------- open orders

  /** A quote's two touches; None for a side that is missing or not finite. */
  datatype Touches = Touches(bid: Option<real>, ask: Option<real>)

  function Touch(side: Side, quote: Touches): Option<real> {
    var px := if side.Buy? then quote.ask else quote.bid;
    if px.Some? && px.value > 0.0 then px else None
  }

  datatype CapReason = UnpriceableCandidate | InvalidTick | NotMarketable | LatencyLostEdge

  datatype CapResult = CapResult(
    cappedLimit: Option<real>,
    marketable: bool,
    adverseMoveBps: real,
    reasons: set<CapReason>)

  function RawCap(side: Side, touch: real, bps: real): real {
    if side.Buy? then touch * (1.0 + bps / 10000.0) else touch * (1.0 - bps / 10000.0)
  }

  /** How far the touch moved against us from quote A to quote B. */
  function AdverseMoveBps(side: Side, touchA: Option<real>, touchB: Option<real>): real {
    if touchA.Some? && touchB.Some? && touchA.value > 0.0 then
      var moved := if side.Buy? then touchB.value - touchA.value else touchA.value - touchB.value;
      ToBps(moved / touchA.value * 10000.0)
    else 0.0
  }

  predicate LimitValid(strategyLimit: Option<real>) {
    strategyLimit.Some? ==> strategyLimit.value > 0.0 && OnTickGrid(strategyLimit.value)
  }

  function Tighter(side: Side, cap: real, strategyLimit: Option<real>): real {
    if strategyLimit.None? then cap
    else if side.Buy? then (if strategyLimit.value < cap then strategyLimit.value else cap)
    else (if strategyLimit.value > cap then strategyLimit.value else cap)
  }

  /** The open-path cap. None stands for the ExecError of a raw cap that is not
      positive (a sell budget of 10000 bps or more). */
  function MarketableLimitCap(side: Side, quoteA: Touches, quoteB: Touches, bps: real, strategyLimit: Option<real>): Option<CapResult>
  {
    var touchA, touchB := Touch(side, quoteA), Touch(side, quoteB);
    var move := AdverseMoveBps(side, touchA, touchB);
    var limitReasons :=
      if strategyLimit.None? then {}
      else if strategyLimit.value <= 0.0 then {UnpriceableCandidate}
      else if !OnTickGrid(strategyLimit.value) then {InvalidTick}
      else {};
    var quoteReasons := if touchB.None? then {UnpriceableCandidate} else {};
    var moveReasons := if move > bps then {LatencyLostEdge} else {};
    var reasons := limitReasons + quoteReasons + (if touchB.Some? && touchA.Some? then moveReasons else {});
    if touchB.None? || !LimitValid(strategyLimit) then
      Some(CapResult(None, false, move, reasons))
    else
      var raw := RawCap(side, touchB.value, bps);
      if raw <= 0.0 then None
      else
        var cap := if side.Buy? then DownToGrid(raw) else UpToGrid(raw);
        var capped := Tighter(side, cap, strategyLimit);
        var marketable := if side.Buy? then capped >= touchB.value else capped <= touchB.value;
        Some(CapResult(Some(capped), marketable, move,
                       reasons + (if marketable then {} else {NotMarketable})))
  }

  /** The buy limit: on the grid, within the budget and within the strategy limit. */
  lemma BuyLimitWithinBudget(quoteA: Touches, quoteB: Touches, bps: real, strategyLimit: Option<real>)
    requires bps > 0.0 && LimitValid(strategyLimit)
    requires quoteB.ask.Some? && quoteB.ask.value >= TICK_SUB_DOLLAR
    ensures var r := MarketableLimitCap(Buy, quoteA, quoteB, bps, strategyLimit);
            && r.Some? && r.value.cappedLimit.Some?
            && var limit := r.value.cappedLimit.value;
               && limit > 0.0 && OnTickGrid(limit)
               && limit <= RawCap(Buy, quoteB.ask.value, bps)
               && (strategyLimit.Some? ==> limit <= strategyLimit.value)
  {
    var ask := quoteB.ask.value;
    BudgetIsPositive(ask, bps);
    DownToGridIsGreatest(RawCap(Buy, ask, bps), ask);
  }

  lemma BudgetIsPositive(touch: real, bps: real)
    requires touch > 0.0 && bps > 0.0
    ensures RawCap(Buy, touch, bps) > touch
  {
    assert touch * (bps / 10000.0) > 0.0;
    assert RawCap(Buy, touch, bps) == touch + touch * (bps / 10000.0);
  }

  /** Rounding up finds the lowest grid price at or above. */
  lemma UpToGridIsLeast(raw: real, grid: real)
    requires 0.0 < raw <= grid && OnTickGrid(grid)
    ensures UpToGrid(raw) <= grid
  {
    if raw >= 1.0 {
      CeilingBelow(raw * 100.0, (grid * 100.0).Floor);
    } else if grid >= 1.0 {
      CeilingBelow(raw * 10000.0, 10000);
    } else {
      CeilingBelow(raw * 10000.0, (grid * 10000.0).Floor);
    }
  }

  lemma CeilingBelow(x: real, n: int)
    requires x <= n as real
    ensures Ceiling(x) <= n
  {}

  /** A buy is marketable exactly when the strategy limit reaches the ask and some grid
      price lies between the ask and the budget: for every usable ask, on the grid or
      off it, and for every budget. */
  lemma BuyMarketableIff(quoteA: Touches, quoteB: Touches, bps: real, strategyLimit: Option<real>)
    requires LimitValid(strategyLimit) && Touch(Buy, quoteB).Some?
    ensures var ask := quoteB.ask.value;
            var raw := RawCap(Buy, ask, bps);
            var r := MarketableLimitCap(Buy, quoteA, quoteB, bps, strategyLimit);
            && (r.Some? <==> raw > 0.0)
            && (r.Some? ==>
                  (r.value.marketable <==>
                     UpToGrid(ask) <= raw && (strategyLimit.Some? ==> strategyLimit.value >= ask)))
  {
    var ask := quoteB.ask.value;
    var raw := RawCap(Buy, ask, bps);
    UpToGridShape(ask);
    if raw > 0.0 {
      DownToGridIsGreatest(raw, UpToGrid(ask));
      if DownToGrid(raw) >= ask {
        UpToGridIsLeast(ask, DownToGrid(raw));
      }
    }
  }

  /** With no strategy limit an on-grid ask always leaves a marketable limit, across the
      tick change at $1.00 too. */
  lemma OnGridAskIsMarketable(quoteA: Touches, quoteB: Touches, bps: real)
    requires bps > 0.0 && Touch(Buy, quoteB).Some? && OnTickGrid(quoteB.ask.value)
    ensures var r := MarketableLimitCap(Buy, quoteA, quoteB, bps, None);
            r.Some? && r.value.marketable
  {
    BudgetIsPositive(quoteB.ask.value, bps);
    BuyMarketableIff(quoteA, quoteB, bps, None);
    UpToGridShape(quoteB.ask.value);
    DownToGridIsGreatest(quoteB.ask.value, quoteB.ask.value);
  }

  /** The mirror for sells: rounded up, never below the budget nor the strategy limit. */
  lemma SellLimitWithinBudget(quoteA: Touches, quoteB: Touches, bps: real, strategyLimit: Option<real>)
    requires LimitValid(strategyLimit)
    requires Touch(Sell, quoteB).Some?
    ensures var r := MarketableLimitCap(Sell, quoteA, quoteB, bps, strategyLimit);
            var raw := RawCap(Sell, quoteB.bid.value, bps);
            && (r.Some? <==> raw > 0.0)
            && (r.Some? ==>
                  && r.value.cappedLimit.Some?
                  && r.value.cappedLimit.value >= raw && OnTickGrid(r.value.cappedLimit.value)
                  && (strategyLimit.Some? ==> r.value.cappedLimit.value >= strategyLimit.value))
  {
    var raw := RawCap(Sell, quoteB.bid.value, bps);
    if raw > 0.0 {
      UpToGridShape(raw);
    }
  }

  /** Without a lost edge the submitted limit is bounded against the quote the
      strategy decided on, not only against the later one. */
  lemma NoLostEdgeBoundsDecisionQuote(quoteA: Touches, quoteB: Touches, bps: real, strategyLimit: Option<real>)
    requires bps > 0.0 && LimitValid(strategyLimit)
    requires Touch(Buy, quoteA).Some? && Touch(Buy, quoteB).Some?
    requires quoteB.ask.value >= TICK_SUB_DOLLAR
    requires MarketableLimitCap(Buy, quoteA, quoteB, bps, strategyLimit).Some?
    requires LatencyLostEdge !in MarketableLimitCap(Buy, quoteA, quoteB, bps, strategyLimit).value.reasons
    ensures MarketableLimitCap(Buy, quoteA, quoteB, bps, strategyLimit).value.cappedLimit.Some?
    ensures MarketableLimitCap(Buy, quoteA, quoteB, bps, strategyLimit).value.cappedLimit.value
            <= RawCap(Buy, RawCap(Buy, quoteA.ask.value, bps + 0.005), bps)
  {
    var a, b := quoteA.ask.value, quoteB.ask.value;
    BuyLimitWithinBudget(quoteA, quoteB, bps, strategyLimit);
    assert AdverseMoveBps(Buy, Touch(Buy, quoteA), Touch(Buy, quoteB)) <= bps;
    SmallMoveCap(a, b, bps);
  }

  lemma SmallMoveCap(a: real, b: real, bps: real)
    requires a > 0.0 && bps > 0.0
    requires ToBps((b - a) / a * 10000.0) <= bps
    ensures RawCap(Buy, b, bps) <= RawCap(Buy, RawCap(Buy, a, bps + 0.005), bps)
  {
    SmallMove(a, b, bps);
    ScaleUp(b, RawCap(Buy, a, bps + 0.005), 1.0 + bps / 10000.0);
  }

  lemma SmallMove(a: real, b: real, bps: real)
    requires a > 0.0
    requires ToBps((b - a) / a * 10000.0) <= bps
    ensures b <= RawCap(Buy, a, bps + 0.005)
  {
    var ratio := (b - a) / a;
    ToBpsWithinHalf(ratio * 10000.0);
    assert ratio <= (bps + 0.005) / 10000.0;
    ScaleUp(ratio, (bps + 0.005) / 10000.0, a);
    assert ratio * a == b - a;
  }

  lemma ScaleUp(x: real, y: real, factor: real)
    requires x <= y && factor > 0.0
    ensures x * factor <= y * factor
  {}

  // ------------------------------------------------------------- reduce orders

  /** The reduce-path cap rounds away from the touch; None defers the order. */
  function ReduceCap(side: Side, quote: Touches, bps: real): Option<real> {
    var touch := Touch(side, quote);
    if touch.None? then None
    else
      AwayFromTouch(side, RawCap(side, touch.value, bps))
  }

  function AwayFromTouch(side: Side, raw: real): Option<real> {
    if raw <= 0.0 then None
    else
      var capped := if side.Sell? then DownToGrid(raw) else UpToGrid(raw);
      if capped <= 0.0 then None else Some(capped)
  }

  lemma AwayFromTouchSell(raw: real)
    ensures AwayFromTouch(Sell, raw).Some? <==> raw >= TICK_SUB_DOLLAR
    ensures AwayFromTouch(Sell, raw).Some? ==>
              var cap := AwayFromTouch(Sell, raw).value;
              && cap > 0.0 && OnTickGrid(cap) && raw - TickFor(raw) < cap <= raw
              && UpToGrid(raw) - cap == (if OnTickGrid(raw) then 0.0 else TickFor(raw))
  {
    if raw > 0.0 {
      DownToGridIsGreatest(raw, 1.0);
      UpToGridShape(raw);
    }
  }

  /** On the same quote the reduce-path sell cap is the open-path one, or one tick
      below it: the same exactly when the budget lands on the grid. */
  lemma ReduceSellCapBelowOpenSellCap(quoteA: Touches, quote: Touches, bps: real)
    requires ReduceCap(Sell, quote, bps).Some?
    ensures var open := MarketableLimitCap(Sell, quoteA, quote, bps, None);
            var raw := RawCap(Sell, quote.bid.value, bps);
            && raw > 0.0 && open.Some? && open.value.cappedLimit.Some?
            && open.value.cappedLimit.value - ReduceCap(Sell, quote, bps).value
               == (if OnTickGrid(raw) then 0.0 else TickFor(raw))
  {
    AwayFromTouchSell(RawCap(Sell, quote.bid.value, bps));
  }

  /** A reduce is deferred exactly when the touch is unusable or its budget is
      below the smallest tick; otherwise it is on the grid, at most one tick past
      the budget and never on the near side of it. */
  lemma ReduceSellCapIff(quote: Touches, bps: real)
    ensures ReduceCap(Sell, quote, bps).Some?
            <==> Touch(Sell, quote).Some? && RawCap(Sell, quote.bid.value, bps) >= TICK_SUB_DOLLAR
    ensures ReduceCap(Sell, quote, bps).Some? ==>
              var raw, cap := RawCap(Sell, quote.bid.value, bps), ReduceCap(Sell, quote, bps).value;
              cap > 0.0 && OnTickGrid(cap) && raw - TickFor(raw) < cap <= raw
  {
    if Touch(Sell, quote).Some? {
      AwayFromTouchSell(RawCap(Sell, quote.bid.value, bps));
    }
  }

  // --------------------------------------------------- what the caps come to, exactly

  ghost predicate WholeNumber(x: real, n: int) { x == n as real }

  /** On the grid: a whole number of cents from a dollar up, of hundredths of a cent
      below; the tick is the distance to the next. */
  lemma GridMeaning(p: real)
    requires p > 0.0
    ensures var x := if p >= 1.0 then p * 100.0 else p * 10000.0; OnTickGrid(p) <==> exists n :: WholeNumber(x, n)
    ensures TickFor(p) == if p >= 1.0 then 0.01 else 0.0001
  {
    var x := if p >= 1.0 then p * 100.0 else p * 10000.0;
    if n :| WholeNumber(x, n) {
      assert x.Floor == n;
    }
    if OnTickGrid(p) {
      assert WholeNumber(x, x.Floor);
    }
  }

  /** The budget, in basis points: above the touch for a buy, below it for a sell. */
  lemma BudgetMeaning(side: Side, touch: real, bps: real, p: real)
    ensures side.Buy? ==> (p <= RawCap(side, touch, bps) <==> p * 10000.0 <= touch * (10000.0 + bps))
    ensures side.Sell? ==> (p <= RawCap(side, touch, bps) <==> p * 10000.0 <= touch * (10000.0 - bps))
    ensures side.Buy? ==> (p >= RawCap(side, touch, bps) <==> p * 10000.0 >= touch * (10000.0 + bps))
    ensures side.Sell? ==> (p >= RawCap(side, touch, bps) <==> p * 10000.0 >= touch * (10000.0 - bps))
  {
    var raw := RawCap(side, touch, bps);
    if side.Buy? {
      assert raw * 10000.0 == touch * (10000.0 + bps) by { Scaled(touch, 1.0 + bps / 10000.0, 10000.0 + bps); }
    } else {
      assert raw * 10000.0 == touch * (10000.0 - bps) by { Scaled(touch, 1.0 - bps / 10000.0, 10000.0 - bps); }
    }
  }

  lemma Scaled(touch: real, factor: real, scaled: real)
    requires factor * 10000.0 == scaled
    ensures touch * factor * 10000.0 == touch * scaled
  {}

  /** The open cap of a buy is the highest grid price within the budget above the ask and
      the strategy limit; of a sell, the lowest within the budget below the bid. */
  lemma OpenCapIff(side: Side, quoteA: Touches, quoteB: Touches, bps: real, strategyLimit: Option<real>, p: real)
    requires p > 0.0 && OnTickGrid(p)
    requires strategyLimit.Some? ==> strategyLimit.value > 0.0 && OnTickGrid(strategyLimit.value)
    requires MarketableLimitCap(side, quoteA, quoteB, bps, strategyLimit).Some?
    requires match side
             case Buy => quoteB.ask.Some? && quoteB.ask.value > 0.0
             case Sell => quoteB.bid.Some? && quoteB.bid.value > 0.0
    ensures var r := MarketableLimitCap(side, quoteA, quoteB, bps, strategyLimit).value;
            && r.cappedLimit.Some?
            && match side
               case Buy =>
                 p <= r.cappedLimit.value <==>
                   p <= RawCap(Buy, quoteB.ask.value, bps) && (strategyLimit.Some? ==> p <= strategyLimit.value)
               case Sell =>
                 p >= r.cappedLimit.value <==>
                   p >= RawCap(Sell, quoteB.bid.value, bps) && (strategyLimit.Some? ==> p >= strategyLimit.value)
  {
    var touch := if side.Buy? then quoteB.ask.value else quoteB.bid.value;
    OpenCapFrom(side, RawCap(side, touch, bps), strategyLimit, p);
  }

  lemma OpenCapFrom(side: Side, raw: real, strategyLimit: Option<real>, p: real)
    requires raw > 0.0 && p > 0.0 && OnTickGrid(p)
    ensures var capped := Tighter(side, if side.Buy? then DownToGrid(raw) else UpToGrid(raw), strategyLimit);
            match side
            case Buy => p <= capped <==> p <= raw && (strategyLimit.Some? ==> p <= strategyLimit.value)
            case Sell => p >= capped <==> p >= raw && (strategyLimit.Some? ==> p >= strategyLimit.value)
  {
    DownToGridIsGreatest(raw, p);
    UpToGridShape(raw);
    if raw <= p {
      UpToGridIsLeast(raw, p);
    }
  }

  /** The reduce caps round the other way: a sell's is the highest grid price within the
      budget below the bid, a buy's the lowest at or above the budget. */
  lemma ReduceCapIff(side: Side, quote: Touches, bps: real, p: real)
    requires ReduceCap(side, quote, bps).Some? && p > 0.0 && OnTickGrid(p)
    ensures match side
            case Buy =>
              && quote.ask.Some? && quote.ask.value > 0.0
              && (p >= ReduceCap(side, quote, bps).value <==> p >= RawCap(Buy, quote.ask.value, bps))
            case Sell =>
              && quote.bid.Some? && quote.bid.value > 0.0
              && (p <= ReduceCap(side, quote, bps).value <==> p <= RawCap(Sell, quote.bid.value, bps))
  {
    var touch := if side.Buy? then quote.ask.value else quote.bid.value;
    ReduceCapFrom(side, RawCap(side, touch, bps), p);
  }

  lemma ReduceCapFrom(side: Side, raw: real, p: real)
    requires AwayFromTouch(side, raw).Some? && p > 0.0 && OnTickGrid(p)
    ensures match side
            case Buy => p >= AwayFromTouch(side, raw).value <==> p >= raw
            case Sell => p <= AwayFromTouch(side, raw).value <==> p <= raw
  {
    DownToGridIsGreatest(raw, p);
    UpToGridShape(raw);
    if raw <= p {
      UpToGridIsLeast(raw, p);
    }
  }

  /** A buy is deferred only for want of an ask or of a positive budget. */
  lemma ReduceBuyCapIff(quote: Touches, bps: real)
    ensures ReduceCap(Buy, quote, bps).Some? <==>
              quote.ask.Some? && quote.ask.value > 0.0 && quote.ask.value * (10000.0 + bps) > 0.0
  {
    if quote.ask.Some? && quote.ask.value > 0.0 {
      var raw := RawCap(Buy, quote.ask.value, bps);
      assert ReduceCap(Buy, quote, bps) == AwayFromTouch(Buy, raw);
      BuyBudgetRoundsUp(raw);
      PositiveBudget(quote.ask.value, bps);
    }
  }

  lemma PositiveBudget(touch: real, bps: real)
    ensures RawCap(Buy, touch, bps) > 0.0 <==> touch * (10000.0 + bps) > 0.0
  {
    BudgetMeaning(Buy, touch, bps, 0.0);
  }

  lemma BuyBudgetRoundsUp(raw: real)
    ensures AwayFromTouch(Buy, raw).Some? <==> raw > 0.0
  {
    if raw > 0.0 {
      UpToGridShape(raw);
    }
  }

  /** The whole number of hundredths nearest to `x`, of two the even one. */
  ghost predicate NearestHundredth(q: real, x: real) {
    var n := (q * 100.0).Floor;
    && q * 100.0 == n as real
    && -0.5 <= x * 100.0 - n as real <= 0.5
    && (x * 100.0 - n as real == 0.5 || x * 100.0 - n as real == -0.5 ==> n % 2 == 0)
  }

  lemma HalfEvenUnique(y: real, n: int)
    ensures n == HalfEven(y) <==>
              -0.5 <= y - n as real <= 0.5 && (y - n as real == 0.5 || y - n as real == -0.5 ==> n % 2 == 0)
  {}

  lemma Hundredths(q: real, n: int)
    ensures q == n as real / 100.0 <==> q * 100.0 == n as real
  {}

  lemma ToBpsIff(x: real, q: real)
    ensures q == ToBps(x) <==> NearestHundredth(q, x)
  {
    HalfEvenUnique(x * 100.0, (q * 100.0).Floor);
    Hundredths(q, HalfEven(x * 100.0));
  }

  /** How far the market went against the order since the decision, in basis points. */
  ghost function AgainstUs(side: Side, before: real, after: real): real
    requires before > 0.0
  {
    match side
    case Buy => (after - before) / before * 10000.0
    case Sell => (before - after) / before * 10000.0
  }

  ghost predicate UsableTouch(side: Side, quote: Touches, px: real) {
    px > 0.0 && match side case Buy => quote.ask == Some(px) case Sell => quote.bid == Some(px)
  }

  /** A limit at which the order meets the touch. */
  ghost predicate Reaches(side: Side, limit: real, touch: real) {
    match side
    case Buy => limit >= touch
    case Sell => limit <= touch
  }

  lemma UsableTouchIff(side: Side, quote: Touches, px: real)
    ensures UsableTouch(side, quote, px) <==> Touch(side, quote) == Some(px)
  {}

  /** The open cap is missing exactly without a usable touch or with an unusable strategy
      limit, marketable exactly if it reaches the touch, and every reason is recorded
      exactly when it is one. */
  lemma OpenCapReasonsIff(side: Side, quoteA: Touches, quoteB: Touches, bps: real, strategyLimit: Option<real>)
    requires MarketableLimitCap(side, quoteA, quoteB, bps, strategyLimit).Some?
    ensures var r := MarketableLimitCap(side, quoteA, quoteB, bps, strategyLimit).value;
            && (r.cappedLimit.None? <==>
                  || !(exists px :: UsableTouch(side, quoteB, px))
                  || (strategyLimit.Some? && (strategyLimit.value <= 0.0 || !OnTickGrid(strategyLimit.value))))
            && (r.marketable <==>
                  r.cappedLimit.Some?
                  && (exists px :: UsableTouch(side, quoteB, px) && Reaches(side, r.cappedLimit.value, px)))
            && (UnpriceableCandidate in r.reasons <==>
                  !(exists px :: UsableTouch(side, quoteB, px)) || (strategyLimit.Some? && strategyLimit.value <= 0.0))
            && (InvalidTick in r.reasons <==>
                  strategyLimit.Some? && strategyLimit.value > 0.0 && !OnTickGrid(strategyLimit.value))
            && (NotMarketable in r.reasons <==> r.cappedLimit.Some? && !r.marketable)
  {
    var touch := Touch(side, quoteB);
    if touch.Some? {
      UsableTouchIff(side, quoteB, touch.value);
    }
    forall px ensures UsableTouch(side, quoteB, px) <==> touch == Some(px) {
      UsableTouchIff(side, quoteB, px);
    }
  }

  /** The edge is lost exactly if the touch moved against the order by more than the
      budget, to the nearest hundredth of a basis point. */
  lemma LostEdgeIff(side: Side, quoteA: Touches, quoteB: Touches, bps: real, strategyLimit: Option<real>, a: real, b: real)
    requires MarketableLimitCap(side, quoteA, quoteB, bps, strategyLimit).Some?
    requires UsableTouch(side, quoteA, a) && UsableTouch(side, quoteB, b)
    ensures var r := MarketableLimitCap(side, quoteA, quoteB, bps, strategyLimit).value;
            && NearestHundredth(r.adverseMoveBps, AgainstUs(side, a, b))
            && (LatencyLostEdge in r.reasons <==> r.adverseMoveBps > bps)
  {
    UsableTouchIff(side, quoteA, a);
    UsableTouchIff(side, quoteB, b);
    ToBpsIff(AgainstUs(side, a, b), ToBps(AgainstUs(side, a, b)));
  }

  /** And without both touches there is no move to speak of. */
  lemma NoMoveWithoutTouches(side: Side, quoteA: Touches, quoteB: Touches, bps: real, strategyLimit: Option<real>)
    requires MarketableLimitCap(side, quoteA, quoteB, bps, strategyLimit).Some?
    requires forall a, b :: !(UsableTouch(side, quoteA, a) && UsableTouch(side, quoteB, b))
    ensures var r := MarketableLimitCap(side, quoteA, quoteB, bps, strategyLimit).value;
            r.adverseMoveBps == 0.0 && LatencyLostEdge !in r.reasons
  {
    var a, b := Touch(side, quoteA), Touch(side, quoteB);
    if a.Some? && b.Some? {
      UsableTouchIff(side, quoteA, a.value);
      UsableTouchIff(side, quoteB, b.value);
    }
  }
}
