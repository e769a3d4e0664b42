/**
 What an order should have cost by the book it was sent against, and what of it was
 filled should have cost (execution_realism.model_fill and assess_divergence).
 Prices and sizes are exact reals.
 */
module ModeledFill {
  import opened Wrappers
  import opened Rounding

  datatype Side = Buy | Sell

  /** A displayed price level, or the part of one that a walk consumed. */
  datatype Level = Level(px: real, sz: real)

  predicate AtOrInside(side: Side, px: real, cap: real) { if side.Buy? then px <= cap else px >= cap }

  /** Best price first: asks upwards, bids downwards; a level may show no size. */
  ghost predicate BestFirst(side: Side, ladder: seq<Level>) {
    && (forall i :: 0 <= i < |ladder| ==> ladder[i].px > 0.0 && ladder[i].sz >= 0.0)
    && (forall i, j :: 0 <= i < j < |ladder| ==>
          if side.Buy? then ladder[i].px <= ladder[j].px else ladder[i].px >= ladder[j].px)
  }

  function Min(a: real, b: real): real { if b < a then b else a }

  // ------------------------------------------------------------------- the walk

  function Pay(shares: real, px: real): real { shares * px }

  datatype Walked = Walked(consumed: seq<Level>, cost: real, remaining: real)

  function Consume(w: Walked, side: Side, cap: real, level: Level): Walked {
    var take := Min(w.remaining, level.sz);
    if w.remaining <= 0.0 || !AtOrInside(side, level.px, cap) || take <= 0.0 then w
    else Walked(w.consumed + [Level(level.px, take)], w.cost + Pay(take, level.px), w.remaining - take)
  }

  /** Takes up to `qty` displayed shares at or inside the cap, best price first. */
  function Walk(side: Side, ladder: seq<Level>, cap: real, qty: real): Walked {
    if ladder == [] then Walked([], 0.0, qty)
    else Consume(Walk(side, ladder[..|ladder| - 1], cap, qty), side, cap, ladder[|ladder| - 1])
  }

  /** What is charged for a whole order: the displayed shares at their prices, the
      remainder at the cap. */
  function DepthCost(side: Side, ladder: seq<Level>, cap: real, qty: real): real {
    var w := Walk(side, ladder, cap, qty);
    w.cost + Pay(w.remaining, cap)
  }

  function TouchCost(touch: real, touchSz: real, cap: real, qty: real): real {
    Pay(Min(qty, touchSz), touch) + Pay(qty - Min(qty, touchSz), cap)
  }

  // ------------------------------------------------------------------ the model

  const DEPTH_FRESHNESS_TTL_MS: int := 2000

  datatype Depth = Depth(instrument: string, bids: seq<Level>, asks: seq<Level>, seenAtMs: int, epoch: int)

  /** As a depth snapshot is when it was constructed. */
  ghost predicate ValidDepth(d: Depth) { BestFirst(Buy, d.asks) && BestFirst(Sell, d.bids) }

  /** A quote with its verdict; a side may be absent or unusable. */
  datatype Quote = Quote(
    instrument: string, ok: bool, bid: Option<real>, ask: Option<real>, bidSz: Option<real>, askSz: Option<real>, epoch: int)

  datatype Model = TouchModel | DepthModel

  datatype Reason = DepthStale | DepthEpochMismatch | NoLiquidityAtCap

  datatype Modeled =
    | Unfillable(requested: real, unfillableReasons: set<Reason>)
    | Fillable(model: Model, requested: real, fillable: real, worst: real, touch: real, levels: seq<Level>,
               cost: real, reasons: set<Reason>)

  datatype Error = BadQuantity | BadCap | DepthIdentityMismatch | BadBrokerCost | BadFilled | Overfilled

  predicate Usable(x: Option<real>) { x.Some? && x.value > 0.0 }

  function Ladder(side: Side, d: Depth): seq<Level> { if side.Buy? then d.asks else d.bids }

  function TouchOf(side: Side, q: Quote): Option<real> { if side.Buy? then q.ask else q.bid }

  function TouchSizeOf(side: Side, q: Quote): Option<real> { if side.Buy? then q.askSz else q.bidSz }

  /** Why a depth snapshot may not be used with a quote; it is used when there is no reason. */
  function DepthReasons(d: Depth, q: Quote, nowMs: int): set<Reason> {
    (if d.epoch != q.epoch then {DepthEpochMismatch} else {})
    + (if nowMs - d.seenAtMs > DEPTH_FRESHNESS_TTL_MS then {DepthStale} else {})
  }

  function FromDepth(side: Side, ladder: seq<Level>, cap: real, qty: real, touch: real): Modeled {
    var w := Walk(side, ladder, cap, qty);
    if qty - w.remaining == 0.0 then Unfillable(qty, {NoLiquidityAtCap})
    else
      Fillable(DepthModel, qty, qty - w.remaining,
               Quantize(if w.remaining > 0.0 || w.consumed == [] then cap else w.consumed[|w.consumed| - 1].px),
               touch, w.consumed, DepthCost(side, ladder, cap, qty), {})
  }

  function FromTouch(side: Side, touch: real, touchSz: real, cap: real, qty: real, reasons: set<Reason>): Modeled {
    if !AtOrInside(side, touch, cap) then Unfillable(qty, reasons + {NoLiquidityAtCap})
    else
      Fillable(TouchModel, qty, Min(qty, touchSz), Quantize(if qty - Min(qty, touchSz) > 0.0 then cap else touch),
               touch, [], TouchCost(touch, touchSz, cap, qty), reasons)
  }

  function ModelOf(side: Side, qty: real, cap: real, q: Quote, depth: Option<Depth>, nowMs: int): Result<Modeled, Error> {
    if qty <= 0.0 then Failure(BadQuantity)
    else if cap <= 0.0 then Failure(BadCap)
    else if depth.Some? && depth.value.instrument != q.instrument then Failure(DepthIdentityMismatch)
    else
      var reasons := if depth.Some? then DepthReasons(depth.value, q, nowMs) else {};
      var touch, size := TouchOf(side, q), TouchSizeOf(side, q);
      if !q.ok || !Usable(touch) || !Usable(size) then Success(Unfillable(qty, reasons))
      else if depth.Some? && reasons == {} then
        Success(FromDepth(side, Ladder(side, depth.value), cap, qty, touch.value))
      else Success(FromTouch(side, touch.value, size.value, cap, qty, reasons))
  }

  // --------------------------------------------------------------- re-integration

  /** The first `filled` shares of the levels a walk consumed: cost and shares left over. */
  function Integrate(levels: seq<Level>, filled: real): (real, real) {
    if levels == [] then (0.0, filled)
    else
      var (cost, remaining) := Integrate(levels[..|levels| - 1], filled);
      var level := levels[|levels| - 1];
      if remaining <= 0.0 then (cost, remaining)
      else
        var take := Min(remaining, level.sz);
        (cost + Pay(take, level.px), remaining - take)
  }

  /** What the model charges for the `filled` shares of a recorded fill. */
  function Reintegrate(m: Modeled, filled: real): real
    requires m.Fillable?
  {
    if m.model.TouchModel? then
      var part := Min(filled, m.fillable);
      Pay(part, m.touch) + (if filled - part > 0.0 then Pay(filled - part, m.worst) else 0.0)
    else
      var (cost, remaining) := Integrate(m.levels, filled);
      cost + (if remaining > 0.0 then Pay(remaining, m.worst) else 0.0)
  }

  lemma {:induction false} WalkFacts(side: Side, ladder: seq<Level>, cap: real, qty: real)
    requires qty >= 0.0
    ensures var w := Walk(side, ladder, cap, qty);
            && 0.0 <= w.remaining <= qty
            && (forall i :: 0 <= i < |w.consumed| ==> w.consumed[i].sz > 0.0)
            && (w.remaining < qty <==> w.consumed != [])
  {
    if ladder != [] {
      WalkFacts(side, ladder[..|ladder| - 1], cap, qty);
    }
  }

  /** The recorded prefix of a walk for q shares serves every smaller order as the
      ladder itself would have. */
  lemma {:induction false} PrefixServes(side: Side, ladder: seq<Level>, cap: real, qty: real, filled: real)
    requires 0.0 <= filled <= qty
    ensures var w, v := Walk(side, ladder, cap, qty), Walk(side, ladder, cap, filled);
            && Integrate(w.consumed, filled) == (v.cost, v.remaining)
            && v.remaining <= w.remaining
  {
    if ladder != [] {
      var front, level := ladder[..|ladder| - 1], ladder[|ladder| - 1];
      PrefixServes(side, front, cap, qty, filled);
      WalkFacts(side, front, cap, qty);
      WalkFacts(side, front, cap, filled);
      ServeOneMore(Walk(side, front, cap, qty), Walk(side, front, cap, filled), side, cap, level, filled);
    }
  }

  lemma ServeOneMore(w: Walked, v: Walked, side: Side, cap: real, level: Level, filled: real)
    requires Integrate(w.consumed, filled) == (v.cost, v.remaining)
    requires 0.0 <= v.remaining <= w.remaining
    ensures var w', v' := Consume(w, side, cap, level), Consume(v, side, cap, level);
            Integrate(w'.consumed, filled) == (v'.cost, v'.remaining) && v'.remaining <= w'.remaining
  {
    var w', v' := Consume(w, side, cap, level), Consume(v, side, cap, level);
    var take := Min(w.remaining, level.sz);
    if w' != w {
      var consumed := w.consumed + [Level(level.px, take)];
      assert consumed[..|consumed| - 1] == w.consumed;
      if v.remaining > 0.0 {
        assert Min(v.remaining, take) == Min(v.remaining, level.sz);
        assert Integrate(consumed, filled) == (v.cost + Pay(Min(v.remaining, take), level.px), v.remaining - Min(v.remaining, take));
      } else {
        assert Integrate(consumed, filled) == (v.cost, v.remaining);
      }
    } else {
      assert v' == v;
    }
  }

  lemma PayIff(shares: real, a: real, b: real)
    requires shares > 0.0
    ensures Pay(shares, a) == Pay(shares, b) <==> a == b
  {
    assert Pay(shares, a) / shares == a && Pay(shares, b) / shares == b;
  }

  lemma PayNothing(px: real)
    ensures Pay(0.0, px) == 0.0
  {}

  /** Depth model: re-integrating over any part of the order charges what the model
      would have charged for an order of that size, exactly when no share is left for
      the cap or the cap is on the mid grid that it was recorded on. */
  lemma DepthReintegrates(side: Side, ladder: seq<Level>, cap: real, qty: real, touch: real, filled: real)
    requires 0.0 < filled <= qty
    ensures var m, n := FromDepth(side, ladder, cap, qty, touch), FromDepth(side, ladder, cap, filled, touch);
            && (m.Fillable? <==> n.Fillable?)
            && (m.Fillable? ==>
                  (Reintegrate(m, filled) == n.cost <==> n.fillable == filled || OnGrid(cap)))
  {
    WalkFacts(side, ladder, cap, qty);
    WalkFacts(side, ladder, cap, filled);
    PrefixServes(side, ladder, cap, qty, filled);
    QuantizeKeepsIff(cap);
    var w, v := Walk(side, ladder, cap, qty), Walk(side, ladder, cap, filled);
    assert Integrate([], filled) == (0.0, filled);
    SomethingForBoth(side, ladder, cap, qty, filled);
    if v.remaining > 0.0 {
      PayIff(v.remaining, Quantize(cap), cap);
    } else {
      PayNothing(cap);
    }
  }

  lemma {:induction false} SomethingForBoth(side: Side, ladder: seq<Level>, cap: real, qty: real, filled: real)
    requires 0.0 < filled <= qty
    ensures Walk(side, ladder, cap, qty).remaining < qty <==> Walk(side, ladder, cap, filled).remaining < filled
  {
    if ladder != [] {
      var front := ladder[..|ladder| - 1];
      SomethingForBoth(side, front, cap, qty, filled);
      WalkFacts(side, front, cap, qty);
      WalkFacts(side, front, cap, filled);
    }
  }

  lemma TouchReintegrates(side: Side, touch: real, touchSz: real, cap: real, qty: real, reasons: set<Reason>, filled: real)
    requires 0.0 < filled <= qty && touchSz > 0.0
    ensures var m := FromTouch(side, touch, touchSz, cap, qty, reasons);
            var n := FromTouch(side, touch, touchSz, cap, filled, reasons);
            && (m.Fillable? <==> n.Fillable?)
            && (m.Fillable? ==>
                  (Reintegrate(m, filled) == n.cost <==> n.fillable == filled || OnGrid(cap)))
  {
    var part := Min(filled, touchSz);
    assert Min(filled, Min(qty, touchSz)) == part;
    QuantizeKeepsIff(cap);
    if filled - part > 0.0 {
      PayIff(filled - part, Quantize(cap), cap);
    } else {
      PayNothing(cap);
    }
  }

  /** A recorded fill serves every part of its order: whatever the broker fills of it,
      it is charged what the model would have charged, at that moment and by the same
      quote and book, for an order of just that size. */
  lemma ReintegrationIsTheModel(side: Side, qty: real, cap: real, q: Quote, depth: Option<Depth>, nowMs: int, filled: real)
    requires 0.0 < filled <= qty
    ensures var r, n := ModelOf(side, qty, cap, q, depth, nowMs), ModelOf(side, filled, cap, q, depth, nowMs);
            && (r.Success? <==> n.Success?)
            && (r.Success? ==> (r.value.Fillable? <==> n.value.Fillable?))
            && (r.Success? && r.value.Fillable? ==>
                  && r.value.requested == qty && n.value.requested == filled
                  && (Reintegrate(r.value, filled) == n.value.cost <==> n.value.fillable == filled || OnGrid(cap)))
  {
    var touch, size := TouchOf(side, q), TouchSizeOf(side, q);
    if Usable(touch) && Usable(size) {
      if depth.Some? {
        DepthReintegrates(side, Ladder(side, depth.value), cap, qty, touch.value, filled);
        TouchReintegrates(side, touch.value, size.value, cap, qty, DepthReasons(depth.value, q, nowMs), filled);
      } else {
        TouchReintegrates(side, touch.value, size.value, cap, qty, {}, filled);
      }
    }
  }

  // ------------------------------------------------------------------ optimality

  /** What a share bought below the cap, or sold above it, is worth against the cap. */
  function Edge(side: Side, px: real, cap: real): real { if side.Buy? then cap - px else px - cap }

  function Gain(side: Side, levels: seq<Level>, cap: real): real {
    if levels == [] then 0.0
    else
      var level := levels[|levels| - 1];
      Gain(side, levels[..|levels| - 1], cap) + Pay(level.sz, Edge(side, level.px, cap))
  }

  function Shares(levels: seq<Level>): real {
    if levels == [] then 0.0 else Shares(levels[..|levels| - 1]) + levels[|levels| - 1].sz
  }

  /** Any way of taking displayed shares for an order: at each level no more than is
      shown, altogether no more than is wanted. */
  ghost predicate Allocation(ladder: seq<Level>, taken: seq<Level>, qty: real) {
    && |taken| == |ladder| && Shares(taken) <= qty
    && forall i :: 0 <= i < |ladder| ==> taken[i].px == ladder[i].px && 0.0 <= taken[i].sz <= ladder[i].sz
  }

  function LevelsCost(levels: seq<Level>): real {
    if levels == [] then 0.0 else LevelsCost(levels[..|levels| - 1]) + Pay(levels[|levels| - 1].sz, levels[|levels| - 1].px)
  }

  /** Paid for a buy, or received for a sell, with the remainder at the cap. */
  function AllocationCost(taken: seq<Level>, cap: real, qty: real): real {
    LevelsCost(taken) + Pay(qty - Shares(taken), cap)
  }

  lemma {:induction false} CostByGain(side: Side, levels: seq<Level>, cap: real, qty: real)
    ensures AllocationCost(levels, cap, qty)
            == if side.Buy? then Pay(qty, cap) - Gain(side, levels, cap) else Pay(qty, cap) + Gain(side, levels, cap)
  {
    if levels != [] {
      var front, level := levels[..|levels| - 1], levels[|levels| - 1];
      CostByGain(side, front, cap, qty);
      assert Pay(level.sz, cap - level.px) == Pay(level.sz, cap) - Pay(level.sz, level.px);
      assert Pay(level.sz, level.px - cap) == Pay(level.sz, level.px) - Pay(level.sz, cap);
      assert Pay(qty - Shares(levels), cap) == Pay(qty - Shares(front), cap) - Pay(level.sz, cap);
    }
  }

  lemma {:induction false} WalkTotals(side: Side, ladder: seq<Level>, cap: real, qty: real)
    ensures var w := Walk(side, ladder, cap, qty);
            LevelsCost(w.consumed) == w.cost && Shares(w.consumed) == qty - w.remaining
  {
    if ladder != [] {
      var front, level := ladder[..|ladder| - 1], ladder[|ladder| - 1];
      WalkTotals(side, front, cap, qty);
      var w, w' := Walk(side, front, cap, qty), Walk(side, ladder, cap, qty);
      if w' != w {
        assert w'.consumed[..|w.consumed|] == w.consumed;
      }
    }
  }

  function GainOf(side: Side, ladder: seq<Level>, cap: real, qty: real): real {
    Gain(side, Walk(side, ladder, cap, qty).consumed, cap)
  }

  lemma GainSnoc(w: Walked, side: Side, cap: real, level: Level)
    ensures var w' := Consume(w, side, cap, level);
            Gain(side, w'.consumed, cap)
            == Gain(side, w.consumed, cap)
               + (if w' == w then 0.0 else Pay(Min(w.remaining, level.sz), Edge(side, level.px, cap)))
  {
    var w' := Consume(w, side, cap, level);
    if w' != w {
      assert w'.consumed[..|w.consumed|] == w.consumed;
    }
  }

  lemma PayNonNegative(a: real, x: real)
    requires a >= 0.0 && x >= 0.0
    ensures Pay(a, x) >= 0.0
  {}

  /** d more shares at an edge of at least x gain at least d times x. */
  lemma PayMore(a: real, b: real, x: real, y: real)
    requires 0.0 <= a <= b && 0.0 <= x <= y
    ensures Pay(b, y) - Pay(a, y) >= Pay(b - a, x) >= 0.0
  {
    assert Pay(b, y) - Pay(a, y) == Pay(b - a, x) + Pay(b - a, y - x);
    PayNonNegative(b - a, y - x);
    PayNonNegative(b - a, x);
  }

  lemma PaySum(a: real, b: real, x: real)
    ensures Pay(a + b, x) == Pay(a, x) + Pay(b, x)
  {}

  /** One level more for both walks. */
  lemma LevelGains(w: Walked, v: Walked, side: Side, cap: real, level: Level, x: real, extra: real) returns (more: real)
    requires 0.0 <= v.remaining <= w.remaining && level.sz >= 0.0 && extra >= 0.0 && x >= 0.0
    requires Edge(side, level.px, cap) >= 0.0 ==> Edge(side, level.px, cap) >= x
    requires Gain(side, w.consumed, cap) - Gain(side, v.consumed, cap) >= Pay(extra, x)
    ensures var w', v' := Consume(w, side, cap, level), Consume(v, side, cap, level);
            && more == extra + (w.remaining - w'.remaining) - (v.remaining - v'.remaining) >= 0.0
            && v'.remaining <= w'.remaining
            && Gain(side, w'.consumed, cap) - Gain(side, v'.consumed, cap) >= Pay(more, x)
  {
    if Edge(side, level.px, cap) < 0.0 {
      OutsideGain(w, side, cap, level);
      OutsideGain(v, side, cap, level);
      more := extra;
    } else {
      LevelGain(w, side, cap, level);
      LevelGain(v, side, cap, level);
      var a, b := Min(v.remaining, level.sz), Min(w.remaining, level.sz);
      PayMore(a, b, x, Edge(side, level.px, cap));
      PaySum(extra, b - a, x);
      more := extra + (b - a);
    }
  }

  lemma FrontEdges(side: Side, ladder: seq<Level>, cap: real, x: real)
    requires ladder != []
    requires forall i :: 0 <= i < |ladder| ==> ladder[i].sz >= 0.0
    requires forall i :: 0 <= i < |ladder| && Edge(side, ladder[i].px, cap) >= 0.0 ==> Edge(side, ladder[i].px, cap) >= x
    ensures var front, level := ladder[..|ladder| - 1], ladder[|ladder| - 1];
            && (forall i :: 0 <= i < |front| ==> front[i].sz >= 0.0) && level.sz >= 0.0
            && (forall i :: 0 <= i < |front| && Edge(side, front[i].px, cap) >= 0.0 ==> Edge(side, front[i].px, cap) >= x)
            && (Edge(side, level.px, cap) >= 0.0 ==> Edge(side, level.px, cap) >= x)
  {}

  /** More shares wanted is more gain: at least `x` for each share more that is taken,
      for any edge x that no consumable level falls below. */
  lemma {:induction false} MoreGains(side: Side, ladder: seq<Level>, cap: real, less: real, more: real, x: real)
    returns (extra: real)
    requires 0.0 <= less <= more && x >= 0.0
    requires forall i :: 0 <= i < |ladder| ==> ladder[i].sz >= 0.0
    requires forall i :: 0 <= i < |ladder| && Edge(side, ladder[i].px, cap) >= 0.0 ==> Edge(side, ladder[i].px, cap) >= x
    ensures var w, v := Walk(side, ladder, cap, more), Walk(side, ladder, cap, less);
            && extra == (more - less) - (w.remaining - v.remaining) >= 0.0 && 0.0 <= v.remaining <= w.remaining
    ensures GainOf(side, ladder, cap, more) - GainOf(side, ladder, cap, less) >= Pay(extra, x)
  {
    if ladder == [] {
      PayNothing(x);
      extra := 0.0;
    } else {
      var front, level := ladder[..|ladder| - 1], ladder[|ladder| - 1];
      FrontEdges(side, ladder, cap, x);
      extra := MoreGains(side, front, cap, less, more, x);
      WalkFacts(side, ladder, cap, less);
      extra := LevelGains(Walk(side, front, cap, more), Walk(side, front, cap, less), side, cap, level, x, extra);
    }
  }

  lemma LevelGain(w: Walked, side: Side, cap: real, level: Level)
    requires w.remaining >= 0.0 && level.sz >= 0.0 && Edge(side, level.px, cap) >= 0.0
    ensures var w' := Consume(w, side, cap, level);
            && w'.remaining == w.remaining - Min(w.remaining, level.sz)
            && Gain(side, w'.consumed, cap)
               == Gain(side, w.consumed, cap) + Pay(Min(w.remaining, level.sz), Edge(side, level.px, cap))
  {
    GainSnoc(w, side, cap, level);
    PayNothing(Edge(side, level.px, cap));
  }

  lemma OutsideGain(w: Walked, side: Side, cap: real, level: Level)
    requires Edge(side, level.px, cap) < 0.0
    ensures Consume(w, side, cap, level) == w
  {}

  lemma {:induction false} ShareBounds(ladder: seq<Level>, taken: seq<Level>)
    requires |taken| == |ladder|
    requires forall i :: 0 <= i < |ladder| ==> 0.0 <= taken[i].sz <= ladder[i].sz
    ensures Shares(taken) >= 0.0
  {
    if ladder != [] {
      ShareBounds(ladder[..|ladder| - 1], taken[..|ladder| - 1]);
    }
  }

  lemma EnoughShares(extra: real, last: real, a: real, x: real)
    requires extra + last >= a && x >= 0.0
    ensures Pay(extra, x) + Pay(last, x) >= Pay(a, x)
  {
    PaySum(extra, last, x);
    PaySum(a, extra + last - a, x);
    PayNonNegative(extra + last - a, x);
  }

  lemma LossyShares(a: real, x: real)
    requires a >= 0.0 && x <= 0.0
    ensures Pay(a, x) <= 0.0
  {
    PayNonNegative(a, -x);
    assert Pay(a, -x) == -Pay(a, x);
  }

  function NotBelowZero(x: real): real { if x < 0.0 then 0.0 else x }

  /** One level more: giving it `a` shares and the walk `a` fewer gains no more than
      walking on. */
  lemma WalkingOn(w: Walked, v: Walked, side: Side, cap: real, level: Level, a: real, extra: real)
    requires 0.0 <= v.remaining <= w.remaining && 0.0 <= a <= level.sz
    requires extra == a - w.remaining + v.remaining >= 0.0
    requires Gain(side, w.consumed, cap) - Gain(side, v.consumed, cap)
             >= Pay(extra, NotBelowZero(Edge(side, level.px, cap)))
    ensures Gain(side, v.consumed, cap) + Pay(a, Edge(side, level.px, cap))
            <= Gain(side, Consume(w, side, cap, level).consumed, cap)
  {
    var x := Edge(side, level.px, cap);
    PayNonNegative(extra, NotBelowZero(x));
    if x >= 0.0 {
      LevelGain(w, side, cap, level);
      EnoughShares(extra, Min(w.remaining, level.sz), a, x);
    } else {
      OutsideGain(w, side, cap, level);
      LossyShares(a, x);
    }
  }

  lemma AllocationOfFront(side: Side, ladder: seq<Level>, taken: seq<Level>, qty: real)
    requires BestFirst(side, ladder) && Allocation(ladder, taken, qty) && ladder != []
    ensures var n := |ladder| - 1;
            && BestFirst(side, ladder[..n]) && Allocation(ladder[..n], taken[..n], qty - taken[n].sz)
            && 0.0 <= taken[n].sz <= ladder[n].sz && qty - taken[n].sz >= 0.0 && taken[n].px == ladder[n].px
  {
    ShareBounds(ladder[..|ladder| - 1], taken[..|ladder| - 1]);
  }

  lemma LastLevel(side: Side, front: seq<Level>, level: Level, a: real, cap: real, qty: real, x: real)
    requires 0.0 <= a <= level.sz && qty - a >= 0.0 && x == NotBelowZero(Edge(side, level.px, cap))
    requires forall i :: 0 <= i < |front| ==> front[i].sz >= 0.0
    requires forall i :: 0 <= i < |front| && Edge(side, front[i].px, cap) >= 0.0 ==> Edge(side, front[i].px, cap) >= x
    ensures GainOf(side, front, cap, qty - a) + Pay(a, Edge(side, level.px, cap))
            <= Gain(side, Consume(Walk(side, front, cap, qty), side, cap, level).consumed, cap)
  {
    var extra := MoreGains(side, front, cap, qty - a, qty, x);
    WalkingOn(Walk(side, front, cap, qty), Walk(side, front, cap, qty - a), side, cap, level, a, extra);
  }

  /** One level more, whatever the allocation takes of it. */
  lemma LevelGainsMost(side: Side, ladder: seq<Level>, cap: real, qty: real, a: real, gained: real)
    requires BestFirst(side, ladder) && ladder != [] && 0.0 <= a <= ladder[|ladder| - 1].sz && qty - a >= 0.0
    requires gained <= GainOf(side, ladder[..|ladder| - 1], cap, qty - a)
    ensures gained + Pay(a, Edge(side, ladder[|ladder| - 1].px, cap)) <= GainOf(side, ladder, cap, qty)
  {
    var front, level := ladder[..|ladder| - 1], ladder[|ladder| - 1];
    LastLevel(side, front, level, a, cap, qty, NotBelowZero(Edge(side, level.px, cap)));
  }

  /** No allocation gains more over the cap than the walk does. */
  lemma {:induction false} WalkGainsMost(side: Side, ladder: seq<Level>, taken: seq<Level>, cap: real, qty: real)
    requires BestFirst(side, ladder) && Allocation(ladder, taken, qty)
    ensures Gain(side, taken, cap) <= GainOf(side, ladder, cap, qty)
  {
    if ladder != [] {
      var n := |ladder| - 1;
      AllocationOfFront(side, ladder, taken, qty);
      WalkGainsMost(side, ladder[..n], taken[..n], cap, qty - taken[n].sz);
      LevelGainsMost(side, ladder, cap, qty, taken[n].sz, Gain(side, taken[..n], cap));
    }
  }

  /** The walk is optimal: among all ways of filling the order from displayed shares
      with the remainder at the cap, none buys for less and none sells for more. */
  lemma WalkIsOptimal(side: Side, ladder: seq<Level>, taken: seq<Level>, cap: real, qty: real)
    requires BestFirst(side, ladder) && Allocation(ladder, taken, qty)
    ensures if side.Buy? then DepthCost(side, ladder, cap, qty) <= AllocationCost(taken, cap, qty)
            else DepthCost(side, ladder, cap, qty) >= AllocationCost(taken, cap, qty)
  {
    WalkGainsMost(side, ladder, taken, cap, qty);
    CostByGain(side, taken, cap, qty);
    CostByGain(side, Walk(side, ladder, cap, qty).consumed, cap, qty);
    WalkTotals(side, ladder, cap, qty);
  }

  function TakeOf(w: Walked, side: Side, cap: real, level: Level): Level {
    Level(level.px, w.remaining - Consume(w, side, cap, level).remaining)
  }

  /** What the walk takes at each level of the ladder. */
  function TakenAt(side: Side, ladder: seq<Level>, cap: real, qty: real): seq<Level> {
    if ladder == [] then []
    else
      var front := ladder[..|ladder| - 1];
      TakenAt(side, front, cap, qty) + [TakeOf(Walk(side, front, cap, qty), side, cap, ladder[|ladder| - 1])]
  }

  lemma TakeOfFacts(w: Walked, side: Side, cap: real, level: Level)
    requires w.remaining >= 0.0 && level.sz >= 0.0
    ensures var t, w' := TakeOf(w, side, cap, level), Consume(w, side, cap, level);
            && t.px == level.px && 0.0 <= t.sz <= level.sz
            && w'.remaining == w.remaining - t.sz && w'.cost == w.cost + Pay(t.sz, t.px)
  {
    PayNothing(level.px);
    var take := Min(w.remaining, level.sz);
    assert w.remaining - (w.remaining - take) == take;
  }

  lemma {:induction false} TakenShape(side: Side, ladder: seq<Level>, cap: real, qty: real)
    requires qty >= 0.0 && forall i :: 0 <= i < |ladder| ==> ladder[i].sz >= 0.0
    ensures var taken := TakenAt(side, ladder, cap, qty);
            && |taken| == |ladder|
            && forall i :: 0 <= i < |ladder| ==> taken[i].px == ladder[i].px && 0.0 <= taken[i].sz <= ladder[i].sz
  {
    if ladder != [] {
      var front := ladder[..|ladder| - 1];
      TakenShape(side, front, cap, qty);
      WalkFacts(side, front, cap, qty);
      TakeOfFacts(Walk(side, front, cap, qty), side, cap, ladder[|ladder| - 1]);
    }
  }

  lemma {:induction false} TakenTotals(side: Side, ladder: seq<Level>, cap: real, qty: real)
    requires qty >= 0.0 && forall i :: 0 <= i < |ladder| ==> ladder[i].sz >= 0.0
    ensures Shares(TakenAt(side, ladder, cap, qty)) == qty - Walk(side, ladder, cap, qty).remaining
    ensures LevelsCost(TakenAt(side, ladder, cap, qty)) == Walk(side, ladder, cap, qty).cost
  {
    if ladder != [] {
      var front, level := ladder[..|ladder| - 1], ladder[|ladder| - 1];
      TakenTotals(side, front, cap, qty);
      WalkFacts(side, front, cap, qty);
      var w := Walk(side, front, cap, qty);
      TakeOfFacts(w, side, cap, level);
      TotalsSnoc(TakenAt(side, front, cap, qty), TakeOf(w, side, cap, level));
    }
  }

  lemma TotalsSnoc(levels: seq<Level>, level: Level)
    ensures Shares(levels + [level]) == Shares(levels) + level.sz
    ensures LevelsCost(levels + [level]) == LevelsCost(levels) + Pay(level.sz, level.px)
  {
    assert (levels + [level])[..|levels|] == levels;
  }

  /** And the optimum is attained: the walk is itself such a way. */
  lemma WalkIsAnAllocation(side: Side, ladder: seq<Level>, cap: real, qty: real)
    requires qty >= 0.0 && forall i :: 0 <= i < |ladder| ==> ladder[i].sz >= 0.0
    ensures Allocation(ladder, TakenAt(side, ladder, cap, qty), qty)
    ensures AllocationCost(TakenAt(side, ladder, cap, qty), cap, qty) == DepthCost(side, ladder, cap, qty)
  {
    TakenShape(side, ladder, cap, qty);
    TakenTotals(side, ladder, cap, qty);
    WalkFacts(side, ladder, cap, qty);
  }

  // ------------------------------------------------------------------ divergence

  const DIVERGENCE_ALERT_BPS: real := 10.0

  datatype Flag = Unassessed | Aligned | BrokerOptimistic | BrokerConservative

  datatype Divergence = Divergence(usd: Option<real>, flag: Flag, alert: bool)

  function FlagOf(side: Side, usd: real): Flag {
    if usd == 0.0 then Aligned
    else if (usd < 0.0) == side.Buy? then BrokerOptimistic
    else BrokerConservative
  }

  function Abs(x: real): real { if x < 0.0 then -x else x }

  function Assess(side: Side, brokerCost: real, filled: real, m: Modeled): Result<Divergence, Error> {
    if brokerCost <= 0.0 then Failure(BadBrokerCost)
    else if filled <= 0.0 then Failure(BadFilled)
    else if m.Unfillable? then Success(Divergence(None, Unassessed, false))
    else if filled > m.requested then Failure(Overfilled)
    else
      var usd := brokerCost - Reintegrate(m, filled);
      Success(Divergence(Some(usd), FlagOf(side, usd), Abs(usd) > brokerCost * DIVERGENCE_ALERT_BPS / 10000.0))
  }

  /** A fill flagged as optimistic beats the book: by the depth model the broker's
      number is better than every way there was of filling those shares from the
      displayed sizes with the remainder at the cap. */
  lemma OptimisticBeatsTheBook(side: Side, qty: real, cap: real, q: Quote, depth: Depth, nowMs: int,
                               brokerCost: real, filled: real, taken: seq<Level>)
    requires ValidDepth(depth) && OnGrid(cap)
    requires var r := ModelOf(side, qty, cap, q, Some(depth), nowMs);
             && r.Success? && r.value.Fillable? && r.value.model.DepthModel?
             && var a := Assess(side, brokerCost, filled, r.value);
                a.Success? && a.value.flag == BrokerOptimistic
    requires Allocation(Ladder(side, depth), taken, filled)
    ensures if side.Buy? then brokerCost < AllocationCost(taken, cap, filled)
            else brokerCost > AllocationCost(taken, cap, filled)
  {
    var touch := TouchOf(side, q).value;
    DepthReintegrates(side, Ladder(side, depth), cap, qty, touch, filled);
    WalkIsOptimal(side, Ladder(side, depth), taken, cap, filled);
  }

  // ------------------------------------------------------------------- the loops

  lemma {:induction false} WalkStops(side: Side, ladder: seq<Level>, i: nat, cap: real, qty: real)
    requires BestFirst(side, ladder) && i < |ladder|
    requires Walk(side, ladder[..i], cap, qty).remaining <= 0.0 || !AtOrInside(side, ladder[i].px, cap)
    ensures Walk(side, ladder, cap, qty) == Walk(side, ladder[..i], cap, qty)
    decreases |ladder|
  {
    var n := |ladder| - 1;
    assert ladder[..n][..i] == ladder[..i];
    if i < n {
      WalkStops(side, ladder[..n], i, cap, qty);
    }
  }

  method WalkLadder(side: Side, ladder: seq<Level>, cap: real, qty: real)
    returns (consumed: seq<Level>, cost: real, remaining: real)
    requires BestFirst(side, ladder)
    ensures Walked(consumed, cost, remaining) == Walk(side, ladder, cap, qty)
  {
    consumed, cost, remaining := [], 0.0, qty;
    var i := 0;
    while i < |ladder|
      invariant 0 <= i <= |ladder|
      invariant Walked(consumed, cost, remaining) == Walk(side, ladder[..i], cap, qty)
    {
      var level := ladder[i];
      if remaining <= 0.0 || !AtOrInside(side, level.px, cap) {
        WalkStops(side, ladder, i, cap, qty);
        return;
      }
      assert ladder[..i + 1][..i] == ladder[..i];
      var take := Min(remaining, level.sz);
      if take > 0.0 {
        consumed := consumed + [Level(level.px, take)];
        cost := cost + Pay(take, level.px);
        remaining := remaining - take;
      }
      i := i + 1;
    }
    assert ladder[..|ladder|] == ladder;
  }

  method ModelFill(side: Side, qty: real, cap: real, q: Quote, depth: Option<Depth>, nowMs: int)
    returns (r: Result<Modeled, Error>)
    requires depth.Some? ==> ValidDepth(depth.value)
    ensures r == ModelOf(side, qty, cap, q, depth, nowMs)
  {
    if qty <= 0.0 {
      return Failure(BadQuantity);
    }
    if cap <= 0.0 {
      return Failure(BadCap);
    }
    var reasons: set<Reason> := {};
    if depth.Some? {
      if depth.value.instrument != q.instrument {
        return Failure(DepthIdentityMismatch);
      }
      reasons := DepthReasons(depth.value, q, nowMs);
    }
    var touch, size := TouchOf(side, q), TouchSizeOf(side, q);
    if !q.ok || !Usable(touch) || !Usable(size) {
      return Success(Unfillable(qty, reasons));
    }
    if depth.None? || reasons != {} {
      return Success(FromTouch(side, touch.value, size.value, cap, qty, reasons));
    }
    var consumed, cost, remaining := WalkLadder(side, Ladder(side, depth.value), cap, qty);
    WalkFacts(side, Ladder(side, depth.value), cap, qty);
    var fillable := qty - remaining;
    if fillable == 0.0 {
      return Success(Unfillable(qty, {NoLiquidityAtCap}));
    }
    var worst: real;
    if remaining > 0.0 {
      cost := cost + Pay(remaining, cap);
      worst := cap;
    } else {
      PayNothing(cap);
      worst := consumed[|consumed| - 1].px;
    }
    r := Success(Fillable(DepthModel, qty, fillable, Quantize(worst), touch.value, consumed, cost, {}));
  }

  lemma {:induction false} IntegrateStops(levels: seq<Level>, i: nat, filled: real)
    requires i <= |levels| && Integrate(levels[..i], filled).1 <= 0.0
    ensures Integrate(levels, filled) == Integrate(levels[..i], filled)
    decreases |levels|
  {
    if i == |levels| {
      assert levels[..i] == levels;
    } else {
      assert levels[..|levels| - 1][..i] == levels[..i];
      IntegrateStops(levels[..|levels| - 1], i, filled);
    }
  }

  method IntegrateLevels(levels: seq<Level>, filled: real) returns (cost: real, remaining: real)
    ensures (cost, remaining) == Integrate(levels, filled)
  {
    cost, remaining := 0.0, filled;
    var i := 0;
    while i < |levels|
      invariant 0 <= i <= |levels|
      invariant (cost, remaining) == Integrate(levels[..i], filled)
    {
      if remaining <= 0.0 {
        IntegrateStops(levels, i, filled);
        return;
      }
      assert levels[..i + 1][..i] == levels[..i];
      var take := Min(remaining, levels[i].sz);
      cost, remaining := cost + Pay(take, levels[i].px), remaining - take;
      i := i + 1;
    }
    assert levels[..|levels|] == levels;
  }

  method AssessDivergence(side: Side, brokerCost: real, filled: real, m: Modeled) returns (r: Result<Divergence, Error>)
    ensures r == Assess(side, brokerCost, filled, m)
  {
    if brokerCost <= 0.0 {
      return Failure(BadBrokerCost);
    }
    if filled <= 0.0 {
      return Failure(BadFilled);
    }
    if m.Unfillable? {
      return Success(Divergence(None, Unassessed, false));
    }
    if filled > m.requested {
      return Failure(Overfilled);
    }
    var cost: real;
    if m.model.TouchModel? {
      var part := Min(filled, m.fillable);
      cost := Pay(part, m.touch);
      if filled - part > 0.0 {
        cost := cost + Pay(filled - part, m.worst);
      }
    } else {
      var remaining: real;
      cost, remaining := IntegrateLevels(m.levels, filled);
      if remaining > 0.0 {
        cost := cost + Pay(remaining, m.worst);
      }
    }
    var usd := brokerCost - cost;
    r := Success(Divergence(Some(usd), FlagOf(side, usd), Abs(usd) > brokerCost * DIVERGENCE_ALERT_BPS / 10000.0));
  }
}
