/**
 What a modeled fill charges, read off the quote and the book it was modelled against
 (execution_realism.py): which side an order is charged at, when it is fillable, how
 much of it, at what cost, and what a divergence from that cost is called.
 */
module FillCharges {
  import opened Wrappers
  import opened Rounding
  import opened ModeledFill

  // ------------------------------------------------------------------ which model

  /** A depth snapshot of the quote's epoch, at most two seconds old. */
  ghost predicate UsableDepth(d: Depth, q: Quote, nowMs: int) { d.epoch == q.epoch && nowMs - d.seenAtMs <= 2000 }

  ghost predicate ByDepth(depth: Option<Depth>, q: Quote, nowMs: int) {
    depth.Some? && UsableDepth(depth.value, q, nowMs)
  }

  lemma ModelFailsIff(side: Side, qty: real, cap: real, q: Quote, depth: Option<Depth>, nowMs: int)
    ensures ModelOf(side, qty, cap, q, depth, nowMs).Failure? <==>
              qty <= 0.0 || cap <= 0.0 || (depth.Some? && depth.value.instrument != q.instrument)
  {}

  /** What an order would be filled at: a buy at the ask, a sell at the bid. */
  ghost predicate Opposite(side: Side, q: Quote, px: real, sz: real) {
    match side
    case Buy => q.ask == Some(px) && q.askSz == Some(sz)
    case Sell => q.bid == Some(px) && q.bidSz == Some(sz)
  }

  ghost predicate Within(side: Side, px: real, cap: real) {
    match side
    case Buy => px <= cap
    case Sell => cap <= px
  }

  lemma OppositeIsTouch(side: Side, q: Quote, px: real, sz: real)
    ensures Opposite(side, q, px, sz) <==> TouchOf(side, q) == Some(px) && TouchSizeOf(side, q) == Some(sz)
  {}

  // ---------------------------------------------------------- without usable depth

  /** By the quote alone an order is fillable exactly if the quote is good and the
      opposite side shows a size at a price within the cap. */
  lemma FillableByQuoteIff(side: Side, qty: real, cap: real, q: Quote, depth: Option<Depth>, nowMs: int)
    requires ModelOf(side, qty, cap, q, depth, nowMs).Success? && !ByDepth(depth, q, nowMs)
    ensures ModelOf(side, qty, cap, q, depth, nowMs).value.Fillable? <==>
              q.ok && exists px, sz :: Opposite(side, q, px, sz) && px > 0.0 && sz > 0.0 && Within(side, px, cap)
  {
    if Usable(TouchOf(side, q)) && Usable(TouchSizeOf(side, q)) {
      OppositeIsTouch(side, q, TouchOf(side, q).value, TouchSizeOf(side, q).value);
    }
    if px, sz :| Opposite(side, q, px, sz) && px > 0.0 && sz > 0.0 && Within(side, px, cap) {
      OppositeIsTouch(side, q, px, sz);
    }
  }

  /** And is charged the displayed shares at that price and the rest at the cap. */
  lemma ChargedByQuote(side: Side, qty: real, cap: real, q: Quote, depth: Option<Depth>, nowMs: int, px: real, sz: real)
    requires ModelOf(side, qty, cap, q, depth, nowMs).Success? && !ByDepth(depth, q, nowMs)
    requires ModelOf(side, qty, cap, q, depth, nowMs).value.Fillable? && Opposite(side, q, px, sz)
    ensures var m := ModelOf(side, qty, cap, q, depth, nowMs).value;
            && m.model.TouchModel? && m.requested == qty && m.touch == px
            && (if qty <= sz then m.fillable == qty && m.cost == qty * px
                else m.fillable == sz && m.cost == sz * px + (qty - sz) * cap)
            && m.worst == Quantize(if qty <= sz then px else cap)
    ensures NoBetter(side, ModelOf(side, qty, cap, q, depth, nowMs).value.cost, qty, px)
  {
    OppositeIsTouch(side, q, px, sz);
    PayNothing(cap);
    if qty > sz {
      MoreShares(side, sz * px, sz, px, qty - sz, cap);
    }
  }

  lemma Signs(a: real, x: real)
    requires a >= 0.0
    ensures x >= 0.0 ==> a * x >= 0.0
    ensures x <= 0.0 ==> a * x <= 0.0
  {}

  // ------------------------------------------------------------- with usable depth

  function Book(side: Side, d: Depth): seq<Level> {
    match side
    case Buy => d.asks
    case Sell => d.bids
  }

  /** The shares shown at prices within the cap. */
  ghost function ShownWithin(side: Side, levels: seq<Level>, cap: real): real {
    if levels == [] then 0.0
    else
      var level := levels[|levels| - 1];
      ShownWithin(side, levels[..|levels| - 1], cap) + (if Within(side, level.px, cap) then level.sz else 0.0)
  }

  lemma {:induction false} ShownIsPositiveIff(side: Side, levels: seq<Level>, cap: real)
    requires forall i :: 0 <= i < |levels| ==> levels[i].sz >= 0.0
    ensures ShownWithin(side, levels, cap) >= 0.0
    ensures ShownWithin(side, levels, cap) > 0.0 <==>
              exists i :: 0 <= i < |levels| && Within(side, levels[i].px, cap) && levels[i].sz > 0.0
  {
    if levels != [] {
      var n := |levels| - 1;
      ShownIsPositiveIff(side, levels[..n], cap);
      assert forall i :: 0 <= i < n ==> levels[..n][i] == levels[i];
    }
  }

  /** The walk leaves exactly what the book cannot serve within the cap. */
  lemma {:induction false} WalkTakesShown(side: Side, levels: seq<Level>, cap: real, qty: real)
    requires qty >= 0.0 && forall i :: 0 <= i < |levels| ==> levels[i].sz >= 0.0
    ensures var shown := ShownWithin(side, levels, cap);
            Walk(side, levels, cap, qty).remaining == if qty <= shown then 0.0 else qty - shown
  {
    if levels != [] {
      var n := |levels| - 1;
      WalkTakesShown(side, levels[..n], cap, qty);
      ShownIsPositiveIff(side, levels[..n], cap);
    }
  }

  lemma DepthIsChosen(side: Side, qty: real, cap: real, q: Quote, d: Depth, nowMs: int)
    requires ModelOf(side, qty, cap, q, Some(d), nowMs).Success? && UsableDepth(d, q, nowMs)
    ensures ModelOf(side, qty, cap, q, Some(d), nowMs).value.Fillable? ==>
              && Usable(TouchOf(side, q))
              && ModelOf(side, qty, cap, q, Some(d), nowMs).value
                 == FromDepth(side, Book(side, d), cap, qty, TouchOf(side, q).value)
    ensures ModelOf(side, qty, cap, q, Some(d), nowMs).value.Fillable? <==>
              && q.ok && Usable(TouchOf(side, q)) && Usable(TouchSizeOf(side, q))
              && Walk(side, Book(side, d), cap, qty).remaining < qty
  {
    assert DepthReasons(d, q, nowMs) == {};
    assert Book(side, d) == Ladder(side, d);
    if ModelOf(side, qty, cap, q, Some(d), nowMs).value.Fillable? {
      SpareWalk(side, Book(side, d), cap, qty);
    }
  }

  lemma {:induction false} SpareWalk(side: Side, levels: seq<Level>, cap: real, qty: real)
    ensures Walk(side, levels, cap, qty).remaining <= qty
  {
    if levels != [] {
      SpareWalk(side, levels[..|levels| - 1], cap, qty);
    }
  }

  /** By the book an order is fillable exactly if the quote is good on the opposite side
      and the book shows a share within the cap; as much of it as is shown there. */
  lemma FillableByDepthIff(side: Side, qty: real, cap: real, q: Quote, d: Depth, nowMs: int)
    requires ModelOf(side, qty, cap, q, Some(d), nowMs).Success? && UsableDepth(d, q, nowMs) && ValidDepth(d)
    ensures var m := ModelOf(side, qty, cap, q, Some(d), nowMs).value;
            var levels := Book(side, d);
            && (m.Fillable? <==>
                  && q.ok && (exists px, sz :: Opposite(side, q, px, sz) && px > 0.0 && sz > 0.0)
                  && exists i :: 0 <= i < |levels| && Within(side, levels[i].px, cap) && levels[i].sz > 0.0)
            && (m.Fillable? ==>
                  && m.model.DepthModel? && m.requested == qty && TouchOf(side, q) == Some(m.touch)
                  && m.fillable == if qty <= ShownWithin(side, levels, cap) then qty else ShownWithin(side, levels, cap))
  {
    var levels := Book(side, d);
    DepthIsChosen(side, qty, cap, q, d, nowMs);
    WalkTakesShown(side, levels, cap, qty);
    ShownIsPositiveIff(side, levels, cap);
    if Usable(TouchOf(side, q)) && Usable(TouchSizeOf(side, q)) {
      OppositeIsTouch(side, q, TouchOf(side, q).value, TouchSizeOf(side, q).value);
    }
    if px, sz :| Opposite(side, q, px, sz) && px > 0.0 && sz > 0.0 {
      OppositeIsTouch(side, q, px, sz);
    }
  }

  /** It is charged the best that the opposite book allows: a way there is of taking its
      shares with the rest at the cap, and no other is cheaper for a buy or dearer for a
      sell. */
  lemma ChargedByDepth(side: Side, qty: real, cap: real, q: Quote, d: Depth, nowMs: int)
    requires ModelOf(side, qty, cap, q, Some(d), nowMs).Success? && UsableDepth(d, q, nowMs) && ValidDepth(d)
    requires ModelOf(side, qty, cap, q, Some(d), nowMs).value.Fillable?
    ensures var cost, levels := ModelOf(side, qty, cap, q, Some(d), nowMs).value.cost, Book(side, d);
            && (exists taken :: Allocation(levels, taken, qty) && cost == AllocationCost(taken, cap, qty))
            && forall taken :: Allocation(levels, taken, qty) ==>
                 if side.Buy? then cost <= AllocationCost(taken, cap, qty) else cost >= AllocationCost(taken, cap, qty)
  {
    var levels := Book(side, d);
    DepthIsChosen(side, qty, cap, q, d, nowMs);
    WalkIsAnAllocation(side, levels, cap, qty);
    forall taken | Allocation(levels, taken, qty)
      ensures if side.Buy? then DepthCost(side, levels, cap, qty) <= AllocationCost(taken, cap, qty)
              else DepthCost(side, levels, cap, qty) >= AllocationCost(taken, cap, qty)
    {
      WalkIsOptimal(side, levels, taken, cap, qty);
    }
  }

  /** Level `i` is where the shares wanted run out. */
  ghost predicate Deepest(side: Side, levels: seq<Level>, cap: real, qty: real, i: int) {
    && 0 <= i < |levels| && Within(side, levels[i].px, cap)
    && ShownWithin(side, levels[..i], cap) < qty <= ShownWithin(side, levels[..i + 1], cap)
  }

  lemma DeepestInFront(side: Side, levels: seq<Level>, cap: real, qty: real, i: int)
    requires levels != [] && Deepest(side, levels[..|levels| - 1], cap, qty, i)
    ensures Deepest(side, levels, cap, qty, i) && levels[..|levels| - 1][i] == levels[i]
  {
    var front := levels[..|levels| - 1];
    assert front[..i] == levels[..i] && front[..i + 1] == levels[..i + 1];
  }

  lemma DeepestLast(side: Side, levels: seq<Level>, cap: real, qty: real)
    requires levels != [] && ShownWithin(side, levels[..|levels| - 1], cap) < qty <= ShownWithin(side, levels, cap)
    ensures Deepest(side, levels, cap, qty, |levels| - 1)
  {
    assert levels[..|levels|] == levels;
  }

  ghost predicate EndsAtDeepest(side: Side, levels: seq<Level>, cap: real, qty: real, consumed: seq<Level>) {
    consumed != [] && exists i :: Deepest(side, levels, cap, qty, i) && consumed[|consumed| - 1].px == levels[i].px
  }

  /** Served in full, a walk ends at that level. */
  lemma {:induction false} WalkEndsAt(side: Side, levels: seq<Level>, cap: real, qty: real)
    requires qty > 0.0 && (forall i :: 0 <= i < |levels| ==> levels[i].sz >= 0.0)
    requires qty <= ShownWithin(side, levels, cap)
    ensures EndsAtDeepest(side, levels, cap, qty, Walk(side, levels, cap, qty).consumed)
  {
    var front := levels[..|levels| - 1];
    var consumed := Walk(side, front, cap, qty).consumed;
    WalkTakesShown(side, front, cap, qty);
    if qty <= ShownWithin(side, front, cap) {
      WalkEndsAt(side, front, cap, qty);
      var i :| Deepest(side, front, cap, qty, i) && consumed[|consumed| - 1].px == front[i].px;
      DeepestInFront(side, levels, cap, qty, i);
      assert Walk(side, levels, cap, qty).consumed == consumed;
    } else {
      DeepestLast(side, levels, cap, qty);
    }
  }

  /** The recorded worst price is the cap when some of the order is left to it, and else
      the price of the level where the shares wanted run out. */
  lemma WorstByDepth(side: Side, qty: real, cap: real, q: Quote, d: Depth, nowMs: int)
    requires ModelOf(side, qty, cap, q, Some(d), nowMs).Success? && UsableDepth(d, q, nowMs) && ValidDepth(d)
    requires ModelOf(side, qty, cap, q, Some(d), nowMs).value.Fillable?
    ensures var m, levels := ModelOf(side, qty, cap, q, Some(d), nowMs).value, Book(side, d);
            if m.fillable < qty then m.worst == Quantize(cap)
            else exists i :: Deepest(side, levels, cap, qty, i) && m.worst == Quantize(levels[i].px)
  {
    var levels := Book(side, d);
    DepthIsChosen(side, qty, cap, q, d, nowMs);
    WalkTakesShown(side, levels, cap, qty);
    if qty <= ShownWithin(side, levels, cap) {
      WalkEndsAt(side, levels, cap, qty);
    }
  }

  /** The reasons recorded: what was wrong with the depth, and whether a good quote met
      nothing within the cap. */
  lemma ReasonsIff(side: Side, qty: real, cap: real, q: Quote, depth: Option<Depth>, nowMs: int)
    requires ModelOf(side, qty, cap, q, depth, nowMs).Success?
    ensures var m := ModelOf(side, qty, cap, q, depth, nowMs).value;
            var reasons := if m.Fillable? then m.reasons else m.unfillableReasons;
            && (DepthEpochMismatch in reasons <==> depth.Some? && depth.value.epoch != q.epoch)
            && (DepthStale in reasons <==> depth.Some? && nowMs - depth.value.seenAtMs > 2000)
            && (NoLiquidityAtCap in reasons <==>
                  m.Unfillable? && q.ok && exists px, sz :: Opposite(side, q, px, sz) && px > 0.0 && sz > 0.0)
  {
    if Usable(TouchOf(side, q)) && Usable(TouchSizeOf(side, q)) {
      OppositeIsTouch(side, q, TouchOf(side, q).value, TouchSizeOf(side, q).value);
    }
    if px, sz :| Opposite(side, q, px, sz) && px > 0.0 && sz > 0.0 {
      OppositeIsTouch(side, q, px, sz);
    }
  }

  // -------------------------------------------------------------- never better than

  /** No better than `best` a share: for a buy not less, for a sell not more. */
  ghost predicate NoBetter(side: Side, cost: real, shares: real, best: real) {
    match side
    case Buy => cost >= shares * best
    case Sell => cost <= shares * best
  }

  lemma MoreShares(side: Side, cost: real, shares: real, best: real, take: real, px: real)
    requires NoBetter(side, cost, shares, best) && take >= 0.0 && Within(side, best, px)
    ensures NoBetter(side, cost + Pay(take, px), shares + take, best)
  {
    Signs(take, px - best);
    assert (shares + take) * best == shares * best + take * best;
    assert take * (px - best) == take * px - take * best;
  }

  /** Every share the walk takes costs at least the best price shown. */
  lemma {:induction false} WalkNoBetter(side: Side, levels: seq<Level>, cap: real, qty: real, best: real)
    requires forall i :: 0 <= i < |levels| ==> levels[i].sz >= 0.0 && Within(side, best, levels[i].px)
    ensures var w := Walk(side, levels, cap, qty); NoBetter(side, w.cost, qty - w.remaining, best)
  {
    if levels != [] {
      var n := |levels| - 1;
      WalkNoBetter(side, levels[..n], cap, qty, best);
      ConsumeNoBetter(Walk(side, levels[..n], cap, qty), side, cap, qty, levels[n], best);
    }
  }

  lemma ConsumeNoBetter(w: Walked, side: Side, cap: real, qty: real, level: Level, best: real)
    requires NoBetter(side, w.cost, qty - w.remaining, best) && level.sz >= 0.0 && Within(side, best, level.px)
    ensures var w' := Consume(w, side, cap, level); NoBetter(side, w'.cost, qty - w'.remaining, best)
  {
    var take := Min(w.remaining, level.sz);
    if w.remaining > 0.0 {
      MoreShares(side, w.cost, qty - w.remaining, best, take, level.px);
      assert qty - (w.remaining - take) == qty - w.remaining + take;
    }
  }

  /** No order is modelled at better than the best price the opposite book shows. */
  lemma NeverBetterThanTheBook(side: Side, qty: real, cap: real, q: Quote, d: Depth, nowMs: int)
    requires ModelOf(side, qty, cap, q, Some(d), nowMs).Success? && UsableDepth(d, q, nowMs) && ValidDepth(d)
    requires ModelOf(side, qty, cap, q, Some(d), nowMs).value.Fillable?
    ensures Book(side, d) != []
    ensures NoBetter(side, ModelOf(side, qty, cap, q, Some(d), nowMs).value.cost, qty, Book(side, d)[0].px)
  {
    DepthIsChosen(side, qty, cap, q, d, nowMs);
    FillableByDepthIff(side, qty, cap, q, d, nowMs);
    WalkFacts(side, Book(side, d), cap, qty);
    DepthNoBetter(side, Book(side, d), cap, qty);
  }

  lemma DepthNoBetter(side: Side, levels: seq<Level>, cap: real, qty: real)
    requires BestFirst(side, levels) && Walk(side, levels, cap, qty).remaining >= 0.0
    requires exists i :: 0 <= i < |levels| && Within(side, levels[i].px, cap)
    ensures NoBetter(side, DepthCost(side, levels, cap, qty), qty, levels[0].px)
  {
    var best, w := levels[0].px, Walk(side, levels, cap, qty);
    WalkNoBetter(side, levels, cap, qty, best);
    MoreShares(side, w.cost, qty - w.remaining, best, w.remaining, cap);
    assert qty - w.remaining + w.remaining == qty;
  }

  // -------------------------------------------------------------------- divergence

  /** An assessment compares what the broker charged with what the model charges for an
      order of just the filled size: a buy is optimistic below it, a sell above it, and
      an alert goes out beyond ten basis points of the broker's number. */
  lemma AssessmentIff(side: Side, qty: real, cap: real, q: Quote, depth: Option<Depth>, nowMs: int,
                      brokerCost: real, filled: real)
    requires OnGrid(cap) && ModelOf(side, qty, cap, q, depth, nowMs).Success?
    requires ModelOf(side, qty, cap, q, depth, nowMs).value.Fillable?
    ensures var a := Assess(side, brokerCost, filled, ModelOf(side, qty, cap, q, depth, nowMs).value);
            && (a.Success? <==> brokerCost > 0.0 && 0.0 < filled <= qty)
            && (a.Success? ==>
                  && var n := ModelOf(side, filled, cap, q, depth, nowMs);
                  && n.Success? && n.value.Fillable? && a.value.usd == Some(brokerCost - n.value.cost)
                  && (a.value.flag == Aligned <==> brokerCost == n.value.cost)
                  && (a.value.flag == BrokerOptimistic <==>
                        if side.Buy? then brokerCost < n.value.cost else brokerCost > n.value.cost)
                  && (a.value.flag == BrokerConservative <==>
                        if side.Buy? then brokerCost > n.value.cost else brokerCost < n.value.cost)
                  && (a.value.alert <==>
                        brokerCost - n.value.cost > brokerCost / 1000.0 || n.value.cost - brokerCost > brokerCost / 1000.0))
  {
    if brokerCost > 0.0 && 0.0 < filled <= qty {
      ReintegrationIsTheModel(side, qty, cap, q, depth, nowMs, filled);
      assert brokerCost * DIVERGENCE_ALERT_BPS / 10000.0 == brokerCost / 1000.0;
    }
  }

  /** Without a modeled cost nothing is assessed. */
  lemma UnfillableIsUnassessed(side: Side, brokerCost: real, filled: real, m: Modeled)
    requires m.Unfillable? && brokerCost > 0.0 && filled > 0.0
    ensures Assess(side, brokerCost, filled, m) == Success(Divergence(None, Unassessed, false))
  {}
}
