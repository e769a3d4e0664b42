/**
 The position part of a broker reconcile (broker_reconcile.py): per symbol, what
 differs between the local lots and the broker, and the LIFO plan that makes the
 local side agree. Quantities and money are exact reals.
 */
module Planner {
  import opened Wrappers

  const COST_TOLERANCE_PER_SHARE: real := 0.005

  /** One open lot; the lots of a symbol are listed newest first. */
  datatype Lot = Lot(id: string, qty: real, cost: real)

  datatype BrokerPosition = BrokerPosition(qty: real, avgEntryPrice: Option<real>)

  function SumQty(lots: seq<Lot>): real {
    if lots == [] then 0.0 else SumQty(lots[..|lots| - 1]) + lots[|lots| - 1].qty
  }

  function SumCost(lots: seq<Lot>): real {
    if lots == [] then 0.0 else SumCost(lots[..|lots| - 1]) + lots[|lots| - 1].cost
  }

  /** Cost of the lots that still hold shares. */
  function HeldCost(lots: seq<Lot>): real {
    if lots == [] then 0.0
    else HeldCost(lots[..|lots| - 1]) + (if lots[|lots| - 1].qty > 0.0 then lots[|lots| - 1].cost else 0.0)
  }

  ghost predicate NonNegative(lots: seq<Lot>) { forall i :: 0 <= i < |lots| ==> lots[i].qty >= 0.0 }

  ghost predicate AllOpen(lots: seq<Lot>) { forall i :: 0 <= i < |lots| ==> lots[i].qty > 0.0 }

  // ------------------------------------------------------------------ the plan

  function Min(a: real, b: real): real { if b < a then b else a }

  /** One lot gives up `take` shares; an emptied lot keeps no cost. */
  function Taken(lot: Lot, take: real): Lot {
    if take == 0.0 then lot
    else Lot(lot.id, lot.qty - take, if lot.qty - take == 0.0 then 0.0 else lot.cost)
  }

  /** Takes `amount` shares, newest lot first; also what could not be taken. */
  function Cascade(lots: seq<Lot>, amount: real): (seq<Lot>, real) {
    if lots == [] then ([], amount)
    else
      var (front, left) := Cascade(lots[..|lots| - 1], amount);
      var lot := lots[|lots| - 1];
      var take := Min(lot.qty, left);
      (front + [Taken(lot, take)], left - take)
  }

  /** Index of the newest lot that holds shares; |lots| when none does. */
  function FirstHeld(lots: seq<Lot>): (k: nat)
    ensures k <= |lots|
    ensures k < |lots| ==> lots[k].qty > 0.0
    ensures forall j :: 0 <= j < k ==> !(lots[j].qty > 0.0)
  {
    if lots == [] then 0
    else
      var k := FirstHeld(lots[..|lots| - 1]);
      if k < |lots| - 1 || lots[|lots| - 1].qty > 0.0 then k else |lots|
  }

  function WithQuantity(lots: seq<Lot>, brokerQty: real): seq<Lot> {
    var delta := brokerQty - SumQty(lots);
    if delta > 0.0 && lots != [] then lots[0 := lots[0].(qty := lots[0].qty + delta)]
    else if delta < 0.0 then Cascade(lots, -delta).0
    else lots
  }

  /** The newest surviving lot absorbs whatever cost is missing. */
  function WithCost(lots: seq<Lot>, brokerCost: Option<real>): seq<Lot> {
    var t := FirstHeld(lots);
    if brokerCost.None? || t == |lots| then lots
    else lots[t := lots[t].(cost := brokerCost.value - (HeldCost(lots) - lots[t].cost))]
  }

  /** What the lots are to become. */
  function Adjusted(lots: seq<Lot>, brokerQty: real, brokerCost: Option<real>): seq<Lot> {
    WithCost(WithQuantity(lots, brokerQty), if brokerQty >= 0.0 then brokerCost else None)
  }

  datatype Plan = Plan(symbol: string, prev: Lot, next: Lot)

  /** Only lots that really change are planned. */
  function Plans(symbol: string, lots: seq<Lot>, next: seq<Lot>): seq<Plan>
    requires |next| == |lots|
  {
    if lots == [] then []
    else
      var n := |lots| - 1;
      Plans(symbol, lots[..n], next[..n]) + (if lots[n] != next[n] then [Plan(symbol, lots[n], next[n])] else [])
  }

  /** The book after its plans: an adjustment to zero closes the lot. */
  function BookAfter(lots: seq<Lot>, next: seq<Lot>): seq<Lot>
    requires |next| == |lots|
  {
    if lots == [] then []
    else
      var n := |lots| - 1;
      BookAfter(lots[..n], next[..n]) + (if next[n] != lots[n] && next[n].qty == 0.0 then [] else [next[n]])
  }

  // -------------------------------------------------------------- conservation

  /** What taking shares does to one lot. */
  ghost predicate GivesUp(lot: Lot, next: Lot) {
    && next.id == lot.id && 0.0 <= next.qty <= lot.qty
    && (next != lot ==> next.qty < lot.qty)
    && (next.qty > 0.0 ==> next.cost == lot.cost)
    && (next != lot && next.qty == 0.0 ==> next.cost == 0.0)
  }

  lemma TakenShape(lot: Lot, left: real)
    requires lot.qty >= 0.0 && left >= 0.0
    ensures var take := Min(lot.qty, left);
            && GivesUp(lot, Taken(lot, take)) && 0.0 <= take <= left
            && Taken(lot, take).qty == lot.qty - take
            && (take < left ==> Taken(lot, take).qty == 0.0)
            && (left == 0.0 ==> Taken(lot, take) == lot)
  {}

  /** What is taken is gone from the lots. */
  lemma {:induction false} CascadeSums(lots: seq<Lot>, amount: real)
    requires NonNegative(lots) && amount >= 0.0
    ensures var (next, left) := Cascade(lots, amount);
            |next| == |lots| && 0.0 <= left <= amount && SumQty(next) == SumQty(lots) - (amount - left)
  {
    if lots != [] {
      var n := |lots| - 1;
      CascadeSums(lots[..n], amount);
      var (front, left) := Cascade(lots[..n], amount);
      TakenShape(lots[n], left);
      assert Cascade(lots, amount).0[..n] == front;
    }
  }

  lemma {:induction false} CascadeGivesUp(lots: seq<Lot>, amount: real)
    requires NonNegative(lots) && amount >= 0.0
    ensures var next := Cascade(lots, amount).0;
            |next| == |lots| && forall i :: 0 <= i < |lots| ==> GivesUp(lots[i], next[i])
  {
    CascadeSums(lots, amount);
    if lots != [] {
      var n := |lots| - 1;
      CascadeGivesUp(lots[..n], amount);
      var (front, left) := Cascade(lots[..n], amount);
      CascadeSums(lots[..n], amount);
      TakenShape(lots[n], left);
      assert Cascade(lots, amount).0[..n] == front;
    }
  }

  /** A lot is touched only once those before it are empty, and something is left over
      only once all are. */
  lemma {:induction false} CascadeInOrder(lots: seq<Lot>, amount: real)
    requires NonNegative(lots) && amount >= 0.0
    ensures var (next, left) := Cascade(lots, amount);
            && |next| == |lots|
            && (left > 0.0 ==> forall i :: 0 <= i < |lots| ==> next[i].qty == 0.0)
            && (forall j, i :: 0 <= j < i < |lots| && next[i] != lots[i] ==> next[j].qty == 0.0)
  {
    CascadeSums(lots, amount);
    if lots != [] {
      var n := |lots| - 1;
      CascadeInOrder(lots[..n], amount);
      var (front, left) := Cascade(lots[..n], amount);
      CascadeSums(lots[..n], amount);
      TakenShape(lots[n], left);
      assert Cascade(lots, amount).0[..n] == front;
    }
  }

  lemma CascadeShape(lots: seq<Lot>, amount: real)
    requires NonNegative(lots) && amount >= 0.0
    ensures var (next, left) := Cascade(lots, amount);
            && |next| == |lots| && 0.0 <= left <= amount
            && SumQty(next) == SumQty(lots) - (amount - left)
            && (forall i :: 0 <= i < |lots| ==> GivesUp(lots[i], next[i]))
            && (left > 0.0 ==> forall i :: 0 <= i < |lots| ==> next[i].qty == 0.0)
            && (forall j, i :: 0 <= j < i < |lots| && next[i] != lots[i] ==> next[j].qty == 0.0)
  {
    CascadeSums(lots, amount);
    CascadeGivesUp(lots, amount);
    CascadeInOrder(lots, amount);
  }

  lemma {:induction false} SumQtyBounds(lots: seq<Lot>)
    requires NonNegative(lots)
    ensures SumQty(lots) >= 0.0
    ensures SumQty(lots) == 0.0 <==> forall i :: 0 <= i < |lots| ==> lots[i].qty == 0.0
  {
    if lots != [] {
      SumQtyBounds(lots[..|lots| - 1]);
    }
  }

  lemma {:induction false} SumUpdate(lots: seq<Lot>, k: nat, lot: Lot)
    requires k < |lots|
    ensures SumQty(lots[k := lot]) == SumQty(lots) - lots[k].qty + lot.qty
    ensures lot.qty > 0.0 && lots[k].qty > 0.0 ==>
              HeldCost(lots[k := lot]) == HeldCost(lots) - lots[k].cost + lot.cost
  {
    var n := |lots| - 1;
    if k < n {
      SumUpdate(lots[..n], k, lot);
      assert lots[k := lot][..n] == lots[..n][k := lot];
    } else {
      assert lots[k := lot][..n] == lots[..n];
    }
  }

  lemma QuantityConserved(lots: seq<Lot>, brokerQty: real)
    requires NonNegative(lots) && lots != [] && brokerQty >= 0.0
    ensures var mid := WithQuantity(lots, brokerQty);
            |mid| == |lots| && NonNegative(mid) && SumQty(mid) == brokerQty
  {
    var delta := brokerQty - SumQty(lots);
    if delta > 0.0 {
      SumUpdate(lots, 0, lots[0].(qty := lots[0].qty + delta));
    } else if delta < 0.0 {
      CascadeShape(lots, -delta);
      SumQtyBounds(Cascade(lots, -delta).0);
    }
  }

  /** Which lots a change of quantity may touch. */
  lemma QuantityIsLifo(lots: seq<Lot>, brokerQty: real)
    requires NonNegative(lots)
    ensures var mid := WithQuantity(lots, brokerQty);
            && |mid| == |lots|
            && (forall j, i :: 0 <= j < i < |lots| && mid[i].qty < lots[i].qty ==> mid[j].qty == 0.0)
            && (forall i :: 0 < i < |lots| ==> mid[i].qty <= lots[i].qty)
            && (forall i :: 0 <= i < |lots| ==> mid[i].id == lots[i].id)
            && (forall i :: 0 <= i < |lots| && mid[i].qty > 0.0 ==> mid[i].cost == lots[i].cost)
  {
    if brokerQty < SumQty(lots) {
      CascadeShape(lots, SumQty(lots) - brokerQty);
    }
  }

  lemma CostConserved(mid: seq<Lot>, brokerCost: Option<real>)
    requires NonNegative(mid)
    ensures var next := WithCost(mid, brokerCost);
            && |next| == |mid| && SumQty(next) == SumQty(mid)
            && (forall i :: 0 <= i < |mid| ==> next[i].qty == mid[i].qty && next[i].id == mid[i].id)
            && (brokerCost.Some? && SumQty(mid) > 0.0 ==> HeldCost(next) == brokerCost.value)
            && (forall i :: 0 <= i < |mid| && next[i] != mid[i] ==>
                  next[i].qty > 0.0 && forall j :: 0 <= j < i ==> next[j].qty == 0.0)
  {
    SumQtyBounds(mid);
    var t := FirstHeld(mid);
    if t < |mid| && brokerCost.Some? {
      SumUpdate(mid, t, mid[t].(cost := brokerCost.value - (HeldCost(mid) - mid[t].cost)));
    }
  }

  /** The adjusted lots hold exactly the broker's shares; and when its cost is
      known, the surviving lots carry exactly that cost between them. */
  lemma PlanConserves(lots: seq<Lot>, brokerQty: real, brokerCost: Option<real>)
    requires NonNegative(lots) && lots != [] && brokerQty >= 0.0
    ensures var next := Adjusted(lots, brokerQty, brokerCost);
            && |next| == |lots| && NonNegative(next)
            && SumQty(next) == brokerQty
            && (brokerCost.Some? && brokerQty > 0.0 ==> HeldCost(next) == brokerCost.value)
  {
    QuantityConserved(lots, brokerQty);
    CostConserved(WithQuantity(lots, brokerQty), brokerCost);
  }

  /** LIFO: shares come off an older lot only once every newer one is empty; shares
      are added to the newest lot alone; and no lot but the one that absorbs the
      cost keeps its shares at another cost. */
  lemma PlanIsLifo(lots: seq<Lot>, brokerQty: real, brokerCost: Option<real>)
    requires NonNegative(lots) && lots != [] && brokerQty >= 0.0
    ensures var next := Adjusted(lots, brokerQty, brokerCost);
            && |next| == |lots|
            && (forall j, i :: 0 <= j < i < |lots| && next[i].qty < lots[i].qty ==> next[j].qty == 0.0)
            && (forall i :: 0 < i < |lots| ==> next[i].qty <= lots[i].qty)
            && (forall i :: 0 <= i < |lots| ==> next[i].id == lots[i].id)
            && (forall i :: 0 <= i < |lots| && next[i].qty > 0.0 && next[i].cost != lots[i].cost ==>
                  forall j :: 0 <= j < i ==> next[j].qty == 0.0)
  {
    QuantityConserved(lots, brokerQty);
    QuantityIsLifo(lots, brokerQty);
    CostConserved(WithQuantity(lots, brokerQty), brokerCost);
  }

  // --------------------------------------------------------- per-symbol verdict

  datatype Kind = ShortUnrepresentable | PositionUnknownBroker | PositionMissingBroker | PositionQty | PositionAvgCost
  datatype Action = LatchedOperator | AdjustDeferred | DoAdjust
  datatype Finding = Finding(kind: Kind, symbol: string, local: real, broker: real, action: Action)
  datatype Note = CostUnverifiable(symbol: string) | AdjustDeferredInflight(symbol: string)

  datatype Verdict = Verdict(findings: seq<Finding>, plans: seq<Plan>, notes: set<Note>)

  function PositionAction(symbol: string, frozen: set<string>, inflight: set<string>, adjustsAllowed: bool): Action {
    if symbol in frozen then LatchedOperator
    else if symbol in inflight || !adjustsAllowed then AdjustDeferred
    else DoAdjust
  }

  function Abs(x: real): real { if x < 0.0 then -x else x }

  function BrokerQty(b: Option<BrokerPosition>): real { if b.None? then 0.0 else b.value.qty }

  function BrokerCost(b: Option<BrokerPosition>): Option<real> {
    if b.None? || b.value.avgEntryPrice.None? then None
    else Some(b.value.avgEntryPrice.value * b.value.qty)
  }

  function DiffSymbol(symbol: string, lots: seq<Lot>, b: Option<BrokerPosition>,
                      frozen: set<string>, inflight: set<string>, adjustsAllowed: bool): (v: Verdict)
  {
    var localQty, localCost := SumQty(lots), SumCost(lots);
    var brokerQty, brokerCost := BrokerQty(b), BrokerCost(b);
    if localQty == 0.0 && brokerQty == 0.0 then Verdict([], [], {})
    else if brokerQty < 0.0 then
      Verdict([Finding(ShortUnrepresentable, symbol, localQty, brokerQty, LatchedOperator)], [], {})
    else if localQty == 0.0 then
      Verdict([Finding(PositionUnknownBroker, symbol, 0.0, brokerQty, LatchedOperator)], [], {})
    else
      var action := PositionAction(symbol, frozen, inflight, adjustsAllowed);
      var noCost := if brokerCost.None? && lots != [] then {CostUnverifiable(symbol)} else {};
      var deferred := if symbol in inflight then {AdjustDeferredInflight(symbol)} else {};
      if localQty != brokerQty then
        var kind := if brokerQty == 0.0 then PositionMissingBroker else PositionQty;
        Verdict([Finding(kind, symbol, localQty, brokerQty, action)],
                PlansFor(symbol, lots, brokerQty, brokerCost, action), noCost + deferred)
      else if brokerCost.None? then Verdict([], [], noCost)
      else if Abs(localCost - brokerCost.value) > Abs(brokerQty) * COST_TOLERANCE_PER_SHARE then
        Verdict([Finding(PositionAvgCost, symbol, localCost, brokerCost.value, action)],
                PlansFor(symbol, lots, brokerQty, brokerCost, action),
                if action == DoAdjust then {} else deferred)
      else Verdict([], [], {})
  }

  function Same(lots: seq<Lot>, next: seq<Lot>): seq<Lot> { if |next| == |lots| then next else lots }

  function PlansFor(symbol: string, lots: seq<Lot>, brokerQty: real, brokerCost: Option<real>, action: Action): seq<Plan> {
    if action == DoAdjust then Plans(symbol, lots, Same(lots, Adjusted(lots, brokerQty, brokerCost))) else []
  }

  /** The lots of a symbol once its verdict has been applied. */
  function LotsAfter(symbol: string, lots: seq<Lot>, b: Option<BrokerPosition>,
                     frozen: set<string>, inflight: set<string>, adjustsAllowed: bool): seq<Lot>
  {
    if DiffSymbol(symbol, lots, b, frozen, inflight, adjustsAllowed).plans == [] then lots
    else BookAfter(lots, Same(lots, Adjusted(lots, BrokerQty(b), BrokerCost(b))))
  }

  /** Nothing is planned for a frozen or deferred symbol, nor when adjusting is off. */
  lemma NoPlanUnlessAdjusting(symbol: string, lots: seq<Lot>, b: Option<BrokerPosition>,
                              frozen: set<string>, inflight: set<string>, adjustsAllowed: bool)
    ensures var v := DiffSymbol(symbol, lots, b, frozen, inflight, adjustsAllowed);
            && (v.plans != [] ==> symbol !in frozen && symbol !in inflight && adjustsAllowed)
            && (v.plans != [] ==> exists f :: f in v.findings && f.action == DoAdjust)
            && (forall p :: p in v.plans ==> p.symbol == symbol && p.prev in lots && p.prev.id == p.next.id)
  {
    var next := Same(lots, Adjusted(lots, BrokerQty(b), BrokerCost(b)));
    SameIds(lots, BrokerQty(b), BrokerCost(b));
    PlansMembers(symbol, lots, next);
    var v := DiffSymbol(symbol, lots, b, frozen, inflight, adjustsAllowed);
    assert v.findings != [] ==> v.findings[0] in v.findings;
  }

  lemma {:induction false} CascadeIds(lots: seq<Lot>, amount: real)
    ensures |Cascade(lots, amount).0| == |lots|
    ensures forall i :: 0 <= i < |lots| ==> Cascade(lots, amount).0[i].id == lots[i].id
  {
    if lots != [] {
      CascadeIds(lots[..|lots| - 1], amount);
    }
  }

  ghost predicate SameLots(lots: seq<Lot>, next: seq<Lot>) {
    |next| == |lots| && forall i :: 0 <= i < |lots| ==> next[i].id == lots[i].id
  }

  lemma QuantityKeepsIds(lots: seq<Lot>, brokerQty: real)
    ensures SameLots(lots, WithQuantity(lots, brokerQty))
  {
    CascadeIds(lots, SumQty(lots) - brokerQty);
  }

  lemma CostKeepsIds(lots: seq<Lot>, brokerCost: Option<real>)
    ensures SameLots(lots, WithCost(lots, brokerCost))
  {}

  lemma SameIds(lots: seq<Lot>, brokerQty: real, brokerCost: Option<real>)
    ensures var next := Adjusted(lots, brokerQty, brokerCost);
            |next| == |lots| && forall i :: 0 <= i < |lots| ==> next[i].id == lots[i].id
  {
    QuantityKeepsIds(lots, brokerQty);
    CostKeepsIds(WithQuantity(lots, brokerQty), if brokerQty >= 0.0 then brokerCost else None);
  }

  lemma {:induction false} PlansMembers(symbol: string, lots: seq<Lot>, next: seq<Lot>)
    requires SameLots(lots, next)
    ensures forall p :: p in Plans(symbol, lots, next) ==>
              p.symbol == symbol && p.prev in lots && p.prev.id == p.next.id && p.prev != p.next
  {
    if lots != [] {
      var n := |lots| - 1;
      PlansMembers(symbol, lots[..n], next[..n]);
      assert lots == lots[..n] + [lots[n]];
    }
  }

  lemma {:induction false} NoPlansIff(symbol: string, lots: seq<Lot>, next: seq<Lot>)
    requires |next| == |lots|
    ensures Plans(symbol, lots, next) == [] <==> next == lots
  {
    if lots != [] {
      var n := |lots| - 1;
      NoPlansIff(symbol, lots[..n], next[..n]);
      assert lots == lots[..n] + [lots[n]] && next == next[..n] + [next[n]];
    }
  }

  // ------------------------------------------------------------------- fixpoint

  /** Cost stuck in lots that were already empty and stay open. */
  function StaleCost(lots: seq<Lot>, next: seq<Lot>): real
    requires |next| == |lots|
  {
    if lots == [] then 0.0
    else
      var n := |lots| - 1;
      StaleCost(lots[..n], next[..n]) + (if next[n] == lots[n] && next[n].qty == 0.0 then next[n].cost else 0.0)
  }

  lemma BookAfterStep(lots: seq<Lot>, next: seq<Lot>)
    requires |next| == |lots| > 0
    ensures var n := |lots| - 1;
            var front := BookAfter(lots[..n], next[..n]);
            BookAfter(lots, next) == if next[n] != lots[n] && next[n].qty == 0.0 then front else front + [next[n]]
  {
    var n := |lots| - 1;
    assert BookAfter(lots[..n], next[..n]) + [] == BookAfter(lots[..n], next[..n]);
  }

  lemma SumsSnoc(lots: seq<Lot>, lot: Lot)
    ensures SumQty(lots + [lot]) == SumQty(lots) + lot.qty && SumCost(lots + [lot]) == SumCost(lots) + lot.cost
  {
    assert (lots + [lot])[..|lots|] == lots;
  }

  lemma {:induction false} BookAfterSums(lots: seq<Lot>, next: seq<Lot>)
    requires |next| == |lots| && NonNegative(next)
    ensures SumQty(BookAfter(lots, next)) == SumQty(next)
    ensures SumCost(BookAfter(lots, next)) == HeldCost(next) + StaleCost(lots, next)
    ensures NonNegative(BookAfter(lots, next))
  {
    if lots != [] {
      var n := |lots| - 1;
      BookAfterSums(lots[..n], next[..n]);
      BookAfterStep(lots, next);
      SumsSnoc(BookAfter(lots[..n], next[..n]), next[n]);
    }
  }

  lemma {:induction false} BookAfterIsOpen(lots: seq<Lot>, next: seq<Lot>)
    requires |next| == |lots| && NonNegative(next) && AllOpen(lots)
    ensures AllOpen(BookAfter(lots, next)) && StaleCost(lots, next) == 0.0
  {
    if lots != [] {
      BookAfterIsOpen(lots[..|lots| - 1], next[..|lots| - 1]);
      BookAfterStep(lots, next);
    }
  }

  /** Converges in one step: on a book of open lots, once a symbol has been
      adjusted the same comparison with the same broker view finds nothing. */
  lemma AdjustedSymbolIsClean(symbol: string, lots: seq<Lot>, b: Option<BrokerPosition>,
                              frozen: set<string>, inflight: set<string>, adjustsAllowed: bool)
    requires AllOpen(lots)
    requires exists f :: f in DiffSymbol(symbol, lots, b, frozen, inflight, adjustsAllowed).findings && f.action == DoAdjust
    ensures var after := LotsAfter(symbol, lots, b, frozen, inflight, adjustsAllowed);
            && AllOpen(after) && SumQty(after) == BrokerQty(b)
            && DiffSymbol(symbol, after, b, frozen, inflight, adjustsAllowed).findings == []
            && DiffSymbol(symbol, after, b, frozen, inflight, adjustsAllowed).plans == []
  {
    AdjustedSymbolIsCleanIff(symbol, lots, b, frozen, inflight, adjustsAllowed);
    NoHoldingNoAdjust(symbol, lots, b, frozen, inflight, adjustsAllowed);
    PlanConserves(lots, BrokerQty(b), BrokerCost(b));
    LotsAfterIsBookAfter(symbol, lots, b, frozen, inflight, adjustsAllowed);
    BookAfterSums(lots, Adjusted(lots, BrokerQty(b), BrokerCost(b)));
    BookAfterIsOpen(lots, Adjusted(lots, BrokerQty(b), BrokerCost(b)));
    AgreeingQuantity(symbol, LotsAfter(symbol, lots, b, frozen, inflight, adjustsAllowed), b, frozen, inflight, adjustsAllowed);
  }

  /** On any book, with lots that are empty but still open: clean exactly when the
      cost stuck in those lots is within the tolerance of the comparison. */
  lemma AdjustedSymbolIsCleanIff(symbol: string, lots: seq<Lot>, b: Option<BrokerPosition>,
                                 frozen: set<string>, inflight: set<string>, adjustsAllowed: bool)
    requires NonNegative(lots)
    requires exists f :: f in DiffSymbol(symbol, lots, b, frozen, inflight, adjustsAllowed).findings && f.action == DoAdjust
    ensures var after := LotsAfter(symbol, lots, b, frozen, inflight, adjustsAllowed);
            var next := Adjusted(lots, BrokerQty(b), BrokerCost(b));
            && |next| == |lots|
            && SumQty(after) == BrokerQty(b)
            && (DiffSymbol(symbol, after, b, frozen, inflight, adjustsAllowed).findings == []
                <==> BrokerQty(b) == 0.0 || BrokerCost(b).None?
                     || Abs(StaleCost(lots, next)) <= BrokerQty(b) * COST_TOLERANCE_PER_SHARE)
  {
    NoHoldingNoAdjust(symbol, lots, b, frozen, inflight, adjustsAllowed);
    var next := Adjusted(lots, BrokerQty(b), BrokerCost(b));
    LotsAfterIsBookAfter(symbol, lots, b, frozen, inflight, adjustsAllowed);
    AdjustedSums(lots, b);
    AgreeingQuantity(symbol, BookAfter(lots, next), b, frozen, inflight, adjustsAllowed);
  }

  /** The adjusted lots against the broker: the same shares, and its cost but for what
      is stuck. */
  lemma AdjustedSums(lots: seq<Lot>, b: Option<BrokerPosition>)
    requires NonNegative(lots) && lots != [] && BrokerQty(b) >= 0.0
    ensures var next := Adjusted(lots, BrokerQty(b), BrokerCost(b));
            && |next| == |lots| && SumQty(BookAfter(lots, next)) == BrokerQty(b)
            && (BrokerCost(b).Some? && BrokerQty(b) > 0.0 ==>
                  SumCost(BookAfter(lots, next)) - BrokerCost(b).value == StaleCost(lots, next))
  {
    PlanConserves(lots, BrokerQty(b), BrokerCost(b));
    BookAfterSums(lots, Adjusted(lots, BrokerQty(b), BrokerCost(b)));
  }

  lemma NoHoldingNoAdjust(symbol: string, lots: seq<Lot>, b: Option<BrokerPosition>,
                          frozen: set<string>, inflight: set<string>, adjustsAllowed: bool)
    requires exists f :: f in DiffSymbol(symbol, lots, b, frozen, inflight, adjustsAllowed).findings && f.action == DoAdjust
    ensures lots != [] && BrokerQty(b) >= 0.0
    ensures DiffSymbol(symbol, lots, b, frozen, inflight, adjustsAllowed).plans
            == PlansFor(symbol, lots, BrokerQty(b), BrokerCost(b), DoAdjust)
  {
    assert SumQty([]) == 0.0;
  }

  lemma LotsAfterIsBookAfter(symbol: string, lots: seq<Lot>, b: Option<BrokerPosition>,
                             frozen: set<string>, inflight: set<string>, adjustsAllowed: bool)
    requires exists f :: f in DiffSymbol(symbol, lots, b, frozen, inflight, adjustsAllowed).findings && f.action == DoAdjust
    ensures var next := Adjusted(lots, BrokerQty(b), BrokerCost(b));
            |next| == |lots| && LotsAfter(symbol, lots, b, frozen, inflight, adjustsAllowed) == BookAfter(lots, next)
  {
    NoHoldingNoAdjust(symbol, lots, b, frozen, inflight, adjustsAllowed);
    var next := Adjusted(lots, BrokerQty(b), BrokerCost(b));
    SameIds(lots, BrokerQty(b), BrokerCost(b));
    NoPlansIff(symbol, lots, next);
    UnchangedBook(lots);
  }

  /** With the quantities agreeing only the cost can still be reported. */
  lemma AgreeingQuantity(symbol: string, lots: seq<Lot>, b: Option<BrokerPosition>,
                         frozen: set<string>, inflight: set<string>, adjustsAllowed: bool)
    requires SumQty(lots) == BrokerQty(b) >= 0.0
    ensures var v := DiffSymbol(symbol, lots, b, frozen, inflight, adjustsAllowed);
            && (v.findings == [] ==> v.plans == [])
            && (v.findings == [] <==>
                  BrokerQty(b) == 0.0 || BrokerCost(b).None?
                  || Abs(SumCost(lots) - BrokerCost(b).value) <= BrokerQty(b) * COST_TOLERANCE_PER_SHARE)
  {}

  lemma {:induction false} UnchangedBook(lots: seq<Lot>)
    ensures BookAfter(lots, lots) == lots
  {
    if lots != [] {
      var n := |lots| - 1;
      UnchangedBook(lots[..n]);
      BookAfterStep(lots, lots);
      assert lots == lots[..n] + [lots[n]];
    }
  }

  // ------------------------------------------------------------ the whole book

  type Book = map<string, seq<Lot>>
  type Portfolio = map<string, BrokerPosition>

  function LotsOf(local: Book, symbol: string): seq<Lot> { if symbol in local then local[symbol] else [] }

  function AtBroker(portfolio: Portfolio, symbol: string): Option<BrokerPosition> {
    if symbol in portfolio then Some(portfolio[symbol]) else None
  }

  function DiffAll(local: Book, portfolio: Portfolio, symbols: seq<string>,
                   frozen: set<string>, inflight: set<string>, adjustsAllowed: bool): Verdict
  {
    if symbols == [] then Verdict([], [], {})
    else
      var front := DiffAll(local, portfolio, symbols[..|symbols| - 1], frozen, inflight, adjustsAllowed);
      var s := symbols[|symbols| - 1];
      var v := DiffSymbol(s, LotsOf(local, s), AtBroker(portfolio, s), frozen, inflight, adjustsAllowed);
      Verdict(front.findings + v.findings, front.plans + v.plans, front.notes + v.notes)
  }

  /** The book once every plan has been applied. */
  function BookAfterAll(local: Book, portfolio: Portfolio, frozen: set<string>, inflight: set<string>, adjustsAllowed: bool): Book {
    map s | s in local :: LotsAfter(s, local[s], AtBroker(portfolio, s), frozen, inflight, adjustsAllowed)
  }

  lemma UnadjustedLotsUnchanged(symbol: string, lots: seq<Lot>, b: Option<BrokerPosition>,
                                frozen: set<string>, inflight: set<string>, adjustsAllowed: bool)
    requires forall f :: f in DiffSymbol(symbol, lots, b, frozen, inflight, adjustsAllowed).findings ==> f.action != DoAdjust
    ensures LotsAfter(symbol, lots, b, frozen, inflight, adjustsAllowed) == lots
  {
    NoPlanUnlessAdjusting(symbol, lots, b, frozen, inflight, adjustsAllowed);
  }

  lemma BookStaysNonNegative(local: Book, portfolio: Portfolio, frozen: set<string>, inflight: set<string>,
                             adjustsAllowed: bool)
    requires forall s :: s in local ==> NonNegative(local[s])
    ensures var after := BookAfterAll(local, portfolio, frozen, inflight, adjustsAllowed);
            forall s :: s in after ==> NonNegative(after[s])
  {
    var after := BookAfterAll(local, portfolio, frozen, inflight, adjustsAllowed);
    forall s | s in after ensures NonNegative(after[s]) {
      var lots, b := local[s], AtBroker(portfolio, s);
      NoPlanUnlessAdjusting(s, lots, b, frozen, inflight, adjustsAllowed);
      if DiffSymbol(s, lots, b, frozen, inflight, adjustsAllowed).plans != [] {
        NoHoldingNoAdjust(s, lots, b, frozen, inflight, adjustsAllowed);
        PlanConserves(lots, BrokerQty(b), BrokerCost(b));
        BookAfterSums(lots, Adjusted(lots, BrokerQty(b), BrokerCost(b)));
      }
    }
  }

  lemma BookStaysOpen(local: Book, portfolio: Portfolio, frozen: set<string>, inflight: set<string>, adjustsAllowed: bool)
    requires forall s :: s in local ==> AllOpen(local[s])
    ensures var after := BookAfterAll(local, portfolio, frozen, inflight, adjustsAllowed);
            forall s :: s in after ==> AllOpen(after[s])
  {
    var after := BookAfterAll(local, portfolio, frozen, inflight, adjustsAllowed);
    forall s | s in after ensures AllOpen(after[s]) {
      var lots, b := local[s], AtBroker(portfolio, s);
      NoPlanUnlessAdjusting(s, lots, b, frozen, inflight, adjustsAllowed);
      if DiffSymbol(s, lots, b, frozen, inflight, adjustsAllowed).plans != [] {
        AdjustedSymbolIsClean(s, lots, b, frozen, inflight, adjustsAllowed);
      }
    }
  }

  /** One pass settles everything it may settle: run again on the adjusted book
      against the same broker view, it has no plan left, and what it still reports
      are findings it was not allowed to adjust. */
  lemma {:induction false} SecondPassAdjustsNothing(
    local: Book, portfolio: Portfolio, symbols: seq<string>,
    frozen: set<string>, inflight: set<string>, adjustsAllowed: bool)
    requires forall s :: s in local ==> AllOpen(local[s])
    ensures var again := DiffAll(BookAfterAll(local, portfolio, frozen, inflight, adjustsAllowed), portfolio,
                                 symbols, frozen, inflight, adjustsAllowed);
            again.plans == [] && forall f :: f in again.findings ==> f.action != DoAdjust
    decreases symbols
  {
    if symbols != [] {
      SecondPassAdjustsNothing(local, portfolio, symbols[..|symbols| - 1], frozen, inflight, adjustsAllowed);
      var s := symbols[|symbols| - 1];
      var lots, b := LotsOf(local, s), AtBroker(portfolio, s);
      assert AllOpen(lots);
      if f :| f in DiffSymbol(s, lots, b, frozen, inflight, adjustsAllowed).findings && f.action == DoAdjust {
        NoHoldingNoAdjust(s, lots, b, frozen, inflight, adjustsAllowed);
        AdjustedSymbolIsClean(s, lots, b, frozen, inflight, adjustsAllowed);
      } else {
        UnadjustedLotsUnchanged(s, lots, b, frozen, inflight, adjustsAllowed);
        NoPlanUnlessAdjusting(s, lots, b, frozen, inflight, adjustsAllowed);
      }
    }
  }

  lemma {:induction false} AdjustedBookIsClean(
    local: Book, portfolio: Portfolio, symbols: seq<string>,
    frozen: set<string>, inflight: set<string>, adjustsAllowed: bool)
    requires forall s :: s in local ==> AllOpen(local[s])
    requires forall f :: f in DiffAll(local, portfolio, symbols, frozen, inflight, adjustsAllowed).findings ==>
               f.action == DoAdjust
    ensures DiffAll(BookAfterAll(local, portfolio, frozen, inflight, adjustsAllowed), portfolio,
                    symbols, frozen, inflight, adjustsAllowed).findings == []
    decreases symbols
  {
    if symbols != [] {
      AdjustedBookIsClean(local, portfolio, symbols[..|symbols| - 1], frozen, inflight, adjustsAllowed);
      var s := symbols[|symbols| - 1];
      var lots, b := LotsOf(local, s), AtBroker(portfolio, s);
      var v := DiffSymbol(s, lots, b, frozen, inflight, adjustsAllowed);
      assert AllOpen(lots);
      if v.findings == [] {
        UnadjustedLotsUnchanged(s, lots, b, frozen, inflight, adjustsAllowed);
      } else {
        assert v.findings[0] in v.findings;
        NoHoldingNoAdjust(s, lots, b, frozen, inflight, adjustsAllowed);
        AdjustedSymbolIsClean(s, lots, b, frozen, inflight, adjustsAllowed);
      }
    }
  }

  // ----------------------------------------------------------------- the loops

  lemma {:induction false} CascadeDone(lots: seq<Lot>, i: nat, amount: real)
    requires NonNegative(lots) && amount >= 0.0 && i <= |lots|
    requires Cascade(lots[..i], amount).1 == 0.0
    ensures Cascade(lots, amount) == (Cascade(lots[..i], amount).0 + lots[i..], 0.0)
    decreases |lots|
  {
    if i == |lots| {
      assert lots[..i] == lots;
      assert Cascade(lots, amount).0 + [] == Cascade(lots, amount).0;
    } else {
      var front, last := lots[..|lots| - 1], lots[|lots| - 1];
      assert front[..i] == lots[..i];
      CascadeDone(front, i, amount);
      var done := Cascade(lots[..i], amount).0;
      assert Cascade(front, amount) == (done + front[i..], 0.0);
      assert Min(last.qty, 0.0) == 0.0 && Taken(last, 0.0) == last;
      assert done + front[i..] + [last] == done + lots[i..];
    }
  }

  /** Takes shares newest first, and stops as soon as enough are taken. */
  method CascadeLoop(lots: seq<Lot>, amount: real) returns (next: seq<Lot>)
    requires NonNegative(lots) && amount >= 0.0
    ensures next == Cascade(lots, amount).0
  {
    next := [];
    var remaining := amount;
    var i := 0;
    while i < |lots|
      invariant 0 <= i <= |lots|
      invariant (next, remaining) == Cascade(lots[..i], amount)
      invariant remaining >= 0.0
    {
      if remaining == 0.0 {
        CascadeDone(lots, i, amount);
        return next + lots[i..];
      }
      assert lots[..i + 1][..i] == lots[..i];
      var take := Min(lots[i].qty, remaining);
      next := next + [Taken(lots[i], take)];
      remaining := remaining - take;
      i := i + 1;
    }
    assert lots[..|lots|] == lots;
  }

  /** The sums over the lots, lot by lot. */
  method Totals(lots: seq<Lot>) returns (qty: real, cost: real, held: real)
    ensures qty == SumQty(lots) && cost == SumCost(lots) && held == HeldCost(lots)
  {
    qty, cost, held := 0.0, 0.0, 0.0;
    var i := 0;
    while i < |lots|
      invariant 0 <= i <= |lots|
      invariant qty == SumQty(lots[..i]) && cost == SumCost(lots[..i]) && held == HeldCost(lots[..i])
    {
      assert lots[..i + 1][..i] == lots[..i];
      qty, cost := qty + lots[i].qty, cost + lots[i].cost;
      if lots[i].qty > 0.0 {
        held := held + lots[i].cost;
      }
      i := i + 1;
    }
    assert lots[..|lots|] == lots;
  }

  lemma FirstHeldUnique(lots: seq<Lot>, k: nat)
    requires k <= |lots|
    requires k < |lots| ==> lots[k].qty > 0.0
    requires forall j :: 0 <= j < k ==> !(lots[j].qty > 0.0)
    ensures FirstHeld(lots) == k
  {}

  method AdjustQuantity(lots: seq<Lot>, brokerQty: real) returns (next: seq<Lot>)
    requires NonNegative(lots)
    ensures next == WithQuantity(lots, brokerQty) && |next| == |lots|
  {
    var localQty, _, _ := Totals(lots);
    var delta := brokerQty - localQty;
    next := lots;
    if delta > 0.0 && lots != [] {
      next := next[0 := next[0].(qty := next[0].qty + delta)];
    } else if delta < 0.0 {
      next := CascadeLoop(lots, -delta);
      CascadeIds(lots, -delta);
    }
  }

  /** The newest lot still holding shares is searched for from the front. */
  method AnchorCost(lots: seq<Lot>, brokerCost: real) returns (next: seq<Lot>)
    ensures next == WithCost(lots, Some(brokerCost)) && |next| == |lots|
  {
    next := lots;
    var target := 0;
    while target < |lots| && !(lots[target].qty > 0.0)
      invariant 0 <= target <= |lots|
      invariant forall j :: 0 <= j < target ==> !(lots[j].qty > 0.0)
    {
      target := target + 1;
    }
    FirstHeldUnique(lots, target);
    if target < |lots| {
      var _, _, held := Totals(lots);
      next := next[target := next[target].(cost := brokerCost - (held - next[target].cost))];
    }
  }

  lemma PlansStep(symbol: string, lots: seq<Lot>, next: seq<Lot>, i: nat)
    requires |next| == |lots| && i < |lots|
    ensures Plans(symbol, lots[..i + 1], next[..i + 1])
            == Plans(symbol, lots[..i], next[..i]) + (if lots[i] != next[i] then [Plan(symbol, lots[i], next[i])] else [])
  {
    assert lots[..i + 1][..i] == lots[..i] && next[..i + 1][..i] == next[..i];
  }

  method PlanPositionAdjusts(symbol: string, lots: seq<Lot>, brokerQty: real, brokerCost: Option<real>)
    returns (plans: seq<Plan>)
    requires NonNegative(lots)
    ensures plans == PlansFor(symbol, lots, brokerQty, brokerCost, DoAdjust)
  {
    var next := AdjustQuantity(lots, brokerQty);
    if brokerCost.Some? && brokerQty >= 0.0 {
      next := AnchorCost(next, brokerCost.value);
    }
    assert next == Adjusted(lots, brokerQty, brokerCost);
    plans := [];
    var i := 0;
    while i < |lots|
      invariant 0 <= i <= |lots|
      invariant plans == Plans(symbol, lots[..i], next[..i])
    {
      PlansStep(symbol, lots, next, i);
      if lots[i] != next[i] {
        plans := plans + [Plan(symbol, lots[i], next[i])];
      }
      i := i + 1;
    }
    assert lots[..|lots|] == lots && next[..|lots|] == next;
  }

  method DiffPositions(local: Book, portfolio: Portfolio, symbols: seq<string>,
                       frozen: set<string>, inflight: set<string>, adjustsAllowed: bool)
    returns (findings: seq<Finding>, plans: seq<Plan>, notes: set<Note>)
    requires forall s :: s in local ==> NonNegative(local[s])
    ensures Verdict(findings, plans, notes) == DiffAll(local, portfolio, symbols, frozen, inflight, adjustsAllowed)
  {
    findings, plans, notes := [], [], {};
    var i := 0;
    while i < |symbols|
      invariant 0 <= i <= |symbols|
      invariant Verdict(findings, plans, notes)
                == DiffAll(local, portfolio, symbols[..i], frozen, inflight, adjustsAllowed)
    {
      assert symbols[..i + 1][..i] == symbols[..i];
      var v := DiffOne(symbols[i], LotsOf(local, symbols[i]), AtBroker(portfolio, symbols[i]),
                       frozen, inflight, adjustsAllowed);
      findings, plans, notes := findings + v.findings, plans + v.plans, notes + v.notes;
      i := i + 1;
    }
    assert symbols[..|symbols|] == symbols;
  }

  /** One symbol of the comparison, with its early exits. */
  method DiffOne(symbol: string, lots: seq<Lot>, b: Option<BrokerPosition>,
                 frozen: set<string>, inflight: set<string>, adjustsAllowed: bool)
    returns (v: Verdict)
    requires NonNegative(lots)
    ensures v == DiffSymbol(symbol, lots, b, frozen, inflight, adjustsAllowed)
  {
    var localQty, localCost, _ := Totals(lots);
    var brokerQty := BrokerQty(b);
    if localQty == 0.0 && brokerQty == 0.0 {
      return Verdict([], [], {});
    }
    if brokerQty < 0.0 {
      return Verdict([Finding(ShortUnrepresentable, symbol, localQty, brokerQty, LatchedOperator)], [], {});
    }
    if localQty == 0.0 {
      return Verdict([Finding(PositionUnknownBroker, symbol, 0.0, brokerQty, LatchedOperator)], [], {});
    }
    var action := PositionAction(symbol, frozen, inflight, adjustsAllowed);
    var notes: set<Note> := {};
    if symbol in inflight && localQty != brokerQty {
      notes := notes + {AdjustDeferredInflight(symbol)};
    }
    var brokerCost := BrokerCost(b);
    if brokerCost.None? && lots != [] {
      notes := notes + {CostUnverifiable(symbol)};
    }
    var plans: seq<Plan> := [];
    if localQty != brokerQty {
      if action == DoAdjust {
        plans := PlanPositionAdjusts(symbol, lots, brokerQty, brokerCost);
      }
      var kind := if brokerQty == 0.0 then PositionMissingBroker else PositionQty;
      return Verdict([Finding(kind, symbol, localQty, brokerQty, action)], plans, notes);
    }
    if brokerCost.None? {
      return Verdict([], [], notes);
    }
    if Abs(localCost - brokerCost.value) > Abs(brokerQty) * COST_TOLERANCE_PER_SHARE {
      if action == DoAdjust {
        plans := PlanPositionAdjusts(symbol, lots, brokerQty, brokerCost);
      } else if symbol in inflight {
        notes := notes + {AdjustDeferredInflight(symbol)};
      }
      return Verdict([Finding(PositionAvgCost, symbol, localCost, brokerCost.value, action)], plans, notes);
    }
    v := Verdict([], [], {});
  }
}
