/**
 The positions of the paper book (paper_book.py), as far as a reconcile reads them:
 opened by fills, added to, closed in part or whole, adjusted to the broker. A
 position is closed as soon as it holds nothing.
 */
module PaperBook {
  import opened Wrappers
  import opened Planner

  datatype Position = Position(symbol: string, lot: Lot, open: bool)

  /** The open lots of a symbol, newest first: what a reconcile compares. */
  function OpenLots(positions: seq<Position>, symbol: string): seq<Lot> {
    if positions == [] then []
    else
      var front, p := OpenLots(positions[..|positions| - 1], symbol), positions[|positions| - 1];
      if p.symbol == symbol && p.open then front + [p.lot] else front
  }

  ghost predicate Sound(positions: seq<Position>) {
    && (forall i :: 0 <= i < |positions| ==> positions[i].open == (positions[i].lot.qty > 0.0))
    && (forall i, j :: 0 <= i < j < |positions| ==> positions[i].lot.id != positions[j].lot.id)
  }

  /** No lot that a reconcile is given is empty. */
  lemma {:induction false} OpenLotsAreOpen(positions: seq<Position>, symbol: string)
    requires forall i :: 0 <= i < |positions| ==> positions[i].open == (positions[i].lot.qty > 0.0)
    ensures AllOpen(OpenLots(positions, symbol))
  {
    if positions != [] {
      OpenLotsAreOpen(positions[..|positions| - 1], symbol);
    }
  }

  /** They are the lots of just the open positions of the symbol, in the book's order. */
  lemma {:induction false} OpenLotsAre(positions: seq<Position>, symbol: string) returns (at: seq<int>)
    ensures |at| == |OpenLots(positions, symbol)| && forall j, k :: 0 <= j < k < |at| ==> at[j] < at[k]
    ensures forall i :: i in at <==> 0 <= i < |positions| && positions[i].open && positions[i].symbol == symbol
    ensures forall k :: 0 <= k < |at| ==>
              0 <= at[k] < |positions| && positions[at[k]].lot == OpenLots(positions, symbol)[k]
  {
    at := [];
    if positions != [] {
      var n := |positions| - 1;
      var front := OpenLotsAre(positions[..n], symbol);
      assert forall k :: 0 <= k < |front| ==> front[k] in front;
      at := front + (if positions[n].open && positions[n].symbol == symbol then [n] else []);
    }
  }

  /** Index of a position; |positions| when the id is unknown. */
  function Find(positions: seq<Position>, id: string): (k: nat)
    ensures k <= |positions|
    ensures k < |positions| ==> positions[k].lot.id == id
    ensures k == |positions| ==> forall i :: 0 <= i < |positions| ==> positions[i].lot.id != id
  {
    if positions == [] then 0
    else
      var k := Find(positions[..|positions| - 1], id);
      if k < |positions| - 1 || positions[|positions| - 1].lot.id == id then k else |positions|
  }

  /** The book with another lot in place of the open one of its id; a position without
      shares is closed. */
  function SetLot(positions: seq<Position>, next: Lot): seq<Position> {
    seq(|positions|, i requires 0 <= i < |positions| =>
      if positions[i].open && positions[i].lot.id == next.id
      then Position(positions[i].symbol, next, next.qty > 0.0) else positions[i])
  }

  // ------------------------------------------------------ applying what was planned

  /** One adjustment; nothing happens to a position that is unknown or closed. */
  function ApplyOne(positions: seq<Position>, plan: Plan): seq<Position> {
    seq(|positions|, i requires 0 <= i < |positions| =>
      if positions[i].open && positions[i].lot.id == plan.prev.id
      then Position(positions[i].symbol, plan.next, plan.next.qty > 0.0) else positions[i])
  }

  function ApplyAll(positions: seq<Position>, plans: seq<Plan>): seq<Position> {
    if plans == [] then positions
    else ApplyOne(ApplyAll(positions, plans[..|plans| - 1]), plans[|plans| - 1])
  }

  /** What the plans make of one lot. */
  function Updated(lot: Lot, plans: seq<Plan>): Lot {
    if plans == [] then lot
    else if plans[|plans| - 1].prev.id == lot.id then plans[|plans| - 1].next
    else Updated(lot, plans[..|plans| - 1])
  }

  ghost predicate OnePlanPerLot(plans: seq<Plan>) {
    && (forall i :: 0 <= i < |plans| ==> plans[i].next.id == plans[i].prev.id)
    && (forall i, j :: 0 <= i < j < |plans| ==> plans[i].prev.id != plans[j].prev.id)
  }

  lemma {:induction false} UnplannedLot(lot: Lot, plans: seq<Plan>)
    requires forall i :: 0 <= i < |plans| ==> plans[i].prev.id != lot.id
    ensures Updated(lot, plans) == lot
  {
    if plans != [] {
      UnplannedLot(lot, plans[..|plans| - 1]);
    }
  }

  function Changed(p: Position, plans: seq<Plan>): Position {
    var lot := Updated(p.lot, plans);
    if p.open then Position(p.symbol, lot, lot.qty > 0.0) else p
  }

  /** Plan by plan is all at once. */
  lemma {:induction false} AppliedEach(positions: seq<Position>, plans: seq<Plan>)
    requires Sound(positions) && OnePlanPerLot(plans)
    ensures |ApplyAll(positions, plans)| == |positions|
    ensures forall i :: 0 <= i < |positions| ==> ApplyAll(positions, plans)[i] == Changed(positions[i], plans)
  {
    if plans != [] {
      var n := |plans| - 1;
      var front, last := plans[..n], plans[n];
      AppliedEach(positions, front);
      forall i | 0 <= i < |positions|
        ensures ApplyAll(positions, plans)[i] == Changed(positions[i], plans)
      {
        if positions[i].lot.id == last.prev.id {
          UnplannedLot(positions[i].lot, front);
        } else {
          UpdatedId(positions[i].lot, front);
        }
      }
    }
  }

  lemma {:induction false} UpdatedId(lot: Lot, plans: seq<Plan>)
    requires forall i :: 0 <= i < |plans| ==> plans[i].next.id == plans[i].prev.id
    ensures Updated(lot, plans).id == lot.id
  {
    if plans != [] {
      UpdatedId(lot, plans[..|plans| - 1]);
    }
  }

  /** The lots that are left, each as it was planned. */
  function Survivors(lots: seq<Lot>, plans: seq<Plan>): seq<Lot> {
    if lots == [] then []
    else
      var front, lot := Survivors(lots[..|lots| - 1], plans), Updated(lots[|lots| - 1], plans);
      if lot.qty > 0.0 then front + [lot] else front
  }

  lemma {:induction false} LotsSurvive(positions: seq<Position>, after: seq<Position>, plans: seq<Plan>, symbol: string)
    requires |after| == |positions| && forall i :: 0 <= i < |positions| ==> after[i] == Changed(positions[i], plans)
    ensures OpenLots(after, symbol) == Survivors(OpenLots(positions, symbol), plans)
  {
    if positions != [] {
      var n := |positions| - 1;
      LotsSurvive(positions[..n], after[..n], plans, symbol);
      var lots := OpenLots(positions[..n], symbol);
      assert (lots + [positions[n].lot])[..|lots|] == lots;
    }
  }

  /** `next` says what the lots are to become, and `plans` plans it. */
  ghost predicate Planned(lots: seq<Lot>, next: seq<Lot>, plans: seq<Plan>)
    requires |next| == |lots|
  {
    forall i :: 0 <= i < |lots| ==> Updated(lots[i], plans) == next[i]
  }

  lemma {:induction false} SurvivorsAreBookAfter(lots: seq<Lot>, next: seq<Lot>, plans: seq<Plan>)
    requires |next| == |lots| && AllOpen(lots) && NonNegative(next) && Planned(lots, next, plans)
    ensures Survivors(lots, plans) == BookAfter(lots, next)
  {
    if lots != [] {
      var n := |lots| - 1;
      SurvivorsAreBookAfter(lots[..n], next[..n], plans);
      BookAfterStep(lots, next);
    }
  }

  ghost predicate DistinctLots(lots: seq<Lot>) {
    forall i, j :: 0 <= i < j < |lots| ==> lots[i].id != lots[j].id
  }

  lemma PlanSnoc(plans: seq<Plan>, plan: Plan)
    requires OnePlanPerLot(plans) && plan.next.id == plan.prev.id
    requires forall p :: p in plans ==> p.prev.id != plan.prev.id
    ensures OnePlanPerLot(plans + [plan])
    ensures forall lot :: Updated(lot, plans + [plan]) == if plan.prev.id == lot.id then plan.next else Updated(lot, plans)
  {
    assert (plans + [plan])[..|plans|] == plans;
    assert forall i :: 0 <= i < |plans| ==> plans[i] in plans;
  }

  /** `plans` plans all of the lots, one plan each at most. */
  ghost predicate PlansAll(lots: seq<Lot>, next: seq<Lot>, plans: seq<Plan>)
    requires |next| == |lots|
  {
    OnePlanPerLot(plans) && (forall p :: p in plans ==> p.prev in lots) && Planned(lots, next, plans)
  }

  /** The plans of the earlier lots do not concern a later one. */
  lemma OneMoreLot(symbol: string, lots: seq<Lot>, next: seq<Lot>, lot: Lot, after: Lot, plans: seq<Plan>)
    requires |next| == |lots| && PlansAll(lots, next, plans) && after.id == lot.id
    requires forall i :: 0 <= i < |lots| ==> lots[i].id != lot.id
    ensures PlansAll(lots + [lot], next + [after], plans + (if lot != after then [Plan(symbol, lot, after)] else []))
  {
    assert forall p :: p in plans ==> p.prev.id != lot.id;
    if lot != after {
      PlanSnoc(plans, Plan(symbol, lot, after));
    } else {
      assert plans + [] == plans;
      UnplannedLot(lot, plans);
    }
  }

  lemma {:induction false} PlansPlan(symbol: string, lots: seq<Lot>, next: seq<Lot>)
    requires |next| == |lots| && DistinctLots(lots) && forall i :: 0 <= i < |lots| ==> next[i].id == lots[i].id
    ensures PlansAll(lots, next, Plans(symbol, lots, next))
  {
    if lots != [] {
      var n := |lots| - 1;
      PlansPlan(symbol, lots[..n], next[..n]);
      OneMoreLot(symbol, lots[..n], next[..n], lots[n], next[n], Plans(symbol, lots[..n], next[..n]));
      assert lots[..n] + [lots[n]] == lots && next[..n] + [next[n]] == next;
    }
  }

  lemma {:induction false} OpenLotsAreDistinct(positions: seq<Position>, symbol: string)
    requires forall i, j :: 0 <= i < j < |positions| ==> positions[i].lot.id != positions[j].lot.id
    ensures DistinctLots(OpenLots(positions, symbol))
    ensures forall l :: l in OpenLots(positions, symbol) ==> exists i :: 0 <= i < |positions| && positions[i].lot == l
  {
    if positions != [] {
      var n := |positions| - 1;
      var lots := OpenLots(positions[..n], symbol);
      OpenLotsAreDistinct(positions[..n], symbol);
      forall i | 0 <= i < |lots| ensures lots[i].id != positions[n].lot.id {
        assert lots[i] in lots;
        var j :| 0 <= j < n && positions[..n][j].lot == lots[i];
      }
      forall l | l in OpenLots(positions, symbol) ensures exists i :: 0 <= i < |positions| && positions[i].lot == l {
        if l in lots {
          var j :| 0 <= j < n && positions[..n][j].lot == l;
          assert positions[j].lot == l;
        }
      }
    }
  }

  /** Once the book has applied the plans of a symbol, its open lots are the ones the
      planner reckons with. */
  lemma AppliedPlansAreBookAfter(positions: seq<Position>, symbol: string, brokerQty: real, brokerCost: Option<real>)
    requires Sound(positions) && OpenLots(positions, symbol) != [] && brokerQty >= 0.0
    ensures var lots := OpenLots(positions, symbol);
            var next := Adjusted(lots, brokerQty, brokerCost);
            && |next| == |lots|
            && OpenLots(ApplyAll(positions, Plans(symbol, lots, next)), symbol) == BookAfter(lots, next)
  {
    var lots := OpenLots(positions, symbol);
    var next := Adjusted(lots, brokerQty, brokerCost);
    OpenLotsAreOpen(positions, symbol);
    OpenLotsAreDistinct(positions, symbol);
    PlanConserves(lots, brokerQty, brokerCost);
    PlanIsLifo(lots, brokerQty, brokerCost);
    PlansPlan(symbol, lots, next);
    var plans := Plans(symbol, lots, next);
    AppliedEach(positions, plans);
    LotsSurvive(positions, ApplyAll(positions, plans), plans, symbol);
    SurvivorsAreBookAfter(lots, next, plans);
  }

  class PaperBook {
    var positions: seq<Position>    // newest first

    constructor ()
      ensures Valid() && positions == []
    {
      positions := [];
    }

    ghost predicate Valid()
      reads this
    {
      Sound(positions)
    }

    ghost predicate IsOpen(id: string)
      reads this
    {
      exists i :: 0 <= i < |positions| && positions[i].lot.id == id && positions[i].open
    }

    /** A position starts with what its opening order filled; an id is used once. */
    method OpenPosition(id: string, symbol: string, qty: real, cost: real) returns (ok: bool)
      requires Valid() && qty > 0.0
      modifies this
      ensures Valid()
      ensures ok <==> forall i :: 0 <= i < |old(positions)| ==> old(positions)[i].lot.id != id
      ensures positions == (if ok then [Position(symbol, Lot(id, qty, cost), true)] else []) + old(positions)
    {
      if Find(positions, id) < |positions| {
        return false;
      }
      positions := [Position(symbol, Lot(id, qty, cost), true)] + positions;
      ok := true;
    }

    /** Replaces the lot of an open position; the position is closed when it is empty. */
    method Settle(next: Lot) returns (ok: bool)
      requires Valid() && next.qty >= 0.0
      modifies this
      ensures Valid() && (ok <==> old(IsOpen(next.id)))
      ensures positions == SetLot(old(positions), next)
    {
      var k := Find(positions, next.id);
      if k == |positions| || !positions[k].open {
        assert positions == SetLot(positions, next);
        return false;
      }
      positions := positions[k := Position(positions[k].symbol, next, next.qty > 0.0)];
      assert positions == SetLot(old(positions), next);
      ok := true;
    }

    /** The lot of a known position. */
    function LotOf(id: string): Option<Lot>
      reads this
    {
      var k := Find(positions, id);
      if k < |positions| then Some(positions[k].lot) else None
    }

    /** A further fill of an open position. */
    method ApplyFill(id: string, qty: real, cost: real) returns (ok: bool)
      requires Valid() && qty > 0.0
      modifies this
      ensures Valid() && (ok <==> old(IsOpen(id)))
      ensures ok ==>
        && old(LotOf(id)).Some?
        && var was := old(LotOf(id)).value;
           positions == SetLot(old(positions), Lot(id, was.qty + qty, was.cost + cost))
      ensures !ok ==> positions == old(positions)
    {
      var lot := LotOf(id);
      if lot.None? || !(lot.value.qty > 0.0) {
        return false;
      }
      ok := Settle(Lot(id, lot.value.qty + qty, lot.value.cost + cost));
    }

    /** An exit may flatten a position, never flip it. */
    method ClosePosition(id: string, exitQty: real, sliceCost: real) returns (ok: bool)
      requires Valid() && exitQty > 0.0
      modifies this
      ensures Valid()
      ensures ok <==> old(IsOpen(id)) && old(LotOf(id)).Some? && exitQty <= old(LotOf(id)).value.qty
      ensures ok ==>
        var was := old(LotOf(id)).value;
        positions == SetLot(old(positions), Lot(id, was.qty - exitQty, was.cost - sliceCost))
      ensures !ok ==> positions == old(positions)
    {
      var lot := LotOf(id);
      if lot.None? || !(lot.value.qty > 0.0) || exitQty > lot.value.qty {
        return false;
      }
      ok := Settle(Lot(id, lot.value.qty - exitQty, lot.value.cost - sliceCost));
    }

    /** A planned adjustment of a reconcile; one to nothing closes the position. */
    method ApplyPositionAdjust(plan: Plan) returns (ok: bool)
      requires Valid() && plan.next.id == plan.prev.id && plan.next.qty >= 0.0
      modifies this
      ensures Valid() && (ok <==> old(IsOpen(plan.prev.id)))
      ensures positions == ApplyOne(old(positions), plan)
    {
      ok := Settle(plan.next);
      assert positions == ApplyOne(old(positions), plan);
    }
  }
}
