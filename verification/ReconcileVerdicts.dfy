/**
 What a reconcile reports and does, read off what it was given (broker_reconcile.py,
 Orchestrator.run_reconcile): each symbol's finding, action and notes, the position it
 ends up with, and the latch, cash and baseline a pass leaves behind.
 */
module ReconcileVerdicts {
  import opened Wrappers
  import opened ReconcileRows
  import opened Reconcile
  import opened Planner
  import Cash
  import OrderProbe

  // ------------------------------------------------------------------ one symbol

  ghost function SharesAt(b: Option<BrokerPosition>): real {
    match b
    case None => 0.0
    case Some(p) => p.qty
  }

  ghost predicate Priced(b: Option<BrokerPosition>) { b.Some? && b.value.avgEntryPrice.Some? }

  /** The broker's average price times its shares, when it gives one. */
  ghost predicate CostAt(b: Option<BrokerPosition>, cost: real) {
    Priced(b) && cost == b.value.avgEntryPrice.value * b.value.qty
  }

  lemma BrokerMeaning(b: Option<BrokerPosition>, cost: real)
    ensures BrokerQty(b) == SharesAt(b)
    ensures BrokerCost(b) == Some(cost) <==> CostAt(b, cost)
    ensures BrokerCost(b).Some? <==> Priced(b)
  {
    if Priced(b) {
      assert BrokerCost(b).value == b.value.avgEntryPrice.value * b.value.qty;
    }
  }

  /** More than half a cent a share apart. */
  ghost predicate FarApart(a: real, b: real, shares: real) {
    a - b > shares * 0.005 || b - a > shares * 0.005
  }

  /** Whose turn it is: the operator's for a frozen symbol, nobody's yet for one with an
      order in flight or when adjusting is off. */
  ghost predicate ActionIs(action: Action, symbol: string, frozen: set<string>, inflight: set<string>, adjustsAllowed: bool) {
    match action
    case LatchedOperator => symbol in frozen
    case AdjustDeferred => symbol !in frozen && (symbol in inflight || !adjustsAllowed)
    case DoAdjust => symbol !in frozen && symbol !in inflight && adjustsAllowed
  }

  lemma ActionMeaning(action: Action, symbol: string, frozen: set<string>, inflight: set<string>, adjustsAllowed: bool)
    ensures action == PositionAction(symbol, frozen, inflight, adjustsAllowed)
            <==> ActionIs(action, symbol, frozen, inflight, adjustsAllowed)
  {}

  /** The one thing there can be to report of a symbol. */
  ghost predicate Reports(symbol: string, local: real, localCost: real, b: Option<BrokerPosition>,
                          frozen: set<string>, inflight: set<string>, adjustsAllowed: bool, f: Finding) {
    && f.symbol == symbol
    && match f.kind
       case ShortUnrepresentable =>
         SharesAt(b) < 0.0 && (f.local, f.broker) == (local, SharesAt(b)) && f.action == Action.LatchedOperator
       case PositionUnknownBroker =>
         local == 0.0 && SharesAt(b) > 0.0 && (f.local, f.broker) == (0.0, SharesAt(b)) && f.action == Action.LatchedOperator
       case PositionMissingBroker =>
         && local != 0.0 && SharesAt(b) == 0.0 && (f.local, f.broker) == (local, 0.0)
         && ActionIs(f.action, symbol, frozen, inflight, adjustsAllowed)
       case PositionQty =>
         && local != 0.0 && SharesAt(b) > 0.0 && local != SharesAt(b) && (f.local, f.broker) == (local, SharesAt(b))
         && ActionIs(f.action, symbol, frozen, inflight, adjustsAllowed)
       case PositionAvgCost =>
         && local == SharesAt(b) > 0.0 && CostAt(b, f.broker) && f.local == localCost
         && FarApart(localCost, f.broker, SharesAt(b))
         && ActionIs(f.action, symbol, frozen, inflight, adjustsAllowed)
  }

  lemma CostFindingIff(symbol: string, lots: seq<Lot>, b: Option<BrokerPosition>,
                       frozen: set<string>, inflight: set<string>, adjustsAllowed: bool, f: Finding)
    requires SumQty(lots) == SharesAt(b) > 0.0
    ensures var v := DiffSymbol(symbol, lots, b, frozen, inflight, adjustsAllowed);
            && |v.findings| <= 1
            && (f in v.findings <==>
                  Reports(symbol, SumQty(lots), SumCost(lots), b, frozen, inflight, adjustsAllowed, f))
  {
    BrokerMeaning(b, f.broker);
    ActionMeaning(f.action, symbol, frozen, inflight, adjustsAllowed);
  }

  lemma QuantityFindingIff(symbol: string, lots: seq<Lot>, b: Option<BrokerPosition>,
                           frozen: set<string>, inflight: set<string>, adjustsAllowed: bool, f: Finding)
    requires !(SumQty(lots) == SharesAt(b) > 0.0)
    ensures var v := DiffSymbol(symbol, lots, b, frozen, inflight, adjustsAllowed);
            && |v.findings| <= 1
            && (f in v.findings <==>
                  Reports(symbol, SumQty(lots), SumCost(lots), b, frozen, inflight, adjustsAllowed, f))
  {
    ActionMeaning(f.action, symbol, frozen, inflight, adjustsAllowed);
  }

  /** A symbol's finding is that one, if there is one. */
  lemma FindingIff(symbol: string, lots: seq<Lot>, b: Option<BrokerPosition>,
                   frozen: set<string>, inflight: set<string>, adjustsAllowed: bool, f: Finding)
    ensures var v := DiffSymbol(symbol, lots, b, frozen, inflight, adjustsAllowed);
            && |v.findings| <= 1
            && (f in v.findings <==>
                  Reports(symbol, SumQty(lots), SumCost(lots), b, frozen, inflight, adjustsAllowed, f))
  {
    if SumQty(lots) == SharesAt(b) > 0.0 {
      CostFindingIff(symbol, lots, b, frozen, inflight, adjustsAllowed, f);
    } else {
      QuantityFindingIff(symbol, lots, b, frozen, inflight, adjustsAllowed, f);
    }
  }

  /** Noted are a held position without a broker price, and a difference of shares or
      cost that waits for an order in flight. */
  lemma NotesIff(symbol: string, lots: seq<Lot>, b: Option<BrokerPosition>,
                 frozen: set<string>, inflight: set<string>, adjustsAllowed: bool, note: Note)
    ensures note in DiffSymbol(symbol, lots, b, frozen, inflight, adjustsAllowed).notes <==>
              match note
              case CostUnverifiable(s) =>
                s == symbol && SumQty(lots) != 0.0 && SharesAt(b) >= 0.0 && !Priced(b)
              case AdjustDeferredInflight(s) =>
                && s == symbol && symbol in inflight && SumQty(lots) != 0.0 && SharesAt(b) >= 0.0
                && (SumQty(lots) != SharesAt(b)
                    || (Priced(b) && FarApart(SumCost(lots), b.value.avgEntryPrice.value * b.value.qty, SharesAt(b))))
  {
    BrokerMeaning(b, if Priced(b) then b.value.avgEntryPrice.value * b.value.qty else 0.0);
    assert SumQty([]) == 0.0;
  }

  /** An adjusted symbol ends up with the broker's shares and, where it gives a price, at
      the broker's cost. */
  lemma AdjustedIsTheBrokers(symbol: string, lots: seq<Lot>, b: Option<BrokerPosition>,
                             frozen: set<string>, inflight: set<string>, adjustsAllowed: bool)
    requires AllOpen(lots)
    requires exists f :: f in DiffSymbol(symbol, lots, b, frozen, inflight, adjustsAllowed).findings && f.action == DoAdjust
    ensures var after := LotsAfter(symbol, lots, b, frozen, inflight, adjustsAllowed);
            && SumQty(after) == SharesAt(b)
            && (Priced(b) && SharesAt(b) > 0.0 ==> SumCost(after) == b.value.avgEntryPrice.value * b.value.qty)
  {
    NoHoldingNoAdjust(symbol, lots, b, frozen, inflight, adjustsAllowed);
    LotsAfterIsBookAfter(symbol, lots, b, frozen, inflight, adjustsAllowed);
    AdjustedSums(lots, b);
    BrokerMeaning(b, if Priced(b) then b.value.avgEntryPrice.value * b.value.qty else 0.0);
    NothingStale(lots, Adjusted(lots, BrokerQty(b), BrokerCost(b)));
  }

  lemma {:induction false} NothingStale(lots: seq<Lot>, next: seq<Lot>)
    requires |next| == |lots| && AllOpen(lots)
    ensures StaleCost(lots, next) == 0.0
  {
    if lots != [] {
      NothingStale(lots[..|lots| - 1], next[..|lots| - 1]);
    }
  }

  // --------------------------------------------------------------- the whole book

  /** The symbol's own verdict, of its own lots and broker position. */
  ghost function VerdictFor(local: Book, portfolio: Portfolio, symbol: string,
                            frozen: set<string>, inflight: set<string>, adjustsAllowed: bool): Verdict
  {
    DiffSymbol(symbol, if symbol in local then local[symbol] else [],
               if symbol in portfolio then Some(portfolio[symbol]) else None, frozen, inflight, adjustsAllowed)
  }

  ghost predicate SomeReports(local: Book, portfolio: Portfolio, symbols: seq<string>,
                              frozen: set<string>, inflight: set<string>, adjustsAllowed: bool, f: Finding)
  {
    exists s :: s in symbols && f in VerdictFor(local, portfolio, s, frozen, inflight, adjustsAllowed).findings
  }

  ghost predicate SomeNotes(local: Book, portfolio: Portfolio, symbols: seq<string>,
                            frozen: set<string>, inflight: set<string>, adjustsAllowed: bool, note: Note)
  {
    exists s :: s in symbols && note in VerdictFor(local, portfolio, s, frozen, inflight, adjustsAllowed).notes
  }

  /** Reported and noted are the findings and notes of the symbols, all of them. */
  lemma {:induction false} DiffAllIff(local: Book, portfolio: Portfolio, symbols: seq<string>,
                                      frozen: set<string>, inflight: set<string>, adjustsAllowed: bool, f: Finding, note: Note)
    ensures var all := DiffAll(local, portfolio, symbols, frozen, inflight, adjustsAllowed);
            && (f in all.findings <==> SomeReports(local, portfolio, symbols, frozen, inflight, adjustsAllowed, f))
            && (note in all.notes <==> SomeNotes(local, portfolio, symbols, frozen, inflight, adjustsAllowed, note))
  {
    if symbols != [] {
      var front, last := symbols[..|symbols| - 1], symbols[|symbols| - 1];
      DiffAllIff(local, portfolio, front, frozen, inflight, adjustsAllowed, f, note);
      SomeSnoc(local, portfolio, front, last, frozen, inflight, adjustsAllowed, f, note);
      assert symbols == front + [last];
    }
  }

  lemma SomeSnoc(local: Book, portfolio: Portfolio, front: seq<string>, last: string,
                 frozen: set<string>, inflight: set<string>, adjustsAllowed: bool, f: Finding, note: Note)
    ensures SomeReports(local, portfolio, front + [last], frozen, inflight, adjustsAllowed, f)
            <==> SomeReports(local, portfolio, front, frozen, inflight, adjustsAllowed, f)
                 || f in VerdictFor(local, portfolio, last, frozen, inflight, adjustsAllowed).findings
    ensures SomeNotes(local, portfolio, front + [last], frozen, inflight, adjustsAllowed, note)
            <==> SomeNotes(local, portfolio, front, frozen, inflight, adjustsAllowed, note)
                 || note in VerdictFor(local, portfolio, last, frozen, inflight, adjustsAllowed).notes
  {
    assert forall s :: s in front + [last] <==> s in front || s == last;
  }

  // ------------------------------------------------------------------- the cash part

  /** On a quiet account with a baseline the cash is compared: a mismatch is the drift,
      left to the operator unless a rebaseline was asked for; the baseline moves up to
      the broker's cash over a match or a rebaseline, and only then. */
  lemma QuietCash(w: World, phase: Phase, view: View, rebaseline: bool)
    requires w.baseline.Some? && view.Read? && Evaluate(w, phase, view, rebaseline).Success?
    requires OrderProbe.ProbeAll(view.orders, view.residuals, view.held).defer == {}
    ensures var p, expected := Evaluate(w, phase, view, rebaseline).value, Cash.Expected(w.baseline.value, w.fills);
            && p.cash == (if expected == view.cash then None else Some(CashDrift(expected, view.cash, rebaseline)))
            && p.residue == (if rebaseline then None else p.cash)
            && p.baseline == if expected == view.cash || rebaseline
                             then Some(Cash.Baseline(view.cash, Cash.Watermark(w.fills))) else w.baseline
  {
    OrderProbe.QuietMeansCompleted(view.orders, view.residuals, view.held);
  }

  /** Until the account is quiet an outstanding residue is reported again, and the
      baseline is carried by the passes that complete. */
  lemma BusyCash(w: World, phase: Phase, view: View, rebaseline: bool)
    requires w.baseline.Some? && view.Read? && Evaluate(w, phase, view, rebaseline).Success?
    requires OrderProbe.ProbeAll(view.orders, view.residuals, view.held).defer != {}
    ensures var p := Evaluate(w, phase, view, rebaseline).value;
            && p.cash == w.residue && p.residue == w.residue
            && p.baseline == if OrderProbe.ProbeAll(view.orders, view.residuals, view.held).completed then w.baseline else None
  {}

  /** Without a baseline nothing is compared, and the first one is the cash of the first
      quiet pass. */
  lemma FirstBaseline(w: World, phase: Phase, view: View, rebaseline: bool)
    requires w.baseline.None? && view.Read? && Evaluate(w, phase, view, rebaseline).Success?
    ensures var p := Evaluate(w, phase, view, rebaseline).value;
            && p.cash == None && p.residue == w.residue
            && p.baseline == if OrderProbe.ProbeAll(view.orders, view.residuals, view.held).defer == {}
                             then Some(Cash.Baseline(view.cash, Cash.Watermark(w.fills))) else None
  {
    if OrderProbe.ProbeAll(view.orders, view.residuals, view.held).defer == {} {
      OrderProbe.QuietMeansCompleted(view.orders, view.residuals, view.held);
    }
  }

  /** After a rebaseline the broker's cash is what is expected. */
  lemma RebaselineAdopts(w: World, view: View)
    requires w.baseline.Some? && view.Read? && Evaluate(w, Cli, view, true).Success?
    requires OrderProbe.ProbeAll(view.orders, view.residuals, view.held).defer == {}
    ensures var v := RunPass(w, Cli, view, true);
            v.baseline.Some? && Cash.Expected(v.baseline.value, v.fills) == view.cash && v.residue == None
  {
    QuietCash(w, Cli, view, true);
    Cash.NewBaseline(w.fills, view.cash);
  }

  // --------------------------------------------------------------------- the latch

  /** Something was found: an order, a position, or cash. */
  ghost predicate Found(w: World, view: View, p: PassResult, inflight: set<string>, adjustsAllowed: bool) {
    view.Read?
    && (|| OrderProbe.ProbeAll(view.orders, view.residuals, view.held).findings != []
        || DiffAll(w.book, view.portfolio, view.symbols, w.frozen, inflight, adjustsAllowed).findings != []
        || p.cash.Some?)
  }

  /** The latch after a pass: set by a silent adjustment and by anything found; else let
      go by a completed pass with nothing frozen and no drift since the last summary;
      else as it was. */
  lemma LatchAfterPass(w: World, phase: Phase, view: View, rebaseline: bool)
    requires Evaluate(Freeze(w, phase), phase, view, rebaseline).Success?
    ensures var p := Evaluate(Freeze(w, phase), phase, view, rebaseline).value;
            var probed := if view.Read? then OrderProbe.ProbeAll(view.orders, view.residuals, view.held)
                          else OrderProbe.Probed(false, [], [], {});
            var found := Found(Freeze(w, phase), view, p, Inflight(probed.defer), !phase.Immediate?);
            RunPass(w, phase, view, rebaseline).latch <==>
              || phase.Immediate? || found
              || (w.latch && (!view.Read? || !probed.completed || w.driftInWindow > 0 || w.frozen != {}))
  {
    var f := Freeze(w, phase);
    if view.Read? {
      var probed := OrderProbe.ProbeAll(view.orders, view.residuals, view.held);
      var findings := DiffAll(f.book, view.portfolio, view.symbols, f.frozen, Inflight(probed.defer), !phase.Immediate?).findings;
      SameNumber(findings);
      assert |Opening(phase) + probed.findings + PositionDrifts(findings)|
             == |Opening(phase)| + |probed.findings| + |findings|;
    }
  }

  lemma {:induction false} SameNumber(findings: seq<Finding>)
    ensures |PositionDrifts(findings)| == |findings|
    ensures forall i :: 0 <= i < |findings| ==> PositionDrifts(findings)[i] == PositionDrift(findings[i])
  {
    if findings != [] {
      SameNumber(findings[..|findings| - 1]);
    }
  }

  /** The rest of what a pass leaves: one pass more, an empty window, a silently adjusted
      symbol frozen; and the book as the plans leave it, or untouched. */
  lemma AfterPassIs(w: World, phase: Phase, view: View, rebaseline: bool)
    requires Evaluate(Freeze(w, phase), phase, view, rebaseline).Success?
    ensures var v := RunPass(w, phase, view, rebaseline);
            && v.passCount == w.passCount + 1 && v.driftInWindow == 0 && v.fills == w.fills && w.journal <= v.journal
            && v.frozen == w.frozen + (if phase.Immediate? then {phase.symbol} else {})
            && (phase.Immediate? || !view.Read? ==> v.book == w.book)
            && (!phase.Immediate? && view.Read? ==>
                  var inflight := Inflight(OrderProbe.ProbeAll(view.orders, view.residuals, view.held).defer);
                  && v.book.Keys == w.book.Keys
                  && forall s :: s in w.book ==>
                       v.book[s] == LotsAfter(s, w.book[s], AtBroker(view.portfolio, s), w.frozen, inflight, true))
  {
    assert w.frozen + {} == w.frozen;
  }

  /** A pass that raises changes nothing but, for a silent adjustment, what was frozen
      before it; and it raises exactly for a rebaseline outside the command line, or over
      a fill it cannot read. */
  lemma RaisingPass(w: World, phase: Phase, view: View, rebaseline: bool)
    ensures Evaluate(w, phase, view, rebaseline).Failure? <==>
              || (rebaseline && phase != Cli)
              || (view.Read? && w.baseline.Some?
                  && OrderProbe.ProbeAll(view.orders, view.residuals, view.held).defer == {}
                  && !Cash.Readable(Cash.SinceBaseline(w.fills, w.baseline.value)))
    ensures rebaseline && phase != Cli ==> RunPass(w, phase, view, rebaseline) == w
  {}
}
