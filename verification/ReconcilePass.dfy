/**
 The reconcile pass as the orchestrator runs it: fields updated step by step, rows
 appended one by one. Its methods are proved against the functions of `Reconcile`.
 */
module ReconcilePass {
  import opened Wrappers
  import opened ReconcileRows
  import opened Reconcile
  import OrderProbe
  import Cash
  import Planner

  class Reconciler {
    var fills: seq<Cash.FillRow>
    var journal: seq<Row>
    var latch: bool
    var driftInWindow: nat
    var baseline: Option<Cash.Baseline>
    var residue: Option<CashDrift>
    var passCount: nat
    var frozen: set<string>
    var book: Planner.Book

    ghost function State(): World
      reads this
    {
      World(fills, journal, latch, driftInWindow, baseline, residue, passCount, frozen, book)
    }

    /** A restart reads the journals and nothing else. */
    constructor (fills: seq<Cash.FillRow>, journal: seq<Row>, frozen: set<string>, book: Planner.Book)
      ensures State() == Restart(fills, journal, frozen, book)
    {
      var d := RehydrateReconcileState(journal);
      this.fills, this.journal, this.frozen, this.book := fills, journal, frozen, book;
      latch := d.latched || frozen != {};
      driftInWindow, baseline, residue, passCount := d.driftInWindow, d.baseline, d.residue, d.passCount;
    }

    /** A fill is journaled, and the paper book takes it in. */
    method RecordFill(row: Cash.FillRow, after: Planner.Book)
      modifies this`fills, this`book
      ensures State() == Next(old(State()), Fill(row, after))
    {
      book := after;
      fills := fills + [row.(seqNo := Cash.LastSeq(fills) + 1)];
    }

    method CompareCash(cash: real, quiet: bool, rebaseline: bool) returns (r: Result<CashOutcome, Error>)
      ensures r == CashStage(baseline, residue, fills, cash, quiet, rebaseline)
    {
      if baseline.None? {
        return Success(CashOutcome(None, residue, quiet));
      }
      if !quiet {
        return Success(CashOutcome(residue, residue, false));
      }
      var since := Cash.FillRowsSince(fills, baseline.value);
      var expected := Cash.DiffCash(baseline.value.cash, since, cash);
      Cash.NetBySide(since);
      match expected {
        case Failure(_) => return Failure(BadFillRow);
        case Success(None) => return Success(CashOutcome(None, None, true));
        case Success(Some(e)) =>
          if rebaseline {
            return Success(CashOutcome(Some(CashDrift(e, cash, true)), None, true));
          }
          var drift := CashDrift(e, cash, false);
          return Success(CashOutcome(Some(drift), Some(drift), false));
      }
    }

    method ChooseBaseline(cash: real, quiet: bool, completed: bool, clean: bool) returns (b: Option<Cash.Baseline>)
      ensures b == NextBaseline(baseline, fills, cash, quiet, completed, clean)
    {
      if !completed || (baseline.None? && !quiet) {
        return None;
      }
      if baseline.None? || clean {
        var watermark := Cash.FillsSeqWatermark(fills);
        return Some(Cash.Baseline(cash, watermark));
      }
      b := baseline;
    }

    /** Everything up to the writing. */
    method Examine(phase: Phase, view: View, rebaseline: bool) returns (r: Result<PassResult, Error>)
      requires forall s :: s in book ==> Planner.NonNegative(book[s])
      ensures r == Evaluate(State(), phase, view, rebaseline)
      ensures r.Success? ==> forall s :: s in r.value.book ==> Planner.NonNegative(r.value.book[s])
    {
      if rebaseline && !phase.Cli? {
        return Failure(RebaselineNotLegal);
      }
      if !view.Read? {
        return Success(PassResult(Opening(phase), None, false, None, residue, book));
      }
      var probed := OrderProbe.ProbeEverything(view.orders, view.residuals, view.held);
      var quiet, inflight := probed.defer == {}, Inflight(probed.defer);
      var findings, plans, notes :=
        Planner.DiffPositions(book, view.portfolio, view.symbols, frozen, inflight, !phase.Immediate?);
      var cash := CompareCash(view.cash, quiet, rebaseline);
      if cash.Failure? {
        return Failure(cash.error);
      }
      var next := ChooseBaseline(view.cash, quiet, probed.completed, cash.value.clean);
      Planner.BookStaysNonNegative(book, view.portfolio, frozen, inflight, true);
      r := Success(PassResult(
        Opening(phase) + probed.findings + PositionDrifts(findings), cash.value.drift, probed.completed, next,
        cash.value.residue,
        if phase.Immediate? then book else Planner.BookAfterAll(book, view.portfolio, frozen, inflight, true)));
    }

    /** Findings first, sorted, the summary last. */
    method WriteRows(p: PassResult, phase: Phase)
      modifies this`journal
      ensures journal == old(journal) + Journaled(p, phase)
    {
      var findings := Findings(p);
      var i := 0;
      while i < |findings|
        invariant 0 <= i <= |findings|
        invariant journal == old(journal) + findings[..i]
      {
        journal := journal + [findings[i]];
        i := i + 1;
      }
      if p.baseline.Some? {
        journal := journal + [BaselineRow(p.baseline.value)];
      }
      assert journal == old(journal) + (findings + BaselineRows(p.baseline));
      journal := journal + [RunRow(phase, p.completed, Clean(p))];
    }

    method FinishReconcilePass(p: PassResult, phase: Phase)
      modifies this
      ensures State() == Finish(old(State()), p, phase)
    {
      var windowHadDrift := driftInWindow > 0 || Drifted(p);
      WriteRows(p, phase);
      book, residue := p.book, p.residue;
      if p.baseline.Some? {
        baseline := p.baseline;
      }
      passCount := passCount + 1;
      if Drifted(p) {
        latch := true;
      } else if p.completed && !phase.Immediate? && !windowHadDrift && frozen == {} {
        latch := false;
      }
      driftInWindow := 0;
    }

    /** One reconcile pass; an immediate one follows the freeze of its symbol. */
    method RunReconcile(phase: Phase, view: View, rebaseline: bool) returns (r: Result<PassResult, Error>)
      requires forall s :: s in book ==> Planner.NonNegative(book[s])
      modifies this
      ensures r == Evaluate(Freeze(old(State()), phase), phase, view, rebaseline)
      ensures State() == RunPass(old(State()), phase, view, rebaseline)
      ensures forall s :: s in book ==> Planner.NonNegative(book[s])
    {
      if rebaseline && !phase.Cli? {
        return Failure(RebaselineNotLegal);
      }
      if phase.Immediate? {
        frozen := frozen + {phase.symbol};
        latch := true;
      }
      assert State() == Freeze(old(State()), phase);
      r := Examine(phase, view, rebaseline);
      if r.Success? {
        FinishReconcilePass(r.value, phase);
      }
    }
  }
}
