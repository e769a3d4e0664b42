/**
 Broker reconciliation (Orchestrator.run_reconcile and _finish_reconcile_pass): the
 drift latch, the carried cash residue and the cash baseline, over every run of
 passes, fills, crashes and restarts.
 */
module Reconcile {
  import opened Wrappers
  import opened ReconcileRows
  import OrderProbe
  import Cash
  import Planner

  /** What a pass gets to see of the broker. */
  datatype View =
    | NoBroker
    | ReadFailed
    | Read(cash: real, orders: seq<OrderProbe.OpenOrder>, residuals: seq<OrderProbe.Residual>,
           held: set<string>, portfolio: Planner.Portfolio, symbols: seq<string>)

  datatype Error = RebaselineNotLegal | BadFillRow

  /** The state of the orchestrator that a reconcile reads and writes, with the two
      journals it lives by. */
  datatype World = World(
    fills: seq<Cash.FillRow>, journal: seq<Row>,
    latch: bool, driftInWindow: nat, baseline: Option<Cash.Baseline>, residue: Option<CashDrift>,
    passCount: nat, frozen: set<string>, book: Planner.Book)

  // -------------------------------------------------------------- one pass

  datatype CashOutcome = CashOutcome(drift: Option<CashDrift>, residue: Option<CashDrift>, clean: bool)

  function CashStage(baseline: Option<Cash.Baseline>, residue: Option<CashDrift>, fills: seq<Cash.FillRow>,
                     cash: real, quiet: bool, rebaseline: bool): Result<CashOutcome, Error>
  {
    if baseline.None? then Success(CashOutcome(None, residue, quiet))
    else if !quiet then Success(CashOutcome(residue, residue, false))
    else if !Cash.Readable(Cash.SinceBaseline(fills, baseline.value)) then Failure(BadFillRow)
    else
      var expected := Cash.Expected(baseline.value, fills);
      if expected == cash then Success(CashOutcome(None, None, true))
      else if rebaseline then Success(CashOutcome(Some(CashDrift(expected, cash, true)), None, true))
      else
        var drift := Some(CashDrift(expected, cash, false));
        Success(CashOutcome(drift, drift, false))
  }

  /** The baseline a completed pass writes: advanced over a clean telescope, else carried. */
  function NextBaseline(baseline: Option<Cash.Baseline>, fills: seq<Cash.FillRow>, cash: real,
                        quiet: bool, completed: bool, clean: bool): Option<Cash.Baseline>
  {
    if !completed || (baseline.None? && !quiet) then None
    else if baseline.None? || clean then Some(Cash.Baseline(cash, Cash.Watermark(fills)))
    else baseline
  }

  function Opening(phase: Phase): seq<NonCash> {
    if phase.Immediate? then [SilentAdjust(phase.symbol)] else []
  }

  function PositionDrifts(findings: seq<Planner.Finding>): seq<NonCash> {
    if findings == [] then []
    else PositionDrifts(findings[..|findings| - 1]) + [PositionDrift(findings[|findings| - 1])]
  }

  function Inflight(defer: set<Option<string>>): set<string> { set s | s in defer && s.Some? :: s.value }

  function Evaluate(w: World, phase: Phase, view: View, rebaseline: bool): Result<PassResult, Error> {
    if rebaseline && !phase.Cli? then Failure(RebaselineNotLegal)
    else if !view.Read? then Success(PassResult(Opening(phase), None, false, None, w.residue, w.book))
    else
      var probed := OrderProbe.ProbeAll(view.orders, view.residuals, view.held);
      var quiet := probed.defer == {};
      var inflight := Inflight(probed.defer);
      var positions := Planner.DiffAll(w.book, view.portfolio, view.symbols, w.frozen, inflight, !phase.Immediate?);
      match CashStage(w.baseline, w.residue, w.fills, view.cash, quiet, rebaseline)
      case Failure(e) => Failure(e)
      case Success(c) =>
        Success(PassResult(
          Opening(phase) + probed.findings + PositionDrifts(positions.findings), c.drift, probed.completed,
          NextBaseline(w.baseline, w.fills, view.cash, quiet, probed.completed, c.clean), c.residue,
          if phase.Immediate? then w.book
          else Planner.BookAfterAll(w.book, view.portfolio, w.frozen, inflight, true)))
  }

  lemma {:induction false} PositionDriftsAre(findings: seq<Planner.Finding>)
    ensures forall f :: f in PositionDrifts(findings) ==> f.PositionDrift?
  {
    if findings != [] {
      PositionDriftsAre(findings[..|findings| - 1]);
    }
  }

  /** The findings of a pass go to disk sorted by kind. */
  lemma EvaluatedFindingsAreSorted(w: World, phase: Phase, view: View, rebaseline: bool)
    requires Evaluate(w, phase, view, rebaseline).Success?
    ensures var rows := Findings(Evaluate(w, phase, view, rebaseline).value);
            forall i, j :: 0 <= i < j < |rows| ==> Rank(rows[i]) <= Rank(rows[j])
  {
    var p := Evaluate(w, phase, view, rebaseline).value;
    if view.Read? {
      var probed := OrderProbe.ProbeAll(view.orders, view.residuals, view.held);
      var positions := Planner.DiffAll(w.book, view.portfolio, view.symbols, w.frozen, Inflight(probed.defer), !phase.Immediate?);
      OrderProbe.ProbesReportOrders(view.orders, view.residuals, view.held);
      PositionDriftsAre(positions.findings);
      assert p.others == Opening(phase) + probed.findings + PositionDrifts(positions.findings);
      forall i | 0 < i < |p.others| ensures !p.others[i].SilentAdjust? {
        assert p.others[i] in probed.findings || p.others[i] in PositionDrifts(positions.findings);
      }
    }
    FindingsAreSorted(p);
  }

  predicate Drifted(p: PassResult) { p.others != [] || p.cash.Some? }

  function Finish(w: World, p: PassResult, phase: Phase): World {
    World(
      w.fills, w.journal + Journaled(p, phase),
      if Drifted(p) then true
      else if p.completed && !phase.Immediate? && w.driftInWindow == 0 && w.frozen == {} then false
      else w.latch,
      0, if p.baseline.Some? then p.baseline else w.baseline, p.residue, w.passCount + 1, w.frozen, p.book)
  }

  /** The silent adjustment behind an immediate pass freezes its symbol and latches first. */
  function Freeze(w: World, phase: Phase): World {
    if phase.Immediate? then w.(frozen := w.frozen + {phase.symbol}, latch := true) else w
  }

  /** A pass that raises has journaled nothing. */
  function RunPass(w: World, phase: Phase, view: View, rebaseline: bool): World {
    var f := Freeze(w, phase);
    match Evaluate(f, phase, view, rebaseline)
    case Success(p) => Finish(f, p, phase)
    case Failure(BadFillRow) => f
    case Failure(RebaselineNotLegal) => w
  }

  // ------------------------------------------------------------------- any run

  /** A fill leaves the book as the paper book has it then. A crash may leave any number
      of a pass's rows behind; the restart finds the book and the frozen symbols in
      journals of their own. */
  datatype Step =
    | Fill(row: Cash.FillRow, book: Planner.Book)
    | DoPass(phase: Phase, view: View, rebaseline: bool)
    | Crash(phase: Phase, view: View, rebaseline: bool, keep: nat, frozen: set<string>, book: Planner.Book)

  function Min(a: nat, b: nat): nat { if b < a then b else a }

  /** The journal after a crash during a pass. */
  function Leftover(w: World, phase: Phase, view: View, rebaseline: bool, keep: nat): seq<Row> {
    match Evaluate(Freeze(w, phase), phase, view, rebaseline)
    case Success(p) => w.journal + Journaled(p, phase)[..Min(keep, |Journaled(p, phase)|)]
    case Failure(_) => w.journal
  }

  function Restart(fills: seq<Cash.FillRow>, journal: seq<Row>, frozen: set<string>, book: Planner.Book): World {
    var d := Fold(journal);
    World(fills, journal, d.latched || frozen != {}, d.driftInWindow, d.baseline, d.residue, d.passCount, frozen, book)
  }

  function Next(w: World, s: Step): World {
    match s
    case Fill(row, book) => w.(fills := w.fills + [row.(seqNo := Cash.LastSeq(w.fills) + 1)], book := book)
    case DoPass(phase, view, rebaseline) => RunPass(w, phase, view, rebaseline)
    case Crash(phase, view, rebaseline, keep, frozen, book) =>
      Restart(w.fills, Leftover(w, phase, view, rebaseline, keep), frozen, book)
  }

  function Run(w: World, steps: seq<Step>): World {
    if steps == [] then w else Next(Run(w, steps[..|steps| - 1]), steps[|steps| - 1])
  }

  // ------------------------------------------------------------- the invariant

  /** What every reachable state keeps: the in-process state is the fold of what is
      on disk, the latch exactly so, and an outstanding residue holds the latch. */
  ghost predicate Inv(w: World) {
    var d := Fold(w.journal);
    && Cash.Sorted(w.fills)
    && (w.baseline.Some? ==> w.baseline.value.watermark <= Cash.LastSeq(w.fills))
    && w.baseline == d.baseline && w.passCount == d.passCount && w.driftInWindow == d.driftInWindow
    && w.latch == (d.latched || w.frozen != {})
    && (w.residue.Some? ==> w.latch && w.residue == d.residue)
    && (d.residue.Some? ==> w.baseline.Some?)
  }

  /** How a pass ends up with the residue it ends up with. */
  ghost predicate ResidueOf(p: PassResult, was: Option<CashDrift>) {
    match p.cash
    case Some(c) => p.residue == if c.rebaselined then None else p.cash
    case None => p.residue == if p.completed then None else was
  }

  ghost predicate WatermarkOk(baseline: Option<Cash.Baseline>, fills: seq<Cash.FillRow>) {
    baseline.Some? ==> baseline.value.watermark <= Cash.LastSeq(fills)
  }

  lemma CashFacts(w: World, cash: real, quiet: bool, completed: bool, rebaseline: bool)
    requires Cash.Sorted(w.fills) && WatermarkOk(w.baseline, w.fills)
    requires w.residue.Some? ==> w.baseline.Some? && !w.residue.value.rebaselined
    requires quiet ==> completed
    ensures var r := CashStage(w.baseline, w.residue, w.fills, cash, quiet, rebaseline);
            r.Success? ==>
              var c := r.value;
              var b := NextBaseline(w.baseline, w.fills, cash, quiet, completed, c.clean);
              && WatermarkOk(b, w.fills) && (b.Some? ==> completed)
              && (c.drift.Some? ==> w.baseline.Some?)
              && c.residue == match c.drift { case Some(d) => if d.rebaselined then None else c.drift case None => None }
  {
    Cash.WatermarkCovers(w.fills);
  }

  lemma EvaluateFacts(w: World, phase: Phase, view: View, rebaseline: bool)
    requires Cash.Sorted(w.fills) && WatermarkOk(w.baseline, w.fills)
    requires w.residue.Some? ==> w.baseline.Some? && !w.residue.value.rebaselined
    ensures Evaluate(w, phase, view, rebaseline).Success? ==>
              var p := Evaluate(w, phase, view, rebaseline).value;
              && WatermarkOk(p.baseline, w.fills) && (p.baseline.Some? ==> p.completed)
              && (phase.Immediate? ==> p.others != [])
              && (p.cash.Some? ==> w.baseline.Some?)
              && ResidueOf(p, w.residue)
  {
    if view.Read? {
      var probed := OrderProbe.ProbeAll(view.orders, view.residuals, view.held);
      if probed.defer == {} {
        OrderProbe.QuietMeansCompleted(view.orders, view.residuals, view.held);
      }
      CashFacts(w, view.cash, probed.defer == {}, probed.completed, rebaseline);
      assert phase.Immediate? ==> (Opening(phase) + probed.findings)[0] == SilentAdjust(phase.symbol);
    }
  }

  // ------------------------------------------------- every step keeps the invariant

  lemma FinishKeepsInv(w: World, p: PassResult, phase: Phase)
    requires Inv(w) && WatermarkOk(p.baseline, w.fills) && (phase.Immediate? ==> p.others != [])
    requires (p.cash.Some? ==> w.baseline.Some?) && ResidueOf(p, w.residue)
    ensures Inv(Finish(Freeze(w, phase), p, phase))
  {
    FoldPass(w.journal, p, phase);
    ResidueMeansLatched(w.journal);
    ResidueMeansLatched(w.journal + Journaled(p, phase));
  }

  lemma InvResidue(w: World)
    requires Inv(w)
    ensures w.residue.Some? ==> w.baseline.Some? && !w.residue.value.rebaselined
  {
    ResidueMeansLatched(w.journal);
  }

  lemma PassKeepsInv(w: World, phase: Phase, view: View, rebaseline: bool)
    requires Inv(w)
    ensures Inv(RunPass(w, phase, view, rebaseline))
  {
    var f := Freeze(w, phase);
    InvResidue(w);
    EvaluateFacts(f, phase, view, rebaseline);
    match Evaluate(f, phase, view, rebaseline)
    case Success(p) => FinishKeepsInv(w, p, phase);
    case Failure(_) =>
  }

  /** Whatever a crash leaves behind, the baseline on disk is the old one or the
      pass's own, and the residue on disk still has a baseline to belong to. */
  lemma LeftoverFold(w: World, phase: Phase, view: View, rebaseline: bool, keep: nat)
    requires Inv(w)
    ensures var e := Fold(Leftover(w, phase, view, rebaseline, keep));
            var r := Evaluate(Freeze(w, phase), phase, view, rebaseline);
            && (e.baseline == w.baseline || (r.Success? && r.value.baseline.Some? && e.baseline == r.value.baseline))
            && (e.residue.Some? ==> w.baseline.Some?)
  {
    var f := Freeze(w, phase);
    InvResidue(w);
    EvaluateFacts(f, phase, view, rebaseline);
    var r := Evaluate(f, phase, view, rebaseline);
    if r.Success? {
      LeftoverRows(w.journal, r.value, phase, keep);
    }
  }

  lemma LeftoverRows(rows: seq<Row>, p: PassResult, phase: Phase, keep: nat)
    ensures var all := Journaled(p, phase);
            var d, e := Fold(rows), Fold(rows + all[..Min(keep, |all|)]);
            && (e.baseline == d.baseline || (p.baseline.Some? && e.baseline == p.baseline))
            && (e.residue.Some? ==> d.residue.Some? || p.cash.Some?)
  {
    var all := Journaled(p, phase);
    if keep < |all| {
      PartialPass(rows, p, phase, keep);
    } else {
      assert all[..|all|] == all;
      FoldPass(rows, p, phase);
    }
  }

  lemma CrashKeepsInv(w: World, phase: Phase, view: View, rebaseline: bool, keep: nat,
                      frozen: set<string>, book: Planner.Book)
    requires Inv(w)
    ensures Inv(Restart(w.fills, Leftover(w, phase, view, rebaseline, keep), frozen, book))
  {
    InvResidue(w);
    EvaluateFacts(Freeze(w, phase), phase, view, rebaseline);
    LeftoverFold(w, phase, view, rebaseline, keep);
    ResidueMeansLatched(Leftover(w, phase, view, rebaseline, keep));
  }

  lemma StepKeepsInv(w: World, s: Step)
    requires Inv(w)
    ensures Inv(Next(w, s))
  {
    match s
    case Fill(row, book) =>
    case DoPass(phase, view, rebaseline) => PassKeepsInv(w, phase, view, rebaseline);
    case Crash(phase, view, rebaseline, keep, frozen, book) =>
      CrashKeepsInv(w, phase, view, rebaseline, keep, frozen, book);
  }

  /** In every reachable state the in-process latch is what a restart would rebuild,
      and an outstanding residue holds it. */
  lemma {:induction false} RunKeepsInv(w: World, steps: seq<Step>)
    requires Inv(w)
    ensures Inv(Run(w, steps))
    ensures Run(w, steps).residue.Some? ==> Run(w, steps).latch
  {
    if steps != [] {
      RunKeepsInv(w, steps[..|steps| - 1]);
      StepKeepsInv(Run(w, steps[..|steps| - 1]), steps[|steps| - 1]);
    }
  }

  // ------------------------------------------------------------- the telescope

  predicate Rebaselines(s: Step) { (s.DoPass? || s.Crash?) && s.rebaseline }

  /** Without a rebaseline, what a pass puts in place of the baseline expects the same
      cash of the fills journaled so far. */
  lemma PassKeepsExpectation(w: World, phase: Phase, view: View)
    requires Cash.Sorted(w.fills) && w.baseline.Some?
    requires Evaluate(w, phase, view, false).Success?
    ensures var b := Evaluate(w, phase, view, false).value.baseline;
            b.Some? ==> Cash.Expected(b.value, w.fills) == Cash.Expected(w.baseline.value, w.fills)
  {
    if view.Read? {
      Cash.NewBaseline(w.fills, view.cash);
    }
  }

  ghost predicate SameAnchor(v: World, w: World) {
    && w.baseline.Some? && v.baseline.Some?
    && Cash.Anchor(v.baseline.value, v.fills) == Cash.Anchor(w.baseline.value, w.fills)
  }

  lemma SameExpectation(b: Cash.Baseline, c: Cash.Baseline, fills: seq<Cash.FillRow>)
    requires Cash.Sorted(fills) && Cash.Expected(b, fills) == Cash.Expected(c, fills)
    ensures Cash.Anchor(b, fills) == Cash.Anchor(c, fills)
  {
    Cash.ExpectedIsAnchored(b, fills);
    Cash.ExpectedIsAnchored(c, fills);
  }

  lemma PassKeepsAnchor(w: World, phase: Phase, view: View)
    requires Inv(w) && w.baseline.Some?
    ensures SameAnchor(RunPass(w, phase, view, false), w)
  {
    var f := Freeze(w, phase);
    var r := Evaluate(f, phase, view, false);
    if r.Success? && r.value.baseline.Some? {
      PassKeepsExpectation(f, phase, view);
      SameExpectation(r.value.baseline.value, w.baseline.value, w.fills);
    }
  }

  lemma CrashKeepsAnchor(w: World, phase: Phase, view: View, keep: nat, frozen: set<string>, book: Planner.Book)
    requires Inv(w) && w.baseline.Some?
    ensures SameAnchor(Restart(w.fills, Leftover(w, phase, view, false, keep), frozen, book), w)
  {
    var f := Freeze(w, phase);
    LeftoverFold(w, phase, view, false, keep);
    var r := Evaluate(f, phase, view, false);
    if r.Success? && r.value.baseline.Some? {
      PassKeepsExpectation(f, phase, view);
      SameExpectation(r.value.baseline.value, w.baseline.value, w.fills);
    }
  }

  lemma StepKeepsAnchor(w: World, s: Step)
    requires Inv(w) && w.baseline.Some? && !Rebaselines(s)
    ensures SameAnchor(Next(w, s), w)
  {
    match s
    case Fill(row, _) =>
      Cash.AppendKeepsAnchor(w.baseline.value, w.fills, row.(seqNo := Cash.LastSeq(w.fills) + 1));
    case DoPass(phase, view, _) => PassKeepsAnchor(w, phase, view);
    case Crash(phase, view, _, keep, frozen, book) => CrashKeepsAnchor(w, phase, view, keep, frozen, book);
  }

  lemma {:induction false} RunKeepsAnchor(w: World, steps: seq<Step>)
    requires Inv(w) && w.baseline.Some?
    requires forall i :: 0 <= i < |steps| ==> !Rebaselines(steps[i])
    ensures SameAnchor(Run(w, steps), w)
  {
    if steps != [] {
      var n := |steps| - 1;
      RunKeepsInv(w, steps[..n]);
      RunKeepsAnchor(w, steps[..n]);
      StepKeepsAnchor(Run(w, steps[..n]), steps[n]);
    }
  }

  lemma NextFills(w: World, s: Step)
    ensures Next(w, s).fills
            == if s.Fill? then w.fills + [s.row.(seqNo := Cash.LastSeq(w.fills) + 1)] else w.fills
  {}

  lemma {:induction false} RunFills(w: World, steps: seq<Step>)
    ensures w.fills <= Run(w, steps).fills
  {
    if steps != [] {
      RunFills(w, steps[..|steps| - 1]);
      NextFills(Run(w, steps[..|steps| - 1]), steps[|steps| - 1]);
    }
  }

  /** The telescope over any run of passes, fills, crashes and restarts without an
      operator rebaseline: the baseline in force expects of the fills exactly the
      cash the first baseline expects of them, so no drift is ever absorbed. */
  lemma TelescopeOverRuns(w: World, steps: seq<Step>)
    requires Inv(w) && w.baseline.Some?
    requires forall i :: 0 <= i < |steps| ==> !Rebaselines(steps[i])
    ensures var v := Run(w, steps);
            && v.baseline.Some?
            && Cash.Expected(v.baseline.value, v.fills) == Cash.Expected(w.baseline.value, v.fills)
            && Cash.Expected(v.baseline.value, v.fills)
               == Cash.Anchor(w.baseline.value, w.fills) + Cash.Net(v.fills)
  {
    RunKeepsInv(w, steps);
    RunKeepsAnchor(w, steps);
    RunFills(w, steps);
    Telescoped(w, Run(w, steps));
  }

  lemma Telescoped(w: World, v: World)
    requires Inv(w) && Inv(v) && SameAnchor(v, w) && w.fills <= v.fills
    ensures Cash.Expected(v.baseline.value, v.fills) == Cash.Expected(w.baseline.value, v.fills)
    ensures Cash.Expected(v.baseline.value, v.fills) == Cash.Anchor(w.baseline.value, w.fills) + Cash.Net(v.fills)
  {
    var more := v.fills[|w.fills|..];
    assert w.fills + more == v.fills;
    AnchorOverFills(w.baseline.value, w.fills, more);
    Cash.ExpectedIsAnchored(v.baseline.value, v.fills);
    Cash.ExpectedIsAnchored(w.baseline.value, v.fills);
  }

  lemma {:induction false} AnchorOverFills(b: Cash.Baseline, fills: seq<Cash.FillRow>, more: seq<Cash.FillRow>)
    requires Cash.Sorted(fills + more) && b.watermark <= Cash.LastSeq(fills)
    ensures Cash.Anchor(b, fills + more) == Cash.Anchor(b, fills)
  {
    if more == [] {
      assert fills + more == fills;
    } else {
      var n := |more| - 1;
      assert fills + more == fills + more[..n] + [more[n]];
      assert forall i :: 0 <= i < |fills + more[..n]| ==> (fills + more[..n])[i] == (fills + more)[i];
      assert fills != [] ==> (fills + more)[|fills| - 1] == fills[|fills| - 1];
      AnchorOverFills(b, fills, more[..n]);
      assert (fills + more)[|fills| + n] == more[n];
      Cash.AppendKeepsAnchor(b, fills + more[..n], more[n]);
    }
  }

  /** What was sold between two journals, and what was bought. */
  function TradedSince(before: seq<Cash.FillRow>, after: seq<Cash.FillRow>, side: Cash.Side): real {
    Cash.Total(after, side) - Cash.Total(before, side)
  }

  /** A quiet pass reports cash drift exactly when the broker's cash is not what the
      first baseline expected at the time, plus all that was sold since, less all that
      was bought. */
  lemma CashDriftIff(w: World, steps: seq<Step>, phase: Phase, view: View)
    requires Inv(w) && w.baseline.Some? && view.Read?
    requires forall i :: 0 <= i < |steps| ==> !Rebaselines(steps[i])
    requires OrderProbe.ProbeAll(view.orders, view.residuals, view.held).defer == {}
    ensures var v := Run(w, steps);
            var r := Evaluate(v, phase, view, false);
            && v.baseline.Some?
            && (r.Success? <==> Cash.Readable(Cash.SinceBaseline(v.fills, v.baseline.value)))
            && (r.Success? ==>
                  (r.value.cash == None <==>
                     view.cash == Cash.Expected(w.baseline.value, w.fills)
                                  + TradedSince(w.fills, v.fills, Cash.Sell) - TradedSince(w.fills, v.fills, Cash.Buy)))
  {
    TelescopeOverRuns(w, steps);
    Cash.ExpectedIsAnchored(w.baseline.value, w.fills);
    Cash.NetBySide(w.fills);
    Cash.NetBySide(Run(w, steps).fills);
    QuietPass(Run(w, steps), phase, view);
  }

  lemma QuietPass(v: World, phase: Phase, view: View)
    requires v.baseline.Some? && view.Read?
    requires OrderProbe.ProbeAll(view.orders, view.residuals, view.held).defer == {}
    ensures var r := Evaluate(v, phase, view, false);
            && (r.Success? <==> Cash.Readable(Cash.SinceBaseline(v.fills, v.baseline.value)))
            && (r.Success? ==> (r.value.cash == None <==> view.cash == Cash.Expected(v.baseline.value, v.fills)))
  {}

  // ------------------------------------------------------------------ the latch

  /** The latch is let go only by a completed pass outside the immediate phase that
      read the broker, found nothing at all, followed no crash that had journaled
      drift, and ran with no symbol frozen; and with a baseline, either the cash
      matched or the account was not quiet and no residue was outstanding. */
  lemma LatchClearsOnly(w: World, phase: Phase, view: View, rebaseline: bool)
    requires Inv(w) && w.latch && !RunPass(w, phase, view, rebaseline).latch
    ensures view.Read? && !phase.Immediate? && w.driftInWindow == 0 && w.frozen == {}
    ensures var probed := OrderProbe.ProbeAll(view.orders, view.residuals, view.held);
            && probed.completed && probed.findings == []
            && Planner.DiffAll(w.book, view.portfolio, view.symbols, {}, Inflight(probed.defer), true).findings == []
            && (w.baseline.Some? ==>
                  if probed.defer == {} then view.cash == Cash.Expected(w.baseline.value, w.fills) else w.residue == None)
  {
    assert Freeze(w, phase) == w;
    assert view.Read?;
    var probed := OrderProbe.ProbeAll(view.orders, view.residuals, view.held);
    var positions := Planner.DiffAll(w.book, view.portfolio, view.symbols, {}, Inflight(probed.defer), true);
    assert positions.findings != [] ==> PositionDrifts(positions.findings) != [];
  }

  /** Nor does a crash let go of it: the journal it leaves behind has lost the latch
      only when the whole of a clean pass had been written. */
  lemma CrashClearsOnlyWhenWritten(w: World, phase: Phase, view: View, rebaseline: bool, keep: nat)
    requires Fold(w.journal).latched && !Fold(Leftover(w, phase, view, rebaseline, keep)).latched
    ensures var r := Evaluate(Freeze(w, phase), phase, view, rebaseline);
            && r.Success? && Clean(r.value) && !phase.Immediate? && Fold(w.journal).driftInWindow == 0
            && Leftover(w, phase, view, rebaseline, keep) == w.journal + Journaled(r.value, phase)
  {
    var r := Evaluate(Freeze(w, phase), phase, view, rebaseline);
    if r.Success? {
      RowsClearOnlyWhenWritten(w.journal, r.value, phase, keep);
    }
  }

  lemma RowsClearOnlyWhenWritten(rows: seq<Row>, p: PassResult, phase: Phase, keep: nat)
    requires var all := Journaled(p, phase); Fold(rows).latched && !Fold(rows + all[..Min(keep, |all|)]).latched
    ensures Clean(p) && !phase.Immediate? && Fold(rows).driftInWindow == 0
    ensures var all := Journaled(p, phase); all[..Min(keep, |all|)] == all
  {
    var all := Journaled(p, phase);
    if keep < |all| {
      PartialPass(rows, p, phase, keep);
    } else {
      assert all[..|all|] == all;
      FoldPass(rows, p, phase);
    }
  }

  // ---------------------------------------------------------------- the residue

  predicate CashOf(s: Step, cash: real) { (s.DoPass? || s.Crash?) && s.view.Read? && s.view.cash == cash }

  /** Short of a rebaseline, an outstanding residue is let go only by a pass that found
      the broker's cash to be what was expected; a crash never lets go of it otherwise. */
  lemma ResidueClearsOnlyOnMatch(w: World, s: Step)
    requires Inv(w) && w.residue.Some? && !Rebaselines(s) && Next(w, s).residue == None
    ensures w.baseline.Some? && CashOf(s, Cash.Expected(w.baseline.value, w.fills))
  {
    InvResidue(w);
    match s
    case Fill(_, _) =>
    case DoPass(phase, view, _) => PassResidue(w, phase, view);
    case Crash(phase, view, _, keep, _, _) =>
      PassResidue(w, phase, view);
      LeftoverResidue(w, phase, view, keep);
  }

  lemma PassResidue(w: World, phase: Phase, view: View)
    requires Inv(w) && w.residue.Some?
    ensures w.baseline.Some?
    ensures var r := Evaluate(Freeze(w, phase), phase, view, false);
            r.Success? ==>
              && (r.value.cash.Some? ==> !r.value.cash.value.rebaselined)
              && (r.value.residue == None ==>
                    r.value.cash == None && view.Read? && view.cash == Cash.Expected(w.baseline.value, w.fills))
              && (r.value.cash == None && r.value.completed ==> r.value.residue == None)
  {
    InvResidue(w);
  }

  lemma WrittenResidue(journal: seq<Row>, p: PassResult, phase: Phase, keep: nat)
    requires keep <= |Journaled(p, phase)|
    requires Fold(journal).residue.Some? && (p.cash.Some? ==> !p.cash.value.rebaselined)
    ensures Fold(journal + Journaled(p, phase)[..keep]).residue.Some? || (p.cash.None? && p.completed)
  {
    var all := Journaled(p, phase);
    if keep < |all| {
      PartialPass(journal, p, phase, keep);
    } else {
      FoldPass(journal, p, phase);
      assert all[..keep] == all;
    }
  }

  lemma LeftoverResidue(w: World, phase: Phase, view: View, keep: nat)
    requires Inv(w) && w.residue.Some?
    requires Fold(Leftover(w, phase, view, false, keep)).residue == None
    ensures var r := Evaluate(Freeze(w, phase), phase, view, false);
            r.Success? && r.value.residue == None
  {
    PassResidue(w, phase, view);
    var r := Evaluate(Freeze(w, phase), phase, view, false);
    if r.Success? {
      WrittenResidue(w.journal, r.value, phase, Min(keep, |Journaled(r.value, phase)|));
    }
  }

  /** No step of the run ever sees the cash that the state before it expects. */
  ghost predicate NeverMatches(w: World, steps: seq<Step>) {
    forall n :: 0 <= n < |steps| ==>
      var v := Run(w, steps[..n]);
      !Rebaselines(steps[n]) && (v.baseline.Some? ==> !CashOf(steps[n], Cash.Expected(v.baseline.value, v.fills)))
  }

  lemma NeverMatchesFront(w: World, steps: seq<Step>)
    requires steps != [] && NeverMatches(w, steps)
    ensures NeverMatches(w, steps[..|steps| - 1])
    ensures steps[..|steps| - 1][..|steps| - 1] == steps[..|steps| - 1]
  {
    var front := steps[..|steps| - 1];
    assert forall k :: 0 <= k < |front| ==> front[..k] == steps[..k];
  }

  /** A cash gap nobody explained stays latched through any number of passes, fills,
      crashes and restarts, deferred passes included. */
  lemma {:induction false} GapStaysLatched(w: World, steps: seq<Step>)
    requires Inv(w) && w.residue.Some? && NeverMatches(w, steps)
    ensures Run(w, steps).residue.Some? && Run(w, steps).latch
  {
    RunKeepsInv(w, steps);
    if steps != [] {
      var n := |steps| - 1;
      var front := steps[..n];
      NeverMatchesFront(w, steps);
      GapStaysLatched(w, front);
      RunKeepsInv(w, front);
      if Next(Run(w, front), steps[n]).residue == None {
        ResidueClearsOnlyOnMatch(Run(w, front), steps[n]);
      }
    }
  }

  // ---------------------------------------------------------------- the restart

  /** A restart rebuilds the whole in-process state, save that a residue the process
      had let go may come back. */
  lemma RestartRebuilds(w: World)
    requires Inv(w)
    ensures Restart(w.fills, w.journal, w.frozen, w.book) == w.(residue := Fold(w.journal).residue)
    ensures Fold(w.journal).residue != w.residue ==> w.residue == None && w.latch
  {
    ResidueMeansLatched(w.journal);
  }

  /** When it comes back: exactly after a pass that found the cash to match in a
      window in which a crash had left cash drift. */
  lemma ResidueComesBackIff(w: World, phase: Phase, view: View, rebaseline: bool)
    requires Inv(w) && w.residue == Fold(w.journal).residue
    requires Evaluate(Freeze(w, phase), phase, view, rebaseline).Success?
    ensures var p := Evaluate(Freeze(w, phase), phase, view, rebaseline).value;
            var v := RunPass(w, phase, view, rebaseline);
            v.residue != Fold(v.journal).residue
            <==> p.completed && p.cash == None && w.residue.Some? && Fold(w.journal).cashInWindow > 0
  {
    var f := Freeze(w, phase);
    InvResidue(w);
    EvaluateFacts(f, phase, view, rebaseline);
    FoldPass(w.journal, Evaluate(f, phase, view, rebaseline).value, phase);
  }

  function CrashJournal(drift: CashDrift): seq<Row> {
    [BaselineRow(Cash.Baseline(100.0, 0)), RunRow(Sod, true, true), CashRow(drift)]
  }

  lemma CrashJournalFolds(drift: CashDrift)
    ensures Fold(CrashJournal(drift))
            == Durable(true, Some(Cash.Baseline(100.0, 0)), if drift.rebaselined then None else Some(drift), 1, 1, 1)
  {
    var a := [BaselineRow(Cash.Baseline(100.0, 0))];
    var b := a + [RunRow(Sod, true, true)];
    FoldSnoc([], a[0]);
    FoldSnoc(a, RunRow(Sod, true, true));
    FoldSnoc(b, CashRow(drift));
    assert CrashJournal(drift) == b + [CashRow(drift)];
  }

  lemma QuietMatchingPass(w: World)
    requires w.fills == [] && w.baseline == Some(Cash.Baseline(100.0, 0)) && w.book == map[] && w.frozen == {}
    ensures var r := Evaluate(w, Sod, Read(100.0, [], [], {}, map[], []), false);
            r.Success? && r.value.others == [] && r.value.cash == None && r.value.completed && r.value.residue == None
  {
    assert OrderProbe.ProbeAll([], [], {}).defer == {};
  }

  /** Such a history: the crash left the cash row without its summary, and the pass
      after the restart found the cash to match. */
  lemma ResidueComesBack()
    ensures var drift := CashDrift(100.0, 90.0, false);
            var w := Restart([], CrashJournal(drift), {}, map[]);
            var v := RunPass(w, Sod, Read(100.0, [], [], {}, map[], []), false);
            Inv(w) && v.residue == None && v.latch && Fold(v.journal).residue == Some(drift)
  {
    var drift := CashDrift(100.0, 90.0, false);
    var w := Restart([], CrashJournal(drift), {}, map[]);
    CrashJournalFolds(drift);
    QuietMatchingPass(w);
    FoldPass(w.journal, Evaluate(w, Sod, Read(100.0, [], [], {}, map[], []), false).value, Sod);
  }

  // ------------------------------------------------------------------- the book

  ghost predicate OpenBook(book: Planner.Book) { forall s :: s in book ==> Planner.AllOpen(book[s]) }

  ghost predicate BringsOpenBook(s: Step) {
    match s
    case Fill(_, book) => OpenBook(book)
    case Crash(_, _, _, _, _, book) => OpenBook(book)
    case DoPass(_, _, _) => true
  }

  /** The paper book hands over open lots only (PaperBook.OpenLotsAreOpen), and no pass
      leaves an emptied one behind: in every reachable state all lots are open. */
  lemma {:induction false} RunKeepsBookOpen(w: World, steps: seq<Step>)
    requires OpenBook(w.book) && forall s :: s in steps ==> BringsOpenBook(s)
    ensures OpenBook(Run(w, steps).book)
  {
    if steps != [] {
      var n := |steps| - 1;
      RunKeepsBookOpen(w, steps[..n]);
      assert steps[n] in steps;
      if steps[n].DoPass? {
        PassKeepsBookOpen(Run(w, steps[..n]), steps[n].phase, steps[n].view, steps[n].rebaseline);
      }
    }
  }

  lemma PassKeepsBookOpen(w: World, phase: Phase, view: View, rebaseline: bool)
    requires OpenBook(w.book)
    ensures OpenBook(RunPass(w, phase, view, rebaseline).book)
  {
    var f := Freeze(w, phase);
    if view.Read? {
      Planner.BookStaysOpen(w.book, view.portfolio, f.frozen,
                            Inflight(OrderProbe.ProbeAll(view.orders, view.residuals, view.held).defer), true);
      Planner.BookStaysOpen(w.book, view.portfolio, f.frozen, {}, true);
    }
  }

  // ---------------------------------------------------------------- convergence

  /** Two passes over the same quiet view, every difference of which is an adjustable
      position, clear the latch whatever had set it: the first adjusts the book, and
      the second has nothing left to report. */
  lemma TwoPassesRecover(w: World, first: Phase, second: Phase, view: View)
    requires Inv(w) && w.frozen == {} && w.baseline.Some?
    requires !first.Immediate? && !second.Immediate?
    requires view.Read? && view.orders == [] && view.residuals == [] && view.held == {}
    requires Cash.Readable(Cash.SinceBaseline(w.fills, w.baseline.value))
    requires view.cash == Cash.Expected(w.baseline.value, w.fills)
    requires OpenBook(w.book)
    requires forall f :: f in Planner.DiffAll(w.book, view.portfolio, view.symbols, {}, {}, true).findings ==>
               f.action == Planner.DoAdjust
    ensures !RunPass(RunPass(w, first, view, false), second, view, false).latch
  {
    assert OrderProbe.ProbeAll([], [], {}).defer == {};
    assert Inflight({}) == {};
    var v := RunPass(w, first, view, false);
    assert v.driftInWindow == 0 && v.frozen == {} && v.fills == w.fills;
    assert v.book == Planner.BookAfterAll(w.book, view.portfolio, {}, {}, true);
    assert v.baseline == Some(Cash.Baseline(view.cash, Cash.Watermark(w.fills)));
    Cash.NewBaseline(w.fills, view.cash);
    Planner.AdjustedBookIsClean(w.book, view.portfolio, view.symbols, {}, {}, true);
  }
}
