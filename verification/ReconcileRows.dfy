/**
 What a broker reconcile writes to its journal, and the fold that rebuilds the
 in-process state from those rows after a restart
 (reconcile_ledger.rehydrate_reconcile_state).
 */
module ReconcileRows {
  import opened Wrappers
  import Cash
  import Planner

  /** An immediate pass is the answer to a silent adjustment of one symbol. */
  datatype Phase = Sod | Eod | Cli | Immediate(symbol: string)

  /** Cash drift is left to the operator unless a rebaseline was asked for. */
  datatype CashDrift = CashDrift(expected: real, broker: real, rebaselined: bool)

  datatype OrderAction = ResolvedTerminal | LatchedOperator

  datatype NonCash =
    | SilentAdjust(symbol: string)
    | OrderState(orderId: string, action: OrderAction)
    | FillsMissed(orderId: string)
    | PositionDrift(finding: Planner.Finding)

  datatype Row =
    | DriftRow(other: NonCash)
    | CashRow(cash: CashDrift)
    | BaselineRow(baseline: Cash.Baseline)
    | RunRow(phase: Phase, completed: bool, clean: bool)

  /** The folded state; the two counters belong to the window since the last summary. */
  datatype Durable = Durable(
    latched: bool, baseline: Option<Cash.Baseline>, residue: Option<CashDrift>,
    passCount: nat, driftInWindow: nat, cashInWindow: nat)

  function StepRow(d: Durable, row: Row): Durable {
    match row
    case DriftRow(_) => d.(latched := true, driftInWindow := d.driftInWindow + 1)
    case CashRow(c) =>
      d.(latched := true, driftInWindow := d.driftInWindow + 1, cashInWindow := d.cashInWindow + 1,
         residue := if c.rebaselined then None else Some(c))
    case BaselineRow(b) => d.(baseline := Some(b))
    case RunRow(phase, completed, clean) =>
      d.(latched := d.latched && !(completed && clean && !phase.Immediate? && d.driftInWindow == 0),
         residue := if completed && d.cashInWindow == 0 then None else d.residue,
         passCount := d.passCount + 1, driftInWindow := 0, cashInWindow := 0)
  }

  function Fold(rows: seq<Row>): Durable {
    if rows == [] then Durable(false, None, None, 0, 0, 0)
    else StepRow(Fold(rows[..|rows| - 1]), rows[|rows| - 1])
  }

  lemma FoldSnoc(rows: seq<Row>, row: Row)
    ensures Fold(rows + [row]) == StepRow(Fold(rows), row)
  {
    assert (rows + [row])[..|rows|] == rows;
  }

  lemma FoldStep(rows: seq<Row>, i: nat)
    requires i < |rows|
    ensures Fold(rows[..i + 1]) == StepRow(Fold(rows[..i]), rows[i])
  {
    assert rows[..i + 1][..i] == rows[..i];
  }

  method RehydrateReconcileState(rows: seq<Row>) returns (d: Durable)
    ensures d == Fold(rows)
  {
    var latched, passCount, driftInWindow, cashInWindow := false, 0, 0, 0;
    var baseline: Option<Cash.Baseline>, residue: Option<CashDrift> := None, None;
    var i := 0;
    while i < |rows|
      invariant 0 <= i <= |rows|
      invariant Durable(latched, baseline, residue, passCount, driftInWindow, cashInWindow) == Fold(rows[..i])
    {
      FoldStep(rows, i);
      match rows[i] {
        case DriftRow(_) =>
          latched := true;
          driftInWindow := driftInWindow + 1;
        case CashRow(c) =>
          latched := true;
          driftInWindow, cashInWindow := driftInWindow + 1, cashInWindow + 1;
          residue := if c.rebaselined then None else Some(c);
        case BaselineRow(b) =>
          baseline := Some(b);
        case RunRow(phase, completed, clean) =>
          passCount := passCount + 1;
          if completed && clean && !phase.Immediate? && driftInWindow == 0 {
            latched := false;
          }
          if completed && cashInWindow == 0 {
            residue := None;
          }
          driftInWindow, cashInWindow := 0, 0;
      }
      i := i + 1;
    }
    assert rows[..|rows|] == rows;
    d := Durable(latched, baseline, residue, passCount, driftInWindow, cashInWindow);
  }

  /** Whatever rows were written, in whatever order and however far: an outstanding
      cash residue never survives without the latch. */
  lemma {:induction false} ResidueMeansLatched(rows: seq<Row>)
    ensures var d := Fold(rows);
            && (d.residue.Some? ==> d.latched && !d.residue.value.rebaselined)
            && d.cashInWindow <= d.driftInWindow
            && (d.driftInWindow > 0 ==> d.latched)
  {
    if rows != [] {
      ResidueMeansLatched(rows[..|rows| - 1]);
    }
  }

  // ------------------------------------------------------------- a pass's rows

  /** What a pass hands over to be written; at most one finding is about cash. */
  datatype PassResult = PassResult(
    others: seq<NonCash>, cash: Option<CashDrift>, completed: bool,
    baseline: Option<Cash.Baseline>, residue: Option<CashDrift>, book: Planner.Book)

  predicate Clean(p: PassResult) { p.completed && p.others == [] && p.cash.None? }

  function DriftRows(others: seq<NonCash>): seq<Row> {
    if others == [] then [] else DriftRows(others[..|others| - 1]) + [DriftRow(others[|others| - 1])]
  }

  function CashRows(cash: Option<CashDrift>): seq<Row> {
    if cash.Some? then [CashRow(cash.value)] else []
  }

  function BaselineRows(baseline: Option<Cash.Baseline>): seq<Row> {
    if baseline.Some? then [BaselineRow(baseline.value)] else []
  }

  /** How many of the findings, all but the one about cash, come before it. */
  function BeforeCash(others: seq<NonCash>): (n: nat)
    ensures n <= |others|
  {
    if others != [] && others[0].SilentAdjust? then 1 else 0
  }

  /** The findings as they are written, by the names of their kinds: the silent
      adjustment, then cash, then orders and positions. */
  function Findings(p: PassResult): seq<Row> {
    var n := BeforeCash(p.others);
    DriftRows(p.others[..n]) + CashRows(p.cash) + DriftRows(p.others[n..])
  }

  /** Findings, then the baseline, then the summary. */
  function Journaled(p: PassResult, phase: Phase): seq<Row> {
    Findings(p) + BaselineRows(p.baseline) + [RunRow(phase, p.completed, Clean(p))]
  }

  /** The place of a finding's kind among the kinds. */
  function Rank(row: Row): nat {
    if row.DriftRow? && row.other.SilentAdjust? then 0 else if row.CashRow? then 1 else 2
  }

  /** Sorted, and nothing lost: for a pass whose one silent adjustment comes first. */
  lemma FindingsAreSorted(p: PassResult)
    requires forall i :: 0 < i < |p.others| ==> !p.others[i].SilentAdjust?
    ensures forall i, j :: 0 <= i < j < |Findings(p)| ==> Rank(Findings(p)[i]) <= Rank(Findings(p)[j])
    ensures multiset(Findings(p)) == multiset(DriftRows(p.others) + CashRows(p.cash))
  {
    var n := BeforeCash(p.others);
    var a, b, c := DriftRows(p.others[..n]), CashRows(p.cash), DriftRows(p.others[n..]);
    DriftRowsAreDrift(p.others[..n]);
    DriftRowsAreDrift(p.others[n..]);
    RankedInThree(a, b, c);
    DriftRowsConcat(p.others[..n], p.others[n..]);
    assert p.others[..n] + p.others[n..] == p.others;
    assert multiset(a + b + c) == multiset(a) + multiset(b) + multiset(c);
    assert multiset(a + c + b) == multiset(a) + multiset(c) + multiset(b);
  }

  lemma RankedInThree(a: seq<Row>, b: seq<Row>, c: seq<Row>)
    requires forall i :: 0 <= i < |a| ==> Rank(a[i]) == 0
    requires forall i :: 0 <= i < |b| ==> Rank(b[i]) == 1
    requires forall i :: 0 <= i < |c| ==> Rank(c[i]) == 2
    ensures forall i, j :: 0 <= i < j < |a + b + c| ==> Rank((a + b + c)[i]) <= Rank((a + b + c)[j])
  {
    var all := a + b + c;
    forall i | 0 <= i < |all|
      ensures Rank(all[i]) == if i < |a| then 0 else if i < |a| + |b| then 1 else 2
    {}
  }

  lemma {:induction false} DriftRowsConcat(a: seq<NonCash>, b: seq<NonCash>)
    ensures DriftRows(a + b) == DriftRows(a) + DriftRows(b)
  {
    if b == [] {
      assert a + b == a;
    } else {
      var n := |b| - 1;
      DriftRowsConcat(a, b[..n]);
      assert (a + b)[..|a + b| - 1] == a + b[..n];
    }
  }

  function AfterDrifts(d: Durable, n: nat): Durable {
    d.(latched := d.latched || n > 0, driftInWindow := d.driftInWindow + n)
  }

  function AfterCash(d: Durable, cash: Option<CashDrift>): Durable {
    if cash.Some? then StepRow(d, CashRow(cash.value)) else d
  }

  function AfterBaseline(d: Durable, baseline: Option<Cash.Baseline>): Durable {
    if baseline.Some? then d.(baseline := baseline) else d
  }

  lemma {:induction false} FoldDriftRows(rows: seq<Row>, others: seq<NonCash>)
    ensures Fold(rows + DriftRows(others)) == AfterDrifts(Fold(rows), |others|)
  {
    if others == [] {
      assert rows + DriftRows(others) == rows;
    } else {
      var n := |others| - 1;
      FoldDriftRows(rows, others[..n]);
      assert rows + DriftRows(others) == rows + DriftRows(others[..n]) + [DriftRow(others[n])];
      FoldSnoc(rows + DriftRows(others[..n]), DriftRow(others[n]));
    }
  }

  /** The folded effect of a whole pass. */
  function AfterPass(d: Durable, p: PassResult, phase: Phase): Durable {
    var drifted := p.others != [] || p.cash.Some?;
    Durable(
      drifted || (d.latched && !(p.completed && !phase.Immediate? && d.driftInWindow == 0)),
      if p.baseline.Some? then p.baseline else d.baseline,
      if p.cash.Some? then if p.cash.value.rebaselined then None else p.cash
      else if p.completed && d.cashInWindow == 0 then None else d.residue,
      d.passCount + 1, 0, 0)
  }

  lemma AfterPassInSteps(d: Durable, p: PassResult, phase: Phase)
    ensures var n := BeforeCash(p.others);
            StepRow(AfterBaseline(AfterDrifts(AfterCash(AfterDrifts(d, n), p.cash), |p.others| - n), p.baseline),
                    RunRow(phase, p.completed, Clean(p)))
            == AfterPass(d, p, phase)
  {}

  lemma FoldCashRows(rows: seq<Row>, cash: Option<CashDrift>)
    ensures Fold(rows + CashRows(cash)) == AfterCash(Fold(rows), cash)
  {
    if cash.Some? { FoldSnoc(rows, CashRow(cash.value)); } else { assert rows + CashRows(cash) == rows; }
  }

  lemma FoldBaselineRows(rows: seq<Row>, baseline: Option<Cash.Baseline>)
    ensures Fold(rows + BaselineRows(baseline)) == AfterBaseline(Fold(rows), baseline)
  {
    if baseline.Some? {
      FoldSnoc(rows, BaselineRow(baseline.value));
    } else {
      assert rows + BaselineRows(baseline) == rows;
    }
  }

  lemma FoldFindings(rows: seq<Row>, p: PassResult)
    ensures var n := BeforeCash(p.others);
            Fold(rows + Findings(p)) == AfterDrifts(AfterCash(AfterDrifts(Fold(rows), n), p.cash), |p.others| - n)
  {
    var n := BeforeCash(p.others);
    var front := rows + DriftRows(p.others[..n]);
    FoldDriftRows(rows, p.others[..n]);
    FoldCashRows(front, p.cash);
    FoldDriftRows(front + CashRows(p.cash), p.others[n..]);
    InThree(rows, DriftRows(p.others[..n]), CashRows(p.cash), DriftRows(p.others[n..]));
  }

  lemma InThree(rows: seq<Row>, a: seq<Row>, b: seq<Row>, c: seq<Row>)
    ensures rows + (a + b + c) == rows + a + b + c
  {}

  lemma FoldPass(rows: seq<Row>, p: PassResult, phase: Phase)
    ensures Fold(rows + Journaled(p, phase)) == AfterPass(Fold(rows), p, phase)
  {
    var summary := RunRow(phase, p.completed, Clean(p));
    FoldFindings(rows, p);
    FoldBaselineRows(rows + Findings(p), p.baseline);
    FoldSnoc(rows + Findings(p) + BaselineRows(p.baseline), summary);
    InThree(rows, Findings(p), BaselineRows(p.baseline), [summary]);
    AfterPassInSteps(Fold(rows), p, phase);
  }

  lemma {:induction false} DriftRowsAreDrift(others: seq<NonCash>)
    ensures |DriftRows(others)| == |others|
    ensures forall i :: 0 <= i < |others| ==> DriftRows(others)[i] == DriftRow(others[i])
  {
    if others != [] {
      DriftRowsAreDrift(others[..|others| - 1]);
    }
  }

  /** A row that a pass with this outcome may write before its summary. */
  predicate Fits(row: Row, first: bool, drifted: bool, cash: Option<CashDrift>, baseline: Option<Cash.Baseline>) {
    match row
    case DriftRow(_) => drifted
    case CashRow(c) => drifted && cash == Some(c)
    case BaselineRow(b) => baseline == Some(b) && (first ==> !drifted)
    case RunRow(_, _, _) => false
  }

  lemma JournaledFits(p: PassResult, phase: Phase, i: nat)
    requires i + 1 < |Journaled(p, phase)|
    ensures Fits(Journaled(p, phase)[i], i == 0, p.others != [] || p.cash.Some?, p.cash, p.baseline)
  {
    var n := BeforeCash(p.others);
    DriftRowsAreDrift(p.others[..n]);
    DriftRowsAreDrift(p.others[n..]);
    if i < |Findings(p)| {
      FindingFits(p, i);
    }
  }

  lemma FindingFits(p: PassResult, i: nat)
    requires i < |Findings(p)|
    ensures Fits(Findings(p)[i], i == 0, p.others != [] || p.cash.Some?, p.cash, p.baseline)
    ensures !Findings(p)[i].BaselineRow? && |Findings(p)| > 0
  {
    var n := BeforeCash(p.others);
    DriftRowsAreDrift(p.others[..n]);
    DriftRowsAreDrift(p.others[n..]);
  }

  lemma {:induction false} PartialFold(
    rows: seq<Row>, part: seq<Row>, drifted: bool, cash: Option<CashDrift>, baseline: Option<Cash.Baseline>)
    requires forall i :: 0 <= i < |part| ==> Fits(part[i], i == 0, drifted, cash, baseline)
    ensures var d, e := Fold(rows), Fold(rows + part);
            && e.latched == (d.latched || (part != [] && drifted))
            && (e.residue == d.residue
                || (cash.Some? && e.residue == if cash.value.rebaselined then None else cash))
            && (e.baseline == d.baseline || (baseline.Some? && e.baseline == baseline))
            && e.passCount == d.passCount
  {
    if part == [] {
      assert rows + part == rows;
    } else {
      var n := |part| - 1;
      PartialFold(rows, part[..n], drifted, cash, baseline);
      assert rows + part == rows + part[..n] + [part[n]];
      FoldSnoc(rows + part[..n], part[n]);
      assert Fits(part[n], n == 0, drifted, cash, baseline);
    }
  }

  /** A crash that leaves only some rows of a pass on disk fails closed: the latch
      and the residue stay, and the baseline is the old one or the pass's own. */
  lemma PartialPass(rows: seq<Row>, p: PassResult, phase: Phase, keep: nat)
    requires keep < |Journaled(p, phase)|
    ensures var d := Fold(rows);
            var e := Fold(rows + Journaled(p, phase)[..keep]);
            && e.latched == (d.latched || (keep > 0 && (p.others != [] || p.cash.Some?)))
            && (e.residue == d.residue
                || (p.cash.Some? && e.residue == if p.cash.value.rebaselined then None else p.cash))
            && (e.baseline == d.baseline || (p.baseline.Some? && e.baseline == p.baseline))
            && e.passCount == d.passCount
  {
    var part := Journaled(p, phase)[..keep];
    var drifted := p.others != [] || p.cash.Some?;
    forall i | 0 <= i < |part| ensures Fits(part[i], i == 0, drifted, p.cash, p.baseline) {
      JournaledFits(p, phase, i);
    }
    PartialFold(rows, part, drifted, p.cash, p.baseline);
  }
}
