/**
 What a restart rebuilds of reconciliation, read off the rows on disk
 (reconcile_ledger.rehydrate_reconcile_state): when the latch is set, which cash residue is
 outstanding, which baseline holds.
 */
module ReconcileFold {
  import opened Wrappers
  import opened ReconcileRows
  import Cash

  ghost predicate IsFinding(row: Row) { row.DriftRow? || row.CashRow? }

  ghost predicate IsSummary(row: Row) { row.RunRow? }

  /** A finding without a summary after it. */
  ghost predicate OpenFinding(rows: seq<Row>, i: int) {
    0 <= i < |rows| && IsFinding(rows[i]) && forall j :: i < j < |rows| ==> !IsSummary(rows[j])
  }

  ghost predicate HasFinding(rows: seq<Row>) { exists i :: OpenFinding(rows, i) }

  ghost predicate HasCash(rows: seq<Row>) { exists i :: OpenFinding(rows, i) && rows[i].CashRow? }

  /** The summary of a whole, clean pass, not an immediate one, with no finding since the
      summary before it. */
  ghost predicate Clears(rows: seq<Row>, n: int) {
    && 0 <= n < |rows| && rows[n].RunRow? && rows[n].completed && rows[n].clean && !rows[n].phase.Immediate?
    && !HasFinding(rows[..n])
  }

  /** The summary of a whole pass, with no finding about cash since the one before it. */
  ghost predicate SettlesCash(rows: seq<Row>, n: int) {
    0 <= n < |rows| && rows[n].RunRow? && rows[n].completed && !HasCash(rows[..n])
  }

  ghost predicate Holds(rows: seq<Row>, i: int) {
    0 <= i < |rows| && IsFinding(rows[i]) && forall j :: i < j < |rows| ==> !Clears(rows, j)
  }

  ghost predicate Outstanding(rows: seq<Row>, i: int, c: CashDrift) {
    && 0 <= i < |rows| && rows[i] == CashRow(c) && !c.rebaselined
    && forall j :: i < j < |rows| ==> !rows[j].CashRow? && !SettlesCash(rows, j)
  }

  ghost predicate LastBaseline(rows: seq<Row>, i: int, b: Cash.Baseline) {
    0 <= i < |rows| && rows[i] == BaselineRow(b) && forall j :: i < j < |rows| ==> !rows[j].BaselineRow?
  }

  lemma OpenSnoc(front: seq<Row>, row: Row)
    ensures HasFinding(front + [row]) <==> !IsSummary(row) && (IsFinding(row) || HasFinding(front))
    ensures HasCash(front + [row]) <==> !IsSummary(row) && (row.CashRow? || HasCash(front))
  {
    var rows, n := front + [row], |front|;
    assert rows[n] == row;
    forall i | 0 <= i < n
      ensures rows[i] == front[i] && (OpenFinding(rows, i) <==> OpenFinding(front, i) && !IsSummary(row))
    {
      assert forall j :: i <= j < n ==> rows[j] == front[j];
    }
    assert OpenFinding(rows, n) <==> IsFinding(row);
  }

  /** What a summary does does not depend on what comes after it. */
  lemma SummariesStay(front: seq<Row>, row: Row, n: int)
    requires 0 <= n < |front|
    ensures Clears(front + [row], n) <==> Clears(front, n)
    ensures SettlesCash(front + [row], n) <==> SettlesCash(front, n)
  {
    assert (front + [row])[..n] == front[..n];
  }

  /** The two counters of the window tell whether it is empty. */
  lemma {:induction false} WindowIff(rows: seq<Row>)
    ensures Fold(rows).driftInWindow > 0 <==> HasFinding(rows)
    ensures Fold(rows).cashInWindow > 0 <==> HasCash(rows)
  {
    if rows != [] {
      var front, row := rows[..|rows| - 1], rows[|rows| - 1];
      assert rows == front + [row];
      WindowIff(front);
      OpenSnoc(front, row);
    }
  }

  lemma HoldsSnoc(front: seq<Row>, row: Row)
    ensures (exists i :: Holds(front + [row], i))
            <==> IsFinding(row) || (!Clears(front + [row], |front|) && exists i :: Holds(front, i))
  {
    var rows, n := front + [row], |front|;
    assert rows[n] == row;
    forall i | 0 <= i < n ensures Holds(rows, i) <==> Holds(front, i) && !Clears(rows, n) {
      assert rows[i] == front[i];
      forall j | i < j < n ensures Clears(rows, j) <==> Clears(front, j) {
        SummariesStay(front, row, j);
      }
    }
    assert Holds(rows, n) <==> IsFinding(row);
  }

  /** A restart is latched exactly if some finding has not been cleared since. */
  lemma {:induction false} LatchedIff(rows: seq<Row>)
    ensures Fold(rows).latched <==> exists i :: Holds(rows, i)
  {
    if rows != [] {
      var front, row := rows[..|rows| - 1], rows[|rows| - 1];
      assert rows == front + [row];
      LatchedIff(front);
      WindowIff(front);
      HoldsSnoc(front, row);
    }
  }

  lemma OutstandingSnoc(front: seq<Row>, row: Row, c: CashDrift)
    ensures (exists i :: Outstanding(front + [row], i, c))
            <==> if row.CashRow? then row == CashRow(c) && !c.rebaselined
                 else !SettlesCash(front + [row], |front|) && exists i :: Outstanding(front, i, c)
  {
    var rows, n := front + [row], |front|;
    assert rows[n] == row;
    forall i | 0 <= i < n
      ensures Outstanding(rows, i, c) <==> Outstanding(front, i, c) && !row.CashRow? && !SettlesCash(rows, n)
    {
      assert rows[i] == front[i];
      forall j | i < j < n ensures rows[j] == front[j] && (SettlesCash(rows, j) <==> SettlesCash(front, j)) {
        SummariesStay(front, row, j);
      }
    }
    assert Outstanding(rows, n, c) <==> row == CashRow(c) && !c.rebaselined;
  }

  /** The cash residue it finds is the last finding about cash, if the operator has not
      rebaselined and no whole pass without one has settled it since. */
  lemma {:induction false} ResidueIff(rows: seq<Row>, c: CashDrift)
    ensures Fold(rows).residue == Some(c) <==> exists i :: Outstanding(rows, i, c)
  {
    if rows != [] {
      var front, row := rows[..|rows| - 1], rows[|rows| - 1];
      assert rows == front + [row];
      ResidueIff(front, c);
      WindowIff(front);
      OutstandingSnoc(front, row, c);
    }
  }

  lemma LastBaselineSnoc(front: seq<Row>, row: Row, b: Cash.Baseline)
    ensures (exists i :: LastBaseline(front + [row], i, b))
            <==> if row.BaselineRow? then row == BaselineRow(b) else exists i :: LastBaseline(front, i, b)
  {
    var rows, n := front + [row], |front|;
    assert rows[n] == row;
    forall i | 0 <= i < n ensures LastBaseline(rows, i, b) <==> LastBaseline(front, i, b) && !row.BaselineRow? {
      assert forall j :: i <= j < n ==> rows[j] == front[j];
    }
    assert LastBaseline(rows, n, b) <==> row == BaselineRow(b);
  }

  /** And the baseline in force is the last one written. */
  lemma {:induction false} BaselineIff(rows: seq<Row>, b: Cash.Baseline)
    ensures Fold(rows).baseline == Some(b) <==> exists i :: LastBaseline(rows, i, b)
  {
    if rows != [] {
      var front, row := rows[..|rows| - 1], rows[|rows| - 1];
      assert rows == front + [row];
      BaselineIff(front, b);
      LastBaselineSnoc(front, row, b);
    }
  }

  /** Every summary counts as a pass, whole or not. */
  lemma {:induction false} PassesAre(rows: seq<Row>)
    ensures Fold(rows).passCount == |Summaries(rows)|
  {
    if rows != [] {
      var n := |rows| - 1;
      PassesAre(rows[..n]);
      assert Summaries(rows) == if IsSummary(rows[n]) then Summaries(rows[..n]) + {n} else Summaries(rows[..n]);
    }
  }

  ghost function Summaries(rows: seq<Row>): set<int> { set i | 0 <= i < |rows| && IsSummary(rows[i]) }
}
