/**
 What the rebuild of the execution state reports, row by row
 (exec_ledger.rehydrate_exec_state): which rows close an order, which deny a symbol,
 which is an order's latest, and when the rebuild fails.
 */
module OrderFold {
  import opened Wrappers
  import opened OrderJournal

  ghost predicate Closes(row: Row, id: string) {
    || (row.OrderTerminal? && row.id == id)
    || row == BrokerReject(id)
    || row == Reject(Some(id))
  }

  ghost predicate Mentions(row: Row, id: string) {
    || ((row.Attempt? || row.Submitted? || row.Unconfirmed?) && row.id == id)
    || row == Remark(Some(id))
    || Closes(row, id)
  }

  /** The broker did not know the order, or it could not be asked. */
  ghost predicate LeavesOpen(row: Row, runId: string) {
    row.Unconfirmed? && row.run == runId && row.resolution != OtherResolution
  }

  ghost predicate ClosedAt(rows: seq<Row>, i: int, id: string) { 0 <= i < |rows| && Closes(rows[i], id) }

  ghost predicate LastAttempt(rows: seq<Row>, i: int, id: string, symbol: string) {
    && 0 <= i < |rows| && rows[i].Attempt? && rows[i].id == id && rows[i].symbol == symbol
    && forall j :: i < j < |rows| && rows[j].Attempt? ==> rows[j].id != id
  }

  ghost predicate LastMention(rows: seq<Row>, i: int, id: string) {
    0 <= i < |rows| && Mentions(rows[i], id) && forall j :: i < j < |rows| ==> !Mentions(rows[j], id)
  }

  lemma MentionsIff(row: Row, id: string)
    ensures IdOf(row) == Some(id) <==> Mentions(row, id)
    ensures Closing(row) && IdOf(row) == Some(id) <==> Closes(row, id)
  {}

  /** Closed are the orders with a terminal row or a refusal. */
  lemma {:induction false} ClosedIff(rows: seq<Row>, id: string)
    ensures id in Closed(rows) <==> exists i :: ClosedAt(rows, i, id)
  {
    if rows != [] {
      var n := |rows| - 1;
      ClosedIff(rows[..n], id);
      MentionsIff(rows[n], id);
      if i :| ClosedAt(rows[..n], i, id) {
        assert ClosedAt(rows, i, id);
      }
      if i :| ClosedAt(rows, i, id) {
        assert i == n || ClosedAt(rows[..n], i, id);
      }
      assert Closes(rows[n], id) ==> ClosedAt(rows, n, id);
    }
  }

  /** An order's symbol is that of its last write-ahead row. */
  lemma {:induction false} AttemptedIff(rows: seq<Row>, id: string, symbol: string)
    ensures id in Attempted(rows) && Attempted(rows)[id] == symbol <==> exists i :: LastAttempt(rows, i, id, symbol)
  {
    if rows != [] {
      var n := |rows| - 1;
      AttemptedIff(rows[..n], id, symbol);
      if rows[n].Attempt? && rows[n].id == id {
        assert rows[n].symbol == symbol ==> LastAttempt(rows, n, id, symbol);
      } else {
        if i :| LastAttempt(rows[..n], i, id, symbol) {
          assert LastAttempt(rows, i, id, symbol);
        }
        if i :| LastAttempt(rows, i, id, symbol) {
          assert LastAttempt(rows[..n], i, id, symbol);
        }
      }
    }
  }

  ghost predicate DeniedAt(rows: seq<Row>, i: int, runId: string, symbol: string) {
    && 0 <= i < |rows| && LeavesOpen(rows[i], runId)
    && rows[i].id in Attempted(rows[..i]) && Attempted(rows[..i])[rows[i].id] == symbol
  }

  /** Denied are the symbols whose order this run left unconfirmed. */
  lemma {:induction false} DeniedIff(rows: seq<Row>, runId: string, symbol: string)
    ensures symbol in Denied(rows, runId) <==> exists i :: DeniedAt(rows, i, runId, symbol)
  {
    if rows != [] {
      var n := |rows| - 1;
      DeniedIff(rows[..n], runId, symbol);
      if i :| DeniedAt(rows[..n], i, runId, symbol) {
        assert rows[..n][..i] == rows[..i];
        assert DeniedAt(rows, i, runId, symbol);
      }
      if i :| DeniedAt(rows, i, runId, symbol) && i < n {
        assert rows[..n][..i] == rows[..i];
        assert DeniedAt(rows[..n], i, runId, symbol);
      }
      assert symbol in Denied(rows, runId) && symbol !in Denied(rows[..n], runId) ==> DeniedAt(rows, n, runId, symbol);
      assert DeniedAt(rows, n, runId, symbol) ==> symbol in Denied(rows, runId);
    }
  }

  ghost predicate UnknownAt(rows: seq<Row>, i: int, runId: string) {
    0 <= i < |rows| && LeavesOpen(rows[i], runId) && rows[i].id !in Attempted(rows[..i + 1])
  }

  /** The rebuild fails exactly over such a row without a write-ahead row before it. */
  lemma {:induction false} FailsIff(rows: seq<Row>, runId: string)
    ensures Fold(rows, runId).Failure? <==> exists i :: UnknownAt(rows, i, runId)
  {
    if rows != [] {
      var n := |rows| - 1;
      FailsIff(rows[..n], runId);
      FoldMeaning(rows[..n], runId);
      assert rows[..n + 1] == rows;
      if i :| UnknownAt(rows[..n], i, runId) {
        assert rows[..n][..i + 1] == rows[..i + 1];
        assert UnknownAt(rows, i, runId);
      }
      if i :| UnknownAt(rows, i, runId) && i < n {
        assert rows[..n][..i + 1] == rows[..i + 1];
        assert UnknownAt(rows[..n], i, runId);
      }
      if Fold(rows[..n], runId).Success? && Fold(rows, runId).Failure? {
        assert UnknownAt(rows, n, runId);
      }
    }
  }

  /** An order's latest row is the last that mentions it. */
  lemma {:induction false} LatestIff(rows: seq<Row>, runId: string, id: string, row: Row)
    requires Fold(rows, runId).Success?
    ensures var latest := Fold(rows, runId).value.latest;
            id in latest && latest[id] == row <==> exists i :: LastMention(rows, i, id) && rows[i] == row
  {
    if rows != [] {
      var n := |rows| - 1;
      LatestIff(rows[..n], runId, id, row);
      MentionsIff(rows[n], id);
      if Mentions(rows[n], id) {
        assert LastMention(rows, n, id);
      } else {
        if i :| LastMention(rows[..n], i, id) && rows[..n][i] == row {
          assert LastMention(rows, i, id);
        }
        if i :| LastMention(rows, i, id) && rows[i] == row {
          assert LastMention(rows[..n], i, id) && rows[..n][i] == row;
        }
      }
    }
  }

  /** So an order is reported open, with its last row, exactly when some row mentions it
      and none closes it. */
  lemma OpenIff(rows: seq<Row>, runId: string, id: string, row: Row)
    requires Fold(rows, runId).Success?
    ensures var open := OpenOrders(Fold(rows, runId).value);
            id in open && open[id] == row <==>
              && (exists i :: LastMention(rows, i, id) && rows[i] == row)
              && forall i :: 0 <= i < |rows| ==> !Closes(rows[i], id)
  {
    FoldMeaning(rows, runId);
    LatestIff(rows, runId, id, row);
    ClosedIff(rows, id);
    assert forall i :: 0 <= i < |rows| ==> (ClosedAt(rows, i, id) <==> Closes(rows[i], id));
  }
}
