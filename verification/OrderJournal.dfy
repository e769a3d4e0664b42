/**
 The orders journal and the fold that rebuilds the execution state from it
 (exec_ledger.rehydrate_exec_state).
 */
module OrderJournal {
  import opened Wrappers

  datatype State =
    | Accepted | PartiallyFilled | PendingCancel | UnknownState
    | Filled | Canceled | Expired | Rejected | DoneForDay

  predicate Terminal(s: State) { s.Filled? || s.Canceled? || s.Expired? || s.Rejected? || s.DoneForDay? }

  datatype Resolution = NotFound | OfflineOrphan | OtherResolution

  /** One row; `Remark` stands for every row that neither opens nor closes an order:
      decisions, updates, alerts, cancel attempts and modeled fills. */
  datatype Row =
    | Attempt(id: string, symbol: string, opens: bool)
    | Submitted(id: string, state: State)
    | Unconfirmed(id: string, run: string, resolution: Resolution)
    | OrderTerminal(id: string, state: State)
    | BrokerReject(id: string)
    | Reject(about: Option<string>)
    | Remark(about: Option<string>)

  function IdOf(row: Row): Option<string> {
    match row
    case Reject(about) => about
    case Remark(about) => about
    case Attempt(id, _, _) => Some(id)
    case Submitted(id, _) => Some(id)
    case Unconfirmed(id, _, _) => Some(id)
    case OrderTerminal(id, _) => Some(id)
    case BrokerReject(id) => Some(id)
  }

  predicate Closing(row: Row) { row.OrderTerminal? || row.BrokerReject? || row.Reject? }

  predicate Denies(row: Row, runId: string) {
    row.Unconfirmed? && row.run == runId && (row.resolution.NotFound? || row.resolution.OfflineOrphan?)
  }

  datatype Exec = Exec(latest: map<string, Row>, closed: set<string>, attemptSymbol: map<string, string>, deny: set<string>)

  datatype Error = UnconfirmedWithoutAttempt(id: string)

  function StepRow(e: Exec, row: Row, runId: string): Result<Exec, Error> {
    if IdOf(row).None? then Success(e)
    else
      var id := IdOf(row).value;
      var symbols := if row.Attempt? then e.attemptSymbol[id := row.symbol] else e.attemptSymbol;
      if Denies(row, runId) && id !in symbols then Failure(UnconfirmedWithoutAttempt(id))
      else
        Success(Exec(e.latest[id := row], if Closing(row) then e.closed + {id} else e.closed, symbols,
                     if Denies(row, runId) then e.deny + {symbols[id]} else e.deny))
  }

  function Fold(rows: seq<Row>, runId: string): Result<Exec, Error> {
    if rows == [] then Success(Exec(map[], {}, map[], {}))
    else Then(Fold(rows[..|rows| - 1], runId), rows[|rows| - 1], runId)
  }

  function Then(r: Result<Exec, Error>, row: Row, runId: string): Result<Exec, Error> {
    if r.Failure? then r else StepRow(r.value, row, runId)
  }

  function OpenOrders(e: Exec): map<string, Row> { map id | id in e.latest && id !in e.closed :: e.latest[id] }

  // ------------------------------------------------------------ what it means

  /** Symbol of the last write-ahead row of each order. */
  function Attempted(rows: seq<Row>): map<string, string> {
    if rows == [] then map[]
    else
      var m, last := Attempted(rows[..|rows| - 1]), rows[|rows| - 1];
      if last.Attempt? then m[last.id := last.symbol] else m
  }

  function Closed(rows: seq<Row>): set<string> {
    if rows == [] then {}
    else
      var c, last := Closed(rows[..|rows| - 1]), rows[|rows| - 1];
      if Closing(last) && IdOf(last).Some? then c + {IdOf(last).value} else c
  }

  function Mentioned(rows: seq<Row>): set<string> {
    if rows == [] then {}
    else
      var c, last := Mentioned(rows[..|rows| - 1]), rows[|rows| - 1];
      if IdOf(last).Some? then c + {IdOf(last).value} else c
  }

  /** Symbols of the orders a run left unconfirmed. */
  function Denied(rows: seq<Row>, runId: string): set<string> {
    if rows == [] then {}
    else
      var front, last := rows[..|rows| - 1], rows[|rows| - 1];
      Denied(front, runId)
      + (if Denies(last, runId) && last.id in Attempted(front) then {Attempted(front)[last.id]} else {})
  }

  /** An unconfirmed row only ever follows the order's write-ahead row. */
  ghost predicate WriteAhead(rows: seq<Row>) {
    rows == [] ||
    var front, last := rows[..|rows| - 1], rows[|rows| - 1];
    WriteAhead(front) && (last.Unconfirmed? ==> last.id in Attempted(front))
  }

  lemma {:induction false} FoldMeaning(rows: seq<Row>, runId: string)
    ensures var r := Fold(rows, runId);
            r.Success? ==>
              && r.value.latest.Keys == Mentioned(rows) && r.value.closed == Closed(rows)
              && r.value.attemptSymbol == Attempted(rows) && r.value.deny == Denied(rows, runId)
    ensures WriteAhead(rows) ==> Fold(rows, runId).Success?
  {
    if rows != [] {
      FoldMeaning(rows[..|rows| - 1], runId);
    }
  }

  lemma {:induction false} AttemptedIsMentioned(rows: seq<Row>)
    ensures Attempted(rows).Keys <= Mentioned(rows) && Closed(rows) <= Mentioned(rows)
  {
    if rows != [] {
      AttemptedIsMentioned(rows[..|rows| - 1]);
    }
  }

  /** With write-ahead order the rebuild never fails, and what it reports open are the
      orders with a row and without a closing one. */
  lemma OpenMeansNotClosed(rows: seq<Row>, runId: string)
    requires WriteAhead(rows)
    ensures var r := Fold(rows, runId);
            && r.Success?
            && OpenOrders(r.value).Keys == Mentioned(rows) - Closed(rows)
            && r.value.deny == Denied(rows, runId)
  {
    FoldMeaning(rows, runId);
  }

  lemma RowSnoc(rows: seq<Row>, row: Row, runId: string)
    ensures Fold(rows + [row], runId) == Then(Fold(rows, runId), row, runId)
  {
    assert (rows + [row])[..|rows|] == rows;
  }

  lemma {:induction false} FailsForGood(rows: seq<Row>, i: nat, runId: string)
    requires i <= |rows| && Fold(rows[..i], runId).Failure?
    ensures Fold(rows, runId) == Fold(rows[..i], runId)
    decreases |rows|
  {
    if i == |rows| {
      assert rows[..i] == rows;
    } else {
      assert rows[..|rows| - 1][..i] == rows[..i];
      FailsForGood(rows[..|rows| - 1], i, runId);
    }
  }

  method RehydrateExecState(rows: seq<Row>, runId: string) returns (r: Result<Exec, Error>)
    ensures r == Fold(rows, runId)
  {
    var latest: map<string, Row>, attemptSymbol: map<string, string> := map[], map[];
    var closed: set<string>, deny: set<string> := {}, {};
    var i := 0;
    while i < |rows|
      invariant 0 <= i <= |rows|
      invariant Fold(rows[..i], runId) == Success(Exec(latest, closed, attemptSymbol, deny))
    {
      assert rows[..i + 1] == rows[..i] + [rows[i]];
      RowSnoc(rows[..i], rows[i], runId);
      var row := rows[i];
      i := i + 1;
      if IdOf(row).None? {
        continue;
      }
      var id := IdOf(row).value;
      if row.Attempt? {
        attemptSymbol := attemptSymbol[id := row.symbol];
      }
      latest := latest[id := row];
      if Closing(row) {
        closed := closed + {id};
      }
      if Denies(row, runId) {
        if id !in attemptSymbol {
          FailsForGood(rows, i, runId);
          return Failure(UnconfirmedWithoutAttempt(id));
        }
        deny := deny + {attemptSymbol[id]};
      }
    }
    assert rows[..|rows|] == rows;
    r := Success(Exec(latest, closed, attemptSymbol, deny));
  }
}
