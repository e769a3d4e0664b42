/**
 What the order path does to the world, in the order it does it: rows written to
 the orders journal and words exchanged with the broker. A process may stop after
 any of these events.
 */
module WriteAheadLog {
  import opened Wrappers
  import opened OrderJournal

  datatype Event =
    | Wrote(row: Row)
    | Sent(id: string)          // an order passed to the broker under this id
    | Told(id: string)          // the broker said that it refused or ended it
    | Unsettled(id: string)     // a submission was answered with an error that settles nothing
    | Asked(id: string)         // a status query
    | AskedCancel(id: string)

  function RowsOf(log: seq<Event>): seq<Row> {
    if log == [] then []
    else
      var rows, last := RowsOf(log[..|log| - 1]), log[|log| - 1];
      if last.Wrote? then rows + [last.row] else rows
  }

  /** Ids passed to the broker, in order and with repetitions. */
  function Sends(log: seq<Event>): seq<string> {
    if log == [] then []
    else
      var ids, last := Sends(log[..|log| - 1]), log[|log| - 1];
      if last.Sent? then ids + [last.id] else ids
  }

  function EndedIds(log: seq<Event>): set<string> {
    if log == [] then {}
    else
      var ids, last := EndedIds(log[..|log| - 1]), log[|log| - 1];
      if last.Told? then ids + {last.id} else ids
  }

  function UnsettledIds(log: seq<Event>): set<string> {
    if log == [] then {}
    else
      var ids, last := UnsettledIds(log[..|log| - 1]), log[|log| - 1];
      if last.Unsettled? then ids + {last.id} else ids
  }

  function AskedIds(log: seq<Event>): set<string> {
    if log == [] then {}
    else
      var ids, last := AskedIds(log[..|log| - 1]), log[|log| - 1];
      if last.Asked? then ids + {last.id} else ids
  }

  function CancelIds(log: seq<Event>): set<string> {
    if log == [] then {}
    else
      var ids, last := CancelIds(log[..|log| - 1]), log[|log| - 1];
      if last.AskedCancel? then ids + {last.id} else ids
  }

  /** An order the broker may still hold, as far as it ever said. */
  predicate MayBeLive(log: seq<Event>, id: string) { id in Sends(log) && id !in EndedIds(log) }

  /** What the order path keeps to: the write-ahead row comes before the order is sent,
      an id is sent once, and an order is closed in the journal only if it was never
      sent or the broker has said that it is over; or as refused, when its submission
      was answered with an error, whether or not that error settles anything. */
  predicate Allowed(log: seq<Event>, e: Event) {
    var rows := RowsOf(log);
    match e
    case Sent(id) => id in Attempted(rows) && id !in Closed(rows) && id !in Sends(log)
    case Wrote(row) =>
      && (Closing(row) && IdOf(row).Some? ==>
            !MayBeLive(log, IdOf(row).value) || (row.BrokerReject? && row.id in UnsettledIds(log)))
      && (row.Unconfirmed? ==> row.id in Attempted(rows))
    case Told(_) => true
    case Unsettled(_) => true
    case Asked(_) => true
    case AskedCancel(_) => true
  }

  ghost predicate Good(log: seq<Event>) {
    log == [] || (Good(log[..|log| - 1]) && Allowed(log[..|log| - 1], log[|log| - 1]))
  }

  /** The order has its write-ahead row, and no row closes it. */
  predicate RowOpen(log: seq<Event>, id: string) {
    id in Attempted(RowsOf(log)) && id in Mentioned(RowsOf(log)) && id !in Closed(RowsOf(log))
  }

  /** Every order the broker may still hold is open when the journal is rebuilt, with
      the write-ahead row it is recovered by. */
  ghost predicate Safe(log: seq<Event>) {
    forall id :: MayBeLive(log, id) ==> RowOpen(log, id)
  }

  /** Closed as refused on an error that settled nothing. */
  function Dropped(log: seq<Event>): set<string> { UnsettledIds(log) * Closed(RowsOf(log)) }

  /** Every order the broker may still hold has its row, and is open unless dropped. */
  ghost predicate Covered(log: seq<Event>) {
    forall id :: MayBeLive(log, id) ==>
      && id in Attempted(RowsOf(log)) && id in Mentioned(RowsOf(log))
      && (id in Closed(RowsOf(log)) ==> id in UnsettledIds(log))
  }

  lemma LogSnoc(log: seq<Event>, e: Event)
    ensures RowsOf(log + [e]) == if e.Wrote? then RowsOf(log) + [e.row] else RowsOf(log)
    ensures Sends(log + [e]) == if e.Sent? then Sends(log) + [e.id] else Sends(log)
    ensures EndedIds(log + [e]) == if e.Told? then EndedIds(log) + {e.id} else EndedIds(log)
    ensures UnsettledIds(log + [e]) == if e.Unsettled? then UnsettledIds(log) + {e.id} else UnsettledIds(log)
    ensures AskedIds(log + [e]) == if e.Asked? then AskedIds(log) + {e.id} else AskedIds(log)
    ensures CancelIds(log + [e]) == if e.AskedCancel? then CancelIds(log) + {e.id} else CancelIds(log)
    ensures Good(log) && Allowed(log, e) ==> Good(log + [e])
  {
    assert (log + [e])[..|log|] == log;
  }

  lemma RowsSnoc(rows: seq<Row>, row: Row)
    ensures Attempted(rows + [row]) == if row.Attempt? then Attempted(rows)[row.id := row.symbol] else Attempted(rows)
    ensures Closed(rows + [row])
            == if Closing(row) && IdOf(row).Some? then Closed(rows) + {IdOf(row).value} else Closed(rows)
    ensures Mentioned(rows + [row]) == if IdOf(row).Some? then Mentioned(rows) + {IdOf(row).value} else Mentioned(rows)
  {
    assert (rows + [row])[..|rows|] == rows;
  }

  lemma DeniedSnoc(rows: seq<Row>, row: Row, runId: string)
    ensures Denied(rows + [row], runId)
            == Denied(rows, runId)
               + (if Denies(row, runId) && row.id in Attempted(rows) then {Attempted(rows)[row.id]} else {})
  {
    assert (rows + [row])[..|rows|] == rows;
  }

  lemma StepKeepsCovered(log: seq<Event>, e: Event)
    requires Covered(log) && Allowed(log, e)
    ensures Covered(log + [e])
  {
    LogSnoc(log, e);
    AttemptedIsMentioned(RowsOf(log));
    if e.Wrote? {
      RowsSnoc(RowsOf(log), e.row);
    }
    var after := log + [e];
    forall id | MayBeLive(after, id)
      ensures id in Attempted(RowsOf(after)) && id in Mentioned(RowsOf(after))
      ensures id in Closed(RowsOf(after)) ==> id in UnsettledIds(after)
    {
      assert MayBeLive(log, id) || e == Sent(id);
    }
  }

  /** Any step but such a refusal keeps a safe log safe. */
  lemma StepKeepsSafe(log: seq<Event>, e: Event)
    requires Safe(log) && Allowed(log, e)
    requires e.Wrote? && Closing(e.row) && IdOf(e.row).Some? ==> !MayBeLive(log, IdOf(e.row).value)
    ensures Safe(log + [e])
  {
    LogSnoc(log, e);
    AttemptedIsMentioned(RowsOf(log));
    if e.Wrote? {
      RowsSnoc(RowsOf(log), e.row);
    }
    forall id | MayBeLive(log + [e], id) ensures RowOpen(log + [e], id) {
      assert MayBeLive(log, id) || e == Sent(id);
    }
  }

  lemma {:induction false} GoodIsCovered(log: seq<Event>)
    requires Good(log)
    ensures Covered(log)
  {
    if log != [] {
      var n := |log| - 1;
      GoodIsCovered(log[..n]);
      StepKeepsCovered(log[..n], log[n]);
      assert log == log[..n] + [log[n]];
    }
  }

  /** The discipline is safe exactly as long as no order it dropped may be live. */
  lemma GoodIsSafeIff(log: seq<Event>)
    requires Good(log)
    ensures Safe(log) <==> forall id :: id in Dropped(log) ==> !MayBeLive(log, id)
  {
    GoodIsCovered(log);
    forall id | MayBeLive(log, id) ensures RowOpen(log, id) <==> id !in Dropped(log) {}
  }

  lemma {:induction false} GoodIsWriteAhead(log: seq<Event>)
    requires Good(log)
    ensures WriteAhead(RowsOf(log))
  {
    if log != [] {
      var n := |log| - 1;
      GoodIsWriteAhead(log[..n]);
      var rows := RowsOf(log[..n]);
      if log[n].Wrote? {
        assert (rows + [log[n].row])[..|rows|] == rows;
      }
    }
  }

  /** No id is ever passed to the broker twice. */
  lemma {:induction false} SentOnce(log: seq<Event>)
    requires Good(log)
    ensures forall i, j :: 0 <= i < j < |Sends(log)| ==> Sends(log)[i] != Sends(log)[j]
  {
    if log != [] {
      SentOnce(log[..|log| - 1]);
    }
  }

  lemma {:induction false} GoodPrefix(log: seq<Event>, k: nat)
    requires Good(log) && k <= |log|
    ensures Good(log[..k])
    decreases |log|
  {
    if k == |log| {
      assert log[..k] == log;
    } else {
      assert log[..|log| - 1][..k] == log[..k];
      GoodPrefix(log[..|log| - 1], k);
    }
  }

  /** An id the journal does not mention has not been sent or closed. */
  lemma NewIdIsNew(log: seq<Event>, id: string)
    requires Good(log) && id !in Mentioned(RowsOf(log))
    ensures id !in Attempted(RowsOf(log)) && id !in Closed(RowsOf(log)) && id !in Sends(log)
  {
    SentIsAttempted(log);
    AttemptedIsMentioned(RowsOf(log));
  }

  /** A new id's write-ahead row opens the order, and changes nothing else. */
  lemma AttemptStep(log: seq<Event>, id: string, symbol: string, opens: bool)
    requires Good(log) && id !in Mentioned(RowsOf(log))
    ensures var after := log + [Wrote(Attempt(id, symbol, opens))];
            && Good(after) && RowsOf(after) == RowsOf(log) + [Attempt(id, symbol, opens)]
            && Attempted(RowsOf(after)) == Attempted(RowsOf(log))[id := symbol]
            && Closed(RowsOf(after)) == Closed(RowsOf(log)) && id !in Closed(RowsOf(log))
            && Sends(after) == Sends(log) && id !in Sends(log) && EndedIds(after) == EndedIds(log)
  {
    NewIdIsNew(log, id);
    LogSnoc(log, Wrote(Attempt(id, symbol, opens)));
    RowsSnoc(RowsOf(log), Attempt(id, symbol, opens));
  }

  /** Nothing is sent without its write-ahead row. */
  lemma {:induction false} SentIsAttempted(log: seq<Event>)
    requires Good(log)
    ensures forall id :: id in Sends(log) ==> id in Attempted(RowsOf(log))
  {
    if log != [] {
      var n := |log| - 1;
      SentIsAttempted(log[..n]);
      if log[n].Wrote? {
        RowsSnoc(RowsOf(log[..n]), log[n].row);
      }
    }
  }

  /** Stop anywhere: wherever the process stopped, the rebuild from the rows written by
      then succeeds, and an order passed to the broker that it has not said to be over
      is among the open orders, with the row that recovery asks by, exactly unless its
      submission was answered with an error that settled nothing and it was closed as
      refused. */
  lemma StopAnywhere(log: seq<Event>, k: nat, runId: string)
    requires Good(log) && k <= |log|
    ensures var stopped := log[..k];
            var r := Fold(RowsOf(stopped), runId);
            && r.Success?
            && forall id :: MayBeLive(stopped, id) ==>
                 id in r.value.attemptSymbol && (id in OpenOrders(r.value) <==> id !in Dropped(stopped))
  {
    GoodPrefix(log, k);
    GoodIsCovered(log[..k]);
    GoodIsWriteAhead(log[..k]);
    FoldMeaning(RowsOf(log[..k]), runId);
  }

  /** Neither half of the discipline can be done without: a send is safe exactly when
      the order's row is there and open, or the broker has already said it is over. */
  lemma SendSafeIff(log: seq<Event>, id: string)
    requires Safe(log)
    ensures Safe(log + [Sent(id)]) <==>
              id in EndedIds(log) || RowOpen(log, id)
  {
    LogSnoc(log, Sent(id));
    var after := log + [Sent(id)];
    assert id in Sends(after);
    assert forall x :: MayBeLive(after, x) ==> MayBeLive(log, x) || x == id;
    assert id !in EndedIds(log) ==> MayBeLive(after, id);
    assert forall x :: MayBeLive(log, x) ==> MayBeLive(after, x);
    assert forall x :: RowOpen(after, x) <==> RowOpen(log, x);
  }

  /** And a closing row is safe exactly when the order cannot be live. */
  lemma CloseSafeIff(log: seq<Event>, row: Row)
    requires Safe(log) && Closing(row) && IdOf(row).Some?
    ensures Safe(log + [Wrote(row)]) <==> !MayBeLive(log, IdOf(row).value)
  {
    LogSnoc(log, Wrote(row));
    RowsSnoc(RowsOf(log), row);
    var after := log + [Wrote(row)];
    assert forall x :: MayBeLive(after, x) <==> MayBeLive(log, x);
  }

  /** A refusal as the order path records it: the broker's answer, and the row. */
  function Refusal(id: string, settled: bool): seq<Event> {
    [if settled then Told(id) else Unsettled(id), Wrote(BrokerReject(id))]
  }

  /** Recording a refusal keeps a safe log safe exactly if the answer settles the order
      or the order could not be live anyway. */
  lemma RefusalSafeIff(log: seq<Event>, id: string, settled: bool)
    requires Safe(log)
    ensures Safe(log + Refusal(id, settled)) <==> settled || !MayBeLive(log, id)
  {
    var answer := if settled then Told(id) else Unsettled(id);
    var heard := log + [answer];
    LogSnoc(log, answer);
    assert forall x :: MayBeLive(heard, x) <==> MayBeLive(log, x) && !(settled && x == id);
    assert forall x :: RowOpen(heard, x) <==> RowOpen(log, x);
    CloseSafeIff(heard, BrokerReject(id));
    RefusalSteps(log, id, settled);
  }

  lemma RefusalSteps(log: seq<Event>, id: string, settled: bool)
    ensures log + Refusal(id, settled)
            == (log + [if settled then Told(id) else Unsettled(id)]) + [Wrote(BrokerReject(id))]
  {}

  function Submission(id: string, symbol: string, opens: bool): seq<Event> {
    [Wrote(Attempt(id, symbol, opens)), Sent(id)]
  }

  lemma SubmissionSteps(log: seq<Event>, id: string, symbol: string, opens: bool)
    ensures log + Submission(id, symbol, opens) == log + [Wrote(Attempt(id, symbol, opens))] + [Sent(id)]
  {}

  /** Written ahead and sent, a new order may be live and is open. */
  lemma SubmissionIsOpen(log: seq<Event>, id: string, symbol: string, opens: bool)
    requires Good(log) && id !in Mentioned(RowsOf(log)) && id !in EndedIds(log)
    ensures var sent := log + Submission(id, symbol, opens);
            Good(sent) && MayBeLive(sent, id) && RowOpen(sent, id) && (Safe(log) ==> Safe(sent))
  {
    var attempt := log + [Wrote(Attempt(id, symbol, opens))];
    NewIdIsNew(log, id);
    LogSnoc(log, Wrote(Attempt(id, symbol, opens)));
    RowsSnoc(RowsOf(log), Attempt(id, symbol, opens));
    LogSnoc(attempt, Sent(id));
    assert log + Submission(id, symbol, opens) == attempt + [Sent(id)];
    if Safe(log) {
      StepKeepsSafe(log, Wrote(Attempt(id, symbol, opens)));
      StepKeepsSafe(attempt, Sent(id));
    }
  }

  lemma RefusalIsGood(log: seq<Event>, id: string, settled: bool)
    requires Good(log)
    ensures var after := log + Refusal(id, settled);
            && Good(after) && id in Closed(RowsOf(after))
            && (MayBeLive(after, id) <==> MayBeLive(log, id) && !settled)
  {
    var answer := if settled then Told(id) else Unsettled(id);
    LogSnoc(log, answer);
    LogSnoc(log + [answer], Wrote(BrokerReject(id)));
    RowsSnoc(RowsOf(log), BrokerReject(id));
    RefusalSteps(log, id, settled);
  }

  /** A new order that is written ahead, sent and answered with an error leaves a safe
      log safe exactly if the error settles it. */
  lemma RefusedSubmissionSafeIff(log: seq<Event>, id: string, symbol: string, opens: bool, settled: bool)
    requires Good(log) && Safe(log) && id !in Mentioned(RowsOf(log)) && id !in EndedIds(log)
    ensures Safe(log + Submission(id, symbol, opens) + Refusal(id, settled)) <==> settled
  {
    SubmissionIsOpen(log, id, symbol, opens);
    RefusalSafeIff(log + Submission(id, symbol, opens), id, settled);
  }

  /** The input, after any run and on an empty journal alike: a submission that the
      broker took is answered by a gateway timeout. The order may be live, and the
      rebuild does not show it open. */
  lemma TimeoutLosesOrder(log: seq<Event>, id: string, symbol: string, opens: bool, runId: string)
    requires Good(log) && id !in Mentioned(RowsOf(log)) && id !in EndedIds(log)
    ensures var after := log + Submission(id, symbol, opens) + Refusal(id, false);
            var r := Fold(RowsOf(after), runId);
            Good(after) && MayBeLive(after, id) && r.Success? && id !in OpenOrders(r.value)
  {
    var sent := log + Submission(id, symbol, opens);
    SubmissionIsOpen(log, id, symbol, opens);
    RefusalIsGood(sent, id, false);
    GoodIsWriteAhead(sent + Refusal(id, false));
    OpenMeansNotClosed(RowsOf(sent + Refusal(id, false)), runId);
  }
}
