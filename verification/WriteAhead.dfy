/**
 The order path of the orchestrator: submit, recover, adopt, watch, close. The
 broker answers as it likes, and the process may stop between any two events of
 the log; every method extends a good log.
 */
module WriteAhead {
  import opened Wrappers
  import opened OrderJournal
  import opened WriteAheadLog

  const SUBMIT_RECOVERY_ATTEMPTS: nat := 3

  datatype SubmitAnswer =
    | StaleToken | SubmitRaised | HttpError(status: int) | Unparseable | Acknowledged(state: State)

  /** A 4xx status is the broker's refusal. Anything else, a 5xx gateway timeout or an
      error without a status, leaves open whether the broker took the order. */
  predicate Definitive(status: int) { 400 <= status < 500 }

  datatype QueryAnswer = QueryRaised | NotAnOrder | BadPayload | Found(state: State)

  datatype Cause =
    | KillTrip | EpochChanged | MarketStateStale | NotTradable | HaltOrAuction | UnexpectedStatus
    | SessionEnd | RestartUnknownState | StrategyHorizon

  datatype Task = Task(id: Option<string>, symbol: string, opens: bool, watching: bool, last: State, causes: set<Cause>)

  /** An open order found on a restart, by its write-ahead row. */
  datatype Dangler = Dangler(id: string, symbol: string, opens: bool)

  /** The first order that one of three answers names. */
  ghost predicate FindsAt(answers: seq<QueryAnswer>, i: int, state: State) {
    && 0 <= i < |answers| && i < 3 && answers[i] == Found(state)
    && forall j :: 0 <= j < i ==> !answers[j].Found?
  }

  ghost predicate Finds(answers: seq<QueryAnswer>, state: State) { exists i :: FindsAt(answers, i, state) }

  ghost predicate FindsNothing(answers: seq<QueryAnswer>) {
    forall i :: 0 <= i < |answers| && i < 3 ==> !answers[i].Found?
  }

  /** The answers left after some. */
  ghost function Left(answers: seq<QueryAnswer>, n: nat): seq<QueryAnswer> {
    if n <= |answers| then answers[n..] else []
  }

  ghost predicate NoneFound(answers: seq<QueryAnswer>, n: nat) {
    forall i :: 0 <= i < n && i < |answers| ==> !answers[i].Found?
  }

  lemma OneAnswer(answers: seq<QueryAnswer>, n: nat)
    requires NoneFound(answers, n)
    ensures Left(answers, n + 1) == Left(Left(answers, n), 1)
    ensures var a := if Left(answers, n) == [] then QueryRaised else Left(answers, n)[0];
            && (!a.Found? ==> NoneFound(answers, n + 1))
            && (a.Found? && n < 3 ==> Finds(answers, a.state))
  {
    if n < |answers| && n < 3 && answers[n].Found? {
      assert FindsAt(answers, n, answers[n].state);
    }
  }

  function ToSet(causes: seq<Cause>): set<Cause> { set c | c in causes }

  lemma OneMoreTried(was: set<Cause>, tried: set<Cause>, c: Cause)
    ensures was + (tried + {c}) == was + tried + {c}
    ensures !(tried + {c} <= was) ==> !(tried <= was) || c !in was + tried
  {}

  lemma ToSetSnoc(causes: seq<Cause>, i: nat)
    requires i < |causes|
    ensures ToSet(causes[..i + 1]) == ToSet(causes[..i]) + {causes[i]}
  {
    assert causes[..i + 1] == causes[..i] + [causes[i]];
  }

  /** Every cause there is for a cancel after a report of `state`. */
  ghost function CausesAfter(before: set<Cause>, state: State, fired: seq<Cause>): set<Cause> {
    before + (if state.UnknownState? then {UnexpectedStatus} else {}) + ToSet(fired)
  }

  /** Its answers are whatever the scripts hold; nothing is promised about them. */
  class Broker {
    var submits: seq<SubmitAnswer>
    var queries: seq<QueryAnswer>

    constructor (submits: seq<SubmitAnswer>, queries: seq<QueryAnswer>) {
      this.submits, this.queries := submits, queries;
    }

    function NextSubmit(): SubmitAnswer
      reads this
    {
      if submits == [] then SubmitRaised else submits[0]
    }

    method SubmitOrder(id: string) returns (a: SubmitAnswer)
      modifies this
      ensures a == old(NextSubmit()) && queries == old(queries)
    {
      a := NextSubmit();
      if submits != [] {
        submits := submits[1..];
      }
    }

    function NextQuery(): QueryAnswer
      reads this
    {
      if queries == [] then QueryRaised else queries[0]
    }

    method OrderStatus(id: string) returns (a: QueryAnswer)
      modifies this
      ensures a == old(NextQuery()) && queries == old(if queries == [] then [] else queries[1..])
    {
      a := QueryRaised;
      if queries != [] {
        a, queries := queries[0], queries[1..];
      }
    }
  }

  /** The write-ahead row of the order, with what it is for. */
  ghost predicate Prepared(rows: seq<Row>, id: string, opens: bool) {
    exists i :: 0 <= i < |rows| && rows[i].Attempt? && rows[i].id == id && rows[i].opens == opens
  }

  class OrderDesk {
    const runId: string
    const broker: Broker
    var journal: seq<Row>
    ghost var log: seq<Event>
    var task: Option<Task>
    var openDeny: set<string>
    var queue: seq<Dangler>
    var outstanding: seq<string>    // orders whose token is being consumed

    ghost predicate Valid()
      reads this
    {
      && RowsOf(log) == journal && Good(log)
      && openDeny == Denied(journal, runId)
      && (task.Some? && task.value.id.Some? ==> Known(task.value.id.value, task.value.symbol))
    }

    /** An order whose write-ahead row is in the journal. */
    ghost predicate Known(id: string, symbol: string)
      reads this
    {
      id in Attempted(journal) && Attempted(journal)[id] == symbol
    }

    /** What all but a submission leave alone: nothing is sent, and nothing unheard. */
    twostate predicate Kept()
      reads this
    {
      && old(log) <= log
      && Sends(log) == old(Sends(log)) && Attempted(journal) == old(Attempted(journal))
      && old(AskedIds(log)) <= AskedIds(log) && old(EndedIds(log)) <= EndedIds(log)
      && old(CancelIds(log)) <= CancelIds(log) && old(openDeny) <= openDeny
    }

    /** Nothing that may be live has been closed. */
    twostate predicate Safely()
      reads this
    {
      old(Safe(log)) ==> Safe(log)
    }

    /** The order of `t` is followed from a report of `state` on: watched with all there
        is to cancel it for, or done with and closed. */
    ghost predicate Follows(t: Task, state: State, fired: seq<Cause>)
      requires t.id.Some?
      reads this
    {
      if Terminal(state) then task == None && t.id.value in Closed(journal)
      else task == Some(Task(t.id, t.symbol, t.opens, t.watching, state, CausesAfter(t.causes, state, fired)))
    }

    /** As the broker answers, the order has been adopted, its row written; or nothing
        was found, it is left open, and its symbol denied. */
    ghost predicate RecoveredAs(t: Task, answers: seq<QueryAnswer>, fired: seq<Cause>, deny: set<string>, closed: set<string>)
      requires t.id.Some?
      reads this
    {
      && (forall state :: Finds(answers, state) ==>
            && Follows(t.(watching := true), state, fired)
            && Wrote(Submitted(t.id.value, state)) in log && openDeny == deny)
      && (FindsNothing(answers) ==> task == None && openDeny == deny + {t.symbol} && Closed(journal) == closed)
    }

    /** What becomes of an order that was passed to the broker. */
    ghost predicate AnsweredAs(t: Task, a: SubmitAnswer, answers: seq<QueryAnswer>, fired: seq<Cause>,
                               deny: set<string>, closed: set<string>)
      requires t.id.Some?
      reads this
    {
      match a
      case StaleToken => true
      case HttpError(_) => task == None && t.id.value in Closed(journal) && openDeny == deny
      case Acknowledged(Rejected) => task == None && t.id.value in Closed(journal) && openDeny == deny
      case Acknowledged(state) =>
        && Follows(t.(watching := true), state, fired)
        && Wrote(Submitted(t.id.value, state)) in log && openDeny == deny
      case _ => RecoveredAs(t, answers, fired, deny, closed)
    }

    /** Refused on this side of the wire: attempted, and closed as rejected. */
    ghost predicate StaysHere(before: seq<Event>, deny: set<string>, id: string, symbol: string)
      reads this
    {
      && task == None && openDeny == deny
      && log == before + [Wrote(Attempt(id, symbol, true))] + [Wrote(Reject(Some(id)))]
    }

    ghost predicate Queued()
      reads this
    {
      forall i :: 0 <= i < |queue| ==> Known(queue[i].id, queue[i].symbol)
    }

    ghost predicate InQueue(id: string)
      reads this
    {
      exists i :: 0 <= i < |queue| && queue[i].id == id
    }

    /** A restart knows only the rows; every order the broker may still hold is queued
        for recovery. */
    constructor (journal: seq<Row>, ghost log: seq<Event>, runId: string, broker: Broker)
      requires RowsOf(log) == journal && Good(log)
      ensures Valid() && this.journal == journal && this.log == log && this.runId == runId && this.broker == broker
      ensures task == None && Queued()
      ensures forall id :: MayBeLive(log, id) && id !in Dropped(log) ==> InQueue(id)
      ensures forall i :: 0 <= i < |queue| ==>
        queue[i].id !in Closed(journal) && Prepared(journal, queue[i].id, queue[i].opens)
      ensures outstanding == []
    {
      this.journal, this.log, this.runId, this.broker := journal, log, runId, broker;
      task, openDeny, queue, outstanding := None, {}, [], [];
      new;
      GoodIsWriteAhead(log);
      OpenMeansNotClosed(journal, runId);
      GoodIsCovered(log);
      FoldMeaning(journal, runId);
      var r := RehydrateExecState(journal, runId);
      openDeny := r.value.deny;
      queue := Dangling(journal, OpenOrders(r.value), r.value.attemptSymbol);
    }

    /** The open orders that have a write-ahead row; without one the order never was. */
    static method Dangling(rows: seq<Row>, open: map<string, Row>, symbols: map<string, string>)
      returns (q: seq<Dangler>)
      requires symbols == Attempted(rows)
      ensures forall i :: 0 <= i < |q| ==> q[i].id in symbols && symbols[q[i].id] == q[i].symbol
      ensures forall i :: 0 <= i < |q| ==>
        q[i].id in open && Prepared(rows, q[i].id, q[i].opens)
      ensures forall id :: id in open && id in symbols ==> exists i :: 0 <= i < |q| && q[i].id == id
    {
      q := [];
      var seen: set<string> := {};
      AttemptedKeys(rows);
      for i := 0 to |rows|
        invariant forall j :: 0 <= j < |q| ==> q[j].id in symbols && symbols[q[j].id] == q[j].symbol
        invariant forall j :: 0 <= j < |q| ==> q[j].id in open && Prepared(rows, q[j].id, q[j].opens)
        invariant forall id :: id in seen ==> exists j :: 0 <= j < |q| && q[j].id == id
        invariant forall j :: 0 <= j < i && rows[j].Attempt? && rows[j].id in open ==> rows[j].id in seen
      {
        var row := rows[i];
        if row.Attempt? && row.id in open && row.id !in seen {
          var longer := q + [Dangler(row.id, symbols[row.id], row.opens)];
          assert longer[|q|].id == row.id;
          assert forall j :: 0 <= j < |q| ==> longer[j] == q[j];
          q := longer;
          seen := seen + {row.id};
        }
      }
    }

    // -------------------------------------------------------- one event at a time

    /** Something the broker said or was asked. */
    ghost method Note(e: Event)
      requires Valid() && Allowed(log, e) && !e.Wrote? && !e.Sent?
      modifies this`log
      ensures Valid() && Kept() && Safely() && log == old(log) + [e]
    {
      LogSnoc(log, e);
      if Safe(log) {
        StepKeepsSafe(log, e);
      }
      log := log + [e];
    }

    /** Any row but a write-ahead or an unconfirmed one; it closes no order that may be
        live. */
    method Write(row: Row)
      requires Valid() && !row.Attempt? && !row.Unconfirmed?
      requires Closing(row) && IdOf(row).Some? ==> !MayBeLive(log, IdOf(row).value)
      modifies this`journal, this`log
      ensures Valid() && Kept() && Safely() && log == old(log) + [Wrote(row)] && journal == old(journal) + [row]
      ensures Closed(journal)
              == if Closing(row) && IdOf(row).Some? then old(Closed(journal)) + {IdOf(row).value} else old(Closed(journal))
    {
      LogSnoc(log, Wrote(row));
      RowsSnoc(journal, row);
      DeniedSnoc(journal, row, runId);
      if Safe(log) {
        StepKeepsSafe(log, Wrote(row));
      }
      journal, log := journal + [row], log + [Wrote(row)];
    }

    method WriteAttempt(id: string, symbol: string, opens: bool)
      requires Valid() && id !in Mentioned(journal)
      requires task.Some? && task.value.id.Some? ==> task.value.id.value != id
      modifies this`journal, this`log
      ensures Valid() && Sends(log) == old(Sends(log))
      ensures Known(id, symbol) && id !in Closed(journal) && id !in Sends(log) && Closed(journal) == old(Closed(journal))
      ensures Attempted(journal) == old(Attempted(journal))[id := symbol]
      ensures log == old(log) + [Wrote(Attempt(id, symbol, opens))] && Safely()
      ensures EndedIds(log) == old(EndedIds(log))
    {
      var row := Attempt(id, symbol, opens);
      AttemptStep(log, id, symbol, opens);
      DeniedSnoc(journal, row, runId);
      if Safe(log) {
        StepKeepsSafe(log, Wrote(row));
      }
      journal, log := journal + [row], log + [Wrote(row)];
    }

    /** The order passes to the broker. */
    ghost method Send(id: string)
      requires Valid() && id in Attempted(journal) && id !in Closed(journal) && id !in Sends(log)
      modifies this`log
      ensures Valid() && log == old(log) + [Sent(id)] && Sends(log) == old(Sends(log)) + [id] && Safely()
    {
      LogSnoc(log, Sent(id));
      if Safe(log) {
        StepKeepsSafe(log, Sent(id));
      }
      log := log + [Sent(id)];
    }

    /** What became of the order is not known: its symbol takes no new order. */
    method LeaveUnconfirmed(id: string, symbol: string, resolution: Resolution)
      requires Valid() && Known(id, symbol) && (resolution.NotFound? || resolution.OfflineOrphan?)
      modifies this`journal, this`log, this`openDeny
      ensures Valid() && Kept() && Safely() && openDeny == old(openDeny) + {symbol}
      ensures log == old(log) + [Wrote(Unconfirmed(id, runId, resolution))] && Closed(journal) == old(Closed(journal))
    {
      var row := Unconfirmed(id, runId, resolution);
      LogSnoc(log, Wrote(row));
      RowsSnoc(journal, row);
      DeniedSnoc(journal, row, runId);
      if Safe(log) {
        StepKeepsSafe(log, Wrote(row));
      }
      journal, log := journal + [row], log + [Wrote(row)];
      openDeny := openDeny + {symbol};
    }

    // --------------------------------------------------------------- the watching

    /** One best-effort cancel per cause, whatever the broker says to it. */
    method AttemptCancel(cause: Cause)
      requires Valid() && task.Some? && task.value.id.Some?
      modifies this`journal, this`log, this`task
      ensures Valid() && Kept() && Safely() && Closed(journal) == old(Closed(journal))
      ensures task == Some(old(task).value.(causes := old(task).value.causes + {cause}))
      ensures log == old(log) + (if cause in old(task).value.causes then []
                                 else [AskedCancel(task.value.id.value), Wrote(Remark(task.value.id))])
      ensures cause !in old(task).value.causes ==> task.value.id.value in CancelIds(log)
    {
      var t := task.value;
      if cause in t.causes {
        assert t.causes + {cause} == t.causes;
        return;
      }
      task := Some(t.(causes := t.causes + {cause}));
      Note(AskedCancel(t.id.value));
      Write(Remark(t.id));
    }

    method AttemptCancels(causes: seq<Cause>)
      requires Valid() && task.Some? && task.value.id.Some?
      modifies this`journal, this`log, this`task
      ensures Valid() && Kept() && Safely() && Closed(journal) == old(Closed(journal))
      ensures task == Some(old(task).value.(causes := old(task).value.causes + ToSet(causes)))
      ensures !(ToSet(causes) <= old(task).value.causes) ==> task.value.id.value in CancelIds(log)
    {
      var i := 0;
      assert task.value.causes + ToSet(causes[..0]) == task.value.causes;
      while i < |causes|
        invariant 0 <= i <= |causes|
        invariant Valid() && Kept() && Safely() && Closed(journal) == old(Closed(journal))
        invariant task == Some(old(task).value.(causes := old(task).value.causes + ToSet(causes[..i])))
        invariant !(ToSet(causes[..i]) <= old(task).value.causes) ==> task.value.id.value in CancelIds(log)
      {
        ToSetSnoc(causes, i);
        ghost var before := task.value.causes;
        OneMoreTried(old(task).value.causes, ToSet(causes[..i]), causes[i]);
        AttemptCancel(causes[i]);
        i := i + 1;
      }
      assert causes[..|causes|] == causes;
    }

    /** Asks up to three times; a payload that is no order answers nothing. */
    method Query(id: string) returns (found: Option<State>)
      requires Valid()
      modifies this`log, broker
      ensures Valid() && Kept() && Safely() && id in AskedIds(log)
      ensures found.Some? && Terminal(found.value) ==> id in EndedIds(log)
      ensures found.Some? ==> Finds(old(broker.queries), found.value)
      ensures found.None? ==> FindsNothing(old(broker.queries))
    {
      var attempts := 0;
      found := None;
      while attempts < SUBMIT_RECOVERY_ATTEMPTS
        invariant 0 <= attempts <= SUBMIT_RECOVERY_ATTEMPTS
        invariant Valid() && Kept() && Safely() && (attempts > 0 ==> id in AskedIds(log))
        invariant found == None
        invariant broker.queries == Left(old(broker.queries), attempts) && NoneFound(old(broker.queries), attempts)
      {
        OneAnswer(old(broker.queries), attempts);
        attempts := attempts + 1;
        var q := AskOnce(id);
        if q.Found? {
          return Some(q.state);
        }
      }
    }

    method AskOnce(id: string) returns (q: QueryAnswer)
      requires Valid()
      modifies this`log, broker
      ensures Valid() && Kept() && Safely() && id in AskedIds(log)
      ensures q == old(broker.NextQuery()) && broker.queries == Left(old(broker.queries), 1)
      ensures q.Found? && Terminal(q.state) ==> id in EndedIds(log)
    {
      LogSnoc(log, Asked(id));
      Note(Asked(id));
      q := broker.OrderStatus(id);
      if q.Found? {
        Hear(id, q.state);
      }
    }

    /** The broker reports a state for an order; a terminal one is the end of it. */
    ghost method Hear(id: string, state: State)
      requires Valid()
      modifies this`log
      ensures Valid() && Kept() && Safely()
      ensures Terminal(state) ==> id in EndedIds(log)
    {
      LogSnoc(log, Told(id));
      if Terminal(state) {
        Note(Told(id));
      }
    }

    /** A terminal report closes the order. */
    method RecordTerminal(state: State)
      requires Valid() && task.Some? && task.value.id.Some?
      requires Terminal(state) && task.value.id.value in EndedIds(log)
      modifies this`journal, this`log, this`task
      ensures Valid() && Kept() && Safely() && task == None
      ensures old(task).value.id.value in Closed(journal)
      ensures log == old(log) + [Wrote(OrderTerminal(old(task).value.id.value, state))]
    {
      Write(OrderTerminal(task.value.id.value, state));
      task := None;
    }

    /** Takes note of a reported state; an unknown one is alerted and cancelled. */
    method NoteState(state: State, journalUpdate: bool)
      requires Valid() && task.Some? && task.value.id.Some?
      modifies this`journal, this`log, this`task
      ensures Valid() && Kept() && Safely()
      ensures task == Some(old(task).value.(last := state, causes := CausesAfter(old(task).value.causes, state, [])))
      ensures journalUpdate && state != old(task).value.last ==> Wrote(Remark(task.value.id)) in log
    {
      var id := task.value.id;
      if journalUpdate && state != task.value.last {
        Write(Remark(id));
      }
      task := Some(task.value.(last := state));
      assert CausesAfter(task.value.causes, state, [])
             == if state.UnknownState? then task.value.causes + {UnexpectedStatus} else task.value.causes;
      if state.UnknownState? {
        AlertUnknown();
      }
    }

    method AlertUnknown()
      requires Valid() && task.Some? && task.value.id.Some?
      modifies this`journal, this`log, this`task
      ensures Valid() && Kept() && Safely()
      ensures task == Some(old(task).value.(causes := old(task).value.causes + {UnexpectedStatus}))
    {
      Write(Remark(task.value.id));
      AttemptCancel(UnexpectedStatus);
    }

    /** One observation of the watched order; `fired` are the guards that tripped. */
    method ObserveOrder(state: State, journalUpdate: bool, fired: seq<Cause>)
      requires Valid() && task.Some? && task.value.id.Some?
      requires Terminal(state) ==> task.value.id.value in EndedIds(log)
      modifies this`journal, this`log, this`task
      ensures Valid() && Kept() && Safely()
      ensures Follows(old(task).value, state, fired)
    {
      NoteState(state, journalUpdate);
      if Terminal(state) {
        RecordTerminal(state);
      } else {
        ghost var before := old(task).value.causes;
        assert CausesAfter(before, state, []) + ToSet(fired) == CausesAfter(before, state, fired);
        AttemptCancels(fired);
      }
    }

    /** A poll keeps watching through errors, and closes only on the broker's word. */
    method Poll(fired: seq<Cause>)
      requires Valid() && task.Some? && task.value.id.Some?
      modifies this`journal, this`log, this`task, broker
      ensures Valid() && Kept() && Safely()
      ensures match old(broker.NextQuery())
              case Found(state) => Follows(old(task).value, state, fired)
              case _ => task == old(task) && log == old(log) + [Asked(task.value.id.value), Wrote(Remark(task.value.id))]
    {
      var id := task.value.id.value;
      Note(Asked(id));
      var q := broker.OrderStatus(id);
      if q.Found? {
        Hear(id, q.state);
        ObserveOrder(q.state, true, fired);
      } else {
        Write(Remark(Some(id)));
      }
    }

    // ------------------------------------------------------------- the submission

    /** Never a second submission: the broker is asked, and what it says adopted, or the
        order is left unconfirmed and its symbol denied. */
    method SubmitRecovery(fired: seq<Cause>)
      requires Valid() && task.Some? && task.value.id.Some?
      modifies this`journal, this`log, this`task, this`openDeny, broker
      ensures Valid() && Kept() && Safely()
      ensures old(task).value.id.value in AskedIds(log)
      ensures RecoveredAs(old(task).value, old(broker.queries), fired, old(openDeny), old(Closed(journal)))
    {
      var id, symbol := task.value.id.value, task.value.symbol;
      var found := Query(id);
      if found.None? {
        LeaveUnconfirmed(id, symbol, NotFound);
        task := None;
        return;
      }
      Adopt(found.value, false, fired);
    }

    /** Takes the broker's word for the order from here on; its first word on a new open
        order is also when the modeled fill is written. */
    method Adopt(state: State, modeled: bool, fired: seq<Cause>)
      requires Valid() && task.Some? && task.value.id.Some?
      requires Terminal(state) ==> task.value.id.value in EndedIds(log)
      modifies this`journal, this`log, this`task
      ensures Valid() && Kept() && Safely()
      ensures Follows(old(task).value.(watching := true), state, fired)
      ensures Wrote(Submitted(old(task).value.id.value, state)) in log
    {
      RecordSubmitted(task.value.id.value, state, modeled);
      task := Some(task.value.(watching := true, last := state));
      ObserveOrder(state, false, fired);
    }

    method RecordSubmitted(id: string, state: State, modeled: bool)
      requires Valid()
      modifies this`journal, this`log
      ensures Valid() && Kept() && Safely() && Closed(journal) == old(Closed(journal))
      ensures Wrote(Submitted(id, state)) in log
    {
      Write(Submitted(id, state));
      if modeled {
        Write(Remark(Some(id)));
      }
    }

    method RecordBrokerReject()
      requires Valid() && task.Some? && task.value.id.Some? && task.value.id.value in EndedIds(log)
      modifies this`journal, this`log, this`task
      ensures Valid() && Kept() && Safely() && task == None
      ensures old(task).value.id.value in Closed(journal)
    {
      Write(BrokerReject(task.value.id.value));
      task := None;
    }

    /** An error in answer to a submission is recorded as the broker's refusal,
        whatever its status: nobody asks again. */
    method RecordHttpError(status: int)
      requires Valid() && task.Some? && task.value.id.Some?
      modifies this`journal, this`log, this`task
      ensures Valid() && Kept() && task == None && old(task).value.id.value in Closed(journal)
      ensures log == old(log) + Refusal(old(task).value.id.value, Definitive(status))
      ensures old(Safe(log)) ==> (Safe(log) <==> Definitive(status) || !old(MayBeLive(log, task.value.id.value)))
    {
      var id := task.value.id.value;
      ghost var answer := if Definitive(status) then Told(id) else Unsettled(id);
      task := None;
      LogSnoc(log, answer);
      Note(answer);
      CloseRefused(id);
      RefusalSteps(old(log), id, Definitive(status));
      if old(Safe(log)) {
        RefusalSafeIff(old(log), id, Definitive(status));
      }
    }

    /** The row that closes an order as refused. */
    method CloseRefused(id: string)
      requires Valid() && Allowed(log, Wrote(BrokerReject(id)))
      modifies this`journal, this`log
      ensures Valid() && Kept() && log == old(log) + [Wrote(BrokerReject(id))] && id in Closed(journal)
    {
      LogSnoc(log, Wrote(BrokerReject(id)));
      RowsSnoc(journal, BrokerReject(id));
      DeniedSnoc(journal, BrokerReject(id), runId);
      journal, log := journal + [BrokerReject(id)], log + [Wrote(BrokerReject(id))];
    }

    /** The broker's first answer to an order that was passed to it. A safe journal
        stays safe, exactly unless the answer is an error that settles nothing about an
        order that may be live. */
    method AfterSubmit(a: SubmitAnswer, fired: seq<Cause>)
      requires Valid() && task.Some? && task.value.id.Some? && (a.HttpError? || a.Unparseable? || a.Acknowledged?)
      modifies this`journal, this`log, this`task, this`openDeny, broker
      ensures Valid() && Kept()
      ensures AnsweredAs(old(task).value, a, old(broker.queries), fired, old(openDeny), old(Closed(journal)))
      ensures a.HttpError? ==> log == old(log) + Refusal(old(task).value.id.value, Definitive(a.status))
      ensures old(Safe(log)) ==>
        (Safe(log) <==> !(a.HttpError? && !Definitive(a.status) && old(MayBeLive(log, task.value.id.value))))
    {
      var id := task.value.id.value;
      if a.HttpError? {
        RecordHttpError(a.status);
      } else if a.Unparseable? {
        SubmitRecovery(fired);
      } else {
        Hear(id, a.state);
        if a.state.Rejected? {
          RecordBrokerReject();
          return;
        }
        Adopt(a.state, task.value.opens, fired);
      }
    }

    /** Requote, preflight, write ahead, submit: at most one new send, of a new id. */
    method RequoteAndSubmit(id: string, passed: bool, fired: seq<Cause>)
      requires Valid() && task.Some? && task.value.id.None?
      requires id !in Mentioned(journal) && id !in EndedIds(log)
      modifies this`journal, this`log, this`task, this`openDeny, this`outstanding, broker
      ensures Valid() && old(log) <= log && outstanding == old(outstanding)
      ensures Sends(log) == if passed && !old(broker.NextSubmit()).StaleToken? then old(Sends(log)) + [id] else old(Sends(log))
      ensures !passed ==> task == None && log == old(log) + [Wrote(Reject(None))] && openDeny == old(openDeny)
      ensures passed && old(broker.NextSubmit()).StaleToken? ==>
        StaysHere(old(log), old(openDeny), id, old(task).value.symbol)
      ensures passed ==> AnsweredAs(old(task).value.(id := Some(id)), old(broker.NextSubmit()), old(broker.queries), fired,
                                    old(openDeny), old(Closed(journal)))
      ensures passed && old(broker.NextSubmit()).HttpError? ==>
        log == old(log) + Submission(id, old(task).value.symbol, true)
               + Refusal(id, Definitive(old(broker.NextSubmit()).status))
      ensures old(Safe(log)) ==>
        (Safe(log) <==> !(passed && old(broker.NextSubmit()).HttpError? && !Definitive(old(broker.NextSubmit()).status)))
    {
      if !passed {
        Write(Reject(None));
        task := None;
        return;
      }
      SubmitOpen(id, fired);
    }

    method SubmitOpen(id: string, fired: seq<Cause>)
      requires Valid() && task.Some? && task.value.id.None?
      requires id !in Mentioned(journal) && id !in EndedIds(log)
      modifies this`journal, this`log, this`task, this`openDeny, this`outstanding, broker
      ensures Valid() && old(log) <= log && outstanding == old(outstanding)
      ensures Sends(log) == if old(broker.NextSubmit()).StaleToken? then old(Sends(log)) else old(Sends(log)) + [id]
      ensures old(broker.NextSubmit()).StaleToken? ==> StaysHere(old(log), old(openDeny), id, old(task).value.symbol)
      ensures AnsweredAs(old(task).value.(id := Some(id)), old(broker.NextSubmit()), old(broker.queries), fired,
                         old(openDeny), old(Closed(journal)))
      ensures old(broker.NextSubmit()).HttpError? ==>
        log == old(log) + Submission(id, old(task).value.symbol, true)
               + Refusal(id, Definitive(old(broker.NextSubmit()).status))
      ensures old(Safe(log)) ==>
        (Safe(log) <==> !(old(broker.NextSubmit()).HttpError? && !Definitive(old(broker.NextSubmit()).status)))
    {
      SubmissionSteps(log, id, task.value.symbol, true);
      BeginOpen(id);
      outstanding := outstanding + [id];
      var a := broker.SubmitOrder(id);
      outstanding := outstanding[..|outstanding| - 1];
      AnswerOpen(id, a, fired);
    }

    method BeginOpen(id: string)
      requires Valid() && task.Some? && task.value.id.None? && id !in Mentioned(journal)
      modifies this`journal, this`log, this`task
      ensures Valid() && log == old(log) + [Wrote(Attempt(id, old(task).value.symbol, true))] && Safely()
      ensures task == Some(old(task).value.(id := Some(id)))
      ensures id !in Closed(journal) && id !in Sends(log) && Sends(log) == old(Sends(log))
      ensures Closed(journal) == old(Closed(journal)) && EndedIds(log) == old(EndedIds(log))
    {
      WriteAttempt(id, task.value.symbol, true);
      task := Some(task.value.(id := Some(id)));
    }

    method AnswerOpen(id: string, a: SubmitAnswer, fired: seq<Cause>)
      requires Valid() && task.Some? && task.value.id == Some(id)
      requires id !in Closed(journal) && id !in Sends(log) && id !in EndedIds(log)
      modifies this`journal, this`log, this`task, this`openDeny, broker
      ensures Valid() && old(log) <= log
      ensures Sends(log) == if a.StaleToken? then old(Sends(log)) else old(Sends(log)) + [id]
      ensures a.StaleToken? ==> task == None && log == old(log) + [Wrote(Reject(Some(id)))] && openDeny == old(openDeny)
      ensures AnsweredAs(old(task).value, a, old(broker.queries), fired, old(openDeny), old(Closed(journal)))
      ensures a.HttpError? ==> log == old(log) + [Sent(id)] + Refusal(id, Definitive(a.status))
      ensures old(Safe(log)) ==> (Safe(log) <==> !(a.HttpError? && !Definitive(a.status)))
    {
      if a.StaleToken? {
        // refused on this side of the wire
        Write(Reject(Some(id)));
        task := None;
        return;
      }
      PassToBroker(id, a, fired);
    }

    /** The order has passed to the broker, which answered or did not. */
    method PassToBroker(id: string, a: SubmitAnswer, fired: seq<Cause>)
      requires Valid() && task.Some? && task.value.id == Some(id) && !a.StaleToken?
      requires id !in Closed(journal) && id !in Sends(log)
      modifies this`journal, this`log, this`task, this`openDeny, broker
      ensures Valid() && old(log) <= log && Sends(log) == old(Sends(log)) + [id]
      ensures AnsweredAs(old(task).value, a, old(broker.queries), fired, old(openDeny), old(Closed(journal)))
      ensures a.HttpError? ==> log == old(log) + [Sent(id)] + Refusal(id, Definitive(a.status))
      ensures old(Safe(log)) && id !in old(EndedIds(log)) ==>
        (Safe(log) <==> !(a.HttpError? && !Definitive(a.status)))
    {
      Send(id);
      LogSnoc(old(log), Sent(id));
      if a.SubmitRaised? {
        SubmitRecovery(fired);
      } else {
        AfterSubmit(a, fired);
      }
    }

    /** What becomes of a close: a stale token is asked about like a lost answer. */
    ghost predicate ClosingAs(id: string, symbol: string, a: SubmitAnswer, answers: seq<QueryAnswer>, fired: seq<Cause>,
                              deny: set<string>, closed: set<string>)
      reads this
    {
      var t := Task(Some(id), symbol, false, true, Accepted, {});
      && Wrote(Attempt(id, symbol, false)) in log
      && if a.StaleToken? then RecoveredAs(t, answers, fired, deny, closed)
         else AnsweredAs(t, a, answers, fired, deny, closed)
    }

    /** The close path: priced, minted, written ahead, submitted. */
    method StartClose(id: string, symbol: string, quoted: bool, priced: bool, minted: bool, fired: seq<Cause>)
      requires Valid() && task == None && id !in Mentioned(journal) && id !in EndedIds(log)
      modifies this`journal, this`log, this`task, this`openDeny, broker
      ensures Valid() && old(log) <= log
      ensures Sends(log) == if priced && minted && !old(broker.NextSubmit()).StaleToken? then old(Sends(log)) + [id]
                            else old(Sends(log))
      ensures !priced || !minted ==>
        && task == None && openDeny == old(openDeny)
        && log == old(log) + (if quoted then [Wrote(Remark(None))] else [])
                  + [Wrote(if priced then Remark(Some(id)) else Reject(None))]
      ensures priced && minted ==> ClosingAs(id, symbol, old(broker.NextSubmit()), old(broker.queries), fired,
                                             old(openDeny), old(Closed(journal)))
      ensures old(Safe(log)) ==>
        (Safe(log) <==> !(priced && minted && old(broker.NextSubmit()).HttpError?
                          && !Definitive(old(broker.NextSubmit()).status)))
    {
      if quoted {
        LogSnoc(log, Wrote(Remark(None)));
        RowsSnoc(journal, Remark(None));
        Write(Remark(None));
      }
      if priced && minted {
        SubmitClose(id, symbol, fired);
      } else {
        Write(if priced then Remark(Some(id)) else Reject(None));
      }
    }

    method SubmitClose(id: string, symbol: string, fired: seq<Cause>)
      requires Valid() && task == None && id !in Mentioned(journal) && id !in EndedIds(log)
      modifies this`journal, this`log, this`task, this`openDeny, broker
      ensures Valid() && old(log) <= log
      ensures Sends(log) == if old(broker.NextSubmit()).StaleToken? then old(Sends(log)) else old(Sends(log)) + [id]
      ensures ClosingAs(id, symbol, old(broker.NextSubmit()), old(broker.queries), fired, old(openDeny), old(Closed(journal)))
      ensures old(Safe(log)) ==>
        (Safe(log) <==> !(old(broker.NextSubmit()).HttpError? && !Definitive(old(broker.NextSubmit()).status)))
    {
      BeginClose(id, symbol);
      var a := broker.SubmitOrder(id);
      if a.StaleToken? {
        SubmitRecovery(fired);
        return;
      }
      PassToBroker(id, a, fired);
    }

    method BeginClose(id: string, symbol: string)
      requires Valid() && task == None && id !in Mentioned(journal)
      modifies this`journal, this`log, this`task
      ensures Valid() && log == old(log) + [Wrote(Attempt(id, symbol, false))] + [Wrote(Remark(Some(id)))] && Safely()
      ensures task == Some(Task(Some(id), symbol, false, true, Accepted, {}))
      ensures id !in Closed(journal) && id !in Sends(log) && Sends(log) == old(Sends(log))
      ensures Closed(journal) == old(Closed(journal)) && EndedIds(log) == old(EndedIds(log))
    {
      WriteAttempt(id, symbol, false);
      LogSnoc(log, Wrote(Remark(Some(id))));
      Write(Remark(Some(id)));
      task := Some(Task(Some(id), symbol, false, true, Accepted, {}));
    }

    /** A kill cancels the order in flight, and retires a close without closing it. */
    method CancelForKill()
      requires Valid()
      modifies this`journal, this`log, this`task
      ensures Valid() && Kept() && Safely() && Closed(journal) == old(Closed(journal))
      ensures match old(task)
              case None => task == None && log == old(log)
              case Some(t) =>
                && (t.watching && t.id.Some? && KillTrip !in t.causes ==> t.id.value in CancelIds(log))
                && task == if !t.opens then None
                           else if t.watching && t.id.Some? then Some(t.(causes := t.causes + {KillTrip}))
                           else Some(t)
    {
      if task.Some? && task.value.watching && task.value.id.Some? {
        AttemptCancel(KillTrip);
      }
      if task.Some? && !task.value.opens {
        task := None;
      }
    }

    /** Every order whose token is still outstanding is closed as rejected. Between two
        steps none is, so a kill closes nothing. */
    method RetireForKill()
      requires Valid() && forall i :: 0 <= i < |outstanding| ==> !MayBeLive(log, outstanding[i])
      modifies this`journal, this`log, this`task, this`outstanding
      ensures Valid() && Kept() && Safely() && outstanding == []
      ensures forall id :: id in Closed(journal) <==> id in old(Closed(journal)) || id in old(outstanding)
      ensures old(task).None? ==> task == None
      ensures old(task).Some? && old(task).value.watching && old(task).value.id.Some? ==>
        KillTrip in old(task).value.causes || old(task).value.id.value in CancelIds(log)
      ensures task.Some? <==> old(task).Some? && old(task).value.opens
      ensures task.Some? ==> task.value.(causes := old(task).value.causes) == old(task).value
    {
      CancelForKill();
      CloseOutstanding();
    }

    method CloseOutstanding()
      requires Valid() && forall i :: 0 <= i < |outstanding| ==> !MayBeLive(log, outstanding[i])
      modifies this`journal, this`log, this`outstanding
      ensures Valid() && Kept() && Safely() && outstanding == []
      ensures forall id :: id in Closed(journal) <==> id in old(Closed(journal)) || id in old(outstanding)
    {
      for i := 0 to |outstanding|
        invariant Valid() && Kept() && Safely() && outstanding == old(outstanding)
        invariant forall id :: id in Closed(journal) <==> id in old(Closed(journal)) || id in outstanding[..i]
      {
        Write(Reject(Some(outstanding[i])));
      }
      outstanding := [];
    }

    // --------------------------------------------------------------- the recovery

    /** An order of the queue has been dealt with: it was asked for, and either adopted
        and cancelled or left unconfirmed with its symbol denied. */
    ghost predicate Recovered(q: Dangler)
      reads this
    {
      q.id in AskedIds(log) && (q.id in CancelIds(log) || q.symbol in openDeny)
    }

    method RecoverOne(d: Dangler)
      requires Valid() && Known(d.id, d.symbol)
      modifies this`journal, this`log, this`task, this`openDeny, broker
      ensures Valid() && Kept() && Safely() && Recovered(d)
      ensures forall state :: Finds(old(broker.queries), state) ==>
        && d.id in CancelIds(log) && openDeny == old(openDeny)
        && if Terminal(state) then task == None && d.id in Closed(journal)
           else task == Some(Task(Some(d.id), d.symbol, d.opens, true, state, {RestartUnknownState}))
      ensures FindsNothing(old(broker.queries)) ==>
        task == old(task) && openDeny == old(openDeny) + {d.symbol} && Closed(journal) == old(Closed(journal))
    {
      var found := Query(d.id);
      if found.None? {
        LeaveUnconfirmed(d.id, d.symbol, NotFound);
        return;
      }
      AdoptDangler(d, found.value);
    }

    method AdoptDangler(d: Dangler, state: State)
      requires Valid() && Known(d.id, d.symbol) && (Terminal(state) ==> d.id in EndedIds(log))
      modifies this`journal, this`log, this`task
      ensures Valid() && Kept() && Safely() && d.id in CancelIds(log)
      ensures if Terminal(state) then task == None && d.id in Closed(journal)
              else task == Some(Task(Some(d.id), d.symbol, d.opens, true, state, {RestartUnknownState}))
    {
      task := Some(Task(Some(d.id), d.symbol, d.opens, true, state, {}));
      assert {} + {RestartUnknownState} == {RestartUnknownState};
      AttemptCancel(RestartUnknownState);
      if Terminal(state) {
        RecordTerminal(state);
      }
    }

    /** Recovery after a restart queries and cancels; it submits nothing. */
    method RecoverDanglingOrders()
      requires Valid() && Queued()
      modifies this`journal, this`log, this`task, this`openDeny, broker
      ensures Valid() && Kept() && Safely() && queue == old(queue)
      ensures forall i :: 0 <= i < |queue| ==> Recovered(queue[i])
    {
      for i := 0 to |queue|
        invariant Valid() && Kept() && Safely() && Queued()
        invariant forall j :: 0 <= j < i ==> Recovered(queue[j])
      {
        RecoverOne(queue[i]);
      }
    }

    /** Without a broker the queued orders are left unconfirmed. */
    method ResolveOfflineOrphans()
      requires Valid() && Queued()
      modifies this`journal, this`log, this`openDeny, this`queue
      ensures Valid() && Kept() && Safely() && queue == []
      ensures forall i :: 0 <= i < |old(queue)| ==> old(queue)[i].symbol in openDeny
    {
      for i := 0 to |queue|
        invariant Valid() && Kept() && Safely() && Queued() && queue == old(queue)
        invariant forall j :: 0 <= j < i ==> queue[j].symbol in openDeny
      {
        LeaveUnconfirmed(queue[i].id, queue[i].symbol, OfflineOrphan);
      }
      queue := [];
    }
  }

  /** A refused reduce mint is recorded under the id the order would have had. That id
      is open when the journal is rebuilt, though it was never attempted or sent, and
      the restart has nothing to recover it by. */
  lemma RefusedMintLooksOpen(rows: seq<Row>, id: string, runId: string)
    requires WriteAhead(rows) && id !in Mentioned(rows)
    ensures var r := Fold(rows + [Remark(Some(id))], runId);
            r.Success? && id in OpenOrders(r.value) && id !in r.value.attemptSymbol
  {
    var after := rows + [Remark(Some(id))];
    assert after[..|rows|] == rows;
    AttemptedIsMentioned(rows);
    FoldMeaning(after, runId);
    RowsSnoc(rows, Remark(Some(id)));
  }

  ghost predicate HasAttempt(rows: seq<Row>, id: string) {
    exists i :: 0 <= i < |rows| && rows[i].Attempt? && rows[i].id == id
  }

  lemma {:induction false} AttemptedKeys(rows: seq<Row>)
    ensures forall id :: id in Attempted(rows) ==> HasAttempt(rows, id)
    ensures forall i :: 0 <= i < |rows| && rows[i].Attempt? ==> rows[i].id in Attempted(rows)
  {
    if rows != [] {
      var n := |rows| - 1;
      AttemptedKeys(rows[..n]);
      forall id | id in Attempted(rows) ensures HasAttempt(rows, id) {
        if !(rows[n].Attempt? && rows[n].id == id) {
          assert HasAttempt(rows[..n], id);
          var i :| 0 <= i < n && rows[..n][i].Attempt? && rows[..n][i].id == id;
          assert rows[i] == rows[..n][i];
        }
      }
    }
  }
}