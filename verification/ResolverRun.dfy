/**
 The resolver and its climatology as objects, updated row by row; their methods are
 proved against the functions of `Resolver`.
 */
module ResolverRun {
  import opened Wrappers
  import opened BarSeries
  import opened BarReader
  import opened Resolver

  class AsOfClimatology {
    var cells: map<(string, string), seq<int>>
    var seen: set<string>

    ghost function Value(): Climatology
      reads this
    {
      Climatology(cells, seen)
    }

    constructor ()
      ensures Value() == EMPTY
    {
      cells, seen := map[], {};
    }

    method IngestResolved(symbol: string, horizon: string, outcome: int, id: string)
      modifies this
      ensures Value() == Ingest(old(Value()), symbol, horizon, outcome, id)
    {
      if id in seen {
        return;
      }
      seen := seen + {id};
      var cell := (symbol, horizon);
      if cell !in cells {
        cells := cells[cell := []];
      }
      cells := cells[cell := cells[cell] + [outcome]];
    }
  }

  datatype Error = DecisionMissing(id: string) | RowRaised(id: string)

  class ForecastResolver {
    const reader: MidBarSeriesReader
    const climatology: AsOfClimatology
    var rows: seq<Row>
    var seen: Option<set<string>>

    ghost function State(): World
      reads this, climatology
    {
      World(rows, seen, climatology.Value())
    }

    ghost function Labels(): Series
      reads reader
    {
      Series(reader.bars, reader.missing)
    }

    /** A fresh resolver on a stream, with a climatology of its own or a shared one. */
    constructor (reader: MidBarSeriesReader, climatology: AsOfClimatology, rows: seq<Row>)
      ensures this.reader == reader && this.climatology == climatology
      ensures State() == World(rows, None, climatology.Value())
    {
      this.reader, this.climatology, this.rows, seen := reader, climatology, rows, None;
    }

    static method IndexDecisions(decisions: seq<Decision>) returns (byId: Catalog)
      ensures byId == ById(decisions)
    {
      byId := map[];
      for i := 0 to |decisions|
        invariant byId == ById(decisions[..i])
      {
        assert decisions[..i + 1][..i] == decisions[..i];
        if decisions[i].id !in byId {
          byId := byId[decisions[i].id := decisions[i]];
        }
      }
      assert decisions[..|decisions|] == decisions;
    }

    /** Replays the stream once; a scored row without its decision is an error. */
    method ReplayStream(byId: Catalog) returns (r: Outcome<Error>)
      modifies this`seen, climatology
      ensures (State(), r.Pass?) == Replay(old(State()), byId)
      ensures r.Pass? ==> seen.Some?
    {
      if seen.Some? {
        return Pass;
      }
      var known: set<string> := {};
      var i := 0;
      while i < |rows|
        invariant 0 <= i <= |rows|
        invariant seen == None && rows == old(rows)
        invariant known == Ids(rows[..i]) && FirstUnknown(rows[..i], byId) == i
        invariant climatology.Value() == IngestRows(old(climatology.Value()), rows[..i], byId)
      {
        OneRowMore(old(climatology.Value()), rows, i, byId);
        var row := rows[i];
        known := known + {row.id};
        if row.Scored? {
          if row.id !in byId {
            UnknownStays(rows, i, byId);
            seen := Some(known);
            return Fail(DecisionMissing(row.id));
          }
          var d := byId[row.id];
          climatology.IngestResolved(d.key.symbol, d.horizon, row.outcome, row.id);
        }
        i := i + 1;
      }
      assert rows[..|rows|] == rows;
      seen := Some(known);
      r := Pass;
    }

    /** Reads both labels as of the instant; None defers. */
    method Judge(d: Decision, now: int) returns (v: Option<Row>)
      requires reader.Valid()
      ensures v == Verdict(Labels(), d, now)
    {
      LabelIsBar(Labels(), d, d.t0End, now);
      LabelIsBar(Labels(), d, d.resolveEnd, now);
      var t0 := reader.GetBar(d.key, d.t0End, Some(now));
      var th := reader.GetBar(d.key, d.resolveEnd, Some(now));
      if t0 == Absent(FutureReceipt) || th == Absent(FutureReceipt) {
        return None;
      }
      v := Some(RowFor(d, t0, th));
    }

    method ResolveRow(d: Decision, now: int, done: set<string>, tally: Tally) returns (done': set<string>, tally': Tally)
      requires reader.Valid() && seen.Some?
      modifies this`rows, climatology
      ensures Progress(rows, done', climatology.Value(), tally')
              == ResolveOne(Labels(), seen.value, Progress(old(rows), done, old(climatology.Value()), tally), d, now)
    {
      done', tally' := done, tally;
      if !d.forecastOnly {
        return;
      }
      tally' := tally'.(considered := tally'.considered + 1);
      if d.id in seen.value || d.id in done {
        tally' := tally'.(skipped := tally'.skipped + 1);
        return;
      }
      if d.resolveEnd > now {
        return;
      }
      tally' := tally'.(due := tally'.due + 1);
      var v := Judge(d, now);
      if v.None? {
        tally' := tally'.(deferred := tally'.deferred + 1);
        return;
      }
      rows := rows + [v.value];
      done' := done' + {d.id};
      if v.value.Scored? {
        tally' := tally'.(scored := tally'.scored + 1);
        climatology.IngestResolved(d.key.symbol, d.horizon, v.value.outcome, d.id);
      } else {
        tally' := tally'.(unresolved := tally'.unresolved + 1);
      }
    }

    /** Resolves every due forecast it can, once. The row of the decision at `raisesAt`,
        if there is one, does not go through: its probability or its mids do not
        round-trip, or the ledger refuses it. */
    method ResolveDue(decisions: seq<Decision>, now: int, raisesAt: nat) returns (r: Result<Tally, Error>)
      requires reader.Valid()
      modifies this, climatology
      ensures SeriesOk(Labels()) && Labels() == old(Labels())
      ensures (State(), r.Success?)
              == Next(Labels(), old(State()), if raisesAt < |decisions| then Raises(decisions, now, raisesAt)
                                              else Call(decisions, now))
      ensures r.Success? ==> r.value.due == r.value.scored + r.value.unresolved + r.value.deferred
    {
      var byId := IndexDecisions(decisions);
      var replayed := ReplayStream(byId);
      if replayed.Fail? {
        return Failure(replayed.error);
      }
      var upTo := if raisesAt < |decisions| then raisesAt else |decisions|;
      assert decisions[..|decisions|] == decisions;
      var done, tally := ResolveRows(decisions, now, upTo);
      if upTo < |decisions| {
        return Failure(RowRaised(decisions[upTo].id));
      }
      seen := Some(seen.value + done);
      r := Success(tally);
    }

    method ResolveRows(decisions: seq<Decision>, now: int, upTo: nat) returns (done: set<string>, tally: Tally)
      requires reader.Valid() && seen.Some? && upTo <= |decisions|
      modifies this`rows, climatology
      ensures SeriesOk(Labels()) && Labels() == old(Labels())
      ensures Progress(rows, done, climatology.Value(), tally)
              == ResolveAll(Labels(), seen.value, old(rows), old(climatology.Value()), decisions[..upTo], now)
      ensures tally.due == tally.scored + tally.unresolved + tally.deferred
    {
      done, tally := {}, Tally(0, 0, 0, 0, 0, 0);
      for i := 0 to upTo
        invariant reader.Valid() && Labels() == old(Labels()) && SeriesOk(Labels())
        invariant Progress(rows, done, climatology.Value(), tally)
                  == ResolveAll(Labels(), seen.value, old(rows), old(climatology.Value()), decisions[..i], now)
      {
        assert decisions[..i + 1][..i] == decisions[..i];
        done, tally := ResolveRow(decisions[i], now, done, tally);
      }
      TallyBalances(Labels(), seen.value, old(rows), old(climatology.Value()), decisions[..upTo], now);
    }
  }

  /** What one more row of the stream adds. */
  lemma OneRowMore(c: Climatology, rows: seq<Row>, i: nat, byId: Catalog)
    requires i < |rows|
    ensures Ids(rows[..i + 1]) == Ids(rows[..i]) + {rows[i].id}
    ensures FirstUnknown(rows[..i], byId) == i && !(rows[i].Scored? && rows[i].id !in byId) ==>
              FirstUnknown(rows[..i + 1], byId) == i + 1
    ensures IngestRows(c, rows[..i + 1], byId) == IngestRow(IngestRows(c, rows[..i], byId), rows[i], byId)
  {
    assert rows[..i + 1][..i] == rows[..i];
  }

  lemma {:induction false} UnknownStays(rows: seq<Row>, i: nat, byId: Catalog)
    requires i < |rows| && FirstUnknown(rows[..i], byId) == i && rows[i].Scored? && rows[i].id !in byId
    ensures FirstUnknown(rows, byId) == i
    decreases |rows|
  {
    var n := |rows| - 1;
    assert rows[..n][..i] == rows[..i];
    if i < n {
      UnknownStays(rows[..n], i, byId);
    }
  }
}
