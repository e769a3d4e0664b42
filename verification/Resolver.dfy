/**
 Resolving forecasts against the bar series, each exactly once
 (calibration.ForecastResolver and AsOfClimatology). A resolver's bars are fixed;
 instants and schedules are not.
 */
module Resolver {
  import opened Wrappers
  import opened BarSeries

  /** What the resolver reads of a decision row. */
  datatype Decision = Decision(
    forecastOnly: bool, id: string, key: Key, horizon: string, t0End: int, resolveEnd: int, k: real, p: real)

  datatype Why = NoMidBarT0(reason: Reason) | NoMidBarResolve(reason: Reason) | LabelSourceMismatch

  /** A terminal row of the scored stream. */
  datatype Row = Scored(id: string, outcome: int, brier: real) | Unresolved(id: string, why: Why)

  datatype Series = Series(bars: seq<Record>, missing: seq<Record>)

  ghost predicate SeriesOk(s: Series) { AllBars(s.bars) && AllMissing(s.missing) && Readable(s.bars, s.missing) }

  // ------------------------------------------------------------------ one verdict

  ghost function Label(s: Series, d: Decision, end: int, now: int): Lookup
    requires SeriesOk(s)
  {
    Get(s.bars, s.missing, d.key, end, Some(now))
  }

  function OutcomeOf(t0: real, th: real, k: real): int { if th >= t0 * (1.0 + k) then 1 else 0 }

  function RowFor(d: Decision, t0: Lookup, th: Lookup): Row
    requires t0.Present? ==> t0.bar.Bar?
    requires th.Present? ==> th.bar.Bar?
  {
    if t0.Absent? then Unresolved(d.id, NoMidBarT0(t0.reason))
    else if th.Absent? then Unresolved(d.id, NoMidBarResolve(th.reason))
    else if t0.bar.source != th.bar.source then Unresolved(d.id, LabelSourceMismatch)
    else
      var o := OutcomeOf(t0.bar.mid, th.bar.mid, d.k);
      Scored(d.id, o, (d.p - o as real) * (d.p - o as real))
  }

  lemma LabelIsBar(s: Series, d: Decision, end: int, now: int)
    requires SeriesOk(s)
    ensures Label(s, d, end, now).Present? ==> Label(s, d, end, now).bar.Bar?
  {
    FindMeaning(s.bars, d.key, end);
  }

  /** None while a label has not been received; else the terminal row. */
  ghost function Verdict(s: Series, d: Decision, now: int): Option<Row>
    requires SeriesOk(s)
  {
    LabelIsBar(s, d, d.t0End, now);
    LabelIsBar(s, d, d.resolveEnd, now);
    var t0, th := Label(s, d, d.t0End, now), Label(s, d, d.resolveEnd, now);
    if t0 == Absent(FutureReceipt) || th == Absent(FutureReceipt) then None else Some(RowFor(d, t0, th))
  }

  /** A verdict once reached stays what it is, at every later instant. */
  lemma VerdictSettles(s: Series, d: Decision, now: int, later: int)
    requires SeriesOk(s) && now <= later && Verdict(s, d, now).Some?
    ensures Verdict(s, d, later) == Verdict(s, d, now)
  {
    GetSettles(s.bars, s.missing, d.key, d.t0End, now, later);
    GetSettles(s.bars, s.missing, d.key, d.resolveEnd, now, later);
  }

  /** So whenever it is asked for, there is at most one. */
  lemma VerdictUnique(s: Series, d: Decision, now: int, other: int)
    requires SeriesOk(s) && Verdict(s, d, now).Some? && Verdict(s, d, other).Some?
    ensures Verdict(s, d, now) == Verdict(s, d, other)
  {
    if now <= other { VerdictSettles(s, d, now, other); } else { VerdictSettles(s, d, other, now); }
  }

  // ------------------------------------------------------------- the climatology

  datatype Climatology = Climatology(cells: map<(string, string), seq<int>>, seen: set<string>)

  const EMPTY: Climatology := Climatology(map[], {})

  /** A repeated id is silently ignored. */
  function Ingest(c: Climatology, symbol: string, horizon: string, outcome: int, id: string): Climatology {
    if id in c.seen then c
    else
      var cell := (symbol, horizon);
      Climatology(c.cells[cell := (if cell in c.cells then c.cells[cell] else []) + [outcome]], c.seen + {id})
  }

  type Catalog = map<string, Decision>

  function IngestRow(c: Climatology, row: Row, catalog: Catalog): Climatology {
    if row.Scored? && row.id in catalog then
      Ingest(c, catalog[row.id].key.symbol, catalog[row.id].horizon, row.outcome, row.id)
    else c
  }

  function IngestRows(c: Climatology, rows: seq<Row>, catalog: Catalog): Climatology {
    if rows == [] then c else IngestRow(IngestRows(c, rows[..|rows| - 1], catalog), rows[|rows| - 1], catalog)
  }

  /** The climatology a scored stream amounts to. */
  function ClimatologyOf(rows: seq<Row>, catalog: Catalog): Climatology { IngestRows(EMPTY, rows, catalog) }

  function Ids(rows: seq<Row>): set<string> {
    if rows == [] then {} else Ids(rows[..|rows| - 1]) + {rows[|rows| - 1].id}
  }

  lemma {:induction false} IngestedIds(c: Climatology, rows: seq<Row>, catalog: Catalog)
    ensures c.seen <= IngestRows(c, rows, catalog).seen <= c.seen + Ids(rows)
    ensures forall i :: 0 <= i < |rows| && rows[i].Scored? && rows[i].id in catalog ==>
              rows[i].id in IngestRows(c, rows, catalog).seen
  {
    if rows != [] {
      IngestedIds(c, rows[..|rows| - 1], catalog);
    }
  }

  /** Replaying a stream over a climatology that already holds it changes nothing. */
  lemma {:induction false} ReplayIsIdempotent(c: Climatology, rows: seq<Row>, catalog: Catalog)
    requires forall i :: 0 <= i < |rows| && rows[i].Scored? && rows[i].id in catalog ==> rows[i].id in c.seen
    ensures IngestRows(c, rows, catalog) == c
  {
    if rows != [] {
      ReplayIsIdempotent(c, rows[..|rows| - 1], catalog);
    }
  }

  // -------------------------------------------------------------------- one call

  datatype Tally = Tally(considered: nat, due: nat, scored: nat, unresolved: nat, skipped: nat, deferred: nat)

  datatype Progress = Progress(rows: seq<Row>, done: set<string>, clim: Climatology, tally: Tally)

  ghost function ResolveOne(s: Series, seen: set<string>, p: Progress, d: Decision, now: int): Progress
    requires SeriesOk(s)
  {
    if !d.forecastOnly then p
    else
      var t := p.tally.(considered := p.tally.considered + 1);
      if d.id in seen || d.id in p.done then p.(tally := t.(skipped := t.skipped + 1))
      else if d.resolveEnd > now then p.(tally := t)
      else
        var u := t.(due := t.due + 1);
        var v := Verdict(s, d, now);
        if v.None? then p.(tally := u.(deferred := u.deferred + 1))
        else
          Progress(
            p.rows + [v.value], p.done + {d.id},
            if v.value.Scored? then Ingest(p.clim, d.key.symbol, d.horizon, v.value.outcome, d.id) else p.clim,
            if v.value.Scored? then u.(scored := u.scored + 1) else u.(unresolved := u.unresolved + 1))
  }

  /** The decisions in order, from the rows and climatology the call starts with. */
  ghost function ResolveAll(s: Series, seen: set<string>, rows: seq<Row>, clim: Climatology,
                            decisions: seq<Decision>, now: int): Progress
    requires SeriesOk(s)
  {
    if decisions == [] then Progress(rows, {}, clim, Tally(0, 0, 0, 0, 0, 0))
    else
      ResolveOne(s, seen, ResolveAll(s, seen, rows, clim, decisions[..|decisions| - 1], now),
                 decisions[|decisions| - 1], now)
  }

  /** Every due forecast is scored, unresolved or deferred, and just the first two add a row. */
  lemma {:induction false} TallyBalances(s: Series, seen: set<string>, rows: seq<Row>, clim: Climatology,
                                         decisions: seq<Decision>, now: int)
    requires SeriesOk(s)
    ensures var p := ResolveAll(s, seen, rows, clim, decisions, now);
            && p.tally.due == p.tally.scored + p.tally.unresolved + p.tally.deferred
            && p.tally.skipped + p.tally.due <= p.tally.considered <= |decisions|
            && |p.rows| == |rows| + p.tally.scored + p.tally.unresolved
            && rows <= p.rows
  {
    if decisions != [] {
      TallyBalances(s, seen, rows, clim, decisions[..|decisions| - 1], now);
    }
  }

  // --------------------------------------------------------------- what it keeps

  /** One row per forecast, and each row is the settled verdict on its decision. */
  ghost predicate OncePerForecast(rows: seq<Row>) {
    forall i, j :: 0 <= i < j < |rows| ==> rows[i].id != rows[j].id
  }

  ghost predicate Settled(s: Series, catalog: Catalog, row: Row)
    requires SeriesOk(s)
  {
    row.id in catalog && exists now :: catalog[row.id].resolveEnd <= now && Verdict(s, catalog[row.id], now) == Some(row)
  }

  ghost predicate StreamOk(s: Series, catalog: Catalog, rows: seq<Row>)
    requires SeriesOk(s)
  {
    OncePerForecast(rows) && forall i :: 0 <= i < |rows| ==> Settled(s, catalog, rows[i])
  }

  /** Rows for one forecast id all say the same. */
  ghost predicate FromCatalog(decisions: seq<Decision>, catalog: Catalog) {
    forall i :: 0 <= i < |decisions| ==> decisions[i].id in catalog && catalog[decisions[i].id] == decisions[i]
  }

  ghost predicate HasRow(rows: seq<Row>, id: string) { exists i :: 0 <= i < |rows| && rows[i].id == id }

  lemma {:induction false} IdsMeaning(rows: seq<Row>, id: string)
    ensures id in Ids(rows) <==> HasRow(rows, id)
  {
    if rows != [] {
      var n := |rows| - 1;
      IdsMeaning(rows[..n], id);
      if HasRow(rows[..n], id) {
        var i :| 0 <= i < n && rows[..n][i].id == id;
        assert rows[i].id == id;
      }
      if HasRow(rows, id) && rows[n].id != id {
        var i :| 0 <= i < |rows| && rows[i].id == id;
        assert rows[..n][i].id == id;
      }
    }
  }

  lemma RowsSnoc(rows: seq<Row>, row: Row, catalog: Catalog)
    ensures Ids(rows + [row]) == Ids(rows) + {row.id}
    ensures ClimatologyOf(rows + [row], catalog) == IngestRow(ClimatologyOf(rows, catalog), row, catalog)
  {
    assert (rows + [row])[..|rows|] == rows;
  }

  ghost predicate CallOk(s: Series, catalog: Catalog, seen: set<string>, p: Progress)
    requires SeriesOk(s)
  {
    StreamOk(s, catalog, p.rows) && Ids(p.rows) == seen + p.done && p.clim == ClimatologyOf(p.rows, catalog)
  }

  /** A decision this call turns into a row, unless an earlier one of its id did. */
  ghost predicate Resolves(s: Series, seen: set<string>, d: Decision, now: int)
    requires SeriesOk(s)
  {
    d.forecastOnly && d.id !in seen && d.resolveEnd <= now && Verdict(s, d, now).Some?
  }

  lemma OneShape(s: Series, seen: set<string>, p: Progress, d: Decision, now: int)
    requires SeriesOk(s)
    ensures var q := ResolveOne(s, seen, p, d, now);
            if Resolves(s, seen, d, now) && d.id !in p.done then
              var row := Verdict(s, d, now).value;
              row.id == d.id && q.done == p.done + {d.id} && q.rows == p.rows + [row]
              && q.clim == if row.Scored? then Ingest(p.clim, d.key.symbol, d.horizon, row.outcome, d.id) else p.clim
            else q.done == p.done && q.rows == p.rows && q.clim == p.clim
  {}

  lemma OneKeepsOk(s: Series, catalog: Catalog, seen: set<string>, p: Progress, d: Decision, now: int)
    requires SeriesOk(s) && CallOk(s, catalog, seen, p)
    requires d.id in catalog && catalog[d.id] == d
    ensures CallOk(s, catalog, seen, ResolveOne(s, seen, p, d, now))
  {
    OneShape(s, seen, p, d, now);
    if Resolves(s, seen, d, now) && d.id !in p.done {
      AddedRow(s, catalog, p.rows, Verdict(s, d, now).value, now);
    }
  }

  lemma AddedRow(s: Series, catalog: Catalog, rows: seq<Row>, row: Row, now: int)
    requires SeriesOk(s) && StreamOk(s, catalog, rows) && row.id !in Ids(rows)
    requires row.id in catalog && catalog[row.id].resolveEnd <= now && Verdict(s, catalog[row.id], now) == Some(row)
    ensures StreamOk(s, catalog, rows + [row]) && Ids(rows + [row]) == Ids(rows) + {row.id}
    ensures ClimatologyOf(rows + [row], catalog) == IngestRow(ClimatologyOf(rows, catalog), row, catalog)
  {
    IdsMeaning(rows, row.id);
    RowsSnoc(rows, row, catalog);
    assert Settled(s, catalog, row);
  }

  lemma {:induction false} CallKeepsOk(s: Series, catalog: Catalog, rows: seq<Row>, decisions: seq<Decision>, now: int)
    requires SeriesOk(s) && StreamOk(s, catalog, rows) && FromCatalog(decisions, catalog)
    ensures CallOk(s, catalog, Ids(rows), ResolveAll(s, Ids(rows), rows, ClimatologyOf(rows, catalog), decisions, now))
  {
    if decisions != [] {
      var n := |decisions| - 1;
      CallKeepsOk(s, catalog, rows, decisions[..n], now);
      OneKeepsOk(s, catalog, Ids(rows),
                 ResolveAll(s, Ids(rows), rows, ClimatologyOf(rows, catalog), decisions[..n], now), decisions[n], now);
    }
  }

  // --------------------------------------------------------------- exactly once

  ghost function ResolvedIds(s: Series, seen: set<string>, decisions: seq<Decision>, now: int): set<string>
    requires SeriesOk(s)
  {
    if decisions == [] then {}
    else
      var d := decisions[|decisions| - 1];
      ResolvedIds(s, seen, decisions[..|decisions| - 1], now) + (if Resolves(s, seen, d, now) then {d.id} else {})
  }

  lemma {:induction false} ResolvedIdsMeaning(s: Series, seen: set<string>, decisions: seq<Decision>, now: int)
    requires SeriesOk(s)
    ensures forall d :: d in decisions && Resolves(s, seen, d, now) ==> d.id in ResolvedIds(s, seen, decisions, now)
    ensures forall id :: id in ResolvedIds(s, seen, decisions, now) ==>
              exists d :: d in decisions && d.id == id && Resolves(s, seen, d, now)
  {
    if decisions != [] {
      var front, last := decisions[..|decisions| - 1], decisions[|decisions| - 1];
      assert decisions == front + [last];
      ResolvedIdsMeaning(s, seen, front, now);
    }
  }

  /** What a call adds, from any idea of what was seen: a row for each forecast it
      resolves; and the stream still has one row per forecast exactly when none of
      those had a row already. */
  lemma {:induction false} CallAdds(s: Series, seen: set<string>, rows: seq<Row>, clim: Climatology,
                                    decisions: seq<Decision>, now: int)
    requires SeriesOk(s) && OncePerForecast(rows)
    ensures var p := ResolveAll(s, seen, rows, clim, decisions, now);
            && p.done == ResolvedIds(s, seen, decisions, now) && Ids(p.rows) == Ids(rows) + p.done
            && (OncePerForecast(p.rows) <==> p.done !! Ids(rows))
  {
    if decisions != [] {
      var n := |decisions| - 1;
      CallAdds(s, seen, rows, clim, decisions[..n], now);
      OneAdds(s, seen, ResolveAll(s, seen, rows, clim, decisions[..n], now), decisions[n], now, Ids(rows));
    }
  }

  lemma OneAdds(s: Series, seen: set<string>, p: Progress, d: Decision, now: int, before: set<string>)
    requires SeriesOk(s) && Ids(p.rows) == before + p.done
    requires OncePerForecast(p.rows) <==> p.done !! before
    ensures var q := ResolveOne(s, seen, p, d, now);
            && q.done == p.done + (if Resolves(s, seen, d, now) then {d.id} else {})
            && Ids(q.rows) == before + q.done
            && (OncePerForecast(q.rows) <==> q.done !! before)
  {
    var q := ResolveOne(s, seen, p, d, now);
    OneShape(s, seen, p, d, now);
    if Resolves(s, seen, d, now) && d.id !in p.done {
      AddedId(p.rows, Verdict(s, d, now).value, p.done, before);
    }
  }

  lemma AddedId(rows: seq<Row>, row: Row, done: set<string>, before: set<string>)
    requires Ids(rows) == before + done && row.id !in done
    requires OncePerForecast(rows) <==> done !! before
    ensures Ids(rows + [row]) == before + (done + {row.id})
    ensures OncePerForecast(rows + [row]) <==> (done + {row.id}) !! before
  {
    RowsSnoc(rows, row, map[]);
    IdsMeaning(rows, row.id);
    OnceWith(rows, row);
  }

  lemma OnceWith(rows: seq<Row>, row: Row)
    ensures OncePerForecast(rows + [row]) <==> OncePerForecast(rows) && !HasRow(rows, row.id)
  {
    var after := rows + [row];
    assert forall i :: 0 <= i < |rows| ==> rows[i] == after[i];
    if OncePerForecast(after) {
      forall i, j | 0 <= i < j < |rows| ensures rows[i].id != rows[j].id {
        assert after[i].id != after[j].id;
      }
      forall i | 0 <= i < |rows| ensures rows[i].id != row.id {
        assert after[i].id != after[|rows|].id;
      }
    }
  }

  // -------------------------------------------------------------------- any run

  datatype World = World(rows: seq<Row>, seen: Option<set<string>>, clim: Climatology)

  /** The first decision row of each forecast. */
  function ById(decisions: seq<Decision>): Catalog {
    if decisions == [] then map[]
    else
      var m, d := ById(decisions[..|decisions| - 1]), decisions[|decisions| - 1];
      if d.id in m then m else m[d.id := d]
  }

  /** Position of the first scored row whose decision is not among those given. */
  function FirstUnknown(rows: seq<Row>, byId: Catalog): (k: nat)
    ensures k <= |rows|
  {
    if rows == [] then 0
    else
      var k := FirstUnknown(rows[..|rows| - 1], byId);
      var last := rows[|rows| - 1];
      if k < |rows| - 1 || (last.Scored? && last.id !in byId) then k else |rows|
  }

  /** The first call of a resolver replays the stream; what it replays before a row with
      no decision stays behind when it raises. */
  function Replay(w: World, byId: Catalog): (World, bool) {
    if w.seen.Some? then (w, true)
    else
      var k := FirstUnknown(w.rows, byId);
      if k < |w.rows| then (World(w.rows, Some(Ids(w.rows[..k + 1])), IngestRows(w.clim, w.rows[..k], byId)), false)
      else (World(w.rows, Some(Ids(w.rows)), IngestRows(w.clim, w.rows, byId)), true)
  }

  datatype Step =
    | Call(decisions: seq<Decision>, now: int)
    | Raises(decisions: seq<Decision>, now: int, at: nat)    // the row of decisions[at] raises
    | FreshResolver(freshClimatology: bool)

  /** The new state, and whether the call went through. */
  ghost function Next(s: Series, w: World, step: Step): (World, bool)
    requires SeriesOk(s)
  {
    match step
    case FreshResolver(freshClimatology) => (World(w.rows, None, if freshClimatology then EMPTY else w.clim), true)
    case Call(decisions, now) =>
      var (v, ok) := Replay(w, ById(decisions));
      if !ok then (v, false)
      else
        var p := ResolveAll(s, v.seen.value, v.rows, v.clim, decisions, now);
        (World(p.rows, Some(v.seen.value + p.done), p.clim), true)
    case Raises(decisions, now, at) =>
      var (v, ok) := Replay(w, ById(decisions));
      if !ok then (v, false) else (Broken(s, v, decisions, now, at), false)
  }

  /** A call that raises has written its rows, and has not remembered them. */
  ghost function Broken(s: Series, v: World, decisions: seq<Decision>, now: int, at: nat): World
    requires SeriesOk(s) && v.seen.Some?
  {
    var p := ResolveAll(s, v.seen.value, v.rows, v.clim, if at < |decisions| then decisions[..at] else decisions, now);
    World(p.rows, v.seen, p.clim)
  }

  ghost function Run(s: Series, w: World, steps: seq<Step>): (World, bool)
    requires SeriesOk(s)
  {
    if steps == [] then (w, true)
    else
      var (v, ok) := Run(s, w, steps[..|steps| - 1]);
      if !ok then (v, false) else Next(s, v, steps[|steps| - 1])
  }

  /** The in-memory state is a function of the stream alone: what was seen is what is in
      it, and the climatology is what it amounts to, or nothing yet. */
  ghost predicate Inv(s: Series, catalog: Catalog, w: World)
    requires SeriesOk(s)
  {
    && StreamOk(s, catalog, w.rows)
    && (w.seen.Some? ==> w.seen.value == Ids(w.rows) && w.clim == ClimatologyOf(w.rows, catalog))
    && (w.seen.None? ==> w.clim == EMPTY || w.clim == ClimatologyOf(w.rows, catalog))
  }

  lemma {:induction false} ByIdInCatalog(decisions: seq<Decision>, catalog: Catalog)
    requires FromCatalog(decisions, catalog)
    ensures forall id :: id in ById(decisions) ==> id in catalog && ById(decisions)[id] == catalog[id]
  {
    if decisions != [] {
      ByIdInCatalog(decisions[..|decisions| - 1], catalog);
    }
  }

  lemma {:induction false} NoneUnknown(rows: seq<Row>, byId: Catalog)
    ensures FirstUnknown(rows, byId) == |rows| <==> forall i :: 0 <= i < |rows| && rows[i].Scored? ==> rows[i].id in byId
  {
    if rows != [] {
      var n := |rows| - 1;
      NoneUnknown(rows[..n], byId);
      assert forall i :: 0 <= i < n ==> rows[..n][i] == rows[i];
    }
  }

  lemma {:induction false} SameIngest(c: Climatology, rows: seq<Row>, byId: Catalog, catalog: Catalog)
    requires forall id :: id in byId ==> id in catalog && byId[id] == catalog[id]
    requires forall i :: 0 <= i < |rows| && rows[i].Scored? ==> rows[i].id in byId
    ensures IngestRows(c, rows, byId) == IngestRows(c, rows, catalog)
  {
    if rows != [] {
      SameIngest(c, rows[..|rows| - 1], byId, catalog);
    }
  }

  lemma ReplayKeepsInv(s: Series, catalog: Catalog, w: World, decisions: seq<Decision>)
    requires SeriesOk(s) && Inv(s, catalog, w) && FromCatalog(decisions, catalog)
    requires Replay(w, ById(decisions)).1
    ensures var v := Replay(w, ById(decisions)).0; Inv(s, catalog, v) && v.seen.Some? && v.rows == w.rows
  {
    if w.seen.None? {
      var byId := ById(decisions);
      ByIdInCatalog(decisions, catalog);
      NoneUnknown(w.rows, byId);
      SameIngest(w.clim, w.rows, byId, catalog);
      if w.clim != EMPTY {
        IngestedIds(EMPTY, w.rows, catalog);
        ReplayIsIdempotent(w.clim, w.rows, catalog);
      }
    }
  }

  lemma StepKeepsInv(s: Series, catalog: Catalog, w: World, step: Step)
    requires SeriesOk(s) && Inv(s, catalog, w) && Next(s, w, step).1
    requires step.Call? ==> FromCatalog(step.decisions, catalog)
    ensures Inv(s, catalog, Next(s, w, step).0)
    ensures step.Call? ==> Next(s, w, step).0.clim == ClimatologyOf(Next(s, w, step).0.rows, catalog)
  {
    if step.Call? {
      ReplayKeepsInv(s, catalog, w, step.decisions);
      CallKeepsOk(s, catalog, w.rows, step.decisions, step.now);
    }
  }

  ghost predicate Catalogued(steps: seq<Step>, catalog: Catalog) {
    forall i :: 0 <= i < |steps| && steps[i].Call? ==> FromCatalog(steps[i].decisions, catalog)
  }

  /** Over any run of calls and fresh resolvers, at whatever instants: every forecast has
      at most one terminal row, each row is its decision's settled verdict, and the
      memory is what the stream amounts to, restarts or none. */
  lemma {:induction false} RunKeepsInv(s: Series, catalog: Catalog, w: World, steps: seq<Step>)
    requires SeriesOk(s) && Inv(s, catalog, w) && Catalogued(steps, catalog) && Run(s, w, steps).1
    ensures Inv(s, catalog, Run(s, w, steps).0)
  {
    if steps != [] {
      var n := |steps| - 1;
      RunKeepsInv(s, catalog, w, steps[..n]);
      StepKeepsInv(s, catalog, Run(s, w, steps[..n]).0, steps[n]);
    }
  }

  /** The schedule does not matter: two runs over the same bars and decisions never
      disagree about a forecast they both resolved. */
  lemma ScheduleDoesNotMatter(s: Series, catalog: Catalog, a: World, steps: seq<Step>, b: World, others: seq<Step>,
                              i: nat, j: nat)
    requires SeriesOk(s) && Inv(s, catalog, a) && Inv(s, catalog, b)
    requires Catalogued(steps, catalog) && Catalogued(others, catalog) && Run(s, a, steps).1 && Run(s, b, others).1
    requires i < |Run(s, a, steps).0.rows| && j < |Run(s, b, others).0.rows|
    requires Run(s, a, steps).0.rows[i].id == Run(s, b, others).0.rows[j].id
    ensures Run(s, a, steps).0.rows[i] == Run(s, b, others).0.rows[j]
  {
    RunKeepsInv(s, catalog, a, steps);
    RunKeepsInv(s, catalog, b, others);
    SettledUnique(s, catalog, Run(s, a, steps).0.rows[i], Run(s, b, others).0.rows[j]);
  }

  lemma SettledUnique(s: Series, catalog: Catalog, x: Row, y: Row)
    requires SeriesOk(s) && Settled(s, catalog, x) && Settled(s, catalog, y) && x.id == y.id
    ensures x == y
  {
    var d := catalog[x.id];
    var now :| d.resolveEnd <= now && Verdict(s, d, now) == Some(x);
    var other :| d.resolveEnd <= other && Verdict(s, d, other) == Some(y);
    VerdictUnique(s, d, now, other);
  }

  /** And nothing due is left behind: after a call that goes through, a forecast among
      its decisions has a row if and only if it had one or its verdict could be reached. */
  lemma CallResolvesAllItCan(s: Series, catalog: Catalog, w: World, decisions: seq<Decision>, now: int, d: Decision)
    requires SeriesOk(s) && Inv(s, catalog, w) && FromCatalog(decisions, catalog) && Next(s, w, Call(decisions, now)).1
    requires d in decisions && d.forecastOnly
    ensures d.id in Ids(Next(s, w, Call(decisions, now)).0.rows) <==>
              d.id in Ids(w.rows) || (d.resolveEnd <= now && Verdict(s, d, now).Some?)
  {
    ReplayKeepsInv(s, catalog, w, decisions);
    CallAdds(s, Ids(w.rows), w.rows, Replay(w, ById(decisions)).0.clim, decisions, now);
    ResolvedIdsMeaning(s, Ids(w.rows), decisions, now);
    if e :| e in decisions && e.id == d.id && Resolves(s, Ids(w.rows), e, now) {
      assert e == d;
    }
  }

  /** What a call that raised leaves behind is not safe to call again: the ids not yet
      replayed count as unseen. The next call keeps one row per forecast exactly when
      it can resolve none of them. */
  lemma AfterAFailureOnceIff(s: Series, w: World, first: seq<Decision>, second: seq<Decision>, now: int)
    requires SeriesOk(s) && OncePerForecast(w.rows) && w.seen.None? && !Replay(w, ById(first)).1
    ensures var v := Replay(w, ById(first)).0;
            && v.seen.Some?
            && (OncePerForecast(ResolveAll(s, v.seen.value, v.rows, v.clim, second, now).rows) <==>
                  forall d :: d in second && Resolves(s, v.seen.value, d, now) ==> d.id !in Ids(w.rows))
  {
    var v := Replay(w, ById(first)).0;
    CallAdds(s, v.seen.value, v.rows, v.clim, second, now);
    ResolvedIdsMeaning(s, v.seen.value, second, now);
  }

  /** Such a history: the first call lacks the decision of a scored forecast and raises
      before it has replayed the row of the other, which the second call writes again. */
  lemma AFailureRepeats()
    ensures var s := Series([], []);
            var a := Decision(true, "a", Key("X", 1), "60m", 0, 0, 0.0, 0.5);
            var w := World([Scored("b", 1, 0.25), Unresolved("a", NoMidBarT0(OutOfSeries))], None, EMPTY);
            var (v, ok) := Replay(w, ById([a]));
            && SeriesOk(s) && OncePerForecast(w.rows) && !ok && v.seen == Some({"b"})
            && !OncePerForecast(ResolveAll(s, {"b"}, v.rows, v.clim, [a], 0).rows)
  {
    var s := Series([], []);
    assert SeriesOk(s);
    var a := Decision(true, "a", Key("X", 1), "60m", 0, 0, 0.0, 0.5);
    var rows := [Scored("b", 1, 0.25), Unresolved("a", NoMidBarT0(OutOfSeries))];
    var w := World(rows, None, EMPTY);
    assert ById([a]) == map["a" := a] by { assert ById([]) == map[]; }
    assert rows[..1] == [Scored("b", 1, 0.25)];
    assert FirstUnknown(rows[..1], ById([a])) == 0 by { assert FirstUnknown([], ById([a])) == 0; }
    assert FirstUnknown(rows, ById([a])) == 0;
    assert Ids(rows[..1]) == {"b"} by { assert Ids([]) == {}; }
    assert Ids(rows) == {"b", "a"};
    assert Resolves(s, {"b"}, a, 0);
    CallAdds(s, {"b"}, rows, EMPTY, [a], 0);
    ResolvedIdsMeaning(s, {"b"}, [a], 0);
    assert a in [a];
    CallAdds(s, {"b"}, rows, Replay(w, ById([a])).0.clim, [a], 0);
  }

  /** A call that raises at some decision after it has written rows for others: the next
      call keeps one row per forecast exactly when none of those is among its decisions. */
  lemma AfterABreakOnceIff(s: Series, catalog: Catalog, w: World, first: seq<Decision>, now: int, at: nat,
                           second: seq<Decision>, later: int)
    requires SeriesOk(s) && Inv(s, catalog, w) && Replay(w, ById(first)).1 && now <= later && at < |first|
    requires FromCatalog(first, catalog) && FromCatalog(second, catalog)
    ensures Replay(w, ById(first)).0.seen.Some?
    ensures var v := Next(s, w, Raises(first, now, at)).0;
            && OncePerForecast(v.rows) && w.rows <= v.rows
            && (OncePerForecast(ResolveAll(s, v.seen.value, v.rows, v.clim, second, later).rows) <==>
                  forall d :: d in second && d.forecastOnly && d.id in Ids(v.rows) ==> d.id in Ids(w.rows))
  {
    ReplayKeepsInv(s, catalog, w, first);
    var u := Replay(w, ById(first)).0;
    var seen, done := u.seen.value, first[..at];
    var v := Broken(s, u, first, now, at);
    CallAdds(s, seen, w.rows, u.clim, done, now);
    CallKeepsOk(s, catalog, w.rows, done, now);
    TallyBalances(s, seen, w.rows, u.clim, done, now);
    CallAdds(s, seen, v.rows, v.clim, second, later);
    ResolvedIdsMeaning(s, seen, done, now);
    ResolvedIdsMeaning(s, seen, second, later);
    forall d | d in second && d.forecastOnly && d.id in Ids(v.rows) && d.id !in seen
      ensures Resolves(s, seen, d, later)
    {
      var e :| e in done && e.id == d.id && Resolves(s, seen, e, now);
      assert e in first && e == d;
      VerdictSettles(s, d, now, later);
    }
  }

  /** Such a history: a forecast is resolved, the next decision raises, and the same call
      tried again writes the first row a second time. */
  lemma ABreakRepeats(b: Decision)
    ensures var s := Series([], []);
            var a := Decision(true, "a", Key("X", 1), "60m", 0, 0, 0.0, 0.5);
            var v := Broken(s, World([], Some({}), EMPTY), [a, b], 0, 1);
            && SeriesOk(s) && v.rows == [Unresolved("a", NoMidBarT0(OutOfSeries))]
            && ResolveAll(s, v.seen.value, v.rows, v.clim, [a], 0).rows == v.rows + v.rows
  {
    var s := Series([], []);
    assert SeriesOk(s);
    var a := Decision(true, "a", Key("X", 1), "60m", 0, 0, 0.0, 0.5);
    assert [a, b][..1] == [a];
    OneForecast(s, a, [], 0);
    var row := Unresolved("a", NoMidBarT0(OutOfSeries));
    assert [] + [row] == [row];
    OneForecast(s, a, [row], 0);
  }

  lemma OneForecast(s: Series, d: Decision, rows: seq<Row>, now: int)
    requires SeriesOk(s) && Resolves(s, {}, d, now) && Verdict(s, d, now).value.Unresolved?
    ensures var p := ResolveAll(s, {}, rows, EMPTY, [d], now);
            p.rows == rows + [Verdict(s, d, now).value] && p.clim == EMPTY
  {
    assert [d][..0] == [];
    OneShape(s, {}, ResolveAll(s, {}, rows, EMPTY, [], now), d, now);
  }

  // ------------------------------------------------------ runs in which calls raise

  /** A step and the bars it reads: a later resolver may have other ones. */
  datatype Job = Job(bars: Series, step: Step)

  ghost predicate AllReadable(jobs: seq<Job>) { forall i :: 0 <= i < |jobs| ==> SeriesOk(jobs[i].bars) }

  /** The run goes on after a call that raised. */
  ghost function Onward(w: World, jobs: seq<Job>): World
    requires AllReadable(jobs)
  {
    if jobs == [] then w
    else Next(jobs[|jobs| - 1].bars, Onward(w, jobs[..|jobs| - 1]), jobs[|jobs| - 1].step).0
  }

  /** The decisions a step gets to. */
  function Reached(step: Step): seq<Decision> {
    match step
    case FreshResolver(_) => []
    case Call(decisions, _) => decisions
    case Raises(decisions, _, at) => if at < |decisions| then decisions[..at] else decisions
  }

  /** It resolves a forecast that has a row already but is not remembered. */
  ghost predicate Rewrites(w: World, job: Job)
    requires SeriesOk(job.bars)
  {
    && !job.step.FreshResolver?
    && var (v, ok) := Replay(w, ById(job.step.decisions));
       ok && v.seen.Some?
       && exists d :: d in Reached(job.step) && Resolves(job.bars, v.seen.value, d, job.step.now) && d.id in Ids(w.rows)
  }

  /** One step keeps one row per forecast exactly if it rewrites none. */
  lemma StepOnceIff(w: World, job: Job)
    requires SeriesOk(job.bars) && OncePerForecast(w.rows)
    ensures OncePerForecast(Next(job.bars, w, job.step).0.rows) <==> !Rewrites(w, job)
  {
    if !job.step.FreshResolver? {
      var (v, ok) := Replay(w, ById(job.step.decisions));
      if ok {
        CallAdds(job.bars, v.seen.value, v.rows, v.clim, Reached(job.step), job.step.now);
        ResolvedIdsMeaning(job.bars, v.seen.value, Reached(job.step), job.step.now);
      }
    }
  }

  /** Rows are only ever added. */
  lemma StepExtends(w: World, job: Job)
    requires SeriesOk(job.bars)
    ensures w.rows <= Next(job.bars, w, job.step).0.rows
  {
    if !job.step.FreshResolver? {
      var (v, ok) := Replay(w, ById(job.step.decisions));
      if ok {
        TallyBalances(job.bars, v.seen.value, v.rows, v.clim, Reached(job.step), job.step.now);
      }
    }
  }

  ghost predicate NeverRewrites(w: World, jobs: seq<Job>)
    requires AllReadable(jobs)
  {
    jobs == []
    || (var n := |jobs| - 1;
        NeverRewrites(w, jobs[..n]) && !Rewrites(Onward(w, jobs[..n]), jobs[n]))
  }

  /** Any run at all, over whatever bars, with calls that raise while they replay or at
      a decision: one row per forecast exactly if no step resolves a forecast that has a
      row and is not remembered. */
  lemma {:induction false} RunOnceIff(w: World, jobs: seq<Job>)
    requires AllReadable(jobs) && OncePerForecast(w.rows)
    ensures OncePerForecast(Onward(w, jobs).rows) <==> NeverRewrites(w, jobs)
    decreases jobs
  {
    if jobs != [] {
      var n := |jobs| - 1;
      RunOnceIff(w, jobs[..n]);
      var before := Onward(w, jobs[..n]);
      if OncePerForecast(before.rows) {
        StepOnceIff(before, jobs[n]);
      } else {
        StepExtends(before, jobs[n]);
        RepeatsStay(before.rows, Onward(w, jobs).rows);
      }
    }
  }

  lemma RepeatsStay(rows: seq<Row>, more: seq<Row>)
    requires rows <= more && !OncePerForecast(rows)
    ensures !OncePerForecast(more)
  {
    var i, j :| 0 <= i < j < |rows| && rows[i].id == rows[j].id;
    assert more[i].id == more[j].id;
  }

  /** The resolver has not replayed yet, or knows every row. */
  ghost predicate Remembers(w: World) { w.seen.Some? ==> w.seen.value == Ids(w.rows) }

  /** Only what a raising call left behind is ever forgotten, and a fresh resolver
      remembers it again: a step after which that is so rewrites nothing. */
  lemma ForgetsOnlyByRaising(w: World, job: Job)
    requires SeriesOk(job.bars) && Remembers(w) && OncePerForecast(w.rows)
    ensures !Rewrites(w, job)
    ensures Next(job.bars, w, job.step).1 || job.step.FreshResolver? ==> Remembers(Next(job.bars, w, job.step).0)
  {
    if !job.step.FreshResolver? {
      var (v, ok) := Replay(w, ById(job.step.decisions));
      if ok {
        CallAdds(job.bars, v.seen.value, v.rows, v.clim, Reached(job.step), job.step.now);
      }
    }
  }

  /** The run went on only after calls that had gone through, or with a fresh resolver. */
  ghost predicate FreshAfterRaise(w: World, jobs: seq<Job>)
    requires AllReadable(jobs)
  {
    jobs == []
    || (var n := |jobs| - 1;
        && FreshAfterRaise(w, jobs[..n])
        && (n > 0 && !Next(jobs[n - 1].bars, Onward(w, jobs[..n - 1]), jobs[n - 1].step).1 ==> jobs[n].step.FreshResolver?))
  }

  /** So it is enough to throw a resolver away when a call of it has raised. */
  lemma {:induction false} FreshAfterRaiseOnce(w: World, jobs: seq<Job>)
    requires AllReadable(jobs) && OncePerForecast(w.rows) && Remembers(w) && FreshAfterRaise(w, jobs)
    ensures NeverRewrites(w, jobs) && OncePerForecast(Onward(w, jobs).rows)
    ensures jobs != [] && Next(jobs[|jobs| - 1].bars, Onward(w, jobs[..|jobs| - 1]), jobs[|jobs| - 1].step).1
            ==> Remembers(Onward(w, jobs))
    decreases jobs
  {
    if jobs != [] {
      var n := |jobs| - 1;
      FreshAfterRaiseOnce(w, jobs[..n]);
      var before := Onward(w, jobs[..n]);
      if jobs[n].step.FreshResolver? {
        assert !Rewrites(before, jobs[n]);
      } else {
        if n > 0 {
          assert jobs[..n][..n - 1] == jobs[..n - 1];
        }
        assert Remembers(before);
        ForgetsOnlyByRaising(before, jobs[n]);
      }
      RunOnceIff(w, jobs);
    }
  }
}
