/**
 What a resolve scores, read off the labels (calibration.ForecastResolver): when a verdict
 is out and what it says, what each cell of the climatology holds, what the tally counts,
 and when a call goes through.
 */
module ForecastVerdicts {
  import opened Wrappers
  import opened BarSeries
  import opened BarLookups
  import opened Resolver

  // ------------------------------------------------------------------- the verdict

  /** The event is a rise by at least the fraction k; the score is the squared distance of
      the probability from what came. */
  ghost predicate Scores(d: Decision, t0: real, th: real, outcome: int, brier: real) {
    if th - t0 >= d.k * t0 then outcome == 1 && brier == (1.0 - d.p) * (1.0 - d.p)
    else outcome == 0 && brier == d.p * d.p
  }

  /** The row that two labels amount to: the first must be there, then the second, both
      of one source. */
  ghost predicate Says(d: Decision, t0: Lookup, th: Lookup, row: Row) {
    row.id == d.id
    && match row
       case Unresolved(_, NoMidBarT0(reason)) => t0 == Absent(reason)
       case Unresolved(_, NoMidBarResolve(reason)) => t0.Present? && th == Absent(reason)
       case Unresolved(_, LabelSourceMismatch) =>
         t0.Present? && th.Present? && t0.bar.Bar? && th.bar.Bar? && t0.bar.source != th.bar.source
       case Scored(_, outcome, brier) =>
         && t0.Present? && th.Present? && t0.bar.Bar? && th.bar.Bar? && t0.bar.source == th.bar.source
         && Scores(d, t0.bar.mid, th.bar.mid, outcome, brier)
  }

  lemma ScoresIff(d: Decision, t0: real, th: real, outcome: int, brier: real)
    ensures Scores(d, t0, th, outcome, brier) <==>
              && outcome == OutcomeOf(t0, th, d.k)
              && brier == (d.p - outcome as real) * (d.p - outcome as real)
  {
    assert t0 * (1.0 + d.k) == t0 + d.k * t0;
    assert (d.p - 1.0) * (d.p - 1.0) == (1.0 - d.p) * (1.0 - d.p);
  }

  lemma RowIff(d: Decision, t0: Lookup, th: Lookup, row: Row)
    requires (t0.Present? ==> t0.bar.Bar?) && (th.Present? ==> th.bar.Bar?)
    ensures RowFor(d, t0, th) == row <==> Says(d, t0, th, row)
  {
    if row.Scored? && t0.Present? && th.Present? {
      ScoresIff(d, t0.bar.mid, th.bar.mid, row.outcome, row.brier);
    }
  }

  /** The verdict on a forecast is out once neither of its labels is still to be received,
      and is what they say. */
  lemma VerdictIff(s: Series, d: Decision, now: int, t0: Lookup, th: Lookup, row: Row)
    requires SeriesOk(s)
    requires Answers(s.bars, s.missing, d.key, d.t0End, Some(now), t0)
    requires Answers(s.bars, s.missing, d.key, d.resolveEnd, Some(now), th)
    ensures Verdict(s, d, now) == Some(row) <==>
              t0 != Absent(FutureReceipt) && th != Absent(FutureReceipt) && Says(d, t0, th, row)
  {
    GetIff(s.bars, s.missing, d.key, d.t0End, Some(now), t0);
    GetIff(s.bars, s.missing, d.key, d.resolveEnd, Some(now), th);
    LabelIsBar(s, d, d.t0End, now);
    LabelIsBar(s, d, d.resolveEnd, now);
    RowIff(d, t0, th, row);
  }

  // --------------------------------------------------------------- the climatology

  ghost predicate Counts(row: Row, catalog: Catalog, cell: (string, string)) {
    row.Scored? && row.id in catalog && catalog[row.id].key.symbol == cell.0 && catalog[row.id].horizon == cell.1
  }

  ghost function OutcomesIn(rows: seq<Row>, catalog: Catalog, cell: (string, string)): seq<int> {
    if rows == [] then []
    else
      var last := rows[|rows| - 1];
      OutcomesIn(rows[..|rows| - 1], catalog, cell) + (if Counts(last, catalog, cell) then [last.outcome] else [])
  }

  /** With one row per forecast each cell of symbol and horizon holds the outcomes of the
      scored forecasts there, in stream order. */
  lemma {:induction false} CellsMean(rows: seq<Row>, catalog: Catalog, cell: (string, string))
    requires OncePerForecast(rows)
    ensures var c := ClimatologyOf(rows, catalog);
            && (cell in c.cells <==> OutcomesIn(rows, catalog, cell) != [])
            && (cell in c.cells ==> c.cells[cell] == OutcomesIn(rows, catalog, cell))
  {
    if rows != [] {
      var n := |rows| - 1;
      CellsMean(rows[..n], catalog, cell);
      IngestedIds(EMPTY, rows[..n], catalog);
      IdsMeaning(rows[..n], rows[n].id);
      assert rows[n].id !in ClimatologyOf(rows[..n], catalog).seen;
    }
  }

  // --------------------------------------------------------------------- the tally

  datatype Fate = NotAForecast | Already | NotDue | Waits | GetsScore | GetsReason

  ghost function FateOf(s: Series, seen: set<string>, earlier: seq<Decision>, d: Decision, now: int): Fate
    requires SeriesOk(s)
  {
    if !d.forecastOnly then NotAForecast
    else if d.id in seen || (exists e :: e in earlier && e.id == d.id && Resolves(s, seen, e, now)) then Already
    else if d.resolveEnd > now then NotDue
    else match Verdict(s, d, now)
         case None => Waits
         case Some(Scored(_, _, _)) => GetsScore
         case Some(Unresolved(_, _)) => GetsReason
  }

  /** How many of the decisions meet that fate. */
  ghost function HowMany(s: Series, seen: set<string>, decisions: seq<Decision>, now: int, fate: Fate): nat
    requires SeriesOk(s)
  {
    if decisions == [] then 0
    else
      var front, last := decisions[..|decisions| - 1], decisions[|decisions| - 1];
      HowMany(s, seen, front, now, fate) + (if FateOf(s, seen, front, last, now) == fate then 1 else 0)
  }

  lemma OneFate(s: Series, seen: set<string>, earlier: seq<Decision>, p: Progress, d: Decision, now: int)
    requires SeriesOk(s) && p.done == ResolvedIds(s, seen, earlier, now)
    ensures var t, was, fate := ResolveOne(s, seen, p, d, now).tally, p.tally, FateOf(s, seen, earlier, d, now);
            && t.considered == was.considered + (if fate == NotAForecast then 0 else 1)
            && t.skipped == was.skipped + (if fate == Already then 1 else 0)
            && t.deferred == was.deferred + (if fate == Waits then 1 else 0)
            && t.scored == was.scored + (if fate == GetsScore then 1 else 0)
            && t.unresolved == was.unresolved + (if fate == GetsReason then 1 else 0)
            && t.due == was.due + (if fate == Waits || fate == GetsScore || fate == GetsReason then 1 else 0)
  {
    ResolvedIdsMeaning(s, seen, earlier, now);
    assert d.id in p.done <==> exists e :: e in earlier && e.id == d.id && Resolves(s, seen, e, now);
  }

  /** The tally of a call counts its decisions by what becomes of them. */
  lemma {:induction false} TallyCounts(s: Series, seen: set<string>, rows: seq<Row>, clim: Climatology,
                                       decisions: seq<Decision>, now: int)
    requires SeriesOk(s)
    ensures var p := ResolveAll(s, seen, rows, clim, decisions, now);
            && p.done == ResolvedIds(s, seen, decisions, now)
            && p.tally.considered == |decisions| - HowMany(s, seen, decisions, now, NotAForecast)
            && p.tally.skipped == HowMany(s, seen, decisions, now, Already)
            && p.tally.deferred == HowMany(s, seen, decisions, now, Waits)
            && p.tally.scored == HowMany(s, seen, decisions, now, GetsScore)
            && p.tally.unresolved == HowMany(s, seen, decisions, now, GetsReason)
            && p.tally.due == p.tally.deferred + p.tally.scored + p.tally.unresolved
  {
    if decisions != [] {
      var front, d := decisions[..|decisions| - 1], decisions[|decisions| - 1];
      TallyCounts(s, seen, rows, clim, front, now);
      var p := ResolveAll(s, seen, rows, clim, front, now);
      OneFate(s, seen, front, p, d, now);
      OneShape(s, seen, p, d, now);
    }
  }

  // ---------------------------------------------------------- when a call goes through

  /** A scored row without its decision. */
  ghost predicate Orphan(rows: seq<Row>, byId: Catalog, k: int) {
    0 <= k < |rows| && rows[k].Scored? && rows[k].id !in byId
  }

  /** Where a replay stops: at the first of them. */
  lemma {:induction false} FirstUnknownIs(rows: seq<Row>, byId: Catalog)
    ensures var k := FirstUnknown(rows, byId);
            (forall i :: 0 <= i < k ==> !Orphan(rows, byId, i)) && (k < |rows| ==> Orphan(rows, byId, k))
  {
    if rows != [] {
      var n := |rows| - 1;
      FirstUnknownIs(rows[..n], byId);
      assert forall i :: 0 <= i < n ==> (Orphan(rows[..n], byId, i) <==> Orphan(rows, byId, i));
    }
  }

  ghost predicate NoOrphans(rows: seq<Row>, byId: Catalog) {
    forall i :: 0 <= i < |rows| && rows[i].Scored? ==> rows[i].id in byId
  }

  lemma NoOrphansIff(rows: seq<Row>, byId: Catalog)
    ensures FirstUnknown(rows, byId) == |rows| <==> NoOrphans(rows, byId)
  {
    NoneUnknown(rows, byId);
  }

  /** A call goes through unless a decision raises or the resolver, replaying the stream
      for the first time, meets a scored row whose decision it was not given; a fresh
      resolver forgets the stream, and the climatology if that is fresh too. */
  lemma GoesThroughIff(s: Series, w: World, step: Step)
    requires SeriesOk(s)
    ensures Next(s, w, step).1 <==>
              match step
              case FreshResolver(_) => true
              case Raises(_, _, _) => false
              case Call(decisions, _) => w.seen.Some? || NoOrphans(w.rows, ById(decisions))
    ensures step.FreshResolver? ==>
              && Next(s, w, step).0.rows == w.rows && Next(s, w, step).0.seen == None
              && Next(s, w, step).0.clim == if step.freshClimatology then Climatology(map[], {}) else w.clim
  {
    if step.Call? {
      var byId := ById(step.decisions);
      NoOrphansIff(w.rows, byId);
      var (v, ok) := Replay(w, byId);
      assert ok <==> w.seen.Some? || NoOrphans(w.rows, byId);
    }
  }

  ghost predicate AllGoThrough(s: Series, w: World, steps: seq<Step>)
    requires SeriesOk(s)
  {
    steps == []
    || (var n := |steps| - 1;
        AllGoThrough(s, w, steps[..n]) && Next(s, Run(s, w, steps[..n]).0, steps[n]).1)
  }

  /** And a run as far as each of its calls does. */
  lemma {:induction false} RunGoesThroughIff(s: Series, w: World, steps: seq<Step>)
    requires SeriesOk(s)
    ensures Run(s, w, steps).1 <==> AllGoThrough(s, w, steps)
    decreases steps
  {
    if steps != [] {
      RunGoesThroughIff(s, w, steps[..|steps| - 1]);
    }
  }

  /** A failed replay has remembered the rows up to and with the one it failed on, and
      nothing past it; a whole one all of them. */
  lemma ReplayedIs(w: World, byId: Catalog, id: string)
    requires w.seen.None?
    ensures var v := Replay(w, byId).0;
            && v.rows == w.rows && v.seen.Some?
            && (id in v.seen.value <==>
                  exists i :: 0 <= i < |w.rows| && w.rows[i].id == id && forall j :: 0 <= j < i ==> !Orphan(w.rows, byId, j))
  {
    var k := FirstUnknown(w.rows, byId);
    FirstUnknownIs(w.rows, byId);
    var upTo := if k < |w.rows| then w.rows[..k + 1] else w.rows;
    IdsMeaning(upTo, id);
    if HasRow(upTo, id) {
      var i :| 0 <= i < |upTo| && upTo[i].id == id;
      assert w.rows[i].id == id;
    }
    if i :| 0 <= i < |w.rows| && w.rows[i].id == id && forall j :: 0 <= j < i ==> !Orphan(w.rows, byId, j) {
      assert upTo[i].id == id;
    }
  }

  /** The decision a forecast is known by is the first of its id. */
  lemma {:induction false} ByIdIs(decisions: seq<Decision>, id: string, d: Decision)
    ensures id in ById(decisions) && ById(decisions)[id] == d <==>
              exists i :: 0 <= i < |decisions| && decisions[i] == d && FirstOf(decisions, i, id)
  {
    if decisions != [] {
      var n := |decisions| - 1;
      ByIdIs(decisions[..n], id, d);
      HasFirst(decisions[..n], id);
      assert forall i :: 0 <= i < n ==> (FirstOf(decisions, i, id) <==> FirstOf(decisions[..n], i, id));
    }
  }

  ghost predicate FirstOf(decisions: seq<Decision>, i: int, id: string) {
    0 <= i < |decisions| && decisions[i].id == id && forall j :: 0 <= j < i ==> decisions[j].id != id
  }

  lemma {:induction false} HasFirst(decisions: seq<Decision>, id: string)
    ensures id in ById(decisions) <==> exists i :: FirstOf(decisions, i, id)
    ensures id !in ById(decisions) ==> forall j :: 0 <= j < |decisions| ==> decisions[j].id != id
  {
    if decisions != [] {
      var n := |decisions| - 1;
      HasFirst(decisions[..n], id);
      assert forall i :: 0 <= i < n ==> (FirstOf(decisions, i, id) <==> FirstOf(decisions[..n], i, id));
      assert forall j :: 0 <= j < n ==> decisions[..n][j] == decisions[j];
      assert id !in ById(decisions[..n]) && decisions[n].id == id ==> FirstOf(decisions, n, id);
    }
  }
}
