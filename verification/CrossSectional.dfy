/**
 The decision loop of the cross-sectional back-test
 (backtest_historical.run_historical_cross_sectional_backtest): one open leg per
 symbol at a time, and every candidate accounted for. Instants are integers.
 */
module CrossSectional {
  import opened Wrappers

  /** What simulating a leg comes to. */
  datatype Fill = Filled(net: real) | NotFilled(reason: string)

  datatype Candidate = Candidate(symbol: string, fill: Fill)

  /** One decision on the timeline: too few valid symbols, a horizon past the close, or
      an entry and an exit that are the same for all its candidates. */
  datatype Decision = TooFewValid | PastTheClose | Acting(entry: int, exit: int, candidates: seq<Candidate>)

  datatype Trade = Trade(symbol: string, entry: int, exit: int, net: real)

  datatype Skip = Skip(symbol: string, reason: string)

  datatype Result = Result(
    trades: seq<Trade>, skips: seq<Skip>, candidateCount: nat, overlapSuppressed: nat, insufficient: nat, acted: nat,
    openUntil: map<string, int>, legCounts: map<string, nat>)

  const START: Result := Result([], [], 0, 0, 0, 0, map[], map[])

  function LegCount(r: Result, symbol: string): nat { if symbol in r.legCounts then r.legCounts[symbol] else 0 }

  /** Still open, or closing just then. */
  predicate Overlaps(r: Result, symbol: string, entry: int) { symbol in r.openUntil && entry <= r.openUntil[symbol] }

  function TakeLeg(r: Result, entry: int, exit: int, c: Candidate): Result {
    if Overlaps(r, c.symbol, entry) then r.(overlapSuppressed := r.overlapSuppressed + 1)
    else
      match c.fill
      case NotFilled(reason) => r.(skips := r.skips + [Skip(c.symbol, reason)])
      case Filled(net) =>
        r.(trades := r.trades + [Trade(c.symbol, entry, exit, net)],
           openUntil := r.openUntil[c.symbol := exit],
           legCounts := r.legCounts[c.symbol := LegCount(r, c.symbol) + 1])
  }

  function TakeLegs(r: Result, entry: int, exit: int, candidates: seq<Candidate>): Result {
    if candidates == [] then r
    else TakeLeg(TakeLegs(r, entry, exit, candidates[..|candidates| - 1]), entry, exit, candidates[|candidates| - 1])
  }

  function Decide(r: Result, d: Decision): Result {
    match d
    case TooFewValid => r.(insufficient := r.insufficient + 1)
    case PastTheClose => r
    case Acting(entry, exit, candidates) =>
      var s := TakeLegs(r, entry, exit, candidates);
      s.(candidateCount := r.candidateCount + |candidates|,
         acted := r.acted + if |s.trades| > |r.trades| then 1 else 0)
  }

  function Backtest(timeline: seq<Decision>): Result {
    if timeline == [] then START else Decide(Backtest(timeline[..|timeline| - 1]), timeline[|timeline| - 1])
  }

  // ------------------------------------------------------------- what it keeps

  function TradesOf(trades: seq<Trade>, symbol: string): nat {
    if trades == [] then 0
    else TradesOf(trades[..|trades| - 1], symbol) + (if trades[|trades| - 1].symbol == symbol then 1 else 0)
  }

  /** Each entry is strictly after every earlier exit of its symbol. */
  ghost predicate NoOverlap(trades: seq<Trade>) {
    forall i, j :: 0 <= i < j < |trades| && trades[i].symbol == trades[j].symbol ==> trades[i].exit < trades[j].entry
  }

  ghost predicate ExitOnRecord(trades: seq<Trade>, openUntil: map<string, int>, s: string) {
    s in openUntil && exists i :: 0 <= i < |trades| && trades[i].symbol == s && trades[i].exit == openUntil[s]
  }

  /** The latest exit of each symbol is on record. */
  ghost predicate LatestExits(trades: seq<Trade>, openUntil: map<string, int>) {
    && (forall i :: 0 <= i < |trades| ==>
          trades[i].symbol in openUntil && trades[i].exit <= openUntil[trades[i].symbol])
    && (forall s :: s in openUntil ==> ExitOnRecord(trades, openUntil, s))
  }

  ghost predicate Legs(trades: seq<Trade>, legCounts: map<string, nat>) {
    forall s :: (if s in legCounts then legCounts[s] else 0) == TradesOf(trades, s)
  }

  ghost predicate InOrder(trades: seq<Trade>, openUntil: map<string, int>, legCounts: map<string, nat>) {
    NoOverlap(trades) && LatestExits(trades, openUntil) && Legs(trades, legCounts)
  }

  ghost predicate Kept(r: Result) { InOrder(r.trades, r.openUntil, r.legCounts) }

  lemma LegsStep(trades: seq<Trade>, legCounts: map<string, nat>, t: Trade)
    requires Legs(trades, legCounts)
    ensures Legs(trades + [t], legCounts[t.symbol := (if t.symbol in legCounts then legCounts[t.symbol] else 0) + 1])
  {
    assert (trades + [t])[..|trades|] == trades;
  }

  lemma NoOverlapStep(trades: seq<Trade>, openUntil: map<string, int>, t: Trade)
    requires NoOverlap(trades) && LatestExits(trades, openUntil)
    requires t.symbol in openUntil ==> t.entry > openUntil[t.symbol]
    ensures NoOverlap(trades + [t])
  {
    assert forall i :: 0 <= i < |trades| && trades[i].symbol == t.symbol ==> trades[i].exit < t.entry;
  }

  lemma ExitsStep(trades: seq<Trade>, openUntil: map<string, int>, t: Trade)
    requires LatestExits(trades, openUntil) && t.entry <= t.exit
    requires t.symbol in openUntil ==> t.entry > openUntil[t.symbol]
    ensures LatestExits(trades + [t], openUntil[t.symbol := t.exit])
  {
    var more, until := trades + [t], openUntil[t.symbol := t.exit];
    forall s | s in until ensures ExitOnRecord(more, until, s) {
      if s == t.symbol {
        assert more[|trades|] == t;
      } else {
        assert ExitOnRecord(trades, openUntil, s);
        var i :| 0 <= i < |trades| && trades[i].symbol == s && trades[i].exit == openUntil[s];
        assert more[i] == trades[i];
      }
    }
  }

  lemma LegShape(r: Result, entry: int, exit: int, c: Candidate)
    ensures var s := TakeLeg(r, entry, exit, c);
            if !Overlaps(r, c.symbol, entry) && c.fill.Filled? then
              && s.trades == r.trades + [Trade(c.symbol, entry, exit, c.fill.net)]
              && s.openUntil == r.openUntil[c.symbol := exit]
              && s.legCounts == r.legCounts[c.symbol := (if c.symbol in r.legCounts then r.legCounts[c.symbol] else 0) + 1]
            else s.trades == r.trades && s.openUntil == r.openUntil && s.legCounts == r.legCounts
  {}

  lemma TradeKept(trades: seq<Trade>, openUntil: map<string, int>, legCounts: map<string, nat>, t: Trade)
    requires InOrder(trades, openUntil, legCounts) && t.entry <= t.exit
    requires t.symbol in openUntil ==> t.entry > openUntil[t.symbol]
    ensures InOrder(trades + [t], openUntil[t.symbol := t.exit],
                    legCounts[t.symbol := (if t.symbol in legCounts then legCounts[t.symbol] else 0) + 1])
  {
    NoOverlapStep(trades, openUntil, t);
    ExitsStep(trades, openUntil, t);
    LegsStep(trades, legCounts, t);
  }

  lemma LegKept(r: Result, entry: int, exit: int, c: Candidate)
    requires Kept(r) && entry <= exit
    ensures Kept(TakeLeg(r, entry, exit, c))
  {
    LegShape(r, entry, exit, c);
    if !Overlaps(r, c.symbol, entry) && c.fill.Filled? {
      TradeKept(r.trades, r.openUntil, r.legCounts, Trade(c.symbol, entry, exit, c.fill.net));
    }
  }

  lemma {:induction false} LegsKept(r: Result, entry: int, exit: int, candidates: seq<Candidate>)
    requires Kept(r) && entry <= exit
    ensures var s := TakeLegs(r, entry, exit, candidates);
            && Kept(s) && s.candidateCount == r.candidateCount && s.insufficient == r.insufficient && s.acted == r.acted
            && |s.trades| + |s.skips| + s.overlapSuppressed
               == |r.trades| + |r.skips| + r.overlapSuppressed + |candidates|
            && |r.trades| <= |s.trades|
  {
    if candidates != [] {
      var n := |candidates| - 1;
      LegsKept(r, entry, exit, candidates[..n]);
      LegKept(TakeLegs(r, entry, exit, candidates[..n]), entry, exit, candidates[n]);
    }
  }

  ghost predicate ExitsAfterEntries(timeline: seq<Decision>) {
    forall i :: 0 <= i < |timeline| && timeline[i].Acting? ==> timeline[i].entry <= timeline[i].exit
  }

  /** For any timeline whose exits are no earlier than its entries: two trades of one
      symbol never overlap, every candidate is a trade, a skip or a suppressed overlap,
      and each symbol's leg count is its number of trades. */
  lemma {:induction false} BacktestKept(timeline: seq<Decision>)
    requires ExitsAfterEntries(timeline)
    ensures var r := Backtest(timeline);
            && Kept(r) && r.candidateCount == |r.trades| + |r.skips| + r.overlapSuppressed
            && r.acted + r.insufficient <= |timeline|
  {
    if timeline != [] {
      var n := |timeline| - 1;
      BacktestKept(timeline[..n]);
      var r, d := Backtest(timeline[..n]), timeline[n];
      if d.Acting? {
        LegsKept(r, d.entry, d.exit, d.candidates);
        assert Kept(TakeLegs(r, d.entry, d.exit, d.candidates));
      }
    }
  }

  /** Nothing is suppressed without cause: exactly the legs that would enter before some
      trade of their symbol is over. */
  lemma SuppressedIff(r: Result, entry: int, exit: int, c: Candidate)
    requires Kept(r)
    ensures TakeLeg(r, entry, exit, c).overlapSuppressed == r.overlapSuppressed + 1
            <==> exists i :: 0 <= i < |r.trades| && r.trades[i].symbol == c.symbol && entry <= r.trades[i].exit
  {
    if Overlaps(r, c.symbol, entry) {
      assert ExitOnRecord(r.trades, r.openUntil, c.symbol);
      var i :| 0 <= i < |r.trades| && r.trades[i].symbol == c.symbol && r.trades[i].exit == r.openUntil[c.symbol];
    }
  }

  /** Some trade of the symbol is not over at the entry. */
  ghost predicate Blocked(trades: seq<Trade>, symbol: string, entry: int) {
    exists i :: 0 <= i < |trades| && trades[i].symbol == symbol && entry <= trades[i].exit
  }

  /** What becomes of a candidate: suppressed when blocked; else skipped with its reason,
      or a trade with the decision's own entry and exit. */
  lemma LegIff(r: Result, entry: int, exit: int, c: Candidate)
    requires Kept(r)
    ensures var s := TakeLeg(r, entry, exit, c);
            if Blocked(r.trades, c.symbol, entry) then
              s.trades == r.trades && s.skips == r.skips && s.overlapSuppressed == r.overlapSuppressed + 1
            else if c.fill.NotFilled? then
              && s.trades == r.trades && s.overlapSuppressed == r.overlapSuppressed
              && s.skips == r.skips + [Skip(c.symbol, c.fill.reason)]
            else
              && s.skips == r.skips && s.overlapSuppressed == r.overlapSuppressed
              && s.trades == r.trades + [Trade(c.symbol, entry, exit, c.fill.net)]
  {
    SuppressedIff(r, entry, exit, c);
  }

  /** The trade is the leg of some candidate of some decision, at its very instants. */
  ghost predicate LegOf(timeline: seq<Decision>, t: Trade, i: int) {
    && 0 <= i < |timeline| && timeline[i].Acting? && timeline[i].entry == t.entry && timeline[i].exit == t.exit
    && Candidate(t.symbol, Filled(t.net)) in timeline[i].candidates
  }

  ghost predicate SkipOf(timeline: seq<Decision>, k: Skip, i: int) {
    0 <= i < |timeline| && timeline[i].Acting? && Candidate(k.symbol, NotFilled(k.reason)) in timeline[i].candidates
  }

  ghost predicate HasLeg(timeline: seq<Decision>, t: Trade) { exists i :: LegOf(timeline, t, i) }

  ghost predicate HasSkip(timeline: seq<Decision>, k: Skip) { exists i :: SkipOf(timeline, k, i) }

  lemma FoundLater(timeline: seq<Decision>, d: Decision)
    ensures forall t :: HasLeg(timeline, t) || HasLeg([d], t) ==> HasLeg(timeline + [d], t)
    ensures forall k :: HasSkip(timeline, k) || HasSkip([d], k) ==> HasSkip(timeline + [d], k)
  {
    var n, more := |timeline|, timeline + [d];
    forall t | HasLeg(timeline, t) || HasLeg([d], t) ensures HasLeg(more, t) {
      if HasLeg(timeline, t) {
        var i :| LegOf(timeline, t, i);
        assert LegOf(more, t, i);
      } else {
        assert LegOf(more, t, n);
      }
    }
    forall k | HasSkip(timeline, k) || HasSkip([d], k) ensures HasSkip(more, k) {
      if HasSkip(timeline, k) {
        var i :| SkipOf(timeline, k, i);
        assert SkipOf(more, k, i);
      } else {
        assert SkipOf(more, k, n);
      }
    }
  }

  ghost predicate AllFound(timeline: seq<Decision>, r: Result) {
    && (forall k :: 0 <= k < |r.trades| ==> HasLeg(timeline, r.trades[k]))
    && (forall k :: 0 <= k < |r.skips| ==> HasSkip(timeline, r.skips[k]))
  }

  lemma {:induction false} LegsFound(r: Result, d: Decision, candidates: seq<Candidate>)
    requires d.Acting? && forall c :: c in candidates ==> c in d.candidates
    ensures var s := TakeLegs(r, d.entry, d.exit, candidates);
            && r.trades <= s.trades && r.skips <= s.skips
            && (forall k :: |r.trades| <= k < |s.trades| ==> HasLeg([d], s.trades[k]))
            && (forall k :: |r.skips| <= k < |s.skips| ==> HasSkip([d], s.skips[k]))
  {
    if candidates != [] {
      var n := |candidates| - 1;
      LegsFound(r, d, candidates[..n]);
      assert candidates[n] in candidates;
      OneFound(TakeLegs(r, d.entry, d.exit, candidates[..n]), d, candidates[n]);
    }
  }

  lemma OneFound(r: Result, d: Decision, c: Candidate)
    requires d.Acting? && c in d.candidates
    ensures var s := TakeLeg(r, d.entry, d.exit, c);
            && r.trades <= s.trades && r.skips <= s.skips
            && (forall k :: |r.trades| <= k < |s.trades| ==> HasLeg([d], s.trades[k]))
            && (forall k :: |r.skips| <= k < |s.skips| ==> HasSkip([d], s.skips[k]))
  {
    match c.fill
    case Filled(net) => assert LegOf([d], Trade(c.symbol, d.entry, d.exit, net), 0);
    case NotFilled(reason) => assert SkipOf([d], Skip(c.symbol, reason), 0);
  }

  /** Nothing is invented: every trade is a filled candidate of a decision, entered and
      left at that decision's instants, and every skip an unfilled one with its reason. */
  lemma {:induction false} NothingInvented(timeline: seq<Decision>)
    ensures AllFound(timeline, Backtest(timeline))
  {
    if timeline != [] {
      var n := |timeline| - 1;
      NothingInvented(timeline[..n]);
      var r, d := Backtest(timeline[..n]), timeline[n];
      assert timeline == timeline[..n] + [d];
      FoundLater(timeline[..n], d);
      if d.Acting? {
        LegsFound(r, d, d.candidates);
      }
    }
  }

  /** Nothing filled is lost: after a decision some trade of the symbol of each of its
      filled candidates lasts to the decision's entry or beyond, its own if no other. */
  lemma {:induction false} NothingLost(r: Result, entry: int, exit: int, candidates: seq<Candidate>, c: Candidate)
    requires Kept(r) && entry <= exit && c in candidates && c.fill.Filled?
    ensures Blocked(TakeLegs(r, entry, exit, candidates).trades, c.symbol, entry)
  {
    var n := |candidates| - 1;
    LegsKept(r, entry, exit, candidates[..n]);
    var before, after := TakeLegs(r, entry, exit, candidates[..n]), TakeLegs(r, entry, exit, candidates);
    LegIff(before, entry, exit, candidates[n]);
    if c == candidates[n] {
      if !Blocked(before.trades, c.symbol, entry) {
        assert after.trades[|before.trades|].symbol == c.symbol;
      }
    } else {
      assert candidates == candidates[..n] + [candidates[n]];
      NothingLost(r, entry, exit, candidates[..n], c);
      var i :| 0 <= i < |before.trades| && before.trades[i].symbol == c.symbol && entry <= before.trades[i].exit;
      assert after.trades[i] == before.trades[i];
    }
  }

  // ----------------------------------------------------------------- the counters

  function Short(timeline: seq<Decision>): nat {
    if timeline == [] then 0
    else Short(timeline[..|timeline| - 1]) + (if timeline[|timeline| - 1].TooFewValid? then 1 else 0)
  }

  function Offered(timeline: seq<Decision>): nat {
    if timeline == [] then 0
    else
      var d := timeline[|timeline| - 1];
      Offered(timeline[..|timeline| - 1]) + (if d.Acting? then |d.candidates| else 0)
  }

  /** The decisions that opened a trade. */
  ghost function Opening(timeline: seq<Decision>): nat {
    if timeline == [] then 0
    else
      var front := timeline[..|timeline| - 1];
      Opening(front) + (if Backtest(front).trades == Backtest(timeline).trades then 0 else 1)
  }

  /** The counters count what they are named for. */
  lemma {:induction false} CountersMean(timeline: seq<Decision>)
    requires ExitsAfterEntries(timeline)
    ensures var r := Backtest(timeline);
            r.insufficient == Short(timeline) && r.candidateCount == Offered(timeline) && r.acted == Opening(timeline)
  {
    if timeline != [] {
      var n := |timeline| - 1;
      CountersMean(timeline[..n]);
      BacktestKept(timeline[..n]);
      var r, d := Backtest(timeline[..n]), timeline[n];
      if d.Acting? {
        LegsKept(r, d.entry, d.exit, d.candidates);
        LegsFound(r, d, d.candidates);
      }
    }
  }

  // ------------------------------------------------------------ the leg counts

  function SumLegs(r: Result, symbols: seq<string>): nat {
    if symbols == [] then 0 else SumLegs(r, symbols[..|symbols| - 1]) + LegCount(r, symbols[|symbols| - 1])
  }

  ghost predicate NoDuplicates(symbols: seq<string>) {
    forall i, j :: 0 <= i < j < |symbols| ==> symbols[i] != symbols[j]
  }

  /** Trades of any of these symbols. */
  function TradesAmong(trades: seq<Trade>, symbols: seq<string>): nat {
    if trades == [] then 0
    else TradesAmong(trades[..|trades| - 1], symbols) + (if trades[|trades| - 1].symbol in symbols then 1 else 0)
  }

  lemma {:induction false} OneSymbolMore(trades: seq<Trade>, symbols: seq<string>, s: string)
    requires s !in symbols
    ensures TradesAmong(trades, symbols + [s]) == TradesAmong(trades, symbols) + TradesOf(trades, s)
  {
    if trades != [] {
      OneSymbolMore(trades[..|trades| - 1], symbols, s);
    }
  }

  lemma {:induction false} NoSymbols(trades: seq<Trade>)
    ensures TradesAmong(trades, []) == 0
  {
    if trades != [] {
      NoSymbols(trades[..|trades| - 1]);
    }
  }

  lemma {:induction false} LegsAmong(r: Result, symbols: seq<string>)
    requires Legs(r.trades, r.legCounts) && NoDuplicates(symbols)
    ensures SumLegs(r, symbols) == TradesAmong(r.trades, symbols)
  {
    if symbols == [] {
      NoSymbols(r.trades);
    } else {
      var front, s := symbols[..|symbols| - 1], symbols[|symbols| - 1];
      LegsAmong(r, front);
      assert symbols == front + [s];
      OneSymbolMore(r.trades, front, s);
      assert LegCount(r, s) == TradesOf(r.trades, s);
    }
  }

  lemma {:induction false} AllAmong(trades: seq<Trade>, symbols: seq<string>)
    requires forall i :: 0 <= i < |trades| ==> trades[i].symbol in symbols
    ensures TradesAmong(trades, symbols) == |trades|
  {
    if trades != [] {
      AllAmong(trades[..|trades| - 1], symbols);
    }
  }

  /** Over the symbols of the universe the leg counts sum to the number of trades. */
  lemma LegCountsSum(timeline: seq<Decision>, universe: seq<string>)
    requires ExitsAfterEntries(timeline) && NoDuplicates(universe)
    requires var r := Backtest(timeline); forall i :: 0 <= i < |r.trades| ==> r.trades[i].symbol in universe
    ensures SumLegs(Backtest(timeline), universe) == |Backtest(timeline).trades|
  {
    BacktestKept(timeline);
    LegsAmong(Backtest(timeline), universe);
    AllAmong(Backtest(timeline).trades, universe);
  }

  // ------------------------------------------------------------------- the loops

  method RunDecision(r: Result, entry: int, exit: int, candidates: seq<Candidate>) returns (s: Result, legsOpened: nat)
    ensures s == TakeLegs(r, entry, exit, candidates)
    ensures |s.trades| == |r.trades| + legsOpened
  {
    s, legsOpened := r, 0;
    for i := 0 to |candidates|
      invariant s == TakeLegs(r, entry, exit, candidates[..i])
      invariant |s.trades| == |r.trades| + legsOpened
    {
      assert candidates[..i + 1][..i] == candidates[..i];
      var c := candidates[i];
      if c.symbol in s.openUntil && entry <= s.openUntil[c.symbol] {
        s := s.(overlapSuppressed := s.overlapSuppressed + 1);
        continue;
      }
      match c.fill {
        case NotFilled(reason) =>
          s := s.(skips := s.skips + [Skip(c.symbol, reason)]);
        case Filled(net) =>
          s := s.(trades := s.trades + [Trade(c.symbol, entry, exit, net)],
                  openUntil := s.openUntil[c.symbol := exit],
                  legCounts := s.legCounts[c.symbol := LegCount(s, c.symbol) + 1]);
          legsOpened := legsOpened + 1;
      }
    }
    assert candidates[..|candidates|] == candidates;
  }

  method RunBacktest(timeline: seq<Decision>) returns (r: Result)
    ensures r == Backtest(timeline)
  {
    r := START;
    for i := 0 to |timeline|
      invariant r == Backtest(timeline[..i])
    {
      assert timeline[..i + 1][..i] == timeline[..i];
      var d := timeline[i];
      if d.TooFewValid? {
        r := r.(insufficient := r.insufficient + 1);
        continue;
      }
      if d.PastTheClose? {
        continue;
      }
      var s, legsOpened := RunDecision(r, d.entry, d.exit, d.candidates);
      s := s.(candidateCount := r.candidateCount + |d.candidates|, acted := r.acted);
      if legsOpened > 0 {
        s := s.(acted := s.acted + 1);
      }
      r := s;
    }
    assert timeline[..|timeline|] == timeline;
  }
}
