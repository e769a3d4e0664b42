/**
 What the flatten adapters, the kill switch and the residual retry do, as a
 function of a broker that answers whatever it likes (orchestrator.py,
 kill_switch.py, risk/risk_kill.py, broker/flatten_proxy.py). The broker is a
 script of answers; every call takes the next one.
 */
module FlattenSpec {
  import opened Wrappers
  import opened Pricing
  import opened Preflight

  const PENDING := "flatten_pending"
  const UNCONFIRMED := "position_unconfirmed"
  const NO_PRICE := "no_price_for_cap"

  /** Reasons after which a symbol the broker does not know may be sent again. */
  const SAFE: set<string> := {UNCONFIRMED, NO_PRICE}

  datatype BrokerOrder = BrokerOrder(
    clientOrderId: string,
    symbol: string,
    side: Side,
    state: string,
    qty: real,
    filledQty: real,
    filledAvgPrice: Option<real>)

  datatype Answer =
    | Payload(order: BrokerOrder)               // a mapping that parses
    | Unparseable                               // a mapping that does not
    | ErrorData(status: Option<int>)            // an error returned as data
    | Raised(status: Option<int>, text: string) // an exception and its message

  type Script = seq<Answer>

  /** The next answer; a broker with nothing left to say times out. */
  function Next(script: Script): Answer { if script == [] then Raised(None, "timeout") else script[0] }

  function Rest(script: Script): Script { if script == [] then [] else script[1..] }

  /** No submit fails with a message that reads like one of the safe reasons. */
  ghost predicate Polite(script: Script) {
    forall a :: a in script && a.Raised? ==> a.text !in SAFE
  }

  // ------------------------------------------------------------------- evidence

  /** fill_delta(None, order): the filled quantity of a consistent snapshot. */
  function FillDeltaQty(o: BrokerOrder): Option<real> {
    if o.filledQty > 0.0 && o.filledAvgPrice.Some? && o.filledAvgPrice.value > 0.0 then Some(o.filledQty) else None
  }

  /** A full, terminal fill of exactly this intent. */
  predicate TerminalFull(a: Answer, intent: Intent) {
    && a.Payload?
    && a.order.clientOrderId == intent.intentId
    && a.order.symbol == intent.symbol
    && a.order.side == intent.side
    && a.order.qty == intent.qty
    && a.order.state == "filled"
    && a.order.filledQty == a.order.qty
    && FillDeltaQty(a.order) == Some(intent.qty)
  }

  function FlattenId(symbol: string): string { "flatten-" + symbol }

  /** The same for a symbol whose quantity is not known any more. */
  predicate SymbolTerminalFull(a: Answer, symbol: string) {
    && a.Payload?
    && a.order.clientOrderId == FlattenId(symbol)
    && a.order.symbol == symbol
    && a.order.state == "filled"
    && a.order.qty > 0.0
    && a.order.filledQty == a.order.qty
    && FillDeltaQty(a.order) == Some(a.order.qty)
  }

  predicate NotFound(a: Answer) {
    (a.ErrorData? || a.Raised?) && a.status == Some(404)
  }

  function KillIntent(p: Position): Intent {
    Intent(p.symbol, ReducingSide(p.qty), Abs(p.qty), None, true, FlattenId(p.symbol))
  }

  // ------------------------------------------------------------------- adapters

  /** A broker view: `current` says whether the positions can be relied on. */
  datatype Snapshot = Snapshot(current: bool, confirmed: map<string, real>)

  /** `blind` is None for the plain terminal adapter. */
  datatype Adapter = Adapter(
    brokerPresent: bool,
    quotes: map<string, Touches>,
    capBps: real,
    probeExisting: bool,
    allow: set<string>,
    blind: Option<Snapshot>)

  datatype Step = Step(outcome: Outcome<string>, sent: bool, script: Script)

  function CapFor(v: Adapter, intent: Intent): Option<real> {
    if intent.symbol in v.quotes then ReduceCap(intent.side, v.quotes[intent.symbol], v.capBps) else None
  }

  /** The price-capped submit: without a price nothing reaches the wire. */
  function SubmitOrPending(v: Adapter, script: Script, intent: Intent): Step {
    if !v.brokerPresent then Step(Fail(PENDING), false, script)
    else if CapFor(v, intent).None? then Step(Fail(NO_PRICE), false, script)
    else
      var a := Next(script);
      if a.Raised? then Step(Fail(a.text), true, Rest(script))
      else if TerminalFull(a, intent) then Step(Pass, true, Rest(script))
      else Step(Fail(PENDING), true, Rest(script))
  }

  datatype ProbeResult = SafeToSubmit | ProvenFull | Ambiguous

  function Probe(v: Adapter, a: Answer, intent: Intent): ProbeResult {
    if !v.brokerPresent then Ambiguous
    else if NotFound(a) then SafeToSubmit
    else if TerminalFull(a, intent) then ProvenFull
    else Ambiguous
  }

  /** An exact, fresh confirmation of the presumed position. */
  predicate Exact(v: Adapter, s: Snapshot, intent: Intent) {
    && v.brokerPresent && intent.isReducing
    && intent.symbol in s.confirmed
    && var qty := s.confirmed[intent.symbol];
       qty != 0.0 && intent.side == ReducingSide(qty) && Abs(qty) == intent.qty
  }

  /** The order of the checks after the probe has passed. */
  function SubmitChecked(v: Adapter, script: Script, intent: Intent): Step {
    match v.blind
    case None => SubmitOrPending(v, script, intent)
    case Some(s) =>
      if s.current && intent.symbol !in s.confirmed then Step(Pass, false, script)
      else if !Exact(v, s, intent) then Step(Fail(UNCONFIRMED), false, script)
      else SubmitOrPending(v, script, intent)
  }

  function Submit(v: Adapter, script: Script, intent: Intent): Step {
    if !v.probeExisting then SubmitChecked(v, script, intent)
    else
      var rest := if v.brokerPresent then Rest(script) else script;
      match Probe(v, Next(script), intent)
      case Ambiguous => Step(Fail(PENDING), false, rest)
      case ProvenFull => Step(Pass, false, rest)
      case SafeToSubmit =>
        if intent.symbol !in v.allow then Step(Fail(PENDING), false, rest)
        else SubmitChecked(v, rest, intent)
  }

  /** A residual whose position is gone from every view. */
  function ConfirmFlat(v: Adapter, a: Answer, symbol: string): bool {
    && v.brokerPresent
    && (SymbolTerminalFull(a, symbol)
        || (NotFound(a) && symbol in v.allow
            && v.blind.Some? && v.blind.value.current && symbol !in v.blind.value.confirmed))
  }

  // ---------------------------------------------------------------- one kill pass

  datatype PassResult = PassResult(
    flattened: seq<string>,
    failed: seq<(string, string)>,
    sent: seq<string>,
    script: Script)

  function Record(r: PassResult, symbol: string, s: Step): PassResult {
    PassResult(
      if s.outcome.Pass? then r.flattened + [symbol] else r.flattened,
      if s.outcome.Fail? then r.failed + [(symbol, s.outcome.error)] else r.failed,
      if s.sent then r.sent + [symbol] else r.sent,
      s.script)
  }

  /** The kill switch over its positions, one isolated from the next. */
  function KillPass(v: Adapter, script: Script, positions: seq<Position>): PassResult
    decreases positions
  {
    if positions == [] then PassResult([], [], [], script)
    else
      var r := KillPass(v, script, positions[..|positions| - 1]);
      var p := positions[|positions| - 1];
      if p.qty == 0.0 then r
      else Record(r, p.symbol, Submit(v, r.script, KillIntent(p)))
  }

  /** Asks about each absent residual in turn. */
  function ConfirmAll(v: Adapter, script: Script, symbols: seq<string>): (seq<string>, Script)
    decreases symbols
  {
    if symbols == [] then ([], script)
    else
      var (flat, rest) := ConfirmAll(v, script, symbols[..|symbols| - 1]);
      var symbol := symbols[|symbols| - 1];
      (if ConfirmFlat(v, Next(rest), symbol) then flat + [symbol] else flat,
       if v.brokerPresent then Rest(rest) else rest)
  }

  // ----------------------------------------------------------- the kill protocol

  datatype Phase = Monitoring | Halted

  /** `wire` lists the symbol of every flatten order handed to the broker. */
  datatype Protocol = Protocol(
    phase: Phase,
    residual: seq<string>,
    failures: map<string, string>,
    wire: seq<string>,
    script: Script)

  function Filter(xs: seq<string>, drop: set<string>): (r: seq<string>)
    ensures forall x :: x in r <==> x in xs && x !in drop
  {
    if xs == [] then []
    else
      var front := Filter(xs[..|xs| - 1], drop);
      if xs[|xs| - 1] in drop then front else front + [xs[|xs| - 1]]
  }

  function Symbols(positions: seq<Position>): set<string> { set p | p in positions :: p.symbol }

  function ToSet(xs: seq<string>): set<string> { set x | x in xs }

  /** dict() of the failures: the last entry of a symbol wins. */
  function Reasons(failed: seq<(string, string)>): map<string, string> {
    if failed == [] then map[]
    else
      var last := failed[|failed| - 1];
      Reasons(failed[..|failed| - 1])[last.0 := last.1]
  }

  function Restrict(m: map<string, string>, keep: seq<string>): map<string, string> {
    map s | s in m && s in keep :: m[s]
  }

  /** The first trigger; later ones only report. `atTrigger` lists the symbols held,
      sorted. */
  function Trigger(k: Protocol, v: Adapter, positions: seq<Position>, atTrigger: seq<string>): Protocol {
    if k.phase.Halted? then k
    else
      var pass := KillPass(v, k.script, positions);
      var residual := Filter(atTrigger, ToSet(pass.flattened));
      Protocol(Halted, residual, Restrict(Reasons(pass.failed), residual), k.wire + pass.sent, pass.script)
  }

  function OfResidual(positions: seq<Position>, residual: seq<string>): (r: seq<Position>)
    ensures forall p :: p in r <==> p in positions && p.symbol in residual
  {
    if positions == [] then []
    else
      var front := OfResidual(positions[..|positions| - 1], residual);
      var p := positions[|positions| - 1];
      if p.symbol in residual then front + [p] else front
  }

  function Allowed(failures: map<string, string>): set<string> {
    set s | s in failures && failures[s] in SAFE
  }

  function RetryAdapter(k: Protocol, v: Adapter): Adapter {
    v.(probeExisting := true, allow := Allowed(k.failures))
  }

  /** The residuals a retry asks about: those without a position, and only an adapter
      with a broker view knows how to ask. */
  function Absent(v: Adapter, residual: seq<string>, subset: seq<Position>): seq<string> {
    if v.blind.None? then [] else Filter(residual, Symbols(subset))
  }

  /** An operator's retry: legal only when halted with a residual. */
  function Retry(k: Protocol, v: Adapter, positions: seq<Position>): Protocol {
    if k.phase.Monitoring? || k.residual == [] then k
    else
      var w := RetryAdapter(k, v);
      var subset := OfResidual(positions, k.residual);
      var (confirmed, rest) := ConfirmAll(w, k.script, Absent(w, k.residual, subset));
      var pass := KillPass(w, rest, subset);
      var residual := Filter(k.residual, ToSet(pass.flattened) + ToSet(confirmed));
      Protocol(Halted, residual, Restrict(k.failures + Reasons(pass.failed), residual),
               k.wire + pass.sent, pass.script)
  }

  // ------------------------------------------------------------------ one submit

  /** Success means evidence: a full fill of this very intent as the last answer taken,
      or a fresh view of the broker without the symbol. */
  lemma PassOnlyOnEvidence(v: Adapter, script: Script, intent: Intent)
    requires Submit(v, script, intent).outcome.Pass?
    ensures var s := Submit(v, script, intent);
            || (TerminalFull(Next(script), intent) && s.script == Rest(script))
            || (s.sent && TerminalFull(Next(Rest(script)), intent) && s.script == Rest(Rest(script)))
            || (v.blind.Some? && v.blind.value.current && intent.symbol !in v.blind.value.confirmed)
  {}

  /** A retry sends only what it was allowed to, and only after a 404. */
  lemma ProbingSendsOnlyAllowed(v: Adapter, script: Script, intent: Intent)
    requires v.probeExisting && Submit(v, script, intent).sent
    ensures intent.symbol in v.allow && NotFound(Next(script))
  {}

  /** A safe reason proves that this call put nothing on the wire. */
  lemma SafeReasonNotSent(v: Adapter, script: Script, intent: Intent)
    requires Polite(script)
    ensures var s := Submit(v, script, intent);
            Polite(s.script) && (s.outcome.Fail? && s.outcome.error in SAFE ==> !s.sent)
  {
    var rest := Rest(script);
    assert Polite(rest);
    assert Polite(Rest(rest));
    assert forall a :: a == Next(script) || a == Next(rest) ==> a.Raised? ==> a.text !in SAFE;
  }

  // ------------------------------------------------------------------- one pass

  ghost predicate Distinct(positions: seq<Position>) {
    forall i, j :: 0 <= i < j < |positions| ==> positions[i].symbol != positions[j].symbol
  }

  ghost predicate NoRepeats(xs: seq<string>) {
    forall i, j :: 0 <= i < j < |xs| ==> xs[i] != xs[j]
  }

  lemma LastIsNew(positions: seq<Position>)
    requires positions != [] && Distinct(positions)
    ensures var front, p := positions[..|positions| - 1], positions[|positions| - 1];
            Symbols(positions) == Symbols(front) + {p.symbol} && p.symbol !in Symbols(front)
  {
    var front, p := positions[..|positions| - 1], positions[|positions| - 1];
    assert positions == front + [p];
    forall q | q in front ensures q.symbol != p.symbol {
      var i :| 0 <= i < |front| && front[i] == q;
      assert positions[i].symbol != positions[|positions| - 1].symbol;
    }
  }

  /** One pass sends each symbol at most once, only those it holds and may send;
      and what fails for a safe reason was not sent. */
  lemma {:induction false} KillPassSends(v: Adapter, script: Script, positions: seq<Position>)
    requires Distinct(positions) && Polite(script)
    ensures var r := KillPass(v, script, positions);
            && Polite(r.script)
            && NoRepeats(r.sent)
            && (forall s :: s in r.sent ==> s in Symbols(positions) && (v.probeExisting ==> s in v.allow))
            && (forall f :: f in r.failed ==> f.0 in Symbols(positions))
            && (forall f :: f in r.failed && f.1 in SAFE ==> f.0 !in r.sent)
    decreases positions
  {
    if positions != [] {
      var front, p := positions[..|positions| - 1], positions[|positions| - 1];
      KillPassSends(v, script, front);
      var r := KillPass(v, script, front);
      LastIsNew(positions);
      SafeReasonNotSent(v, r.script, KillIntent(p));
      if v.probeExisting && Submit(v, r.script, KillIntent(p)).sent {
        ProbingSendsOnlyAllowed(v, r.script, KillIntent(p));
      }
    }
  }

  // ----------------------------------------------------------- answers and evidence

  /** `rest` is what is left of the script. */
  ghost predicate LeftOf(rest: Script, script: Script) {
    |rest| <= |script| && script[|script| - |rest|..] == rest
  }

  /** The answers that were taken from `script` when `rest` is left. */
  ghost function Taken(script: Script, rest: Script): seq<Answer>
    requires LeftOf(rest, script)
  {
    script[..|script| - |rest|]
  }

  lemma TakenInTurn(script: Script, mid: Script, rest: Script)
    requires LeftOf(mid, script) && LeftOf(rest, mid)
    ensures LeftOf(rest, script) && Taken(script, rest) == Taken(script, mid) + Taken(mid, rest)
  {}

  /** A full fill of the intent of one of these answers. */
  ghost predicate Filled(taken: seq<Answer>, intent: Intent) {
    exists a :: a in taken && TerminalFull(a, intent)
  }

  /** A current view of the broker without the symbol. */
  ghost predicate Shows(v: Adapter, symbol: string) {
    v.blind.Some? && v.blind.value.current && symbol !in v.blind.value.confirmed
  }

  lemma RestIsLeft(script: Script)
    ensures LeftOf(Rest(script), script) && LeftOf(Rest(Rest(script)), script) && LeftOf(script, script)
    ensures Taken(script, Rest(script)) == if script == [] then [] else [script[0]]
    ensures Taken(script, Rest(Rest(script))) == if |script| <= 1 then script else [script[0], script[1]]
  {}

  lemma SubmitTakes(v: Adapter, script: Script, intent: Intent)
    ensures var s := Submit(v, script, intent);
            s.script == script || s.script == Rest(script) || s.script == Rest(Rest(script))
  {}

  /** A submit takes answers from the front, and passes only on evidence among the
      answers it took, or in the view. */
  lemma SubmitOnlyOnEvidence(v: Adapter, script: Script, intent: Intent)
    ensures var s := Submit(v, script, intent);
            && LeftOf(s.script, script)
            && (s.outcome.Pass? ==> Filled(Taken(script, s.script), intent) || Shows(v, intent.symbol))
  {
    var s := Submit(v, script, intent);
    SubmitTakes(v, script, intent);
    RestIsLeft(script);
    if s.outcome.Pass? && !Shows(v, intent.symbol) {
      PassOnlyOnEvidence(v, script, intent);
      FilledByLast(script, s.script, intent);
    }
  }

  lemma FilledByLast(script: Script, rest: Script, intent: Intent)
    requires || (TerminalFull(Next(script), intent) && rest == Rest(script))
             || (TerminalFull(Next(Rest(script)), intent) && rest == Rest(Rest(script)))
    ensures LeftOf(rest, script) && Filled(Taken(script, rest), intent)
  {
    RestIsLeft(script);
    var a := if TerminalFull(Next(script), intent) && rest == Rest(script) then Next(script) else Next(Rest(script));
    assert a in Taken(script, rest);
  }

  ghost predicate Evidenced(v: Adapter, taken: seq<Answer>, positions: seq<Position>, s: string) {
    exists p :: p in positions && p.symbol == s && (Filled(taken, KillIntent(p)) || Shows(v, s))
  }

  lemma MoreEvidence(v: Adapter, taken: seq<Answer>, front: seq<Position>, taken': seq<Answer>, positions: seq<Position>, s: string)
    requires Evidenced(v, taken, front, s)
    requires forall a :: a in taken ==> a in taken'
    requires forall p :: p in front ==> p in positions
    ensures Evidenced(v, taken', positions, s)
  {
    var p :| p in front && p.symbol == s && (Filled(taken, KillIntent(p)) || Shows(v, s));
    if Filled(taken, KillIntent(p)) {
      var a :| a in taken && TerminalFull(a, KillIntent(p));
      assert Filled(taken', KillIntent(p));
    }
    assert p in positions;
  }

  /** Every symbol a pass reports flat is backed by an answer taken in that very pass,
      or by the view. */
  lemma {:induction false} FlattenedOnlyOnEvidence(v: Adapter, script: Script, positions: seq<Position>)
    ensures var r := KillPass(v, script, positions);
            && LeftOf(r.script, script)
            && forall s :: s in r.flattened ==> Evidenced(v, Taken(script, r.script), positions, s)
    decreases positions
  {
    if positions != [] {
      var front, p := positions[..|positions| - 1], positions[|positions| - 1];
      FlattenedOnlyOnEvidence(v, script, front);
      var before, r := KillPass(v, script, front), KillPass(v, script, positions);
      if p.qty != 0.0 {
        SubmitOnlyOnEvidence(v, before.script, KillIntent(p));
        TakenInTurn(script, before.script, r.script);
        forall s | s in r.flattened ensures Evidenced(v, Taken(script, r.script), positions, s) {
          if s in before.flattened {
            MoreEvidence(v, Taken(script, before.script), front, Taken(script, r.script), positions, s);
          } else {
            LastIsEvidenced(v, script, before.script, r.script, positions);
          }
        }
      } else {
        forall s | s in r.flattened ensures Evidenced(v, Taken(script, r.script), positions, s) {
          MoreEvidence(v, Taken(script, before.script), front, Taken(script, r.script), positions, s);
        }
      }
    }
  }

  lemma LastIsEvidenced(v: Adapter, script: Script, before: Script, after: Script, positions: seq<Position>)
    requires positions != [] && LeftOf(before, script) && LeftOf(after, before)
    requires var p := positions[|positions| - 1];
             Filled(Taken(before, after), KillIntent(p)) || Shows(v, p.symbol)
    ensures LeftOf(after, script)
    ensures Evidenced(v, Taken(script, after), positions, positions[|positions| - 1].symbol)
  {
    var p := positions[|positions| - 1];
    TakenInTurn(script, before, after);
    if Filled(Taken(before, after), KillIntent(p)) {
      var a :| a in Taken(before, after) && TerminalFull(a, KillIntent(p));
      assert a in Taken(script, after);
      assert Filled(Taken(script, after), KillIntent(p));
    }
    assert p in positions;
  }

  /** Some answer is a full fill of the flatten order of this symbol. */
  ghost predicate FilledFor(taken: seq<Answer>, s: string) {
    exists a :: a in taken && SymbolTerminalFull(a, s)
  }

  /** An absent residual is confirmed flat only by an answer taken while asking, or by
      a 404 and the view. */
  lemma {:induction false} ConfirmedOnlyOnEvidence(v: Adapter, script: Script, symbols: seq<string>)
    ensures var (flat, rest) := ConfirmAll(v, script, symbols);
            && LeftOf(rest, script)
            && forall s :: s in flat ==> FilledFor(Taken(script, rest), s) || (Shows(v, s) && s in v.allow)
    decreases symbols
  {
    if symbols != [] {
      var front, last := symbols[..|symbols| - 1], symbols[|symbols| - 1];
      ConfirmedOnlyOnEvidence(v, script, front);
      var (flat, mid) := ConfirmAll(v, script, front);
      var (flat', rest) := ConfirmAll(v, script, symbols);
      TakenInTurn(script, mid, rest);
      forall s | s in flat' ensures FilledFor(Taken(script, rest), s) || (Shows(v, s) && s in v.allow) {
        if s in flat {
          FilledForGrows(Taken(script, mid), Taken(mid, rest), s);
        } else if SymbolTerminalFull(Next(mid), last) {
          assert Next(mid) in Taken(script, rest);
        }
      }
    }
  }

  lemma FilledForGrows(taken: seq<Answer>, more: seq<Answer>, s: string)
    ensures FilledFor(taken, s) || FilledFor(more, s) ==> FilledFor(taken + more, s)
  {
    if FilledFor(taken, s) {
      var a :| a in taken && SymbolTerminalFull(a, s);
      assert a in taken + more;
    } else if FilledFor(more, s) {
      var a :| a in more && SymbolTerminalFull(a, s);
      assert a in taken + more;
    }
  }

  // ------------------------------------------------------------------- whole runs

  /** At most one flatten order per symbol, ever; and a residual whose last failure
      is a safe one has none at all. */
  ghost predicate Sound(k: Protocol) {
    && NoRepeats(k.wire)
    && (k.phase.Monitoring? ==> k.wire == [])
    && (forall s :: s in k.failures && k.failures[s] in SAFE ==> s !in k.wire)
    && Polite(k.script)
  }

  lemma {:induction false} ReasonsAreEntries(failed: seq<(string, string)>)
    ensures forall s :: s in Reasons(failed) ==> (s, Reasons(failed)[s]) in failed
  {
    if failed != [] {
      ReasonsAreEntries(failed[..|failed| - 1]);
      var last := failed[|failed| - 1];
      assert last in failed;
      assert forall f :: f in failed[..|failed| - 1] ==> f in failed;
    }
  }

  lemma JoinNoRepeats(xs: seq<string>, ys: seq<string>)
    requires NoRepeats(xs) && NoRepeats(ys) && forall y :: y in ys ==> y !in xs
    ensures NoRepeats(xs + ys)
  {
    var both := xs + ys;
    forall i, j | 0 <= i < j < |both| ensures both[i] != both[j] {
      if i < |xs| <= j {
        assert both[j] in ys;
      }
    }
  }

  lemma TriggerIsSound(k: Protocol, v: Adapter, positions: seq<Position>, atTrigger: seq<string>)
    requires Sound(k) && Distinct(positions)
    ensures Sound(Trigger(k, v, positions, atTrigger))
  {
    if k.phase.Monitoring? {
      KillPassSends(v, k.script, positions);
      var pass := KillPass(v, k.script, positions);
      ReasonsAreEntries(pass.failed);
      assert k.wire + pass.sent == pass.sent;
    }
  }

  lemma {:induction false} ConfirmingKeepsPolite(v: Adapter, script: Script, symbols: seq<string>)
    requires Polite(script)
    ensures Polite(ConfirmAll(v, script, symbols).1)
  {
    ConfirmedOnlyOnEvidence(v, script, symbols);
    LeftIsPolite(ConfirmAll(v, script, symbols).1, script);
  }

  lemma LeftIsPolite(rest: Script, script: Script)
    requires Polite(script) && LeftOf(rest, script)
    ensures Polite(rest)
  {
    assert forall a :: a in rest ==> a in script;
  }

  lemma {:induction false} SubsetDistinct(positions: seq<Position>, residual: seq<string>)
    requires Distinct(positions)
    ensures Distinct(OfResidual(positions, residual))
  {
    if positions != [] {
      var front, p := positions[..|positions| - 1], positions[|positions| - 1];
      SubsetDistinct(front, residual);
      var r := OfResidual(front, residual);
      forall i | 0 <= i < |r| && p.symbol in residual ensures r[i].symbol != p.symbol {
        assert r[i] in front;
        var j :| 0 <= j < |front| && front[j] == r[i];
        assert positions[j].symbol != positions[|positions| - 1].symbol;
      }
    }
  }

  lemma RetryIsSound(k: Protocol, v: Adapter, positions: seq<Position>)
    requires Sound(k) && Distinct(positions)
    ensures Sound(Retry(k, v, positions))
  {
    if k.phase.Halted? && k.residual != [] {
      var w := RetryAdapter(k, v);
      var subset := OfResidual(positions, k.residual);
      SubsetDistinct(positions, k.residual);
      var absent := Absent(w, k.residual, subset);
      ConfirmingKeepsPolite(w, k.script, absent);
      var rest := ConfirmAll(w, k.script, absent).1;
      KillPassSends(w, rest, subset);
      var pass := KillPass(w, rest, subset);
      ReasonsAreEntries(pass.failed);
      assert forall s :: s in pass.sent ==> s in Allowed(k.failures) && s !in k.wire;
      JoinNoRepeats(k.wire, pass.sent);
      RetrySafety(k, w, rest, subset, Retry(k, v, positions).residual);
    }
  }

  /** Whatever is sent either comes back flat or leaves a failure behind. */
  lemma {:induction false} SentIsAccountedFor(v: Adapter, script: Script, positions: seq<Position>)
    ensures var r := KillPass(v, script, positions);
            && (forall s :: s in r.sent ==> s in r.flattened || s in Reasons(r.failed))
            && (forall f :: f in r.failed ==> f.0 in Reasons(r.failed))
    decreases positions
  {
    if positions != [] {
      SentIsAccountedFor(v, script, positions[..|positions| - 1]);
      var r := KillPass(v, script, positions[..|positions| - 1]);
      var p := positions[|positions| - 1];
      var step := Submit(v, r.script, KillIntent(p));
      if p.qty != 0.0 && step.outcome.Fail? {
        var failed := r.failed + [(p.symbol, step.outcome.error)];
        assert failed[..|failed| - 1] == r.failed;
      }
    }
  }

  /** A symbol with a safe failure after a retry was neither sent before nor in it. */
  lemma RetrySafety(k: Protocol, w: Adapter, rest: Script, subset: seq<Position>, residual: seq<string>)
    requires Sound(k) && Distinct(subset) && Polite(rest)
    requires w.probeExisting && w.allow == Allowed(k.failures)
    requires forall s :: s in residual ==> s !in KillPass(w, rest, subset).flattened
    ensures var pass := KillPass(w, rest, subset);
            var failures := Restrict(k.failures + Reasons(pass.failed), residual);
            forall s :: s in failures && failures[s] in SAFE ==> s !in k.wire + pass.sent
  {
    KillPassSends(w, rest, subset);
    var pass := KillPass(w, rest, subset);
    ReasonsAreEntries(pass.failed);
    SafeFailuresWereAllowed(w, rest, subset);
    SentIsAccountedFor(w, rest, subset);
    var failures := Restrict(k.failures + Reasons(pass.failed), residual);
    forall s | s in failures && failures[s] in SAFE ensures s !in k.wire + pass.sent {
      if s in Reasons(pass.failed) {
        assert (s, failures[s]) in pass.failed;
        assert s in Allowed(k.failures);
      } else {
        assert k.failures[s] in SAFE;
      }
    }
  }

  /** In a retry a safe failure can only befall a symbol that was allowed. */
  lemma {:induction false} SafeFailuresWereAllowed(w: Adapter, script: Script, positions: seq<Position>)
    requires w.probeExisting && Polite(script)
    ensures Polite(KillPass(w, script, positions).script)
    ensures forall f :: f in KillPass(w, script, positions).failed && f.1 in SAFE ==> f.0 in w.allow
    decreases positions
  {
    if positions != [] {
      SafeFailuresWereAllowed(w, script, positions[..|positions| - 1]);
      var r := KillPass(w, script, positions[..|positions| - 1]);
      SafeReasonNotSent(w, r.script, KillIntent(positions[|positions| - 1]));
    }
  }

  /** One retry's circumstances: what the broker view, the quotes and the presumed
      portfolio happen to be. */
  datatype RetryInput = RetryInput(adapter: Adapter, positions: seq<Position>)

  function Run(k: Protocol, retries: seq<RetryInput>): Protocol {
    if retries == [] then k
    else
      var last := retries[|retries| - 1];
      Retry(Run(k, retries[..|retries| - 1]), last.adapter, last.positions)
  }

  function Start(script: Script): Protocol { Protocol(Monitoring, [], map[], [], script) }

  /** One kill trigger and any number of retries, against a broker that answers
      probes and submits as it likes, put at most one flatten order per symbol on
      the wire. */
  lemma {:induction false} AtMostOneFlattenPerSymbol(
    script: Script, v: Adapter, positions: seq<Position>, atTrigger: seq<string>, retries: seq<RetryInput>)
    requires Polite(script) && Distinct(positions)
    requires forall r :: r in retries ==> Distinct(r.positions)
    ensures var k := Run(Trigger(Start(script), v, positions, atTrigger), retries);
            Sound(k) && NoRepeats(k.wire)
    decreases retries
  {
    if retries == [] {
      TriggerIsSound(Start(script), v, positions, atTrigger);
    } else {
      AtMostOneFlattenPerSymbol(script, v, positions, atTrigger, retries[..|retries| - 1]);
      var k := Run(Trigger(Start(script), v, positions, atTrigger), retries[..|retries| - 1]);
      var last := retries[|retries| - 1];
      assert last in retries;
      RetryIsSound(k, last.adapter, last.positions);
    }
  }

  /** A symbol leaves the residual of a retry only on evidence among the answers of
      that very retry, a full fill of its flatten order, or in a current broker view
      without it. */
  lemma LeavesResidualOnlyOnEvidence(k: Protocol, v: Adapter, positions: seq<Position>, s: string)
    requires s in k.residual && s !in Retry(k, v, positions).residual
    ensures var k' := Retry(k, v, positions);
            LeftOf(k'.script, k.script) && (FilledFor(Taken(k.script, k'.script), s) || Shows(v, s))
  {
    var w := RetryAdapter(k, v);
    var subset := OfResidual(positions, k.residual);
    var absent := Absent(w, k.residual, subset);
    ConfirmedOnlyOnEvidence(w, k.script, absent);
    var (confirmed, rest) := ConfirmAll(w, k.script, absent);
    FlattenedOnlyOnEvidence(w, rest, subset);
    var pass := KillPass(w, rest, subset);
    TakenInTurn(k.script, rest, pass.script);
    FilledForGrows(Taken(k.script, rest), Taken(rest, pass.script), s);
    assert s in pass.flattened || s in confirmed;
    if s in pass.flattened {
      EvidenceIsFill(w, Taken(rest, pass.script), subset, s);
    }
  }

  lemma EvidenceIsFill(v: Adapter, taken: seq<Answer>, positions: seq<Position>, s: string)
    requires Evidenced(v, taken, positions, s)
    ensures FilledFor(taken, s) || Shows(v, s)
  {
    var p :| p in positions && p.symbol == s && (Filled(taken, KillIntent(p)) || Shows(v, s));
    if Filled(taken, KillIntent(p)) {
      var a :| a in taken && TerminalFull(a, KillIntent(p));
      assert FilledFor(taken, s);
    }
  }

  /** The same for the trigger. */
  lemma FlatAtTriggerOnlyOnEvidence(k: Protocol, v: Adapter, positions: seq<Position>, atTrigger: seq<string>, s: string)
    requires k.phase.Monitoring? && s in atTrigger && s !in Trigger(k, v, positions, atTrigger).residual
    ensures var k' := Trigger(k, v, positions, atTrigger);
            LeftOf(k'.script, k.script) && Evidenced(v, Taken(k.script, k'.script), positions, s)
  {
    FlattenedOnlyOnEvidence(v, k.script, positions);
  }
}
