/**
 What becomes of a held symbol in the kill protocol, exactly: when a submit passes,
 with which reason it fails, and so when a symbol leaves the residual at the trigger
 and in a retry (orchestrator.py, risk/risk_kill.py).
 */
module FlattenOutcome {
  import opened Wrappers
  import opened Pricing
  import opened Preflight
  import opened FlattenSpec
  import opened FlattenRuns

  // ------------------------------------------------------------------ one submit

  /** Nothing stands in the way of a submit, or a 404 and an allowance let it past. */
  ghost predicate PastProbe(v: Adapter, script: Script, intent: Intent) {
    v.probeExisting ==> v.brokerPresent && NotFound(Next(script)) && intent.symbol in v.allow
  }

  ghost predicate HandsOver(v: Adapter, script: Script, intent: Intent) {
    && PastProbe(v, script, intent) && v.brokerPresent && CapFor(v, intent).Some?
    && (v.blind.Some? ==> Exact(v, v.blind.value, intent))
  }

  ghost function AfterProbe(v: Adapter, script: Script): Script {
    if v.probeExisting && v.brokerPresent then Rest(script) else script
  }

  /** The probe finds the order filled; or it is handed over and the answer says so; or
      it may go and the fresh view lacks the symbol. */
  ghost predicate Gone(v: Adapter, script: Script, intent: Intent) {
    || (v.probeExisting && v.brokerPresent && TerminalFull(Next(script), intent))
    || (HandsOver(v, script, intent) && TerminalFull(Next(AfterProbe(v, script)), intent))
    || (PastProbe(v, script, intent) && Shows(v, intent.symbol))
  }

  /** A submit passes exactly then, and takes an answer for its probe and one for its
      order. */
  lemma SubmitPassesIff(v: Adapter, script: Script, intent: Intent)
    ensures var s := Submit(v, script, intent);
            && (s.outcome.Pass? <==> Gone(v, script, intent))
            && (s.sent <==> HandsOver(v, script, intent))
            && s.script == if s.sent then Rest(AfterProbe(v, script)) else AfterProbe(v, script)
  {}

  /** The reason a submit fails for: of one that was handed over, the broker's words if
      it raised; of one that was let past and held back, what was missing. */
  ghost function ReasonFor(v: Adapter, script: Script, intent: Intent): string {
    if HandsOver(v, script, intent) then
      var a := Next(AfterProbe(v, script));
      if a.Raised? then a.text else PENDING
    else if !PastProbe(v, script, intent) then PENDING
    else if v.blind.Some? && !Exact(v, v.blind.value, intent) then UNCONFIRMED
    else if !v.brokerPresent then PENDING
    else NO_PRICE
  }

  lemma SubmitFailsWith(v: Adapter, script: Script, intent: Intent)
    requires !Gone(v, script, intent)
    ensures Submit(v, script, intent).outcome == Fail(ReasonFor(v, script, intent))
  {}

  /** Of the orders that did not go out, exactly those fail for a safe reason, and so may
      go out later, that were let past the probe and lacked an exact view, or a price. */
  lemma UnsentIsSafeIff(v: Adapter, script: Script, intent: Intent)
    requires !HandsOver(v, script, intent) && !Gone(v, script, intent)
    ensures Submit(v, script, intent).outcome.error in SAFE <==>
              && PastProbe(v, script, intent)
              && (v.blind.Some? || v.brokerPresent)
  {
    SubmitFailsWith(v, script, intent);
    assert PENDING[0] != UNCONFIRMED[0] && PENDING[0] != NO_PRICE[0];
  }

  function Traded(o: BrokerOrder): real { if o.side.Buy? then o.filledQty else -o.filledQty }

  /** The fill that counts is the one that leaves nothing of the position. */
  lemma FullFillFlattens(a: Answer, p: Position)
    requires p.qty != 0.0
    ensures TerminalFull(a, KillIntent(p)) <==>
              && a.Payload? && a.order.state == "filled"
              && a.order.symbol == p.symbol && a.order.clientOrderId == "flatten-" + p.symbol
              && a.order.qty == a.order.filledQty > 0.0 && p.qty + Traded(a.order) == 0.0
              && a.order.filledAvgPrice.Some? && a.order.filledAvgPrice.value > 0.0
  {}

  ghost predicate IsPositionOf(p: Position, symbol: string) { p.symbol == symbol && p.qty != 0.0 }

  /** Asked for without a position, the fill counts that would for some position of the
      symbol. */
  lemma SymbolFillIff(a: Answer, symbol: string)
    ensures SymbolTerminalFull(a, symbol) <==> exists p :: IsPositionOf(p, symbol) && TerminalFull(a, KillIntent(p))
  {
    if SymbolTerminalFull(a, symbol) {
      var p := Position(symbol, if a.order.side.Buy? then -a.order.qty else a.order.qty);
      assert IsPositionOf(p, symbol);
      FullFillFlattens(a, p);
    }
    if p :| IsPositionOf(p, symbol) && TerminalFull(a, KillIntent(p)) {
      FullFillFlattens(a, p);
    }
  }

  // -------------------------------------------------------------------- one pass

  ghost predicate HasTurn(positions: seq<Position>, i: int, s: string) {
    0 <= i < |positions| && positions[i].qty != 0.0 && positions[i].symbol == s
  }

  /** Position `i` is one of the symbol and is gone at its turn. */
  ghost predicate GoneAt(v: Adapter, script: Script, positions: seq<Position>, i: int, s: string) {
    HasTurn(positions, i, s) && Gone(v, TurnOf(v, script, positions, i), KillIntent(positions[i]))
  }

  ghost predicate GoneInPass(v: Adapter, script: Script, positions: seq<Position>, s: string) {
    exists i :: GoneAt(v, script, positions, i, s)
  }

  ghost predicate StaysAt(v: Adapter, script: Script, positions: seq<Position>, i: int, s: string, reason: string) {
    && HasTurn(positions, i, s)
    && var turn, intent := TurnOf(v, script, positions, i), KillIntent(positions[i]);
       !Gone(v, turn, intent) && reason == ReasonFor(v, turn, intent)
  }

  ghost predicate StaysInPass(v: Adapter, script: Script, positions: seq<Position>, s: string, reason: string) {
    exists i :: StaysAt(v, script, positions, i, s, reason)
  }

  lemma GoneSnoc(v: Adapter, script: Script, positions: seq<Position>, s: string)
    requires positions != []
    ensures var n := |positions| - 1;
            GoneInPass(v, script, positions, s)
            <==> GoneInPass(v, script, positions[..n], s) || GoneAt(v, script, positions, n, s)
  {
    var n := |positions| - 1;
    forall i | 0 <= i < n
      ensures GoneAt(v, script, positions, i, s) <==> GoneAt(v, script, positions[..n], i, s)
    {
      assert positions[..n][..i] == positions[..i];
    }
  }

  lemma StaysSnoc(v: Adapter, script: Script, positions: seq<Position>, s: string, reason: string)
    requires positions != []
    ensures var n := |positions| - 1;
            StaysInPass(v, script, positions, s, reason)
            <==> StaysInPass(v, script, positions[..n], s, reason) || StaysAt(v, script, positions, n, s, reason)
  {
    var n := |positions| - 1;
    forall i | 0 <= i < n
      ensures StaysAt(v, script, positions, i, s, reason) <==> StaysAt(v, script, positions[..n], i, s, reason)
    {
      assert positions[..n][..i] == positions[..i];
    }
  }

  /** A pass reports flat exactly the symbols that are gone at their turn. */
  lemma {:induction false} FlattenedIff(v: Adapter, script: Script, positions: seq<Position>, s: string)
    ensures s in KillPass(v, script, positions).flattened <==> GoneInPass(v, script, positions, s)
    decreases positions
  {
    if positions != [] {
      var n := |positions| - 1;
      FlattenedIff(v, script, positions[..n], s);
      GoneSnoc(v, script, positions, s);
      SubmitPassesIff(v, KillPass(v, script, positions[..n]).script, KillIntent(positions[n]));
    }
  }

  /** And records as failed exactly the others, each with its reason. */
  lemma {:induction false} FailedIff(v: Adapter, script: Script, positions: seq<Position>, s: string, reason: string)
    ensures (s, reason) in KillPass(v, script, positions).failed <==> StaysInPass(v, script, positions, s, reason)
    decreases positions
  {
    if positions != [] {
      var n := |positions| - 1;
      FailedIff(v, script, positions[..n], s, reason);
      StaysSnoc(v, script, positions, s, reason);
      LastFails(v, KillPass(v, script, positions[..n]), positions[n], s, reason);
    }
  }

  lemma LastFails(v: Adapter, r: PassResult, p: Position, s: string, reason: string)
    ensures var intent := KillIntent(p);
            (s, reason) in Record(r, p.symbol, Submit(v, r.script, intent)).failed
            <==> (s, reason) in r.failed
                 || (s == p.symbol && !Gone(v, r.script, intent) && reason == ReasonFor(v, r.script, intent))
  {
    SubmitPassesIff(v, r.script, KillIntent(p));
    if !Gone(v, r.script, KillIntent(p)) {
      SubmitFailsWith(v, r.script, KillIntent(p));
    }
  }

  // ------------------------------------------------------------------- the trigger

  lemma {:induction false} ReasonsCover(failed: seq<(string, string)>)
    ensures forall s :: s in Reasons(failed) ==> (s, Reasons(failed)[s]) in failed
    ensures forall f :: f in failed ==> f.0 in Reasons(failed)
  {
    ReasonsAreEntries(failed);
    if failed != [] {
      ReasonsCover(failed[..|failed| - 1]);
    }
  }

  /** What the trigger leaves: exactly the symbols held that are not gone at their turn;
      and each is remembered with a reason it stayed for. */
  lemma TriggerResidualIff(k: Protocol, v: Adapter, positions: seq<Position>, atTrigger: seq<string>, s: string)
    requires k.phase.Monitoring?
    ensures var k' := Trigger(k, v, positions, atTrigger);
            && k'.phase.Halted?
            && (s in k'.residual <==> s in atTrigger && !GoneInPass(v, k.script, positions, s))
            && (s in k'.failures <==>
                  s in k'.residual && exists reason :: StaysInPass(v, k.script, positions, s, reason))
            && (s in k'.failures ==> StaysInPass(v, k.script, positions, s, k'.failures[s]))
  {
    FlattenedIff(v, k.script, positions, s);
    RememberedReasons(v, k.script, positions, s);
  }

  lemma RememberedReasons(v: Adapter, script: Script, positions: seq<Position>, s: string)
    ensures var reasons := Reasons(KillPass(v, script, positions).failed);
            && (s in reasons <==> exists reason :: StaysInPass(v, script, positions, s, reason))
            && (s in reasons ==> StaysInPass(v, script, positions, s, reasons[s]))
  {
    var failed := KillPass(v, script, positions).failed;
    ReasonsCover(failed);
    if s in Reasons(failed) {
      FailedIff(v, script, positions, s, Reasons(failed)[s]);
    }
    if reason :| StaysInPass(v, script, positions, s, reason) {
      FailedIff(v, script, positions, s, reason);
    }
  }

  // --------------------------------------------------------------------- a retry

  /** Asked about without a position, the symbol is gone by a full fill of its flatten
      order; or by a 404, for one that was not sent, and a fresh view without it. */
  ghost predicate ConfirmedAt(v: Adapter, script: Script, absent: seq<string>, i: int, s: string) {
    && 0 <= i < |absent| && absent[i] == s && v.brokerPresent
    && var a := Next(ConfirmAll(v, script, absent[..i]).1);
       || SymbolTerminalFull(a, s)
       || (NotFound(a) && s in v.allow && Shows(v, s))
  }

  ghost predicate ConfirmedGone(v: Adapter, script: Script, absent: seq<string>, s: string) {
    exists i :: ConfirmedAt(v, script, absent, i, s)
  }

  lemma ConfirmedSnoc(v: Adapter, script: Script, absent: seq<string>, s: string)
    requires absent != []
    ensures var n := |absent| - 1;
            ConfirmedGone(v, script, absent, s)
            <==> ConfirmedGone(v, script, absent[..n], s) || ConfirmedAt(v, script, absent, n, s)
  {
    var n := |absent| - 1;
    forall i | 0 <= i < n
      ensures ConfirmedAt(v, script, absent, i, s) <==> ConfirmedAt(v, script, absent[..n], i, s)
    {
      assert absent[..n][..i] == absent[..i];
    }
  }

  lemma {:induction false} ConfirmedIff(v: Adapter, script: Script, absent: seq<string>, s: string)
    ensures s in ConfirmAll(v, script, absent).0 <==> ConfirmedGone(v, script, absent, s)
    decreases absent
  {
    if absent != [] {
      ConfirmedIff(v, script, absent[..|absent| - 1], s);
      ConfirmedSnoc(v, script, absent, s);
    }
  }

  /** A retry asks about the residuals that have no position any more, when its adapter
      sees the broker; and covers the positions of the others. */
  lemma AskedIff(k: Protocol, input: RetryInput, s: string, p: Position)
    ensures s in Absent(RetryAdapter(k, input.adapter), k.residual, Covered(k, input)) <==>
              && input.adapter.blind.Some? && s in k.residual
              && forall q :: q in input.positions ==> q.symbol != s
    ensures p in Covered(k, input) <==> p in input.positions && p.symbol in k.residual
  {}

  /** What a retry leaves: exactly the residuals that are neither gone at their turn nor,
      without a position, confirmed; what it could not flatten it remembers with the new
      reason, and the rest as before. */
  lemma RetryResidualIff(k: Protocol, input: RetryInput, s: string)
    requires k.phase.Halted?
    ensures var k' := Retry(k, input.adapter, input.positions);
            var w, covered := RetryAdapter(k, input.adapter), Covered(k, input);
            && k'.phase.Halted?
            && (s in k'.residual <==>
                  && s in k.residual
                  && !GoneInPass(w, ScriptAtPass(k, input), covered, s)
                  && !ConfirmedGone(w, k.script, Absent(w, k.residual, covered), s))
            && (s in k'.residual && !(exists reason :: StaysInPass(w, ScriptAtPass(k, input), covered, s, reason)) ==>
                  if s in k.failures then s in k'.failures && k'.failures[s] == k.failures[s] else s !in k'.failures)
            && (s in k'.residual && (exists reason :: StaysInPass(w, ScriptAtPass(k, input), covered, s, reason)) ==>
                  s in k'.failures && StaysInPass(w, ScriptAtPass(k, input), covered, s, k'.failures[s]))
  {
    if k.residual != [] {
      var w, covered := RetryAdapter(k, input.adapter), Covered(k, input);
      FlattenedIff(w, ScriptAtPass(k, input), covered, s);
      ConfirmedIff(w, k.script, Absent(w, k.residual, covered), s);
      RememberedReasons(w, ScriptAtPass(k, input), covered, s);
    }
  }
}
