/**
 The flatten path as it runs: the broker with its token chokepoint, the adapters
 between it and the kill switch, and the switch's own pass. Each method does what
 FlattenSpec says, and leaves no reduce authorization behind.
 */
module Flatten {
  import opened Wrappers
  import opened Pricing
  import opened Preflight
  import opened FlattenSpec
  import opened KillRestart

  /** The broker of a scenario: it answers from its script, whatever is asked. */
  class Broker {
    const registry: Registry
    var script: Script
    var wire: seq<string>      // symbols of the orders that were placed

    constructor (registry: Registry, script: Script)
      ensures this.registry == registry && this.script == script && wire == []
    {
      this.registry, this.script, wire := registry, script, [];
    }

    /** The chokepoint first, then the placement. */
    method SubmitOrder(intent: Intent, token: Token) returns (a: Answer)
      requires registry.Valid()
      requires intent.isReducing && token.nonce in registry.authorizations
      requires Covers(registry.authorizations[token.nonce], intent)
      modifies this, registry
      ensures registry.Valid() && registry.runtime == old(registry.runtime)
      ensures registry.authorizations == old(registry.authorizations) - {token.nonce}
      ensures a == Next(old(script)) && script == Rest(old(script))
      ensures wire == old(wire) + [intent.symbol]
    {
      var ok := registry.RequireToken(intent, token);
      a := Next(script);
      script := Rest(script);
      wire := wire + [intent.symbol];
    }

    method OrderStatus(orderId: string) returns (a: Answer)
      modifies this`script
      ensures a == Next(old(script)) && script == Rest(old(script))
    {
      a := Next(script);
      script := Rest(script);
    }
  }

  /** The terminal adapter, and with a snapshot the account-blind one. */
  class FlattenAdapter {
    const registry: Registry
    const broker: Broker
    const view: Adapter

    constructor (broker: Broker, view: Adapter)
      ensures this.broker == broker && this.registry == broker.registry && this.view == view
    {
      this.broker, this.registry, this.view := broker, broker.registry, view;
    }

    /** Spends the authorization of an order that is not going to be sent. */
    method ConsumePending(intent: Intent, token: Token)
      requires registry.Valid() && intent.isReducing && token.nonce in registry.authorizations
      requires Covers(registry.authorizations[token.nonce], intent)
      modifies registry
      ensures registry.Valid() && registry.runtime == old(registry.runtime)
      ensures registry.authorizations == old(registry.authorizations) - {token.nonce}
    {
      var ok := registry.RequireToken(intent, token);
    }

    method SubmitOrPending(intent: Intent, token: Token) returns (outcome: Outcome<string>)
      requires registry.Valid() && broker.registry == registry
      requires intent.isReducing && token.nonce in registry.authorizations
      requires Covers(registry.authorizations[token.nonce], intent)
      modifies registry, broker
      ensures registry.Valid() && registry.runtime == old(registry.runtime)
      ensures registry.authorizations == old(registry.authorizations) - {token.nonce}
      ensures var s := FlattenSpec.SubmitOrPending(view, old(broker.script), intent);
              && outcome == s.outcome && broker.script == s.script
              && broker.wire == old(broker.wire) + (if s.sent then [intent.symbol] else [])
    {
      if !view.brokerPresent {
        ConsumePending(intent, token);
        return Fail(PENDING);
      }
      var cap := CapFor(view, intent);
      if cap.None? {
        registry.VoidToken(token);
        return Fail(NO_PRICE);
      }
      var a := broker.SubmitOrder(intent.(limitPrice := cap), token);
      if a.Raised? {
        return Fail(a.text);
      }
      outcome := if TerminalFull(a, intent) then Pass else Fail(PENDING);
    }

    method SubmitChecked(intent: Intent, token: Token) returns (outcome: Outcome<string>)
      requires registry.Valid() && broker.registry == registry
      requires intent.isReducing && token.nonce in registry.authorizations
      requires Covers(registry.authorizations[token.nonce], intent)
      modifies registry, broker
      ensures registry.Valid() && registry.runtime == old(registry.runtime)
      ensures registry.authorizations == old(registry.authorizations) - {token.nonce}
      ensures var s := FlattenSpec.SubmitChecked(view, old(broker.script), intent);
              && outcome == s.outcome && broker.script == s.script
              && broker.wire == old(broker.wire) + (if s.sent then [intent.symbol] else [])
    {
      if view.blind.Some? {
        var snapshot := view.blind.value;
        if snapshot.current && intent.symbol !in snapshot.confirmed {
          ConsumePending(intent, token);
          return Pass;
        }
        if !Exact(view, snapshot, intent) {
          ConsumePending(intent, token);
          return Fail(UNCONFIRMED);
        }
      }
      outcome := SubmitOrPending(intent, token);
    }

    /** One position's flatten: probe first on a retry, and send only what the
        probe and the journaled reason allow. */
    method SubmitOrder(intent: Intent, token: Token) returns (outcome: Outcome<string>)
      requires registry.Valid() && broker.registry == registry
      requires intent.isReducing && token.nonce in registry.authorizations
      requires Covers(registry.authorizations[token.nonce], intent)
      modifies registry, broker
      ensures registry.Valid() && registry.runtime == old(registry.runtime)
      ensures registry.authorizations == old(registry.authorizations) - {token.nonce}
      ensures var s := Submit(view, old(broker.script), intent);
              && outcome == s.outcome && broker.script == s.script
              && broker.wire == old(broker.wire) + (if s.sent then [intent.symbol] else [])
    {
      if view.probeExisting {
        var probe := Ambiguous;
        if view.brokerPresent {
          var a := broker.OrderStatus(intent.intentId);
          probe := Probe(view, a, intent);
        }
        if !probe.SafeToSubmit? {
          ConsumePending(intent, token);
          return if probe.ProvenFull? then Pass else Fail(PENDING);
        }
        if intent.symbol !in view.allow {
          ConsumePending(intent, token);
          return Fail(PENDING);
        }
      }
      outcome := SubmitChecked(intent, token);
    }

    method ConfirmResidualFlat(symbol: string) returns (flat: bool)
      modifies broker`script
      ensures flat == ConfirmFlat(view, Next(old(broker.script)), symbol)
      ensures broker.script == if view.brokerPresent then Rest(old(broker.script)) else old(broker.script)
    {
      if !view.brokerPresent {
        return false;
      }
      var a := broker.OrderStatus(FlattenId(symbol));
      flat := ConfirmFlat(view, a, symbol);
    }
  }

  datatype SwitchState = Active | Flattening | Stopped

  /** Flattens what is held, one position isolated from the next, then always halts. */
  class KillSwitch {
    var state: SwitchState
    var flattened: seq<string>
    var failed: seq<(string, string)>

    constructor ()
      ensures state == Active && flattened == [] && failed == []
    {
      state, flattened, failed := Active, [], [];
    }

    /** Mints a reduce-only authorization for one position and hands it on. The
        mint cannot fail on an intent built from the position itself. */
    method FlattenOne(adapter: FlattenAdapter, p: Position) returns (outcome: Outcome<string>)
      requires adapter.registry.Valid() && adapter.broker.registry == adapter.registry && p.qty != 0.0
      modifies adapter.registry, adapter.broker
      ensures adapter.registry.Valid()
      ensures adapter.registry.authorizations == old(adapter.registry.authorizations)
      ensures var s := Submit(adapter.view, old(adapter.broker.script), KillIntent(p));
              && outcome == s.outcome && adapter.broker.script == s.script
              && adapter.broker.wire == old(adapter.broker.wire) + (if s.sent then [p.symbol] else [])
    {
      var intent := KillIntent(p);
      var minted := adapter.registry.MintReduceOnly(Some(p), intent);
      var token := minted.value;
      outcome := adapter.SubmitOrder(intent, token);
      assert adapter.registry.authorizations == old(adapter.registry.authorizations);
    }

    /** What the pass has done so far. */
    ghost predicate Did(adapter: FlattenAdapter, r: PassResult, wire0: seq<string>)
      reads this, adapter.broker
    {
      && flattened == r.flattened && failed == r.failed
      && adapter.broker.script == r.script && adapter.broker.wire == wire0 + r.sent
    }

    method Isolate(adapter: FlattenAdapter, p: Position, ghost r: PassResult, ghost wire0: seq<string>)
      requires adapter.registry.Valid() && adapter.broker.registry == adapter.registry && p.qty != 0.0
      requires Did(adapter, r, wire0)
      modifies this, adapter.registry, adapter.broker
      ensures adapter.registry.Valid()
      ensures adapter.registry.authorizations == old(adapter.registry.authorizations)
      ensures Did(adapter, Record(r, p.symbol, Submit(adapter.view, r.script, KillIntent(p))), wire0)
    {
      var outcome := FlattenOne(adapter, p);
      match outcome {
        case Pass => flattened := flattened + [p.symbol];
        case Fail(reason) => failed := failed + [(p.symbol, reason)];
      }
    }

    method Trigger(adapter: FlattenAdapter, positions: seq<Position>)
      requires adapter.registry.Valid() && adapter.broker.registry == adapter.registry
      requires flattened == []
      modifies this, adapter.registry, adapter.broker
      ensures state == Stopped
      ensures adapter.registry.Valid()
      ensures adapter.registry.authorizations == old(adapter.registry.authorizations)
      ensures Did(adapter, KillPass(adapter.view, old(adapter.broker.script), positions), old(adapter.broker.wire))
    {
      state := Flattening;
      failed := [];
      ghost var wire0 := adapter.broker.wire;
      ghost var r := KillPass(adapter.view, old(adapter.broker.script), []);
      var i := 0;
      while i < |positions|
        invariant 0 <= i <= |positions|
        invariant adapter.registry.Valid()
        invariant adapter.registry.authorizations == old(adapter.registry.authorizations)
        invariant r == KillPass(adapter.view, old(adapter.broker.script), positions[..i])
        invariant Did(adapter, r, wire0)
      {
        var p := positions[i];
        OneMore(adapter.view, old(adapter.broker.script), positions, i);
        if p.qty != 0.0 {
          Isolate(adapter, p, r, wire0);
          r := Record(r, p.symbol, Submit(adapter.view, r.script, KillIntent(p)));
        }
        i := i + 1;
      }
      assert positions[..|positions|] == positions;
      state := Stopped;
    }
  }

  lemma OneMore(v: Adapter, script: Script, positions: seq<Position>, i: nat)
    requires i < |positions|
    ensures var r, p := KillPass(v, script, positions[..i]), positions[i];
            KillPass(v, script, positions[..i + 1])
            == if p.qty == 0.0 then r else Record(r, p.symbol, Submit(v, r.script, KillIntent(p)))
  {
    assert positions[..i + 1][..i] == positions[..i];
  }

  /** The latch around the switch: it triggers once, remembers what is left, and writes
      down what a restart needs. */
  class RiskKillSwitch {
    const broker: Broker
    var state: Phase
    var residual: seq<string>
    var residualFailures: map<string, string>
    var ledger: seq<KillRow>

    constructor (broker: Broker)
      ensures this.broker == broker && View() == Fresh(broker.script).live.(wire := broker.wire) && ledger == []
    {
      this.broker, state, residual, residualFailures, ledger := broker, Monitoring, [], map[], [];
    }

    function View(): Protocol reads this, broker {
      Protocol(state, residual, residualFailures, broker.wire, broker.script)
    }

    /** The switch with its ledger. */
    function Now(): Desk reads this, broker { Desk(View(), ledger) }

    method TriggerKill(view: Adapter, positions: seq<Position>, atTrigger: seq<string>)
      requires broker.registry.Valid()
      modifies this, broker, broker.registry
      ensures broker.registry.Valid() && broker.registry.authorizations == old(broker.registry.authorizations)
      ensures Now() == Happen(old(Now()), Triggered(view, positions, atTrigger))
    {
      if state.Halted? {
        return;
      }
      residual := atTrigger;
      ledger := ledger + [Began(atTrigger)];
      var adapter := new FlattenAdapter(broker, view);
      var inner := new KillSwitch();
      inner.Trigger(adapter, positions);
      state := Halted;
      residual := Filter(atTrigger, ToSet(inner.flattened));
      residualFailures := Restrict(Reasons(inner.failed), residual);
      ledger := ledger + [Ended(inner.failed, residual)];
    }

    /** Asks the adapter about each residual whose position is gone. */
    method ConfirmAbsent(adapter: FlattenAdapter, absent: seq<string>) returns (confirmed: seq<string>)
      requires adapter.broker == broker
      modifies broker`script
      ensures ConfirmAll(adapter.view, old(broker.script), absent) == (confirmed, broker.script)
    {
      confirmed := [];
      var i := 0;
      while i < |absent|
        invariant 0 <= i <= |absent|
        invariant ConfirmAll(adapter.view, old(broker.script), absent[..i]) == (confirmed, broker.script)
      {
        assert absent[..i + 1][..i] == absent[..i];
        var flat := adapter.ConfirmResidualFlat(absent[i]);
        if flat {
          confirmed := confirmed + [absent[i]];
        }
        i := i + 1;
      }
      assert absent[..|absent|] == absent;
    }

    /** False stands for the RiskError of a retry that is not legal. */
    method RetryResidual(desk: Adapter, positions: seq<Position>) returns (legal: bool)
      requires broker.registry.Valid()
      modifies this, broker, broker.registry
      ensures broker.registry.Valid() && broker.registry.authorizations == old(broker.registry.authorizations)
      ensures Now() == Happen(old(Now()), Retried(RetryInput(desk, positions)))
      ensures legal <==> old(Legal(View()))
    {
      if state.Monitoring? || residual == [] {
        return false;
      }
      var view := desk.(probeExisting := true, allow := FlattenSpec.Allowed(residualFailures));
      var adapter := new FlattenAdapter(broker, view);
      var subset := OfResidual(positions, residual);
      var absent := Absent(view, residual, subset);
      var confirmed := ConfirmAbsent(adapter, absent);
      var inner := new KillSwitch();
      inner.Trigger(adapter, subset);
      residual := Filter(residual, ToSet(inner.flattened) + ToSet(confirmed));
      residualFailures := Restrict(residualFailures + Reasons(inner.failed), residual);
      ledger := ledger + [RetryDone(inner.flattened + confirmed, inner.failed, residual)];
      state := Halted;
      legal := true;
    }

    /** A restart: the rows, in order, are all there is to go by. */
    method Rehydrate(rows: seq<KillRow>)
      modifies this
      ensures LatchOf(View()) == Rehydrated(rows) && ledger == rows
    {
      state, residual, residualFailures := Monitoring, [], map[];
      var i := 0;
      while i < |rows|
        invariant 0 <= i <= |rows|
        invariant Latch(state, residual, residualFailures) == Rehydrated(rows[..i])
      {
        assert rows[..i + 1][..i] == rows[..i];
        match rows[i] {
          case Began(atTrigger) =>
            state, residual, residualFailures := Halted, atTrigger, map[];
          case Ended(failed, after) =>
            state, residual, residualFailures := Halted, after, Restrict(Reasons(failed), after);
          case RetryDone(flattened, failed, after) =>
            residual := after;
            residualFailures := Restrict((residualFailures - ToSet(flattened)) + Reasons(failed), after);
        }
        i := i + 1;
      }
      assert rows[..|rows|] == rows;
      ledger := rows;
    }
  }
}
