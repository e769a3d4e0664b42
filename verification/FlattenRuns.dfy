/**
 Runs of the kill protocol against any broker: exactly when a second flatten order
 goes out, and what the shipped broker rules out (risk/risk_kill.py, broker/alpaca.py).
 */
module FlattenRuns {
  import opened Wrappers
  import opened Pricing
  import opened Preflight
  import opened FlattenSpec

  // ------------------------------------------------------------ the second order

  /** When an order is handed to the broker. */
  lemma SentIff(v: Adapter, script: Script, intent: Intent)
    ensures Submit(v, script, intent).sent <==>
              && v.brokerPresent && CapFor(v, intent).Some?
              && (v.probeExisting ==> NotFound(Next(script)) && intent.symbol in v.allow)
              && (v.blind.Some? ==> Exact(v, v.blind.value, intent))
  {}

  /** Handed over, it fails for a safe reason exactly if the broker raised in the words
      of one. */
  lemma SentFailsSafelyIff(v: Adapter, script: Script, intent: Intent)
    requires Submit(v, script, intent).sent
    ensures var s := Submit(v, script, intent);
            var a := if v.probeExisting then Next(Rest(script)) else Next(script);
            s.outcome.Fail? && s.outcome.error in SAFE <==> a.Raised? && a.text in SAFE
  {
    assert PENDING[0] != UNCONFIRMED[0] && PENDING[0] != NO_PRICE[0];
  }

  /** The script when position `i` has its turn. */
  function TurnOf(v: Adapter, script: Script, positions: seq<Position>, i: nat): Script
    requires i < |positions|
  {
    KillPass(v, script, positions[..i]).script
  }

  ghost predicate SendsAt(v: Adapter, script: Script, positions: seq<Position>, i: int) {
    && 0 <= i < |positions| && positions[i].qty != 0.0
    && Submit(v, TurnOf(v, script, positions, i), KillIntent(positions[i])).sent
  }

  ghost predicate SendsSymbol(v: Adapter, script: Script, positions: seq<Position>, s: string) {
    exists i :: SendsAt(v, script, positions, i) && positions[i].symbol == s
  }

  lemma {:induction false} PassSendsOnce(v: Adapter, script: Script, positions: seq<Position>)
    requires Distinct(positions)
    ensures NoRepeats(KillPass(v, script, positions).sent)
    ensures forall s :: s in KillPass(v, script, positions).sent ==> s in Symbols(positions)
    decreases positions
  {
    if positions != [] {
      PassSendsOnce(v, script, positions[..|positions| - 1]);
      LastIsNew(positions);
    }
  }

  lemma SendsAtFront(v: Adapter, script: Script, positions: seq<Position>, i: int)
    requires 0 <= i < |positions| - 1
    ensures SendsAt(v, script, positions, i) <==> SendsAt(v, script, positions[..|positions| - 1], i)
  {
    assert positions[..|positions| - 1][..i] == positions[..i];
  }

  lemma LastSends(v: Adapter, script: Script, positions: seq<Position>)
    requires positions != []
    ensures var n := |positions| - 1;
            KillPass(v, script, positions).sent
            == KillPass(v, script, positions[..n]).sent
               + (if SendsAt(v, script, positions, n) then [positions[n].symbol] else [])
  {
    var sent := KillPass(v, script, positions[..|positions| - 1]).sent;
    assert sent + [] == sent;
  }

  lemma SendsSymbolSnoc(v: Adapter, script: Script, positions: seq<Position>, s: string)
    requires positions != []
    ensures var n := |positions| - 1;
            SendsSymbol(v, script, positions, s)
            <==> SendsSymbol(v, script, positions[..n], s) || (SendsAt(v, script, positions, n) && positions[n].symbol == s)
  {
    var n := |positions| - 1;
    if SendsSymbol(v, script, positions[..n], s) {
      var i :| SendsAt(v, script, positions[..n], i) && positions[..n][i].symbol == s;
      SendsAtFront(v, script, positions, i);
    }
    if SendsSymbol(v, script, positions, s) {
      var i :| SendsAt(v, script, positions, i) && positions[i].symbol == s;
      if i < n {
        SendsAtFront(v, script, positions, i);
      }
    }
  }

  lemma {:induction false} PassSendsIff(v: Adapter, script: Script, positions: seq<Position>, s: string)
    ensures s in KillPass(v, script, positions).sent <==> SendsSymbol(v, script, positions, s)
    decreases positions
  {
    if positions != [] {
      PassSendsIff(v, script, positions[..|positions| - 1], s);
      LastSends(v, script, positions);
      SendsSymbolSnoc(v, script, positions, s);
    }
  }

  /** What a retry works with: the adapter, the positions it covers, and the script
      left when it comes to them. */
  function Covered(k: Protocol, input: RetryInput): seq<Position> { OfResidual(input.positions, k.residual) }

  function ScriptAtPass(k: Protocol, input: RetryInput): Script {
    var w := RetryAdapter(k, input.adapter);
    ConfirmAll(w, k.script, Absent(w, k.residual, Covered(k, input))).1
  }

  /** At its turn in a retry, a symbol whose order is on the wire already carries a safe
      reason, the probe answers 404, and the view and the price let it through. */
  ghost predicate Resends(k: Protocol, input: RetryInput, i: int)
    requires k.phase.Halted?
  {
    var w, subset := RetryAdapter(k, input.adapter), Covered(k, input);
    && 0 <= i < |subset| && subset[i].qty != 0.0
    && var intent := KillIntent(subset[i]);
    && intent.symbol in k.wire
    && intent.symbol in k.failures && k.failures[intent.symbol] in SAFE
    && NotFound(Next(TurnOf(w, ScriptAtPass(k, input), subset, i)))
    && w.brokerPresent && CapFor(w, intent).Some?
    && (w.blind.Some? ==> Exact(w, w.blind.value, intent))
  }

  /** One retry sends a second order for some symbol exactly if one of them meets all of
      that at its turn. */
  lemma SecondSendIff(k: Protocol, input: RetryInput)
    requires k.phase.Halted? && NoRepeats(k.wire) && Distinct(input.positions)
    ensures NoRepeats(Retry(k, input.adapter, input.positions).wire) <==> !SomeResent(k, input)
    ensures k.wire <= Retry(k, input.adapter, input.positions).wire
  {
    if k.residual == [] {
      NothingCovered(input.positions);
    } else {
      var w, subset, rest := RetryAdapter(k, input.adapter), Covered(k, input), ScriptAtPass(k, input);
      SubsetDistinct(input.positions, k.residual);
      PassSendsOnce(w, rest, subset);
      var sent := KillPass(w, rest, subset).sent;
      forall i ensures Resends(k, input, i) <==> SendsAt(w, rest, subset, i) && subset[i].symbol in k.wire {
        if 0 <= i < |subset| {
          SentIff(w, TurnOf(w, rest, subset, i), KillIntent(subset[i]));
        }
      }
      if SomeResent(k, input) {
        var i :| Resends(k, input, i);
        PassSendsIff(w, rest, subset, subset[i].symbol);
        SharedRepeats(k.wire, sent, subset[i].symbol);
      } else {
        forall s | s in sent ensures s !in k.wire {
          PassSendsIff(w, rest, subset, s);
          var i :| SendsAt(w, rest, subset, i) && subset[i].symbol == s;
          assert !Resends(k, input, i);
        }
        JoinNoRepeats(k.wire, sent);
      }
    }
  }

  lemma {:induction false} NothingCovered(positions: seq<Position>)
    ensures OfResidual(positions, []) == []
  {
    if positions != [] {
      NothingCovered(positions[..|positions| - 1]);
    }
  }

  lemma SharedRepeats(xs: seq<string>, ys: seq<string>, s: string)
    requires s in xs && s in ys
    ensures !NoRepeats(xs + ys)
  {
    var i :| 0 <= i < |xs| && xs[i] == s;
    var j :| 0 <= j < |ys| && ys[j] == s;
    assert (xs + ys)[i] == (xs + ys)[|xs| + j];
  }

  ghost predicate SomeResent(k: Protocol, input: RetryInput)
    requires k.phase.Halted?
  {
    exists i :: Resends(k, input, i)
  }

  ghost predicate NeverResends(k: Protocol, retries: seq<RetryInput>) {
    retries == []
    || (var before := Run(k, retries[..|retries| - 1]);
        && NeverResends(k, retries[..|retries| - 1])
        && before.phase.Halted? && !SomeResent(before, retries[|retries| - 1]))
  }

  /** Over any number of retries: each symbol is sent at most once exactly if no retry
      ever meets such a symbol, whatever the broker says. */
  lemma {:induction false} RunSendsOnceIff(k: Protocol, retries: seq<RetryInput>)
    requires k.phase.Halted? && NoRepeats(k.wire)
    requires forall r :: r in retries ==> Distinct(r.positions)
    ensures Run(k, retries).phase.Halted?
    ensures NoRepeats(Run(k, retries).wire) <==> NeverResends(k, retries)
    decreases retries
  {
    if retries != [] {
      var n := |retries| - 1;
      var last := retries[n];
      assert last in retries;
      RunSendsOnceIff(k, retries[..n]);
      var before := Run(k, retries[..n]);
      RetryExtends(before, last);
      if NoRepeats(before.wire) {
        SecondSendIff(before, last);
      } else {
        PrefixRepeats(before.wire, Run(k, retries).wire);
      }
    }
  }

  lemma PrefixRepeats(xs: seq<string>, ys: seq<string>)
    requires xs <= ys && !NoRepeats(xs)
    ensures !NoRepeats(ys)
  {
    var i, j :| 0 <= i < j < |xs| && xs[i] == xs[j];
    assert ys[i] == ys[j];
  }

  lemma RetryExtends(k: Protocol, input: RetryInput)
    ensures k.wire <= Retry(k, input.adapter, input.positions).wire
  {}

  /** A submit that raises with some message, then a late 404, then anything. */
  function Colliding(message: string, text: string): Script {
    [Raised(None, message), ErrorData(Some(404)), Raised(None, text)]
  }

  function OneShare(s: string): Position { Position(s, 1.0) }

  function OneShareDesk(s: string): Adapter {
    Adapter(true, map[s := Touches(Some(100.0), Some(100.0))], 0.0, false, {}, Some(Snapshot(true, map[s := 1.0])))
  }

  lemma DeskPrices(s: string, v: Adapter)
    requires v.quotes == OneShareDesk(s).quotes && v.capBps == 0.0
    ensures CapFor(v, KillIntent(OneShare(s))).Some?
  {
    DownToGridIsGreatest(100.0, 1.0);
  }

  lemma CollidingTrigger(s: string, message: string, text: string)
    ensures Trigger(Start(Colliding(message, text)), OneShareDesk(s), [OneShare(s)], [s])
            == Protocol(Halted, [s], map[s := message], [s], Colliding(message, text)[1..])
  {
    var v, script := OneShareDesk(s), Colliding(message, text);
    DeskPrices(s, v);
    assert Submit(v, script, KillIntent(OneShare(s))) == Step(Fail(message), true, script[1..]);
    OnePositionPass(v, script, OneShare(s));
    assert KillPass(v, script, [OneShare(s)]) == PassResult([], [(s, message)], [s], script[1..]);
    OneEntry(s, message);
    assert ToSet([]) == {};
    assert Restrict(map[s := message], [s]) == map[s := message];
  }

  /** The input on which they are met: a broker whose submit fails with the words of a
      safe reason after the order has reached it. The 404 that follows lets the retry
      send a second order; with any other words it does not. */
  lemma ForeignBrokerHistory(s: string, message: string, text: string)
    ensures var k := Trigger(Start(Colliding(message, text)), OneShareDesk(s), [OneShare(s)], [s]);
            && Distinct([OneShare(s)])
            && Run(k, [RetryInput(OneShareDesk(s), [OneShare(s)])]).wire
               == if message in SAFE then [s, s] else [s]
  {
    CollidingTrigger(s, message, text);
    var k := Trigger(Start(Colliding(message, text)), OneShareDesk(s), [OneShare(s)], [s]);
    CollidingRetry(s, message, text);
    OneRetry(k, RetryInput(OneShareDesk(s), [OneShare(s)]));
  }

  lemma CollidingRetry(s: string, message: string, text: string)
    ensures var k := Protocol(Halted, [s], map[s := message], [s], Colliding(message, text)[1..]);
            Retry(k, OneShareDesk(s), [OneShare(s)]).wire == if message in SAFE then [s, s] else [s]
  {
    var script := Colliding(message, text)[1..];
    var k := Protocol(Halted, [s], map[s := message], [s], script);
    var w := RetryAdapter(k, OneShareDesk(s));
    DeskPrices(s, w);
    assert s in w.allow <==> message in SAFE;
    SentIff(w, script, KillIntent(OneShare(s)));
    OnePositionPass(w, script, OneShare(s));
    OnePositionSubset(s);
    OneEntry(s, message);
  }

  lemma OnePositionSubset(s: string)
    ensures OfResidual([OneShare(s)], [s]) == [OneShare(s)]
    ensures Symbols([OneShare(s)]) == {s}
  {
    assert [OneShare(s)][..0] == [];
    assert OneShare(s) in [OneShare(s)];
  }

  lemma OnePositionPass(v: Adapter, script: Script, p: Position)
    requires p.qty != 0.0
    ensures KillPass(v, script, [p])
            == Record(PassResult([], [], [], script), p.symbol, Submit(v, script, KillIntent(p)))
  {
    assert [p][..0] == [];
  }

  lemma OneEntry(symbol: string, reason: string)
    ensures Reasons([(symbol, reason)]) == map[symbol := reason]
    ensures Filter([symbol], {}) == [symbol] && Filter([symbol], {symbol}) == []
  {
    assert [(symbol, reason)][..0] == [] && [symbol][..0] == [];
  }

  lemma OneRetry(k: Protocol, input: RetryInput)
    ensures Run(k, [input]) == Retry(k, input.adapter, input.positions)
  {
    assert [input][..0] == [] && Run(k, []) == k;
  }

  // ---------------------------------------------------------- the shipped broker

  /** What can come out of the shipped broker's placement as an exception: its own
      refusals, or something a library below it raises. HTTP errors do not: they are
      returned as data. */
  datatype Escape =
    | SyntheticRefused
    | NoMarketOrders
    | WholeSharesOnly
    | LibraryError(message: string)

  /** The first words of each message. */
  function Message(e: Escape): string {
    match e
    case SyntheticRefused => "synthetic-namespaced intent"
    case NoMarketOrders => "no market-order payload"
    case WholeSharesOnly => "wire payload requires"
    case LibraryError(message) => message
  }

  datatype ShippedAnswer =
    | Order(order: BrokerOrder)
    | NoOrder
    | HttpError(status: Option<int>)
    | Escaped(what: Escape)

  /** The message is not, letter for letter, one of the two safe reasons. */
  predicate OwnWords(a: ShippedAnswer) {
    a.Escaped? && a.what.LibraryError? ==> a.what.message !in SAFE
  }

  function AsAnswer(a: ShippedAnswer): Answer {
    match a
    case Order(order) => Payload(order)
    case NoOrder => Unparseable
    case HttpError(status) => ErrorData(status)
    case Escaped(what) => Raised(None, Message(what))
  }

  function AsScript(answers: seq<ShippedAnswer>): Script { seq(|answers|, i requires 0 <= i < |answers| => AsAnswer(answers[i])) }

  lemma BlankIsNotSafe(text: string)
    requires ' ' in text
    ensures text !in SAFE
  {
    assert ' ' !in UNCONFIRMED && ' ' !in NO_PRICE;
  }

  /** The broker's own refusals have a blank in them. */
  lemma EscapeIsSafeIff(e: Escape)
    ensures Message(e) in SAFE <==> e.LibraryError? && e.message in SAFE
  {
    match e
    case SyntheticRefused => assert Message(e)[20] == ' '; BlankIsNotSafe(Message(e));
    case NoMarketOrders => assert Message(e)[2] == ' '; BlankIsNotSafe(Message(e));
    case WholeSharesOnly => assert Message(e)[4] == ' '; BlankIsNotSafe(Message(e));
    case LibraryError(_) =>
  }

  /** Of all that can come out of it, only a library error with exactly the text of a
      safe reason reads like one. */
  lemma ShippedIsPoliteIff(answers: seq<ShippedAnswer>)
    ensures Polite(AsScript(answers)) <==> forall a :: a in answers ==> OwnWords(a)
  {
    var script := AsScript(answers);
    forall i | 0 <= i < |answers|
      ensures OwnWords(answers[i]) <==> (script[i].Raised? ==> script[i].text !in SAFE)
    {
      if answers[i].Escaped? {
        EscapeIsSafeIff(answers[i].what);
      }
    }
    assert forall i :: 0 <= i < |answers| ==> script[i] in script && answers[i] in answers;
  }

  /** So with the shipped broker there is at most one flatten order per symbol, unless a
      library below it raises with exactly that text. */
  lemma ShippedAtMostOne(answers: seq<ShippedAnswer>, v: Adapter, positions: seq<Position>, atTrigger: seq<string>,
                         retries: seq<RetryInput>)
    requires forall a :: a in answers ==> OwnWords(a)
    requires Distinct(positions) && forall r :: r in retries ==> Distinct(r.positions)
    ensures NoRepeats(Run(Trigger(Start(AsScript(answers)), v, positions, atTrigger), retries).wire)
  {
    ShippedIsPoliteIff(answers);
    AtMostOneFlattenPerSymbol(AsScript(answers), v, positions, atTrigger, retries);
  }
}
