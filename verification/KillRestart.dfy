/**
 The kill switch across crashes and restarts (risk/risk_kill.py rehydrate and its
 ledger rows): a row before the flatten, a row after it, a row after each retry; and
 a process that may stop in between, with orders already on the wire.
 */
module KillRestart {
  import opened Wrappers
  import opened Pricing
  import opened Preflight
  import opened FlattenSpec
  import opened FlattenRuns

  datatype KillRow =
    | Began(residual: seq<string>)
    | Ended(failed: seq<(string, string)>, residual: seq<string>)
    | RetryDone(flattened: seq<string>, failed: seq<(string, string)>, residual: seq<string>)

  /** What the switch remembers. */
  datatype Latch = Latch(phase: Phase, residual: seq<string>, failures: map<string, string>)

  function LatchOf(k: Protocol): Latch { Latch(k.phase, k.residual, k.failures) }

  function After(l: Latch, row: KillRow): Latch {
    match row
    case Began(residual) => Latch(Halted, residual, map[])
    case Ended(failed, residual) => Latch(Halted, residual, Restrict(Reasons(failed), residual))
    case RetryDone(flattened, failed, residual) =>
      Latch(l.phase, residual, Restrict((l.failures - ToSet(flattened)) + Reasons(failed), residual))
  }

  /** The fold of a restart. A flatten that began and did not end counts as halted. */
  function Rehydrated(rows: seq<KillRow>): Latch {
    if rows == [] then Latch(Monitoring, [], map[])
    else After(Rehydrated(rows[..|rows| - 1]), rows[|rows| - 1])
  }

  lemma RehydratedSnoc(rows: seq<KillRow>, row: KillRow)
    ensures Rehydrated(rows + [row]) == After(Rehydrated(rows), row)
  {
    assert (rows + [row])[..|rows|] == rows;
  }

  /** The switch and its ledger. */
  datatype Desk = Desk(live: Protocol, ledger: seq<KillRow>)

  /** `turns` positions were dealt with before the process stopped, and `probed` says
      whether the next one had been asked about. */
  datatype Happening =
    | Triggered(adapter: Adapter, positions: seq<Position>, atTrigger: seq<string>)
    | Retried(input: RetryInput)
    | Restarted
    | CrashedTrigger(adapter: Adapter, positions: seq<Position>, atTrigger: seq<string>, turns: nat, probed: bool)
    | CrashedRetry(input: RetryInput, asked: nat, turns: nat, probed: bool)

  function Restart(ledger: seq<KillRow>, wire: seq<string>, script: Script): Desk {
    var l := Rehydrated(ledger);
    Desk(Protocol(l.phase, l.residual, l.failures, wire, script), ledger)
  }

  function UpTo<T>(xs: seq<T>, n: nat): seq<T> { if n < |xs| then xs[..n] else xs }

  /** A pass that stops after some of its positions. */
  function CutPass(v: Adapter, script: Script, positions: seq<Position>, turns: nat, probed: bool): (seq<string>, Script) {
    var r := KillPass(v, script, UpTo(positions, turns));
    (r.sent, if probed then Rest(r.script) else r.script)
  }

  predicate Legal(k: Protocol) { k.phase.Halted? && k.residual != [] }

  function DoTrigger(d: Desk, v: Adapter, positions: seq<Position>, atTrigger: seq<string>): Desk {
    var k := Trigger(d.live, v, positions, atTrigger);
    if d.live.phase.Halted? then d
    else Desk(k, d.ledger + [Began(atTrigger)] + [Ended(KillPass(v, d.live.script, positions).failed, k.residual)])
  }

  function DoRetry(d: Desk, input: RetryInput): Desk {
    if !Legal(d.live) then d
    else
      var w, subset := RetryAdapter(d.live, input.adapter), Covered(d.live, input);
      var (confirmed, rest) := ConfirmAll(w, d.live.script, Absent(w, d.live.residual, subset));
      var pass := KillPass(w, rest, subset);
      var k := Retry(d.live, input.adapter, input.positions);
      Desk(k, d.ledger + [RetryDone(pass.flattened + confirmed, pass.failed, k.residual)])
  }

  /** A retry that stops while it asks about absent residuals, or in its pass: what it
      sent by then, and the script left. */
  function CutRetry(k: Protocol, input: RetryInput, asked: nat, turns: nat, probed: bool): (seq<string>, Script) {
    var w := RetryAdapter(k, input.adapter);
    var absent := Absent(w, k.residual, Covered(k, input));
    if !Legal(k) then ([], k.script)
    else if asked < |absent| then ([], ConfirmAll(w, k.script, absent[..asked]).1)
    else CutPass(w, ScriptAtPass(k, input), Covered(k, input), turns, probed)
  }

  function Happen(d: Desk, h: Happening): Desk {
    match h
    case Triggered(v, positions, atTrigger) => DoTrigger(d, v, positions, atTrigger)
    case Retried(input) => DoRetry(d, input)
    case Restarted => Restart(d.ledger, d.live.wire, d.live.script)
    case CrashedTrigger(v, positions, atTrigger, turns, probed) =>
      if d.live.phase.Halted? then Restart(d.ledger, d.live.wire, d.live.script)
      else
        var (sent, script) := CutPass(v, d.live.script, positions, turns, probed);
        Restart(d.ledger + [Began(atTrigger)], d.live.wire + sent, script)
    case CrashedRetry(input, asked, turns, probed) =>
      var (sent, script) := CutRetry(d.live, input, asked, turns, probed);
      Restart(d.ledger, d.live.wire + sent, script)
  }

  // ------------------------------------------------------------- what a restart knows

  /** The ledger holds what the switch remembers. */
  ghost predicate Rebuilt(d: Desk) { LatchOf(d.live) == Rehydrated(d.ledger) }

  lemma RetryRowFolds(failures: map<string, string>, flattened: seq<string>, failed: seq<(string, string)>, residual: seq<string>)
    requires forall s :: s in residual ==> s !in flattened
    ensures Restrict((failures - ToSet(flattened)) + Reasons(failed), residual) == Restrict(failures + Reasons(failed), residual)
  {}

  /** Whatever happens, crashes included, a restart finds what the switch knew. */
  lemma HappenRebuilds(d: Desk, h: Happening)
    requires Rebuilt(d)
    ensures Rebuilt(Happen(d, h))
  {
    match h
    case Triggered(v, positions, atTrigger) =>
      if d.live.phase.Monitoring? {
        var k := Trigger(d.live, v, positions, atTrigger);
        RehydratedSnoc(d.ledger, Began(atTrigger));
        RehydratedSnoc(d.ledger + [Began(atTrigger)], Ended(KillPass(v, d.live.script, positions).failed, k.residual));
      }
    case Retried(input) =>
      if Legal(d.live) {
        var w, subset := RetryAdapter(d.live, input.adapter), Covered(d.live, input);
        var (confirmed, rest) := ConfirmAll(w, d.live.script, Absent(w, d.live.residual, subset));
        var pass := KillPass(w, rest, subset);
        var k := Retry(d.live, input.adapter, input.positions);
        var row := RetryDone(pass.flattened + confirmed, pass.failed, k.residual);
        RehydratedSnoc(d.ledger, row);
        RetryRowFolds(d.live.failures, pass.flattened + confirmed, pass.failed, k.residual);
      }
    case Restarted =>
    case CrashedTrigger(_, _, _, _, _) =>
    case CrashedRetry(_, _, _, _) =>
  }

  // -------------------------------------------------------- orders across restarts

  ghost predicate DistinctIn(h: Happening) {
    match h
    case Triggered(_, positions, _) => Distinct(positions)
    case CrashedTrigger(_, positions, _, _, _) => Distinct(positions)
    case Retried(input) => Distinct(input.positions)
    case CrashedRetry(input, _, _, _) => Distinct(input.positions)
    case Restarted => true
  }

  lemma CutPassSends(v: Adapter, script: Script, positions: seq<Position>, turns: nat, probed: bool)
    requires Distinct(positions) && Polite(script)
    ensures var (sent, rest) := CutPass(v, script, positions, turns, probed);
            Polite(rest) && NoRepeats(sent) && forall s :: s in sent ==> (v.probeExisting ==> s in v.allow)
  {
    KillPassSends(v, script, UpTo(positions, turns));
  }

  /** A crash in the middle of the first flatten forgets why its orders failed, and so
      allows none of them again. */
  lemma CrashedTriggerIsSound(d: Desk, h: Happening)
    requires h.CrashedTrigger? && Sound(d.live) && Rebuilt(d) && DistinctIn(h)
    ensures Sound(Happen(d, h).live)
  {
    if d.live.phase.Monitoring? {
      CutPassSends(h.adapter, d.live.script, h.positions, h.turns, h.probed);
      var (sent, script) := CutPass(h.adapter, d.live.script, h.positions, h.turns, h.probed);
      RehydratedSnoc(d.ledger, Began(h.atTrigger));
      assert d.live.wire + sent == sent;
    }
  }

  /** What a cut retry sends was allowed, for a safe reason, and not on the wire. */
  lemma CutRetrySends(k: Protocol, input: RetryInput, asked: nat, turns: nat, probed: bool)
    requires Sound(k) && Distinct(input.positions)
    ensures var (sent, rest) := CutRetry(k, input, asked, turns, probed);
            && Polite(rest) && NoRepeats(sent)
            && forall s :: s in sent ==> s in Allowed(k.failures) && s !in k.wire
  {
    var w := RetryAdapter(k, input.adapter);
    var absent := Absent(w, k.residual, Covered(k, input));
    if Legal(k) {
      if asked < |absent| {
        ConfirmingKeepsPolite(w, k.script, absent[..asked]);
      } else {
        SubsetDistinct(input.positions, k.residual);
        ConfirmingKeepsPolite(w, k.script, absent);
        CutPassSends(w, ScriptAtPass(k, input), Covered(k, input), turns, probed);
      }
    }
  }

  /** A crash in the middle of a retry leaves the safe reason of what it had just sent:
      the switch stays sound exactly if nothing had been sent. */
  lemma CrashedRetrySoundIff(d: Desk, h: Happening)
    requires h.CrashedRetry? && Sound(d.live) && Rebuilt(d) && DistinctIn(h)
    ensures NoRepeats(Happen(d, h).live.wire)
    ensures Sound(Happen(d, h).live) <==> Happen(d, h).live.wire == d.live.wire
  {
    var k := d.live;
    CutRetrySends(k, h.input, h.asked, h.turns, h.probed);
    var (sent, script) := CutRetry(k, h.input, h.asked, h.turns, h.probed);
    JoinNoRepeats(k.wire, sent);
    if sent == [] {
      assert k.wire + sent == k.wire;
    } else {
      assert sent[0] in sent && sent[0] in k.wire + sent;
      assert sent[0] in k.failures && k.failures[sent[0]] in SAFE;
    }
  }

  /** One step: sound again, exactly unless it is a retry that crashed after a send. */
  lemma HappenSoundIff(d: Desk, h: Happening)
    requires Sound(d.live) && Rebuilt(d) && DistinctIn(h)
    ensures NoRepeats(Happen(d, h).live.wire)
    ensures Sound(Happen(d, h).live) <==> !(h.CrashedRetry? && Happen(d, h).live.wire != d.live.wire)
  {
    match h
    case Triggered(v, positions, atTrigger) => TriggerIsSound(d.live, v, positions, atTrigger);
    case Retried(input) => RetryIsSound(d.live, input.adapter, input.positions);
    case Restarted =>
    case CrashedTrigger(_, _, _, _, _) => CrashedTriggerIsSound(d, h);
    case CrashedRetry(_, _, _, _) => CrashedRetrySoundIff(d, h);
  }

  function History(d: Desk, hs: seq<Happening>): Desk {
    if hs == [] then d else Happen(History(d, hs[..|hs| - 1]), hs[|hs| - 1])
  }

  function Fresh(script: Script): Desk { Desk(Start(script), []) }

  // ------------------------------------------------- when a second order goes out

  /** Position `i` of the retry gets its turn before the process stops. */
  ghost predicate ResendsInTime(k: Protocol, h: Happening, i: int)
    requires h.CrashedRetry? && k.phase.Halted?
  {
    i < h.turns && Resends(k, h.input, i)
  }

  /** The step hands the broker a second order for some symbol: at its turn in a retry,
      whole or cut short, the symbol is on the wire and still carries a safe reason, the
      probe answers 404, and the view and the price let it through. */
  ghost predicate StepResends(k: Protocol, h: Happening) {
    match h
    case Retried(input) => k.phase.Halted? && SomeResent(k, input)
    case CrashedRetry(input, asked, _, _) =>
      && Legal(k)
      && asked >= |Absent(RetryAdapter(k, input.adapter), k.residual, Covered(k, input))|
      && exists i :: ResendsInTime(k, h, i)
    case _ => false
  }

  lemma PrefixDistinct(positions: seq<Position>, n: nat)
    requires Distinct(positions)
    ensures Distinct(UpTo(positions, n))
  {}

  /** Up to the crash the turns are those of the whole retry. */
  lemma SameTurns(v: Adapter, script: Script, positions: seq<Position>, n: nat, i: int)
    ensures SendsAt(v, script, UpTo(positions, n), i) <==> i < n && SendsAt(v, script, positions, i)
  {
    if 0 <= i < |positions| && i < n {
      assert UpTo(positions, n)[..i] == positions[..i];
    }
  }

  /** A retry cut short sends a second order exactly if some symbol meets all of that in
      one of the turns it still had. */
  lemma CutRetryResendsIff(k: Protocol, h: Happening)
    requires h.CrashedRetry? && NoRepeats(k.wire) && Distinct(h.input.positions)
    ensures NoRepeats(k.wire + CutRetry(k, h.input, h.asked, h.turns, h.probed).0) <==> !StepResends(k, h)
  {
    var input := h.input;
    var w, subset := RetryAdapter(k, input.adapter), Covered(k, input);
    if !Legal(k) || h.asked < |Absent(w, k.residual, subset)| {
      assert k.wire + [] == k.wire;
    } else {
      var rest, some := ScriptAtPass(k, input), UpTo(subset, h.turns);
      SubsetDistinct(input.positions, k.residual);
      PrefixDistinct(subset, h.turns);
      PassSendsOnce(w, rest, some);
      var sent := KillPass(w, rest, some).sent;
      forall i ensures ResendsInTime(k, h, i) <==> SendsAt(w, rest, some, i) && some[i].symbol in k.wire {
        SameTurns(w, rest, subset, h.turns, i);
        if 0 <= i < |subset| {
          SentIff(w, TurnOf(w, rest, subset, i), KillIntent(subset[i]));
        }
      }
      if i :| ResendsInTime(k, h, i) {
        PassSendsIff(w, rest, some, some[i].symbol);
        SharedRepeats(k.wire, sent, some[i].symbol);
      } else {
        forall s | s in sent ensures s !in k.wire {
          PassSendsIff(w, rest, some, s);
          var i :| SendsAt(w, rest, some, i) && some[i].symbol == s;
          assert !ResendsInTime(k, h, i);
        }
        JoinNoRepeats(k.wire, sent);
      }
    }
  }

  /** The wire only grows. */
  lemma WireGrows(d: Desk, h: Happening)
    ensures d.live.wire <= Happen(d, h).live.wire
  {
    match h
    case Retried(input) => RetryExtends(d.live, input);
    case _ =>
  }

  /** It stays empty until the switch has tripped. */
  lemma EmptyUntilTripped(d: Desk, h: Happening)
    requires Rebuilt(d) && (d.live.phase.Monitoring? ==> d.live.wire == [])
    ensures Happen(d, h).live.phase.Monitoring? ==> Happen(d, h).live.wire == []
  {
    match h
    case CrashedTrigger(_, _, atTrigger, _, _) => RehydratedSnoc(d.ledger, Began(atTrigger));
    case CrashedRetry(input, asked, turns, probed) =>
      assert d.live.phase.Monitoring? ==> CutRetry(d.live, input, asked, turns, probed).0 == [];
    case _ =>
  }

  /** One step, from any state: no symbol is on the wire twice exactly if the step does
      not resend. */
  lemma StepSendsOnceIff(d: Desk, h: Happening)
    requires Rebuilt(d) && NoRepeats(d.live.wire) && (d.live.phase.Monitoring? ==> d.live.wire == [])
    requires DistinctIn(h)
    ensures NoRepeats(Happen(d, h).live.wire) <==> !StepResends(d.live, h)
  {
    match h
    case Triggered(v, positions, _) =>
      PassSendsOnce(v, d.live.script, positions);
      if d.live.phase.Monitoring? {
        assert [] + KillPass(v, d.live.script, positions).sent == KillPass(v, d.live.script, positions).sent;
      }
    case Retried(input) =>
      if d.live.phase.Halted? {
        SecondSendIff(d.live, input);
      }
    case Restarted =>
    case CrashedTrigger(v, positions, _, turns, _) =>
      PrefixDistinct(positions, turns);
      PassSendsOnce(v, d.live.script, UpTo(positions, turns));
      if d.live.phase.Monitoring? {
        var sent := KillPass(v, d.live.script, UpTo(positions, turns)).sent;
        assert [] + sent == sent;
      }
    case CrashedRetry(_, _, _, _) => CutRetryResendsIff(d.live, h);
  }

  /** No step of the history resends. */
  ghost predicate NoStepResends(d: Desk, hs: seq<Happening>) {
    hs == []
    || (var n := |hs| - 1;
        NoStepResends(d, hs[..n]) && !StepResends(History(d, hs[..n]).live, hs[n]))
  }

  /** Any history of triggers, retries, crashes and restarts, whatever the broker says:
      the ledger always rebuilds the switch, and no symbol gets a second order exactly if
      no step resends. */
  lemma {:induction false} HistorySendsOnceIff(d: Desk, hs: seq<Happening>)
    requires Rebuilt(d) && NoRepeats(d.live.wire) && (d.live.phase.Monitoring? ==> d.live.wire == [])
    requires forall h :: h in hs ==> DistinctIn(h)
    ensures var e := History(d, hs);
            && Rebuilt(e) && (e.live.phase.Monitoring? ==> e.live.wire == [])
            && (NoRepeats(e.live.wire) <==> NoStepResends(d, hs))
    decreases hs
  {
    if hs != [] {
      var n := |hs| - 1;
      assert hs[n] in hs;
      HistorySendsOnceIff(d, hs[..n]);
      var before := History(d, hs[..n]);
      HappenRebuilds(before, hs[n]);
      WireGrows(before, hs[n]);
      EmptyUntilTripped(before, hs[n]);
      if NoRepeats(before.live.wire) {
        StepSendsOnceIff(before, hs[n]);
      } else {
        PrefixRepeats(before.live.wire, History(d, hs).live.wire);
      }
    }
  }

  /** No retry of the history crashed after it had sent something. */
  ghost predicate NoRetryCrashedLate(d: Desk, hs: seq<Happening>) {
    hs == []
    || (var n := |hs| - 1;
        && NoRetryCrashedLate(d, hs[..n])
        && (hs[n].CrashedRetry? ==> History(d, hs).live.wire == History(d, hs[..n]).live.wire))
  }

  lemma {:induction false} SoundUntilLateCrash(script: Script, hs: seq<Happening>)
    requires Polite(script) && forall h :: h in hs ==> DistinctIn(h)
    requires NoRetryCrashedLate(Fresh(script), hs)
    ensures Rebuilt(History(Fresh(script), hs)) && Sound(History(Fresh(script), hs).live)
    decreases hs
  {
    if hs != [] {
      var n := |hs| - 1;
      assert hs[n] in hs;
      SoundUntilLateCrash(script, hs[..n]);
      var d := History(Fresh(script), hs[..n]);
      HappenRebuilds(d, hs[n]);
      HappenSoundIff(d, hs[n]);
    }
  }

  /** From the start of a run: the exact condition; and with a polite broker it is met
      as long as no retry crashes after a send. */
  lemma AtMostOneAcrossRestarts(script: Script, hs: seq<Happening>)
    requires forall h :: h in hs ==> DistinctIn(h)
    ensures var k := History(Fresh(script), hs).live;
            NoRepeats(k.wire) <==> NoStepResends(Fresh(script), hs)
    ensures Polite(script) && NoRetryCrashedLate(Fresh(script), hs) ==> NoStepResends(Fresh(script), hs)
  {
    HistorySendsOnceIff(Fresh(script), hs);
    if Polite(script) && NoRetryCrashedLate(Fresh(script), hs) {
      SoundUntilLateCrash(script, hs);
    }
  }

  // ------------------------------------------------ a retry that crashes after a send

  function LateScript(lost: Answer, last: Answer): Script {
    [ErrorData(Some(404)), lost, ErrorData(Some(404)), last]
  }

  function OneShareInput(s: string): RetryInput { RetryInput(OneShareDesk(s), [OneShare(s)]) }

  /** At the trigger there is no price; the order is not sent, for a safe reason. */
  function Unpriced(s: string): Happening { Triggered(OneShareDesk(s).(quotes := map[]), [OneShare(s)], [s]) }

  /** The retry sends the order, and the process stops before it is recorded. */
  function LateCrash(s: string): Happening { CrashedRetry(OneShareInput(s), 0, 1, false) }

  lemma UnpricedPass(s: string, script: Script)
    ensures KillPass(OneShareDesk(s).(quotes := map[]), script, [OneShare(s)])
            == PassResult([], [(s, NO_PRICE)], [], script)
  {
    var v := OneShareDesk(s).(quotes := map[]);
    assert Submit(v, script, KillIntent(OneShare(s))) == Step(Fail(NO_PRICE), false, script);
    OnePositionPass(v, script, OneShare(s));
  }

  /** The switch after it: one residual, one reason, nothing on the wire. */
  function Unsent(s: string, script: Script): Desk {
    Desk(Protocol(Halted, [s], map[s := NO_PRICE], [], script), [Began([s])] + [Ended([(s, NO_PRICE)], [s])])
  }

  lemma UnpricedTrigger(s: string, script: Script)
    ensures Happen(Fresh(script), Unpriced(s)) == Unsent(s, script)
  {
    UnpricedPass(s, script);
    OneEntry(s, NO_PRICE);
    assert ToSet([]) == {} && Restrict(map[s := NO_PRICE], [s]) == map[s := NO_PRICE];
    assert Happen(Fresh(script), Unpriced(s)).live == Unsent(s, script).live;
    assert [] + [Began([s])] == [Began([s])];
  }

  /** A retry with the one position of the one residual asks about no other. */
  lemma OneResidual(k: Protocol, s: string)
    requires k.residual == [s]
    ensures Covered(k, OneShareInput(s)) == [OneShare(s)]
    ensures Absent(RetryAdapter(k, OneShareDesk(s)), k.residual, [OneShare(s)]) == []
    ensures ScriptAtPass(k, OneShareInput(s)) == k.script
  {
    OnePositionSubset(s);
    OneEntry(s, NO_PRICE);
  }

  /** Halted with one residual that failed for want of a price, and a 404 to come: the
      order is sent. */
  lemma RetrySendsAfter404(k: Protocol, s: string)
    requires k.phase.Halted? && k.residual == [s] && k.failures == map[s := NO_PRICE]
    requires |k.script| >= 2 && k.script[0] == ErrorData(Some(404))
    ensures var pass := KillPass(RetryAdapter(k, OneShareDesk(s)), k.script, [OneShare(s)]);
            pass.sent == [s] && pass.script == k.script[2..]
  {
    var w := RetryAdapter(k, OneShareDesk(s));
    DeskPrices(s, w);
    assert s in w.allow;
    SentIff(w, k.script, KillIntent(OneShare(s)));
    OnePositionPass(w, k.script, OneShare(s));
  }

  lemma LateCrashStep(s: string, script: Script)
    requires |script| >= 2 && script[0] == ErrorData(Some(404))
    requires Rebuilt(Unsent(s, script))
    ensures var d := Unsent(s, script);
            Happen(d, LateCrash(s)) == Desk(d.live.(wire := [s], script := script[2..]), d.ledger)
  {
    var d := Unsent(s, script);
    OneResidual(d.live, s);
    RetrySendsAfter404(d.live, s);
    assert d.live.wire + [s] == [s];
  }

  /** The next retry, with the reason of before. */
  lemma RetryAgainStep(d: Desk, s: string, answer: Answer)
    requires d.live.phase.Halted? && d.live.residual == [s] && d.live.failures == map[s := NO_PRICE]
    requires d.live.wire == [s] && d.live.script == [ErrorData(Some(404)), answer]
    ensures Happen(d, Retried(OneShareInput(s))).live.wire == [s, s]
  {
    OneResidual(d.live, s);
    RetrySendsAfter404(d.live, s);
    assert [s] + [s] == [s, s];
  }

  /** The input: the rebuilt switch still holds the reason of before the retry, and a
      late 404 lets the next retry send the order a second time. */
  lemma LateCrashHistory(s: string, lost: Answer, last: Answer)
    ensures History(Fresh(LateScript(lost, last)), [Unpriced(s), LateCrash(s), Retried(OneShareInput(s))]).live.wire == [s, s]
  {
    var script := LateScript(lost, last);
    ThreeSteps(Fresh(script), Unpriced(s), LateCrash(s), Retried(OneShareInput(s)));
    UnpricedTrigger(s, script);
    HappenRebuilds(Fresh(script), Unpriced(s));
    LateCrashStep(s, script);
    assert script[2..] == [ErrorData(Some(404)), last];
    RetryAgainStep(Happen(Unsent(s, script), LateCrash(s)), s, last);
  }

  lemma ThreeSteps(d: Desk, a: Happening, b: Happening, c: Happening)
    ensures History(d, [a, b, c]) == Happen(Happen(Happen(d, a), b), c)
  {
    assert [a, b, c][..2] == [a, b] && [a, b][..1] == [a] && [a][..0] == [];
    assert History(d, []) == d;
    assert History(d, [a]) == Happen(d, a);
    assert History(d, [a, b]) == Happen(History(d, [a]), b);
  }
}
