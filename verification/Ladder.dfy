/**
 The open-preflight ladder (execution_preflight.py): terminal short-circuits
 first, then every remaining stage contributes its reasons, and only an empty
 union passes. Timestamps are integers; the hash of the journaled risk row is
 reduced to whether it verifies.
 */
module Ladder {
  import opened Wrappers
  import opened Pricing
  import Config

  const MIN_REQUOTE_DELTA_MS := 1
  const RISK_VERDICT_TTL_MS := 2000

  datatype Leg = Leg(symbol: string, instrumentId: int, side: Side, qty: real, limitPrice: Option<real>)

  datatype Quote = Quote(
    touches: Touches,
    seenAtMs: int,
    vendorSeq: Option<int>,
    tsEventUtc: string,
    reconnectEpoch: int)

  /** seenAtMs is None when the stamp carries no integer there. */
  datatype Stamp = Stamp(decisionId: string, parseableUtc: bool, seenAtMs: Option<int>, quoteA: Option<Quote>)

  datatype QuoteVerdict = QuoteVerdict(ok: bool, reasons: set<string>)

  datatype KillState = Monitoring | Flattening | Halted | UnknownKill
  datatype BrokerKind = Spy | Fake | AlpacaPaper | AlpacaLive | UnknownBroker
  datatype ArtifactStatus = ArtifactOk | ArtifactMissing | KeyMismatch | HashInvalid | UnknownArtifact
  datatype Tradability = Tradable | ReduceOnlyTradable | NotTradable
  datatype Session = Rth | Auction | OtherSession
  datatype Halt = NoHalt | AnyHalt
  datatype Luld = LuldNormal | LuldRestricted

  datatype MarketVerdict = MarketVerdict(
    symbol: string, instrumentId: int, tradability: Tradability, staleDefault: bool,
    session: Session, halt: Halt, luld: Luld, caBlackout: bool)

  datatype RiskVerdict = RiskVerdict(verdictId: string, legs: seq<(string, real)>, allowed: bool, killGeneration: int)

  datatype RiskRow = RiskRow(verdictId: string, decisionId: string, hashVerifies: bool)

  datatype Inputs = Inputs(
    gates: Config.Tree,
    killState: KillState,
    stamp: Option<Stamp>,
    legs: seq<Leg>,
    paperEligible: bool,
    synthetic: bool,
    artifact: ArtifactStatus,
    brokerKind: BrokerKind,
    ordersInFlight: int,
    quoteB: Option<Quote>,
    quoteBVerdict: Option<QuoteVerdict>,
    latencyBudgetMs: int,
    feedEpochNow: int,
    market: MarketVerdict,
    risk: Option<RiskVerdict>,
    riskRow: Option<RiskRow>,
    riskNowMs: Option<int>,
    killGeneration: int,
    slippageCapBps: real,
    nowMs: int)

  datatype Reason =
    | RunGatesOff | KillSwitchHalted | MissingDecisionStamp
    | OrderMatrixUnsupported | InvalidLot
    | StrategyNotPaperEligible | BacktestArtifactMissing | ArtifactKeyMismatch | ArtifactHashInvalid
    | FakeBrokerRequiresSynthetic | SyntheticRequiresFakeBroker
    | OpenOrderInFlight
    | LatencyNotElapsed | RequoteNotLater | EpochChanged
    | QuoteMissing | QuoteReason(code: string)
    | MarketStateNotTradable | MarketStateStaleDefault | MarketStateNotRth | HaltLuldAuction | CaBlackout
    | CapReasonOf(reason: CapReason)
    | RiskVerdictMissing | RiskVerdictMismatch | RiskVerdictStale | CanOpenDenied | KillGenerationChanged

  datatype Stage = RunGates | Kill | StampStage

  datatype Passed = Passed(symbol: string, side: Side, qty: real, cappedLimit: real)

  /** Broken stands for an ExecError: an invariant break, not a rejectable condition. */
  datatype PreflightResult =
    | Cleared(passed: Passed)
    | Reject(reasons: set<Reason>, terminalStage: Option<Stage>, cappedLimit: Option<real>)
    | Broken

  function If(c: bool, r: Reason): set<Reason> { if c then {r} else {} }

  predicate StampMissing(stamp: Option<Stamp>) {
    stamp.None? || stamp.value.quoteA.None? || stamp.value.seenAtMs.None? || !stamp.value.parseableUtc
  }

  // ------------------------------------------------------------ stages 4 to 11

  function CandidateReasons(leg: Leg): set<Reason> {
    If(!leg.side.Buy?, OrderMatrixUnsupported) + If(!Whole(leg.qty) || leg.qty < 1.0, InvalidLot)
  }

  function StrategyReasons(i: Inputs): set<Reason> {
    If(!i.paperEligible, StrategyNotPaperEligible)
    + (if !i.synthetic then
         If(i.artifact.ArtifactMissing?, BacktestArtifactMissing)
         + If(i.artifact.KeyMismatch?, ArtifactKeyMismatch)
         + If(i.artifact.HashInvalid?, ArtifactHashInvalid)
         + If(i.brokerKind.Fake?, FakeBrokerRequiresSynthetic)
       else If(!i.brokerKind.Fake?, SyntheticRequiresFakeBroker))
  }

  function LatencyReasons(i: Inputs, seenAtMs: int, quoteA: Quote): set<Reason> {
    match i.quoteB
    case None => {}
    case Some(b) =>
      If(b.seenAtMs - seenAtMs < i.latencyBudgetMs, LatencyNotElapsed)
      + If(b.seenAtMs < quoteA.seenAtMs + MIN_REQUOTE_DELTA_MS
           || (b.vendorSeq == quoteA.vendorSeq && b.tsEventUtc == quoteA.tsEventUtc), RequoteNotLater)
      + If(b.reconnectEpoch != quoteA.reconnectEpoch || i.feedEpochNow != b.reconnectEpoch, EpochChanged)
  }

  function QuoteReasons(i: Inputs): set<Reason> {
    if i.quoteB.None? then {QuoteMissing}
    else if i.quoteBVerdict.None? then {}
    else set code | code in i.quoteBVerdict.value.reasons :: QuoteReason(code)
  }

  function MarketReasons(m: MarketVerdict): set<Reason> {
    If(!m.tradability.Tradable?, MarketStateNotTradable)
    + If(m.staleDefault, MarketStateStaleDefault)
    + If(!m.session.Rth?, MarketStateNotRth)
    + If(!m.halt.NoHalt? || !m.luld.LuldNormal? || m.session.Auction?, HaltLuldAuction)
    + If(m.caBlackout, CaBlackout)
  }

  predicate OrderSkipped(i: Inputs) {
    i.quoteB.None? || i.quoteBVerdict.None? || !i.quoteBVerdict.value.ok
  }

  /** Stage 10; the inner None is the ExecError of the cap math. */
  function OrderCap(i: Inputs, leg: Leg, quoteA: Quote): Option<CapResult> {
    if i.quoteB.None? then None
    else MarketableLimitCap(leg.side, quoteA.touches, i.quoteB.value.touches, i.slippageCapBps, leg.limitPrice)
  }

  function RiskReasons(i: Inputs, leg: Leg, decisionId: string): set<Reason> {
    if i.risk.None? || i.riskRow.None? || i.riskNowMs.None? then {RiskVerdictMissing}
    else
      var v, row := i.risk.value, i.riskRow.value;
      If(row.verdictId != v.verdictId || row.decisionId != decisionId || v.legs != [(leg.symbol, leg.qty)],
         RiskVerdictMismatch)
      + If(i.nowMs - i.riskNowMs.value > RISK_VERDICT_TTL_MS, RiskVerdictStale)
      + If(!v.allowed, CanOpenDenied)
      + If(v.killGeneration != i.killGeneration, KillGenerationChanged)
  }

  function CapReasons(cap: Option<CapResult>): set<Reason> {
    if cap.Some? then set r | r in cap.value.reasons :: CapReasonOf(r) else {}
  }

  /** Stage 10 runs only on a usable quote B. */
  function StageCap(i: Inputs, leg: Leg, quoteA: Quote): Option<CapResult> {
    if OrderSkipped(i) then None else OrderCap(i, leg, quoteA)
  }

  /** The union of everything stages 4 to 11 find. */
  function AllReasons(i: Inputs, leg: Leg, stamp: Stamp): set<Reason>
    requires !StampMissing(Some(stamp))
  {
    CandidateReasons(leg) + StrategyReasons(i) + If(i.ordersInFlight > 0, OpenOrderInFlight)
    + LatencyReasons(i, stamp.seenAtMs.value, stamp.quoteA.value) + QuoteReasons(i) + MarketReasons(i.market)
    + CapReasons(StageCap(i, leg, stamp.quoteA.value)) + RiskReasons(i, leg, stamp.decisionId)
  }

  /** Conditions that raise instead of rejecting. */
  predicate InvariantBroken(i: Inputs, quoteA: Quote)
    requires i.legs != []
  {
    var leg := i.legs[0];
    || |i.legs| != 1
    || i.brokerKind.UnknownBroker?
    || (!i.synthetic && i.artifact.UnknownArtifact?)
    || (i.quoteB.Some? && i.quoteBVerdict.None?)
    || i.market.symbol != leg.symbol || i.market.instrumentId != leg.instrumentId
    || (!OrderSkipped(i) && OrderCap(i, leg, quoteA).None?)
    || (i.risk.Some? && i.riskRow.Some? && i.riskNowMs.Some? && !i.riskRow.value.hashVerifies)
  }

  function Evaluate(i: Inputs): PreflightResult
    requires i.legs != []
  {
    if !Config.OpeningAllowed(i.gates) then Reject({RunGatesOff}, Some(RunGates), None)
    else if i.killState.UnknownKill? then Broken
    else if !i.killState.Monitoring? then Reject({KillSwitchHalted}, Some(Kill), None)
    else if StampMissing(i.stamp) then Reject({MissingDecisionStamp}, Some(StampStage), None)
    else
      var stamp, leg := i.stamp.value, i.legs[0];
      var quoteA := stamp.quoteA.value;
      if InvariantBroken(i, quoteA) then Broken
      else
        var cap := StageCap(i, leg, quoteA);
        var reasons := AllReasons(i, leg, stamp);
        var capped := if cap.Some? then cap.value.cappedLimit else None;
        if reasons != {} then Reject(reasons, None, capped)
        else if capped.None? then Broken
        else Cleared(Passed(leg.symbol, leg.side, leg.qty, capped.value))
  }

  // ------------------------------------------------------------------ meaning

  ghost predicate GatesOpen(i: Inputs) {
    Config.OpeningAllowed(i.gates) && i.killState.Monitoring? && !StampMissing(i.stamp)
  }

  ghost predicate OneWholeBuyLeg(i: Inputs) {
    |i.legs| == 1 && i.legs[0].side.Buy? && Whole(i.legs[0].qty) && i.legs[0].qty >= 1.0
  }

  ghost predicate StrategyCleared(i: Inputs) {
    && i.paperEligible && !i.brokerKind.UnknownBroker? && i.ordersInFlight <= 0
    && (if i.synthetic then i.brokerKind.Fake? else i.artifact.ArtifactOk? && !i.brokerKind.Fake?)
  }

  /** A second, later quote of the same connection, past the latency budget. */
  ghost predicate Requoted(i: Inputs)
    requires !StampMissing(i.stamp)
  {
    && i.quoteB.Some? && i.quoteBVerdict == Some(QuoteVerdict(true, {}))
    && var a, b := i.stamp.value.quoteA.value, i.quoteB.value;
       && b.seenAtMs >= i.stamp.value.seenAtMs.value + i.latencyBudgetMs
       && b.seenAtMs > a.seenAtMs && (b.vendorSeq != a.vendorSeq || b.tsEventUtc != a.tsEventUtc)
       && a.reconnectEpoch == b.reconnectEpoch == i.feedEpochNow
  }

  ghost predicate MarketOpen(i: Inputs)
    requires i.legs != []
  {
    i.market == MarketVerdict(i.legs[0].symbol, i.legs[0].instrumentId, Tradable, false, Rth, NoHalt, LuldNormal, false)
  }

  ghost predicate RiskCleared(i: Inputs)
    requires i.legs != [] && !StampMissing(i.stamp)
  {
    && i.risk.Some? && i.riskRow.Some? && i.riskNowMs.Some?
    && i.riskRow.value == RiskRow(i.risk.value.verdictId, i.stamp.value.decisionId, true)
    && i.risk.value == RiskVerdict(i.risk.value.verdictId, [(i.legs[0].symbol, i.legs[0].qty)], true, i.killGeneration)
    && i.nowMs <= i.riskNowMs.value + RISK_VERDICT_TTL_MS
  }

  ghost predicate CapCleared(i: Inputs)
    requires i.legs != [] && !StampMissing(i.stamp)
  {
    var cap := OrderCap(i, i.legs[0], i.stamp.value.quoteA.value);
    cap.Some? && cap.value.reasons == {}
  }

  /** The ladder passes exactly when every gate is met at once: one condition that
      fails, or one input that is missing, is enough to stop an open. */
  lemma PassIff(i: Inputs)
    requires i.legs != []
    ensures Evaluate(i).Cleared? <==>
      && GatesOpen(i) && OneWholeBuyLeg(i) && StrategyCleared(i) && Requoted(i)
      && MarketOpen(i) && RiskCleared(i) && CapCleared(i)
  {
    if GatesOpen(i) {
      PastTheGates(i);
      StagesIff(i);
    }
  }

  /** Past the gates the ladder passes exactly when it finds nothing against the order
      and has a limit for it. */
  lemma PastTheGates(i: Inputs)
    requires i.legs != [] && GatesOpen(i)
    ensures var leg, quoteA := i.legs[0], i.stamp.value.quoteA.value;
            Evaluate(i).Cleared? <==>
              && !InvariantBroken(i, quoteA) && AllReasons(i, leg, i.stamp.value) == {}
              && StageCap(i, leg, quoteA).Some? && StageCap(i, leg, quoteA).value.cappedLimit.Some?
  {}

  lemma StagesIff(i: Inputs)
    requires i.legs != [] && GatesOpen(i)
    ensures var leg, quoteA := i.legs[0], i.stamp.value.quoteA.value;
            (&& !InvariantBroken(i, quoteA) && AllReasons(i, leg, i.stamp.value) == {}
             && StageCap(i, leg, quoteA).Some? && StageCap(i, leg, quoteA).value.cappedLimit.Some?)
            <==> OneWholeBuyLeg(i) && StrategyCleared(i) && Requoted(i) && MarketOpen(i) && RiskCleared(i) && CapCleared(i)
  {
    var leg, stamp := i.legs[0], i.stamp.value;
    NoReasonsIff(i, leg, stamp);
    if CapCleared(i) {
      NoReasonsMeansLimit(i, leg, stamp.quoteA.value);
    }
  }

  /** The union is empty exactly when every stage is. */
  lemma NoReasonsIff(i: Inputs, leg: Leg, stamp: Stamp)
    requires !StampMissing(Some(stamp))
    ensures AllReasons(i, leg, stamp) == {} <==>
      && CandidateReasons(leg) == {} && StrategyReasons(i) == {} && i.ordersInFlight <= 0
      && LatencyReasons(i, stamp.seenAtMs.value, stamp.quoteA.value) == {}
      && i.quoteB.Some? && (i.quoteBVerdict.Some? ==> i.quoteBVerdict.value.reasons == {})
      && MarketReasons(i.market) == {}
      && (StageCap(i, leg, stamp.quoteA.value).Some? ==> StageCap(i, leg, stamp.quoteA.value).value.reasons == {})
      && RiskReasons(i, leg, stamp.decisionId) == {}
  {
    QuoteReasonsEmptyIff(i);
    CapReasonsEmptyIff(StageCap(i, leg, stamp.quoteA.value));
  }

  lemma QuoteReasonsEmptyIff(i: Inputs)
    ensures QuoteReasons(i) == {} <==>
            i.quoteB.Some? && (i.quoteBVerdict.Some? ==> i.quoteBVerdict.value.reasons == {})
  {
    if i.quoteB.Some? && i.quoteBVerdict.Some? && i.quoteBVerdict.value.reasons != {} {
      var code :| code in i.quoteBVerdict.value.reasons;
      assert QuoteReason(code) in QuoteReasons(i);
    }
  }

  lemma CapReasonsEmptyIff(cap: Option<CapResult>)
    ensures CapReasons(cap) == {} <==> (cap.Some? ==> cap.value.reasons == {})
  {
    if cap.Some? && cap.value.reasons != {} {
      var r :| r in cap.value.reasons;
      assert CapReasonOf(r) in CapReasons(cap);
    }
  }

  lemma NoReasonsMeansLimit(i: Inputs, leg: Leg, quoteA: Quote)
    requires OrderCap(i, leg, quoteA).Some? && OrderCap(i, leg, quoteA).value.reasons == {}
    ensures OrderCap(i, leg, quoteA).value.cappedLimit.Some? && OrderCap(i, leg, quoteA).value.marketable
  {
    var cap := OrderCap(i, leg, quoteA).value;
    assert UnpriceableCandidate !in cap.reasons && InvalidTick !in cap.reasons && NotMarketable !in cap.reasons;
  }

  /** What passes buys whole shares of the candidate at a limit that is on the tick
      grid, reaches the ask and respects both the budget and the strategy. */
  lemma PassMeansBoundedBuy(i: Inputs)
    requires i.legs != [] && Evaluate(i).Cleared?
    requires i.slippageCapBps > 0.0 && i.quoteB.Some? && i.quoteB.value.touches.ask.Some?
    requires i.quoteB.value.touches.ask.value >= TICK_SUB_DOLLAR
    ensures var p, leg, ask := Evaluate(i).passed, i.legs[0], i.quoteB.value.touches.ask.value;
            && p.symbol == leg.symbol && p.side == Buy && p.qty == leg.qty && Whole(p.qty) && p.qty >= 1.0
            && 0.0 < ask <= p.cappedLimit <= RawCap(Buy, ask, i.slippageCapBps)
            && OnTickGrid(p.cappedLimit)
            && (leg.limitPrice.Some? ==> p.cappedLimit <= leg.limitPrice.value)
  {
    PassIff(i);
    var leg, quoteA := i.legs[0], i.stamp.value.quoteA.value;
    NoReasonsMeansLimit(i, leg, quoteA);
    assert InvalidTick !in OrderCap(i, leg, quoteA).value.reasons;
    assert LimitValid(leg.limitPrice) by {
      assert UnpriceableCandidate !in OrderCap(i, leg, quoteA).value.reasons;
    }
    BuyLimitWithinBudget(quoteA.touches, i.quoteB.value.touches, i.slippageCapBps, leg.limitPrice);
  }

  /** Overlays can only take opens away: whatever passes under a tightened
      configuration has its gates open in the base. */
  lemma TightenedConfigNeverOpens(i: Inputs, base: Config.Tree, overlays: seq<Config.Tree>)
    requires i.legs != [] && i.gates == Config.MergeAll(base, overlays)
    requires Evaluate(i).Cleared?
    ensures Config.OpeningAllowed(base)
  {
    PassIff(i);
    Config.OverlaysNeverOpen(base, overlays);
  }
}
