/**
 The verdicts of the open-preflight ladder one by one (execution_preflight.py): which
 reason is given exactly when, which stage ends it, and when it raises instead.
 */
module LadderReasons {
  import opened Wrappers
  import opened Pricing
  import opened Ladder
  import Config

  ghost predicate BadLot(leg: Leg) { leg.qty < 1.0 || leg.qty != leg.qty.Floor as real }

  /** The second quote is no later than the first, or is the same event. */
  ghost predicate NotLater(a: Quote, b: Quote) {
    b.seenAtMs <= a.seenAtMs || (b.vendorSeq == a.vendorSeq && b.tsEventUtc == a.tsEventUtc)
  }

  ghost predicate RiskKnown(i: Inputs) { i.risk.Some? && i.riskRow.Some? && i.riskNowMs.Some? }

  /** The verdict, its row, the decision and the order do not belong together. */
  ghost predicate RiskMismatch(i: Inputs, leg: Leg, decisionId: string)
    requires RiskKnown(i)
  {
    || i.riskRow.value.verdictId != i.risk.value.verdictId
    || i.riskRow.value.decisionId != decisionId
    || i.risk.value.legs != [(leg.symbol, leg.qty)]
  }

  /** When each reason is one. */
  ghost predicate IsReason(i: Inputs, leg: Leg, stamp: Stamp, r: Reason)
    requires stamp.quoteA.Some? && stamp.seenAtMs.Some?
  {
    match r
    case RunGatesOff => false
    case KillSwitchHalted => false
    case MissingDecisionStamp => false
    case OrderMatrixUnsupported => leg.side != Buy
    case InvalidLot => BadLot(leg)
    case StrategyNotPaperEligible => !i.paperEligible
    case BacktestArtifactMissing => !i.synthetic && i.artifact == ArtifactMissing
    case ArtifactKeyMismatch => !i.synthetic && i.artifact == KeyMismatch
    case ArtifactHashInvalid => !i.synthetic && i.artifact == HashInvalid
    case FakeBrokerRequiresSynthetic => !i.synthetic && i.brokerKind == Fake
    case SyntheticRequiresFakeBroker => i.synthetic && i.brokerKind != Fake
    case OpenOrderInFlight => i.ordersInFlight >= 1
    case LatencyNotElapsed => i.quoteB.Some? && i.quoteB.value.seenAtMs < stamp.seenAtMs.value + i.latencyBudgetMs
    case RequoteNotLater => i.quoteB.Some? && NotLater(stamp.quoteA.value, i.quoteB.value)
    case EpochChanged =>
      i.quoteB.Some? && !(stamp.quoteA.value.reconnectEpoch == i.quoteB.value.reconnectEpoch == i.feedEpochNow)
    case QuoteMissing => i.quoteB.None?
    case QuoteReason(code) => i.quoteB.Some? && i.quoteBVerdict.Some? && code in i.quoteBVerdict.value.reasons
    case MarketStateNotTradable => i.market.tradability != Tradable
    case MarketStateStaleDefault => i.market.staleDefault
    case MarketStateNotRth => i.market.session != Rth
    case HaltLuldAuction => i.market.halt == AnyHalt || i.market.luld == LuldRestricted || i.market.session == Auction
    case CaBlackout => i.market.caBlackout
    case CapReasonOf(reason) =>
      && i.quoteB.Some? && i.quoteBVerdict.Some? && i.quoteBVerdict.value.ok
      && var cap := MarketableLimitCap(leg.side, stamp.quoteA.value.touches, i.quoteB.value.touches, i.slippageCapBps,
                                       leg.limitPrice);
         cap.Some? && reason in cap.value.reasons
    case RiskVerdictMissing => !RiskKnown(i)
    case RiskVerdictMismatch => RiskKnown(i) && RiskMismatch(i, leg, stamp.decisionId)
    case RiskVerdictStale => RiskKnown(i) && i.nowMs - i.riskNowMs.value > 2000
    case CanOpenDenied => RiskKnown(i) && !i.risk.value.allowed
    case KillGenerationChanged => RiskKnown(i) && i.risk.value.killGeneration != i.killGeneration
  }

  lemma CandidateFound(leg: Leg, r: Reason)
    ensures r in CandidateReasons(leg) <==>
              (r.OrderMatrixUnsupported? && leg.side != Buy) || (r.InvalidLot? && BadLot(leg))
  {}

  lemma StrategyFound(i: Inputs, r: Reason)
    ensures r in StrategyReasons(i) <==>
              match r
              case StrategyNotPaperEligible => !i.paperEligible
              case BacktestArtifactMissing => !i.synthetic && i.artifact == ArtifactMissing
              case ArtifactKeyMismatch => !i.synthetic && i.artifact == KeyMismatch
              case ArtifactHashInvalid => !i.synthetic && i.artifact == HashInvalid
              case FakeBrokerRequiresSynthetic => !i.synthetic && i.brokerKind == Fake
              case SyntheticRequiresFakeBroker => i.synthetic && i.brokerKind != Fake
              case _ => false
  {}

  lemma LatencyFound(i: Inputs, seenAtMs: int, quoteA: Quote, r: Reason)
    ensures r in LatencyReasons(i, seenAtMs, quoteA) <==>
              && i.quoteB.Some?
              && match r
                 case LatencyNotElapsed => i.quoteB.value.seenAtMs < seenAtMs + i.latencyBudgetMs
                 case RequoteNotLater => NotLater(quoteA, i.quoteB.value)
                 case EpochChanged => !(quoteA.reconnectEpoch == i.quoteB.value.reconnectEpoch == i.feedEpochNow)
                 case _ => false
  {}

  lemma MarketFound(m: MarketVerdict, r: Reason)
    ensures r in MarketReasons(m) <==>
              match r
              case MarketStateNotTradable => m.tradability != Tradable
              case MarketStateStaleDefault => m.staleDefault
              case MarketStateNotRth => m.session != Rth
              case HaltLuldAuction => m.halt == AnyHalt || m.luld == LuldRestricted || m.session == Auction
              case CaBlackout => m.caBlackout
              case _ => false
  {}

  lemma QuoteFound(i: Inputs, r: Reason)
    ensures r in QuoteReasons(i) <==>
              match r
              case QuoteMissing => i.quoteB.None?
              case QuoteReason(code) => i.quoteB.Some? && i.quoteBVerdict.Some? && code in i.quoteBVerdict.value.reasons
              case _ => false
  {}

  lemma CapFound(cap: Option<CapResult>, r: Reason)
    ensures r in CapReasons(cap) <==> r.CapReasonOf? && cap.Some? && r.reason in cap.value.reasons
  {}

  lemma RiskFound(i: Inputs, leg: Leg, decisionId: string, r: Reason)
    ensures r in RiskReasons(i, leg, decisionId) <==>
              match r
              case RiskVerdictMissing => !RiskKnown(i)
              case RiskVerdictMismatch => RiskKnown(i) && RiskMismatch(i, leg, decisionId)
              case RiskVerdictStale => RiskKnown(i) && i.nowMs - i.riskNowMs.value > 2000
              case CanOpenDenied => RiskKnown(i) && !i.risk.value.allowed
              case KillGenerationChanged => RiskKnown(i) && i.risk.value.killGeneration != i.killGeneration
              case _ => false
  {}

  lemma AnyStage(i: Inputs, leg: Leg, stamp: Stamp, r: Reason)
    requires !StampMissing(Some(stamp))
    ensures r in AllReasons(i, leg, stamp) <==>
              || r in CandidateReasons(leg) || r in StrategyReasons(i) || (r.OpenOrderInFlight? && i.ordersInFlight >= 1)
              || r in LatencyReasons(i, stamp.seenAtMs.value, stamp.quoteA.value) || r in QuoteReasons(i)
              || r in MarketReasons(i.market) || r in CapReasons(StageCap(i, leg, stamp.quoteA.value))
              || r in RiskReasons(i, leg, stamp.decisionId)
  {}

  lemma FoundIff(i: Inputs, leg: Leg, stamp: Stamp, r: Reason)
    requires !StampMissing(Some(stamp))
    ensures r in AllReasons(i, leg, stamp) <==> IsReason(i, leg, stamp, r)
  {
    AnyStage(i, leg, stamp, r);
    CandidateFound(leg, r);
    StrategyFound(i, r);
    LatencyFound(i, stamp.seenAtMs.value, stamp.quoteA.value, r);
    QuoteFound(i, r);
    MarketFound(i.market, r);
    CapFound(StageCap(i, leg, stamp.quoteA.value), r);
    RiskFound(i, leg, stamp.decisionId, r);
  }

  /** The cap that was found, if the second quote was good enough to look for one. */
  ghost function CapOnRecord(i: Inputs): Option<real>
    requires i.legs != [] && !StampMissing(i.stamp)
  {
    if i.quoteB.None? || i.quoteBVerdict.None? || !i.quoteBVerdict.value.ok then None
    else
      var cap := MarketableLimitCap(i.legs[0].side, i.stamp.value.quoteA.value.touches, i.quoteB.value.touches,
                                    i.slippageCapBps, i.legs[0].limitPrice);
      if cap.Some? then cap.value.cappedLimit else None
  }

  /** The decision left a quote, an instant and a readable time. */
  ghost predicate Stamped(stamp: Option<Stamp>) {
    match stamp
    case None => false
    case Some(s) => s.parseableUtc && s.quoteA.Some? && s.seenAtMs.Some?
  }

  lemma StampedIff(stamp: Option<Stamp>)
    ensures StampMissing(stamp) <==> !Stamped(stamp)
  {}

  /** What passes is the candidate's own order, at the cap on record. */
  lemma ClearedIs(i: Inputs)
    requires i.legs != [] && Evaluate(i).Cleared?
    ensures Stamped(i.stamp)
    ensures var p, leg := Evaluate(i).passed, i.legs[0];
            p.symbol == leg.symbol && p.side == leg.side && p.qty == leg.qty && Some(p.cappedLimit) == CapOnRecord(i)
  {}

  /** The gates come first, each the only reason of its stage; past them the order is
      rejected with every reason there is, and with the cap if one was found. */
  lemma RejectedIff(i: Inputs)
    requires i.legs != []
    ensures var e := Evaluate(i);
            if !Config.OpeningAllowed(i.gates) then e == Reject({RunGatesOff}, Some(RunGates), None)
            else if i.killState == Flattening || i.killState == Halted then e == Reject({KillSwitchHalted}, Some(Kill), None)
            else if i.killState == Monitoring && !Stamped(i.stamp) then
              e == Reject({MissingDecisionStamp}, Some(StampStage), None)
            else e.Reject? ==>
              && GatesOpen(i) && e.terminalStage == None && e.reasons != {}
              && (forall r :: r in e.reasons <==> IsReason(i, i.legs[0], i.stamp.value, r))
              && e.cappedLimit == CapOnRecord(i)
  {
    StampedIff(i.stamp);
    if GatesOpen(i) && Evaluate(i).Reject? {
      forall r ensures r in Evaluate(i).reasons <==> IsReason(i, i.legs[0], i.stamp.value, r) {
        FoundIff(i, i.legs[0], i.stamp.value, r);
      }
    }
  }

  /** A condition that no reject stands for. */
  ghost predicate Raises(i: Inputs, leg: Leg, quoteA: Quote) {
    || |i.legs| != 1 || i.brokerKind == UnknownBroker || (!i.synthetic && i.artifact == UnknownArtifact)
    || (i.quoteB.Some? && i.quoteBVerdict.None?)
    || (i.market.symbol, i.market.instrumentId) != (leg.symbol, leg.instrumentId)
    || (i.quoteB.Some? && i.quoteBVerdict.Some? && i.quoteBVerdict.value.ok
        && MarketableLimitCap(leg.side, quoteA.touches, i.quoteB.value.touches, i.slippageCapBps, leg.limitPrice).None?)
    || (RiskKnown(i) && !i.riskRow.value.hashVerifies)
  }

  /** It raises exactly there, on an unknown kill state, or when nothing speaks against
      the order and there is still no limit for it. */
  lemma BrokenIff(i: Inputs)
    requires i.legs != []
    ensures Evaluate(i).Broken? <==>
              && Config.OpeningAllowed(i.gates)
              && (|| i.killState == UnknownKill
                  || (GatesOpen(i)
                      && (|| Raises(i, i.legs[0], i.stamp.value.quoteA.value)
                          || ((forall r :: !IsReason(i, i.legs[0], i.stamp.value, r))
                              && !(i.quoteBVerdict.Some? && i.quoteBVerdict.value.ok)))))
  {
    if GatesOpen(i) {
      var leg, stamp := i.legs[0], i.stamp.value;
      forall r ensures r in AllReasons(i, leg, stamp) <==> IsReason(i, leg, stamp, r) {
        FoundIff(i, leg, stamp, r);
      }
      assert AllReasons(i, leg, stamp) == {} <==> forall r :: !IsReason(i, leg, stamp, r);
      if !Raises(i, leg, stamp.quoteA.value) && AllReasons(i, leg, stamp) == {} {
        NoReasonsIff(i, leg, stamp);
        if StageCap(i, leg, stamp.quoteA.value).Some? {
          NoReasonsMeansLimit(i, leg, stamp.quoteA.value);
        }
      }
    }
  }
}
