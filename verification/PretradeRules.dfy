/** What a pre-trade verdict means on the order's own fields (app/execution/pretrade.py). */
module PretradeRules {
  import opened BrokerModels
  import opened Rounding
  import opened Controls
  import opened Sizing
  import opened SizingRules
  import opened Pretrade

  /** Short of sizing, nothing stands against the order. */
  predicate Clear(p: Policy, o: Order) {
    && !o.expired && !o.accountBlocked && o.tradable && !o.duplicate && !o.conflicting
    && (o.marketOpen || p.extendedHours)
    && p.dataQualityFloor <= o.dataQuality
    && (o.quoteAge.Some? ==> o.quoteAge.value <= 20.0 * p.quoteMaxAge)
    && (o.spreadBps.Some? ==> o.spreadBps.value <= p.maxSpreadBps)
    && (o.side == Buy && o.positionQty <= 0.0 ==> o.openPositions < p.maxOpenPositions)
    && (o.side == Sell && o.positionQty <= 0.0 && !p.shortSelling ==> o.quantity <= -o.positionQty + 0.000000001)
    && (o.side == Buy ==> o.stop.Some?)
  }

  /** The order can be sized: a positive entry price with the stop on its losing side, and money for
      the risk, the position and the purchase. */
  predicate Sizable(p: Policy, o: Order) {
    && o.entry > 0.0
    && (o.side == Buy ==> o.stop.Some? && o.stop.value < o.entry)
    && (o.side == Sell ==> o.stop.Some? && o.stop.value > o.entry)
    && o.equity * p.riskPct > 0.0 && o.equity * p.maxPositionPct > 0.0 && o.buyingPower > 0.0
  }

  lemma ClearIff(p: Policy, o: Order)
    ensures Objections(p, o) == [] <==> Clear(p, o)
  {
    assert Objections(p, o) == [] <==> |StateObjections(p, o)| + |MarketObjections(p, o)| == 0;
  }

  lemma SizableIff(p: Policy, o: Order)
    requires o.side == Buy ==> o.stop.Some?
    ensures Size(SizingOf(p, o)).Sized? <==> Sizable(p, o)
  {
    SizedIff(SizingOf(p, o));
  }

  /** An order passes if and only if trading is active, there is no veto, nothing stands against it
      and it can be sized. */
  lemma PassesIff(p: Policy, ctl: TradingState, o: Order)
    ensures Passed(Validate(p, ctl, o)) <==> ctl == Active && o.hardVetoes == [] && Clear(p, o) && Sizable(p, o)
  {
    PassedMeaning(p, ctl, o);
    ClearIff(p, o);
    if o.side == Buy ==> o.stop.Some? { SizableIff(p, o); }
  }

  /** The condition of each objection. */
  predicate Stands(p: Policy, o: Order, v: Violation) {
    match v
    case InEmergencyStop => false
    case SystemPaused => false
    case HardVeto(_) => false
    case DecisionExpired => o.expired
    case AccountBlocked => o.accountBlocked
    case MarketShut => !(o.marketOpen || p.extendedHours)
    case AssetNotTradable => !o.tradable
    case DuplicateClientOrder => o.duplicate
    case ConflictingOpenOrder => o.conflicting
    case DataQualityHardFail => o.dataQuality < p.dataQualityFloor
    case StaleQuote => o.quoteAge.Some? && o.quoteAge.value > 20.0 * p.quoteMaxAge
    case SpreadTooWide => o.spreadBps.Some? && o.spreadBps.value > p.maxSpreadBps
    case MaxOpenPositions => o.side == Buy && o.positionQty <= 0.0 && o.openPositions >= p.maxOpenPositions
    case ShortSellingDisabled =>
      o.side == Sell && !p.shortSelling && o.positionQty <= 0.0 && o.quantity > -o.positionQty + 0.000000001
    case StopRequired => o.side == Buy && o.stop.None?
    case SizingRejected(reason) => !(o.side == Buy && o.stop.None?) && Unsizable(p, o, reason)
  }

  /** Why an order cannot be sized; a missing stop counts as zero. */
  predicate Unsizable(p: Policy, o: Order, reason: SizingReason) {
    var stop := if o.stop.Some? then o.stop.value else 0.0;
    match reason
    case StopDistanceInvalid => stop == o.entry
    case StopNotBelowEntry => o.side == Buy && stop > o.entry
    case StopNotAboveEntry => o.side == Sell && stop < o.entry
    case QuantityZero =>
      o.entry != 0.0 && (if o.side == Buy then stop < o.entry else stop > o.entry) && !Sizable(p, o)
    case BuyingPowerExceeded => false
  }

  /** Sizing divides by a zero entry price. */
  predicate DividesByZero(o: Order) {
    o.entry == 0.0 && o.stop.Some? && (if o.side == Buy then o.stop.value < 0.0 else o.stop.value > 0.0)
  }

  lemma FlagMember(on: bool, v: Violation, w: Violation)
    ensures w in Flag(on, v) <==> on && w == v
  {
  }

  lemma StateMember(p: Policy, o: Order, v: Violation)
    ensures v in StateObjections(p, o) <==>
      Stands(p, o, v) && (v.DecisionExpired? || v.AccountBlocked? || v.MarketShut? || v.AssetNotTradable?
        || v.DuplicateClientOrder? || v.ConflictingOpenOrder?)
  {
    FlagMember(o.expired, DecisionExpired, v);
    FlagMember(o.accountBlocked, AccountBlocked, v);
    FlagMember(!o.marketOpen && !p.extendedHours, MarketShut, v);
    FlagMember(!o.tradable, AssetNotTradable, v);
    FlagMember(o.duplicate, DuplicateClientOrder, v);
    FlagMember(o.conflicting, ConflictingOpenOrder, v);
  }

  lemma MarketMember(p: Policy, o: Order, v: Violation)
    ensures v in MarketObjections(p, o) <==>
      Stands(p, o, v) && (v.DataQualityHardFail? || v.StaleQuote? || v.SpreadTooWide? || v.MaxOpenPositions?
        || v.ShortSellingDisabled? || v.StopRequired?)
  {
    FlagMember(ShortsWithoutLeave(p, o), ShortSellingDisabled, v);
    assert ShortsWithoutLeave(p, o) <==> Stands(p, o, ShortSellingDisabled);
  }

  lemma ReasonIff(p: Policy, o: Order, reason: SizingReason)
    requires o.side == Buy ==> o.stop.Some?
    ensures Size(SizingOf(p, o)) == Unsized(reason) <==> Unsizable(p, o, reason)
  {
    RefusalIff(SizingOf(p, o));
    SizableIff(p, o);
    BuyingPowerGuardIsDead(SizingOf(p, o));
  }

  /** Past the kill switch and the vetoes, a stored verdict lists an objection if and only if its own
      condition holds, and there is no verdict only where sizing divides by a zero entry price. */
  lemma ViolationIff(p: Policy, o: Order, v: Violation)
    requires o.hardVetoes == []
    ensures
      var verdict := Validate(p, Active, o);
      && (verdict.Check? ==> (v in verdict.violations <==> Stands(p, o, v)))
      && (verdict.Crash? <==> DividesByZero(o))
  {
    StateMember(p, o, v);
    MarketMember(p, o, v);
    if o.side == Buy ==> o.stop.Some? {
      RefusalIff(SizingOf(p, o));
      if v.SizingRejected? { ReasonIff(p, o, v.reason); }
      if Validate(p, Active, o).Check? { StoredViolations(p, o); }
    }
  }

  lemma StoredViolations(p: Policy, o: Order)
    requires o.hardVetoes == [] && (o.side == Buy ==> o.stop.Some?) && Validate(p, Active, o).Check?
    ensures
      var sizing := Size(SizingOf(p, o));
      Validate(p, Active, o).violations ==
      Objections(p, o) + (if sizing.Unsized? then [SizingRejected(sizing.reason)] else [])
  {
  }

  /** Every verdict's status and quantities. Before anything else the kill switch answers, then the
      vetoes; a refused order is approved for nothing, and a passed one for the smaller of the
      request and the size, reported as reduced or as waiting for an operator. */
  lemma VerdictIs(p: Policy, ctl: TradingState, o: Order)
    ensures
      var v := Validate(p, ctl, o);
      && (ctl == EmergencyStop ==> v == Check(SystemBlocked, o.quantity, 0.0, [InEmergencyStop]))
      && (ctl == Paused ==> v == Check(SystemBlocked, o.quantity, 0.0, [SystemPaused]))
      && (ctl == Active && o.hardVetoes != [] ==>
            && v.Check? && v.status == RiskRejected && v.requested == o.quantity && v.approved == 0.0
            && |v.violations| == |o.hardVetoes|
            && forall i :: 0 <= i < |o.hardVetoes| ==> v.violations[i] == HardVeto(o.hardVetoes[i]))
      && (ctl == Active && v.Check? && !Passed(v) ==>
            v.status == RiskRejected && v.requested == o.quantity && v.approved == 0.0)
      && (Passed(v) ==>
            && v.requested == o.quantity && v.violations == []
            && (v.status == RequiresManualApproval <==> p.manualApproval)
            && (v.status == ApprovedWithReduction <==> !p.manualApproval && v.approved + 0.000000001 < o.quantity))
  {
    PassedMeaning(p, ctl, o);
  }

  /** The approved quantity, on the order's fields: it loses at most the risk budget at the stop,
      fits the position budget and the buying power, each to half a micro-share, and it is the whole
      request unless half a micro-share more would pass one of the three. */
  lemma ApprovedQuantityIs(p: Policy, ctl: TradingState, o: Order)
    requires Passed(Validate(p, ctl, o))
    ensures
      var q := Validate(p, ctl, o).approved;
      var stop := o.stop.value;
      var slack := 0.0000005;
      && o.stop.Some? && q <= o.quantity
      && Times(q, Abs(o.entry - stop)) <= Times(o.equity, p.riskPct / 100.0) + Times(slack, Abs(o.entry - stop))
      && Times(q, o.entry) <= Times(o.equity, p.maxPositionPct / 100.0) + Times(slack, o.entry)
      && Times(q, o.entry) <= o.buyingPower + Times(slack, o.entry)
      && (q == o.quantity
          || Times(q + slack, Abs(o.entry - stop)) >= Times(o.equity, p.riskPct / 100.0)
          || Times(q + slack, o.entry) >= Times(o.equity, p.maxPositionPct / 100.0)
          || Times(q + slack, o.entry) >= o.buyingPower)
  {
    PassesIff(p, ctl, o);
    PassedMeaning(p, ctl, o);
    ApprovalMeetsCaps(p, ctl, o);
    SizeReachesACap(SizingOf(p, o));
  }
}
