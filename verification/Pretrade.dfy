/** The pre-trade risk validator (app/execution/pretrade.py). */
module Pretrade {
  import opened BrokerModels
  import opened Rounding
  import opened Controls
  import opened Sizing

  datatype PretradeStatus =
    | Approved | ApprovedWithReduction | RequiresManualApproval | RiskRejected | SystemBlocked

  datatype Violation =
    | InEmergencyStop | SystemPaused | HardVeto(veto: string)
    | DecisionExpired | AccountBlocked | MarketShut | AssetNotTradable | DuplicateClientOrder
    | ConflictingOpenOrder | DataQualityHardFail | StaleQuote | SpreadTooWide | MaxOpenPositions
    | ShortSellingDisabled | StopRequired | SizingRejected(reason: SizingReason)

  datatype Policy = Policy(
    extendedHours: bool, dataQualityFloor: real, quoteMaxAge: real, maxSpreadBps: real,
    maxOpenPositions: nat, shortSelling: bool, riskPct: real, maxPositionPct: real,
    manualApproval: bool)

  datatype Order = Order(
    side: Side, quantity: real, entry: real, stop: Option<real>,
    equity: real, buyingPower: real, positionQty: real,
    dataQuality: real, quoteAge: Option<real>, spreadBps: Option<real>, hardVetoes: seq<string>,
    tradable: bool, marketOpen: bool, accountBlocked: bool,
    duplicate: bool, conflicting: bool, expired: bool, openPositions: nat)

  /** `Check` is a stored verdict; `Crash` is the unguarded division in the sizing step. */
  datatype Verdict =
    | Check(status: PretradeStatus, requested: real, approved: real, violations: seq<Violation>)
    | Crash

  predicate Passed(v: Verdict) {
    v.Check? && (v.status.Approved? || v.status.ApprovedWithReduction? || v.status.RequiresManualApproval?)
  }

  function Flag(on: bool, v: Violation): seq<Violation> { if on then [v] else [] }

  function StateObjections(p: Policy, o: Order): seq<Violation> {
    Flag(o.expired, DecisionExpired)
    + Flag(o.accountBlocked, AccountBlocked)
    + Flag(!o.marketOpen && !p.extendedHours, MarketShut)
    + Flag(!o.tradable, AssetNotTradable)
    + Flag(o.duplicate, DuplicateClientOrder)
    + Flag(o.conflicting, ConflictingOpenOrder)
  }

  function MarketObjections(p: Policy, o: Order): seq<Violation> {
    Flag(o.dataQuality < p.dataQualityFloor, DataQualityHardFail)
    + Flag(o.quoteAge.Some? && o.quoteAge.value > p.quoteMaxAge * 20.0, StaleQuote)
    + Flag(o.spreadBps.Some? && o.spreadBps.value > p.maxSpreadBps, SpreadTooWide)
    + Flag(o.openPositions >= p.maxOpenPositions && o.side.Buy? && o.positionQty <= 0.0, MaxOpenPositions)
    + Flag(ShortsWithoutLeave(p, o), ShortSellingDisabled)
    + Flag(o.stop.None? && o.side.Buy?, StopRequired)
  }

  /** Everything the validator objects to before it sizes the order. */
  function Objections(p: Policy, o: Order): seq<Violation> { StateObjections(p, o) + MarketObjections(p, o) }

  predicate ShortsWithoutLeave(p: Policy, o: Order) {
    o.side.Sell? && o.quantity > Abs(o.positionQty) + 0.000000001 && !p.shortSelling && o.positionQty <= 0.0
  }

  function SizingOf(p: Policy, o: Order): SizingInput {
    SizingInput(o.equity, p.riskPct, o.entry, Or(o.stop, 0.0), p.maxPositionPct, o.buyingPower,
                None, None, None, true, o.side)
  }

  function Vetoes(vs: seq<string>): seq<Violation> {
    seq(|vs|, i requires 0 <= i < |vs| => HardVeto(vs[i]))
  }

  function Verdicted(p: Policy, o: Order, sized: real): Verdict {
    var approved := Min(o.quantity, sized);
    Check(if p.manualApproval then RequiresManualApproval
          else if approved + 0.000000001 < o.quantity then ApprovedWithReduction else Approved,
          o.quantity, approved, [])
  }

  function Validate(p: Policy, ctl: TradingState, o: Order): Verdict {
    if ctl.EmergencyStop? then Check(SystemBlocked, o.quantity, 0.0, [InEmergencyStop])
    else if ctl.Paused? then Check(SystemBlocked, o.quantity, 0.0, [SystemPaused])
    else if o.hardVetoes != [] then Check(RiskRejected, o.quantity, 0.0, Vetoes(o.hardVetoes))
    else if o.stop.None? && o.side.Buy? then Check(RiskRejected, o.quantity, 0.0, Objections(p, o))
    else
      var sizing := Size(SizingOf(p, o));
      if sizing.Crashed? then Crash
      else
        var vs := Objections(p, o) + (if sizing.Unsized? then [SizingRejected(sizing.reason)] else []);
        if vs != [] then Check(RiskRejected, o.quantity, 0.0, vs)
        else Verdicted(p, o, sizing.quantity)
  }

  // ----- The validator with its lists built step by step -----

  class PretradeRiskValidator {
    const policy: Policy
    const controls: TradingControls

    constructor (p: Policy, c: TradingControls)
      ensures policy == p && controls == c
    {
      policy, controls := p, c;
    }

    method ObjectToState(o: Order) returns (violations: seq<Violation>)
      ensures violations == StateObjections(policy, o)
    {
      violations := Flag(o.expired, DecisionExpired);
      violations := violations + Flag(o.accountBlocked, AccountBlocked);
      violations := violations + Flag(!o.marketOpen && !policy.extendedHours, MarketShut);
      violations := violations + Flag(!o.tradable, AssetNotTradable);
      violations := violations + Flag(o.duplicate, DuplicateClientOrder);
      violations := violations + Flag(o.conflicting, ConflictingOpenOrder);
    }

    method ObjectToMarket(o: Order) returns (violations: seq<Violation>)
      ensures violations == MarketObjections(policy, o)
    {
      violations := Flag(o.dataQuality < policy.dataQualityFloor, DataQualityHardFail);
      violations := violations + Flag(o.quoteAge.Some? && o.quoteAge.value > policy.quoteMaxAge * 20.0, StaleQuote);
      violations := violations + Flag(o.spreadBps.Some? && o.spreadBps.value > policy.maxSpreadBps, SpreadTooWide);
      violations := violations
        + Flag(o.openPositions >= policy.maxOpenPositions && o.side.Buy? && o.positionQty <= 0.0, MaxOpenPositions);
      violations := violations + Flag(ShortsWithoutLeave(policy, o), ShortSellingDisabled);
      violations := violations + Flag(o.stop.None? && o.side.Buy?, StopRequired);
    }

    method ValidateOrder(o: Order) returns (v: Verdict)
      ensures v == Validate(policy, controls.current.state, o)
    {
      if controls.current.state.EmergencyStop? {
        return Check(SystemBlocked, o.quantity, 0.0, [InEmergencyStop]);
      }
      if controls.current.state.Paused? {
        return Check(SystemBlocked, o.quantity, 0.0, [SystemPaused]);
      }
      if o.hardVetoes != [] {
        return Check(RiskRejected, o.quantity, 0.0, Vetoes(o.hardVetoes));
      }
      var violations := ObjectToState(o);
      var more := ObjectToMarket(o);
      violations := violations + more;
      if o.stop.None? && o.side.Buy? {
        return Check(RiskRejected, o.quantity, 0.0, violations);
      }
      var sizing := SizePosition(SizingOf(policy, o));
      if sizing.Crashed? {
        return Crash;
      }
      if sizing.Unsized? {
        violations := violations + [SizingRejected(sizing.reason)];
      }
      if violations != [] {
        return Check(RiskRejected, o.quantity, 0.0, violations);
      }
      var approved := Min(o.quantity, sizing.quantity);
      var status := Approved;
      if approved + 0.000000001 < o.quantity {
        status := ApprovedWithReduction;
      }
      if policy.manualApproval {
        status := RequiresManualApproval;
      }
      return Check(status, o.quantity, approved, []);
    }
  }

  // ----- Meaning of a verdict -----

  /** An order passes exactly when trading is active and nobody objects; it is then approved for
      the smaller of the requested and the sized quantity. Anything else is approved for zero. */
  lemma PassedMeaning(p: Policy, ctl: TradingState, o: Order)
    ensures
      var v := Validate(p, ctl, o);
      && (Passed(v) <==>
           ctl.Active? && o.hardVetoes == [] && Objections(p, o) == [] && Size(SizingOf(p, o)).Sized?)
      && (Passed(v) ==>
           v.approved == Min(o.quantity, Size(SizingOf(p, o)).quantity) && v.requested == o.quantity)
      && (v.Check? && !Passed(v) ==> v.approved == 0.0 && v.violations != [])
      && (Passed(v) && p.manualApproval ==> v.status.RequiresManualApproval?)
      && (v.Check? && v.status.RequiresManualApproval? ==> p.manualApproval)
  {
    if o.stop.None? && o.side.Buy? {
      assert Flag(o.stop.None? && o.side.Buy?, StopRequired) == [StopRequired];
      assert Objections(p, o)[|Objections(p, o)| - 1] == StopRequired;
    }
  }

  /** The approved quantity inherits the sizing caps. */
  lemma ApprovalMeetsCaps(p: Policy, ctl: TradingState, o: Order)
    requires Passed(Validate(p, ctl, o))
    ensures
      var q := Validate(p, ctl, o).approved;
      var inp := SizingOf(p, o);
      && q <= o.quantity
      && Times(q, StopDistance(inp)) <= RiskAmount(inp) + Times(SLACK, StopDistance(inp))
      && Times(q, o.entry) <= PositionBudget(inp) + Times(SLACK, o.entry)
      && Times(q, o.entry) <= o.buyingPower + Times(SLACK, o.entry)
  {
    PassedMeaning(p, ctl, o);
    var inp := SizingOf(p, o);
    SizeMeetsEveryCap(inp);
    TimesMonotone(Validate(p, ctl, o).approved, Size(inp).quantity, StopDistance(inp));
    TimesMonotone(Validate(p, ctl, o).approved, Size(inp).quantity, o.entry);
  }

  function ApprovedQuantity(v: Verdict): real { if v.Check? then v.approved else 0.0 }

  lemma ApprovalIsBounded(p: Policy, ctl: TradingState, o: Order)
    requires ctl.Active? && o.hardVetoes == [] && Objections(p, o) == [] && o.quantity >= 0.0
    ensures ApprovedQuantity(Validate(p, ctl, o)) == Min(o.quantity, QuantityOf(Size(SizingOf(p, o))))
  {
    PassedMeaning(p, ctl, o);
  }

  /** Moving the stop further from the entry never grows the approved quantity. */
  lemma FartherStopNeverGrowsApproval(p: Policy, ctl: TradingState, o: Order, stop: real)
    requires o.stop.Some? && o.quantity >= 0.0
    requires Misdirected(SizingOf(p, o)).None? && Misdirected(SizingOf(p, o.(stop := Some(stop)))).None?
    requires Abs(o.entry - o.stop.value) <= Abs(o.entry - stop)
    ensures ApprovedQuantity(Validate(p, ctl, o.(stop := Some(stop)))) <= ApprovedQuantity(Validate(p, ctl, o))
  {
    var far := o.(stop := Some(stop));
    PassedMeaning(p, ctl, o);
    PassedMeaning(p, ctl, far);
    if ctl.Active? && o.hardVetoes == [] && Objections(p, o) == [] {
      SameObjections(p, o, stop);
      ApprovalIsBounded(p, ctl, o);
      ApprovalIsBounded(p, ctl, far);
      FartherStopNeverGrows(SizingOf(p, o), stop);
    } else {
      SameObjections(p, o, stop);
    }
  }

  lemma SameObjections(p: Policy, o: Order, stop: real)
    requires o.stop.Some?
    ensures Objections(p, o.(stop := Some(stop))) == Objections(p, o)
  {
  }

  /** Shrinking the request to any smaller quantity draws no new objection. */
  lemma SmallerRequestNoNewObjection(p: Policy, o: Order, q: real)
    requires Objections(p, o) == [] && q <= o.quantity
    ensures Objections(p, o.(quantity := q)) == []
  {
    assert |StateObjections(p, o)| == 0 && |MarketObjections(p, o)| == 0;
    assert |Flag(ShortsWithoutLeave(p, o), ShortSellingDisabled)| == 0;
    assert !ShortsWithoutLeave(p, o.(quantity := q));
  }

  /** Revalidating at the approved quantity approves it again, whole. */
  lemma RevalidationIsStable(p: Policy, ctl: TradingState, o: Order)
    requires Passed(Validate(p, ctl, o))
    ensures
      var q := Validate(p, ctl, o).approved;
      var again := Validate(p, ctl, o.(quantity := q));
      Passed(again) && again.approved == q && !again.status.ApprovedWithReduction?
  {
    PassedMeaning(p, ctl, o);
    var q := Validate(p, ctl, o).approved;
    SmallerRequestNoNewObjection(p, o, q);
    PassedMeaning(p, ctl, o.(quantity := q));
  }
}
