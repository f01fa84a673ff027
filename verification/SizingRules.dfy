/** What a sizing result says, on the request's own fields (app/execution/sizing.py): when there is a
    size, why there is none, and that the size fills the tightest cap. */
module SizingRules {
  import opened BrokerModels
  import opened Rounding
  import opened Sizing

  predicate StopOnRightSide(inp: SizingInput) {
    match inp.side
    case Buy => inp.stop < inp.entry
    case Sell => inp.entry < inp.stop
  }

  predicate PositiveIfSet(cap: Option<real>) { cap.Some? ==> cap.value > 0.0 }

  lemma QuotientSign(n: real, d: real)
    requires d > 0.0
    ensures Over(n, d) > 0.0 <==> n > 0.0
  {
    OverTimes(n, d);
  }

  /** All caps are positive. */
  predicate RoomInEveryCap(inp: SizingInput) {
    && inp.equity * inp.riskPct > 0.0 && inp.equity * inp.maxPositionPct > 0.0 && inp.buyingPower > 0.0
    && PositiveIfSet(inp.liquidityCap) && PositiveIfSet(inp.symbolCap) && PositiveIfSet(inp.sectorCap)
  }

  lemma Percent(x: real, y: real)
    ensures Times(x, y / 100.0) > 0.0 <==> x * y > 0.0
  {
    assert x * (y / 100.0) == x * y / 100.0;
  }

  lemma CapSigns(inp: SizingInput)
    requires StopDistance(inp) > 0.0 && inp.entry > 0.0
    ensures (forall i :: 0 <= i < |Caps(inp)| ==> Caps(inp)[i] > 0.0) <==> RoomInEveryCap(inp)
  {
    QuotientSign(RiskAmount(inp), StopDistance(inp));
    Percent(inp.equity, inp.riskPct);
    QuotientSign(PositionBudget(inp), inp.entry);
    Percent(inp.equity, inp.maxPositionPct);
    QuotientSign(inp.buyingPower, inp.entry);
    if inp.symbolCap.Some? { QuotientSign(inp.symbolCap.value, inp.entry); }
    if inp.sectorCap.Some? { QuotientSign(inp.sectorCap.value, inp.entry); }
    var n := 3 + |Optional(inp.liquidityCap)|;
    var m := n + |Optional(inp.symbolCap)|;
    assert Caps(inp)[0] == Over(RiskAmount(inp), StopDistance(inp)) && Caps(inp)[1] == Over(PositionBudget(inp), inp.entry);
    assert Caps(inp)[2] == Over(inp.buyingPower, inp.entry);
    assert inp.liquidityCap.Some? ==> Caps(inp)[3] == inp.liquidityCap.value;
    assert inp.symbolCap.Some? ==> Caps(inp)[n] == Over(inp.symbolCap.value, inp.entry);
    assert inp.sectorCap.Some? ==> Caps(inp)[m] == Over(inp.sectorCap.value, inp.entry);
  }

  lemma PositiveMinimum(xs: seq<real>)
    requires xs != []
    ensures MinOf(xs) > 0.0 <==> forall i :: 0 <= i < |xs| ==> xs[i] > 0.0
  {
  }

  lemma NoSizeAtNegativePrice(inp: SizingInput)
    requires StopDistance(inp) > 0.0 && inp.entry < 0.0
    ensures RawQuantity(inp) <= 0.0
  {
    assert Caps(inp)[2] == 0.0;
    assert MinOf(Caps(inp)) <= 0.0;
  }

  /** In fractions there is a size if and only if the stop is on the losing side of a positive entry
      price and every cap leaves room. */
  lemma SizedIff(inp: SizingInput)
    requires inp.fractionable
    ensures Size(inp).Sized? <==> StopOnRightSide(inp) && inp.entry > 0.0 && RoomInEveryCap(inp)
  {
    if Misdirected(inp).None? && inp.entry != 0.0 {
      if inp.entry < 0.0 {
        NoSizeAtNegativePrice(inp);
      } else {
        CapSigns(inp);
        PositiveMinimum(Caps(inp));
      }
    }
    BuyingPowerGuardIsDead(inp);
  }

  /** Why there is no size: the stop is at the entry, or on the wrong side; a well-placed stop at a
      zero price divides by it; anything else without a size has none left. */
  lemma RefusalIff(inp: SizingInput)
    ensures Size(inp) == Unsized(StopDistanceInvalid) <==> inp.stop == inp.entry
    ensures Size(inp) == Unsized(StopNotBelowEntry) <==> inp.side == Buy && inp.stop > inp.entry
    ensures Size(inp) == Unsized(StopNotAboveEntry) <==> inp.side == Sell && inp.stop < inp.entry
    ensures Size(inp).Crashed? <==> StopOnRightSide(inp) && inp.entry == 0.0
    ensures Size(inp) == Unsized(QuantityZero) <==> StopOnRightSide(inp) && inp.entry != 0.0 && !Size(inp).Sized?
  {
    BuyingPowerGuardIsDead(inp);
  }

  /** The size reaches a cap: adding `more` to it would pass the risk, position, buying-power,
      liquidity, symbol or sector limit. */
  predicate Reaches(inp: SizingInput, q: real, more: real) {
    || Times(q + more, Abs(inp.entry - inp.stop)) >= Times(inp.equity, inp.riskPct / 100.0)
    || Times(q + more, inp.entry) >= Times(inp.equity, inp.maxPositionPct / 100.0)
    || Times(q + more, inp.entry) >= inp.buyingPower
    || (inp.liquidityCap.Some? && q + more >= inp.liquidityCap.value)
    || (inp.symbolCap.Some? && Times(q + more, inp.entry) >= inp.symbolCap.value)
    || (inp.sectorCap.Some? && Times(q + more, inp.entry) >= inp.sectorCap.value)
  }

  lemma AtLeastQuotient(q: real, n: real, d: real)
    requires d > 0.0 && q >= Over(n, d)
    ensures Times(q, d) >= n
  {
    OverTimes(n, d);
    TimesMonotone(Over(n, d), q, d);
  }

  lemma MinimumReaches(inp: SizingInput, q: real, more: real)
    requires StopDistance(inp) > 0.0 && inp.entry > 0.0 && q + more >= MinOf(Caps(inp))
    ensures Reaches(inp, q, more)
  {
    var caps := Caps(inp);
    var i :| 0 <= i < |caps| && caps[i] == MinOf(caps);
    var n := 3 + |Optional(inp.liquidityCap)|;
    var m := n + |Optional(inp.symbolCap)|;
    if i == 0 {
      AtLeastQuotient(q + more, RiskAmount(inp), StopDistance(inp));
    } else if i == 1 {
      AtLeastQuotient(q + more, PositionBudget(inp), inp.entry);
    } else if i == 2 {
      AtLeastQuotient(q + more, inp.buyingPower, inp.entry);
    } else if i < n {
      assert caps[i] == inp.liquidityCap.value;
    } else if i < m {
      assert caps[i] == Over(inp.symbolCap.value, inp.entry);
      AtLeastQuotient(q + more, inp.symbolCap.value, inp.entry);
    } else {
      assert caps[i] == Over(inp.sectorCap.value, inp.entry);
      AtLeastQuotient(q + more, inp.sectorCap.value, inp.entry);
    }
  }

  lemma WholeOnGrid(n: int)
    ensures OnGrid6(n as real)
  {
    WholeMicroShares(n as real, n * 1000000);
  }

  /** No larger size was possible: half a micro-share more reaches a cap, or one share more where
      only whole shares trade, and then the size is whole. */
  lemma SizeReachesACap(inp: SizingInput)
    requires Size(inp).Sized?
    ensures inp.fractionable ==> Reaches(inp, Size(inp).quantity, SLACK)
    ensures !inp.fractionable ==>
      Reaches(inp, Size(inp).quantity, 1.0) && Size(inp).quantity.Floor as real == Size(inp).quantity
  {
    PositiveSizeMeansPositiveEntry(inp);
    var raw := RawQuantity(inp);
    Round6Slack(raw);
    if inp.fractionable {
      MinimumReaches(inp, Size(inp).quantity, SLACK);
    } else {
      WholeOnGrid(raw.Floor);
      Round6OfGrid(raw);
      MinimumReaches(inp, raw, 1.0);
    }
  }

  lemma TimesNear(a: real, b: real, d: real)
    requires d > 0.0 && Abs(a - b) <= SLACK
    ensures Abs(Times(a, d) - Times(b, d)) <= Times(SLACK, d)
  {
    TimesMonotone(a, b + SLACK, d);
    TimesMonotone(b, a + SLACK, d);
    Distribute(b, SLACK, d);
    Distribute(a, SLACK, d);
  }

  /** What is reported beside the size. */
  lemma ReportedAmounts(inp: SizingInput)
    requires Size(inp).Sized?
    ensures
      var s := Size(inp);
      && s.riskAmount == Times(inp.equity, inp.riskPct / 100.0)
      && s.stopDistance == (if inp.side == Buy then inp.entry - inp.stop else inp.stop - inp.entry) > 0.0
      && Abs(s.notional - Times(s.quantity, inp.entry)) <= 0.005 + Times(SLACK, inp.entry)
  {
    PositiveSizeMeansPositiveEntry(inp);
    Round6Slack(RawQuantity(inp));
    Round2Facts(Times(RawQuantity(inp), inp.entry));
    TimesNear(Size(inp).quantity, RawQuantity(inp), inp.entry);
  }
}
