/** Deterministic position sizing (app/execution/sizing.py). */
module Sizing {
  import opened BrokerModels
  import opened Rounding

  /** Half a micro-share: what rounding the final quantity can add. */
  const SLACK := 0.0000005

  datatype SizingInput = SizingInput(
    equity: real, riskPct: real, entry: real, stop: real, maxPositionPct: real, buyingPower: real,
    liquidityCap: Option<real>, symbolCap: Option<real>, sectorCap: Option<real>,
    fractionable: bool, side: Side)

  datatype SizingReason =
    | StopDistanceInvalid | StopNotBelowEntry | StopNotAboveEntry | QuantityZero | BuyingPowerExceeded

  /** `Crashed` is the division by a zero entry price that the source does not guard. */
  datatype Sizing =
    | Sized(quantity: real, notional: real, riskAmount: real, stopDistance: real)
    | Unsized(reason: SizingReason)
    | Crashed

  function StopDistance(inp: SizingInput): real { Abs(inp.entry - inp.stop) }

  function RiskAmount(inp: SizingInput): real { Times(inp.equity, inp.riskPct / 100.0) }

  function PositionBudget(inp: SizingInput): real { Times(inp.equity, inp.maxPositionPct / 100.0) }

  function Optional(cap: Option<real>): seq<real> { if cap.Some? then [cap.value] else [] }

  function PerShare(cap: Option<real>, price: real): Option<real>
    requires price != 0.0
  {
    if cap.Some? then Some(Over(cap.value, price)) else None
  }

  function BuyingPowerCap(inp: SizingInput): real {
    if inp.entry > 0.0 then Over(inp.buyingPower, inp.entry) else 0.0
  }

  /** Every limit on the share count, in the order the source applies them. */
  function Caps(inp: SizingInput): seq<real>
    requires StopDistance(inp) > 0.0 && inp.entry != 0.0
  {
    [Over(RiskAmount(inp), StopDistance(inp))]
    + [Over(PositionBudget(inp), inp.entry)]
    + [BuyingPowerCap(inp)]
    + Optional(inp.liquidityCap)
    + Optional(PerShare(inp.symbolCap, inp.entry))
    + Optional(PerShare(inp.sectorCap, inp.entry))
  }

  function MinOf(xs: seq<real>): (m: real)
    requires xs != []
    ensures m in xs && forall i :: 0 <= i < |xs| ==> m <= xs[i]
  {
    if |xs| == 1 then xs[0] else Min(MinOf(xs[..|xs| - 1]), xs[|xs| - 1])
  }

  /** Shares before rounding: the tightest cap, whole shares where fractions are not allowed. */
  function RawQuantity(inp: SizingInput): real
    requires StopDistance(inp) > 0.0 && inp.entry != 0.0
  {
    var q := MinOf(Caps(inp));
    if inp.fractionable then q else Trunc(q)
  }

  function Misdirected(inp: SizingInput): Option<SizingReason> {
    if StopDistance(inp) <= 0.0 then Some(StopDistanceInvalid)
    else if inp.side.Buy? && inp.stop >= inp.entry then Some(StopNotBelowEntry)
    else if inp.side.Sell? && inp.stop <= inp.entry then Some(StopNotAboveEntry)
    else None
  }

  function Size(inp: SizingInput): Sizing {
    if Misdirected(inp).Some? then Unsized(Misdirected(inp).value)
    else if inp.entry == 0.0 then Crashed
    else
      var q := RawQuantity(inp);
      if q <= 0.0 then Unsized(QuantityZero)
      else if Times(q, inp.entry) > inp.buyingPower + 0.000001 && inp.side.Buy? then Unsized(BuyingPowerExceeded)
      else Sized(Round6(q), Round2(Times(q, inp.entry)), RiskAmount(inp), StopDistance(inp))
  }

  lemma MinOfSnoc(xs: seq<real>, x: real)
    requires xs != []
    ensures MinOf(xs + [x]) == Min(MinOf(xs), x)
  {
    assert (xs + [x])[..|xs|] == xs;
  }

  method TightenBy(qty: real, cap: Option<real>, ghost caps: seq<real>) returns (q: real, ghost caps': seq<real>)
    requires caps != [] && qty == MinOf(caps)
    ensures caps' == caps + Optional(cap) && q == MinOf(caps')
  {
    q, caps' := qty, caps + Optional(cap);
    if cap.Some? {
      q := Min(q, cap.value);
      MinOfSnoc(caps, cap.value);
    } else {
      assert caps' == caps;
    }
  }

  method TightestCap(inp: SizingInput) returns (qty: real)
    requires StopDistance(inp) > 0.0 && inp.entry != 0.0
    ensures qty == MinOf(Caps(inp))
  {
    qty := Over(RiskAmount(inp), StopDistance(inp));
    ghost var caps := [qty];
    qty, caps := TightenBy(qty, Some(Over(PositionBudget(inp), inp.entry)), caps);
    qty, caps := TightenBy(qty, Some(BuyingPowerCap(inp)), caps);
    qty, caps := TightenBy(qty, inp.liquidityCap, caps);
    qty, caps := TightenBy(qty, PerShare(inp.symbolCap, inp.entry), caps);
    qty, caps := TightenBy(qty, PerShare(inp.sectorCap, inp.entry), caps);
    assert caps == Caps(inp);
  }

  /** The source's chain of overwrites computes the minimum over all caps. */
  method SizePosition(inp: SizingInput) returns (r: Sizing)
    ensures r == Size(inp)
  {
    var stopDistance := Abs(inp.entry - inp.stop);
    if stopDistance <= 0.0 {
      return Unsized(StopDistanceInvalid);
    }
    if inp.side.Buy? && inp.stop >= inp.entry {
      return Unsized(StopNotBelowEntry);
    }
    if inp.side.Sell? && inp.stop <= inp.entry {
      return Unsized(StopNotAboveEntry);
    }
    if inp.entry == 0.0 {
      return Crashed;
    }
    var qty := TightestCap(inp);
    if !inp.fractionable {
      qty := Trunc(qty);
    }
    if qty <= 0.0 {
      return Unsized(QuantityZero);
    }
    var notional := Times(qty, inp.entry);
    if notional > inp.buyingPower + 0.000001 && inp.side.Buy? {
      return Unsized(BuyingPowerExceeded);
    }
    return Sized(Round6(qty), Round2(notional), RiskAmount(inp), stopDistance);
  }

  // ----- What a size means -----

  lemma CapPosition(inp: SizingInput, i: nat)
    requires Misdirected(inp).None? && inp.entry != 0.0 && i < |Caps(inp)|
    ensures RawQuantity(inp) <= 0.0 || RawQuantity(inp) <= Caps(inp)[i]
  {
    assert MinOf(Caps(inp)) <= Caps(inp)[i];
  }

  lemma DivideBound(q: real, n: real, d: real)
    requires d > 0.0 && q <= Over(n, d)
    ensures Times(q, d) <= n
  {
    OverTimes(n, d);
  }

  lemma PositiveSizeMeansPositiveEntry(inp: SizingInput)
    requires Misdirected(inp).None? && inp.entry != 0.0 && RawQuantity(inp) > 0.0
    ensures inp.entry > 0.0
  {
    CapPosition(inp, 2);
  }

  /** Once the buying-power cap has been applied its second guard cannot fire. */
  lemma BuyingPowerGuardIsDead(inp: SizingInput)
    ensures Size(inp) != Unsized(BuyingPowerExceeded)
  {
    if Misdirected(inp).None? && inp.entry != 0.0 && RawQuantity(inp) > 0.0 {
      PositiveSizeMeansPositiveEntry(inp);
      CapPosition(inp, 2);
      DivideBound(RawQuantity(inp), inp.buyingPower, inp.entry);
    }
  }

  lemma PositiveQuotient(n: real, d: real)
    requires n > 0.0 && d > 0.0
    ensures Over(n, d) > 0.0
  {
    OverTimes(n, d);
  }

  /** With positive budgets, no optional cap and fractions allowed, a well-directed stop sizes. */
  lemma PositiveBudgetsSize(inp: SizingInput)
    requires Misdirected(inp).None? && inp.entry > 0.0 && inp.fractionable
    requires RiskAmount(inp) > 0.0 && PositionBudget(inp) > 0.0 && inp.buyingPower > 0.0
    requires inp.liquidityCap.None? && inp.symbolCap.None? && inp.sectorCap.None?
    ensures Size(inp).Sized?
  {
    PositiveQuotient(RiskAmount(inp), StopDistance(inp));
    PositiveQuotient(PositionBudget(inp), inp.entry);
    PositiveQuotient(inp.buyingPower, inp.entry);
    assert |Caps(inp)| == 3 && forall i :: 0 <= i < 3 ==> Caps(inp)[i] > 0.0;
    BuyingPowerGuardIsDead(inp);
  }

  /** Where the risk budget is the tightest cap it alone decides the size. */
  lemma RiskDecides(inp: SizingInput, q: real)
    requires Misdirected(inp).None? && inp.entry > 0.0 && inp.fractionable
    requires inp.liquidityCap.None? && inp.symbolCap.None? && inp.sectorCap.None?
    requires q > 0.0 && OnGrid6(q) && Times(q, StopDistance(inp)) == RiskAmount(inp)
    requires Times(q, inp.entry) <= PositionBudget(inp) && Times(q, inp.entry) <= inp.buyingPower
    ensures Size(inp).Sized? && Size(inp).quantity == q
  {
    QuotientUnique(q, RiskAmount(inp), StopDistance(inp));
    AtMostQuotient(q, PositionBudget(inp), inp.entry);
    AtMostQuotient(q, inp.buyingPower, inp.entry);
    assert |Caps(inp)| == 3 && Caps(inp)[0] == q && q <= Caps(inp)[1] && q <= Caps(inp)[2];
    assert RawQuantity(inp) == q;
    BuyingPowerGuardIsDead(inp);
    Round6OfGrid(q);
  }

  lemma AtMostQuotient(q: real, n: real, d: real)
    requires d > 0.0 && Times(q, d) <= n
    ensures q <= Over(n, d)
  {
    OverTimes(n, d);
    if q > Over(n, d) { TimesMonotone(Over(n, d), q, d); }
  }

  lemma TimesSlack(q: real, raw: real, d: real, n: real)
    requires d > 0.0 && q <= raw + SLACK && Times(raw, d) <= n
    ensures Times(q, d) <= n + Times(SLACK, d)
  {
    TimesMonotone(q, raw + SLACK, d);
    Distribute(raw, SLACK, d);
  }

  /** A size loses at most the risk budget if the stop is hit, and fits the position, buying-power,
      liquidity, symbol and sector budgets, each up to half a micro-share. */
  lemma SizeMeetsEveryCap(inp: SizingInput)
    requires Size(inp).Sized?
    ensures
      var s := Size(inp);
      && s.quantity >= 0.0 && inp.entry > 0.0
      && Times(s.quantity, StopDistance(inp)) <= RiskAmount(inp) + Times(SLACK, StopDistance(inp))
      && Times(s.quantity, inp.entry) <= PositionBudget(inp) + Times(SLACK, inp.entry)
      && Times(s.quantity, inp.entry) <= inp.buyingPower + Times(SLACK, inp.entry)
      && (inp.liquidityCap.Some? ==> s.quantity <= inp.liquidityCap.value + SLACK)
      && (inp.symbolCap.Some? ==> Times(s.quantity, inp.entry) <= inp.symbolCap.value + Times(SLACK, inp.entry))
      && (inp.sectorCap.Some? ==> Times(s.quantity, inp.entry) <= inp.sectorCap.value + Times(SLACK, inp.entry))
  {
    var raw, q := RawQuantity(inp), Size(inp).quantity;
    PositiveSizeMeansPositiveEntry(inp);
    Round6Slack(raw);
    Round6Monotone(0.0, raw);
    Round6OfGrid(0.0);
    CapPosition(inp, 0);
    DivideBound(raw, RiskAmount(inp), StopDistance(inp));
    TimesSlack(q, raw, StopDistance(inp), RiskAmount(inp));
    CapPosition(inp, 1);
    BudgetBound(inp, PositionBudget(inp));
    CapPosition(inp, 2);
    BudgetBound(inp, inp.buyingPower);
    var n := 3 + |Optional(inp.liquidityCap)|;
    if inp.liquidityCap.Some? { assert Caps(inp)[3] == inp.liquidityCap.value; CapPosition(inp, 3); }
    if inp.symbolCap.Some? {
      assert Caps(inp)[n] == Over(inp.symbolCap.value, inp.entry);
      CapPosition(inp, n);
      BudgetBound(inp, inp.symbolCap.value);
    }
    var m := n + |Optional(inp.symbolCap)|;
    if inp.sectorCap.Some? {
      assert Caps(inp)[m] == Over(inp.sectorCap.value, inp.entry);
      CapPosition(inp, m);
      BudgetBound(inp, inp.sectorCap.value);
    }
  }

  lemma BudgetBound(inp: SizingInput, budget: real)
    requires Size(inp).Sized? && inp.entry > 0.0 && RawQuantity(inp) <= Over(budget, inp.entry)
    ensures Times(Size(inp).quantity, inp.entry) <= budget + Times(SLACK, inp.entry)
  {
    Round6Slack(RawQuantity(inp));
    DivideBound(RawQuantity(inp), budget, inp.entry);
    TimesSlack(Size(inp).quantity, RawQuantity(inp), inp.entry, budget);
  }

  function QuantityOf(s: Sizing): real { if s.Sized? then s.quantity else 0.0 }

  lemma MinOfMonotone(x: real, y: real, rest: seq<real>)
    requires x <= y
    ensures MinOf([x] + rest) <= MinOf([y] + rest)
  {
    var ys := [y] + rest;
    var m := MinOf(ys);
    var i :| 0 <= i < |ys| && ys[i] == m;
    assert ([x] + rest)[i] <= m;
  }

  lemma QuotientShrinks(n: real, d: real, d': real)
    requires 0.0 < d <= d'
    ensures n >= 0.0 ==> Over(n, d') <= Over(n, d)
    ensures n <= 0.0 ==> Over(n, d') <= 0.0 && Over(n, d) <= 0.0
  {
    OverTimes(n, d);
    OverTimes(n, d');
  }

  lemma TruncMonotone(x: real, y: real)
    requires x <= y
    ensures Trunc(x) <= Trunc(y)
  {
    if y < 0.0 {
      FloorMonotone(-y, -x);
    } else if x < 0.0 {
      FloorMonotone(0.0, -x);
      FloorMonotone(0.0, y);
    } else {
      FloorMonotone(x, y);
    }
  }

  lemma FloorMonotone(x: real, y: real)
    requires x <= y
    ensures x.Floor <= y.Floor
  {
  }

  lemma FartherStopShrinksRaw(inp: SizingInput, stop: real)
    requires Misdirected(inp).None? && inp.entry != 0.0
    requires Misdirected(inp.(stop := stop)).None?
    requires StopDistance(inp) <= StopDistance(inp.(stop := stop))
    ensures RawQuantity(inp.(stop := stop)) <= RawQuantity(inp) || RawQuantity(inp.(stop := stop)) <= 0.0
  {
    var far := inp.(stop := stop);
    var a, b := Caps(far), Caps(inp);
    var rest := a[1..];
    assert a == [a[0]] + rest && b == [b[0]] + rest;
    QuotientShrinks(RiskAmount(inp), StopDistance(inp), StopDistance(far));
    if a[0] <= b[0] {
      MinOfMonotone(a[0], b[0], rest);
      TruncMonotone(MinOf(a), MinOf(b));
    } else {
      assert MinOf(a) <= a[0];
      TruncMonotone(MinOf(a), 0.0);
    }
  }

  /** Moving the stop further from the entry never grows the position. */
  lemma FartherStopNeverGrows(inp: SizingInput, stop: real)
    requires Misdirected(inp).None? && Misdirected(inp.(stop := stop)).None?
    requires StopDistance(inp) <= StopDistance(inp.(stop := stop))
    ensures QuantityOf(Size(inp.(stop := stop))) <= QuantityOf(Size(inp))
  {
    var far := inp.(stop := stop);
    if Size(far).Sized? {
      FartherStopShrinksRaw(inp, stop);
      BuyingPowerGuardIsDead(inp);
      Round6Monotone(RawQuantity(far), RawQuantity(inp));
    } else {
      SizeNonNegative(inp);
    }
  }

  lemma SizeNonNegative(inp: SizingInput)
    ensures QuantityOf(Size(inp)) >= 0.0
  {
    if Size(inp).Sized? {
      Round6OfGrid(0.0);
      Round6Monotone(0.0, RawQuantity(inp));
    }
  }
}
