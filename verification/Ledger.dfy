/** What the paper broker's cash, positions and equity mean: folds over its own order log.

    `Books` holds after every run whatsoever. `LongBook` is kept by exactly the clean trades, and
    in whole micro-shares with shorting off every trade the broker accepts is clean. */
module Ledger {
  import opened BrokerModels
  import opened Rounding
  import opened MockBrokers

  const CASH_TOLERANCE := 0.000001
  const SHARE_TOLERANCE := 0.000000001

  // ----- The order log as a list of fills -----

  datatype Entry = Entry(symbol: string, side: Side, qty: real, price: real)

  function EntryOf(o: BrokerOrder): Entry {
    Entry(o.symbol, o.side, o.filledQty, if o.avgFillPrice.Some? then o.avgFillPrice.value else 0.0)
  }

  function Log(orders: seq<BrokerOrder>): seq<Entry> {
    seq(|orders|, i requires 0 <= i < |orders| => EntryOf(orders[i]))
  }

  function Flow(e: Entry): real { if e.side.Buy? then -Times(e.qty, e.price) else Times(e.qty, e.price) }

  /** Sell proceeds minus buy costs. */
  function CashFlow(log: seq<Entry>): real {
    if log == [] then 0.0 else CashFlow(log[..|log| - 1]) + Flow(log[|log| - 1])
  }

  function Signed(e: Entry, symbol: string): real {
    if e.symbol != symbol then 0.0 else if e.side.Buy? then e.qty else -e.qty
  }

  /** Shares bought minus shares sold. */
  function Net(log: seq<Entry>, symbol: string): real {
    if log == [] then 0.0 else Net(log[..|log| - 1], symbol) + Signed(log[|log| - 1], symbol)
  }

  datatype Span = Flat | Open(lo: real, hi: real)

  function Widen(s: Span, price: real): Span {
    if s.Flat? then Open(price, price) else Open(Min(s.lo, price), Max(s.hi, price))
  }

  /** Lowest and highest buy price since the position was last flat. */
  function BuySpan(log: seq<Entry>, symbol: string): Span {
    if log == [] then Flat
    else
      var last := log[|log| - 1];
      var before := BuySpan(log[..|log| - 1], symbol);
      if Net(log, symbol) == 0.0 then Flat
      else if last.symbol == symbol && last.side.Buy? && last.qty != 0.0 then Widen(before, last.price)
      else before
  }

  lemma Snoc(log: seq<Entry>, e: Entry, symbol: string)
    ensures CashFlow(log + [e]) == CashFlow(log) + Flow(e)
    ensures Net(log + [e], symbol) == Net(log, symbol) + Signed(e, symbol)
    ensures BuySpan(log + [e], symbol) ==
      if Net(log + [e], symbol) == 0.0 then Flat
      else if e.symbol == symbol && e.side.Buy? && e.qty != 0.0 then Widen(BuySpan(log, symbol), e.price)
      else BuySpan(log, symbol)
  {
    assert (log + [e])[..|log|] == log;
  }

  lemma LogSnoc(orders: seq<BrokerOrder>, o: BrokerOrder)
    ensures Log(orders + [o]) == Log(orders) + [EntryOf(o)]
  {
  }

  lemma LogOfCancel(b: Broker, oid: nat)
    ensures Log(Cancel(b, oid).0.orders) == Log(b.orders)
  {
  }

  lemma FlatWithoutNet(log: seq<Entry>, symbol: string)
    requires Net(log, symbol) == 0.0
    ensures BuySpan(log, symbol).Flat?
  {
  }

  // ----- Every run: cash is a fold, equity is marked, client ids are never reused -----

  ghost predicate UniqueKeys(orders: seq<BrokerOrder>) {
    && (forall i, j :: 0 <= i < j < |orders| && orders[i].key.Some? ==> orders[i].key != orders[j].key)
    && (forall i :: 0 <= i < |orders| && orders[i].key.Some? && orders[i].key.value.CloseKey? ==>
          orders[i].key.value.slot == i)
  }

  ghost predicate Books(b: Broker, start: real) {
    && b.cash == start + CashFlow(Log(b.orders))
    && b.equity == b.cash + Total(b.positions)
    && UniqueKeys(b.orders)
  }

  /** Generated close ids are used by the broker alone. */
  predicate CallerKey(r: OrderRequest) { r.key.Some? ==> !r.key.value.CloseKey? }

  predicate Admissible(op: Op) {
    match op
    case DoSubmit(r) => CallerKey(r)
    case DoReplace(_, r) => CallerKey(r)
    case _ => true
  }

  predicate FreshSlot(b: Broker, r: OrderRequest) {
    r.key.Some? && r.key.value.CloseKey? ==> r.key.value.slot == |b.orders|
  }

  lemma RecordKeepsKeys(orders: seq<BrokerOrder>, o: BrokerOrder)
    requires UniqueKeys(orders)
    requires o.key.Some? && o.key.value.CloseKey? ==> o.key.value.slot == |orders|
    requires o.key.Some? ==> Find(orders, o.key.value).None?
    ensures UniqueKeys(orders + [o])
  {
  }

  /** What recording and applying a fill changes, with the products kept folded. */
  lemma FillEffect(b: Broker, o: BrokerOrder)
    requires o.avgFillPrice.Some?
    ensures
      var b' := ApplyFill(b.(orders := b.orders + [o]), o.symbol, o.side, o.filledQty, o.avgFillPrice.value);
      && b'.orders == b.orders + [o]
      && b'.desk == b.desk
      && b'.cash == b.cash + Flow(EntryOf(o))
      && b'.positions == FillPositions(b.positions, o.symbol, o.side, o.filledQty, o.avgFillPrice.value)
      && b'.equity == b'.cash + Total(b'.positions)
  {
  }

  ghost function Settle(b: Broker, o: BrokerOrder): Broker
    requires o.avgFillPrice.Some?
  {
    ApplyFill(b.(orders := b.orders + [o]), o.symbol, o.side, o.filledQty, o.avgFillPrice.value)
  }

  lemma SettleKeepsBooks(b: Broker, o: BrokerOrder, start: real)
    requires Books(b, start) && o.avgFillPrice.Some?
    requires o.key.Some? && o.key.value.CloseKey? ==> o.key.value.slot == |b.orders|
    requires o.key.Some? ==> Find(b.orders, o.key.value).None?
    ensures Books(Settle(b, o), start)
  {
    FillEffect(b, o);
    LogSnoc(b.orders, o);
    Snoc(Log(b.orders), EntryOf(o), o.symbol);
    RecordKeepsKeys(b.orders, o);
  }

  lemma TradeIsSettlement(b: Broker, r: OrderRequest)
    ensures Trade(b, r).0 == if Refusal(b, r).Some? then b else Settle(b, Traded(b.desk, r))
  {
  }

  lemma TradeKeepsBooks(b: Broker, r: OrderRequest, start: real)
    requires Books(b, start) && FreshSlot(b, r)
    requires r.key.Some? ==> Find(b.orders, r.key.value).None?
    ensures Books(Trade(b, r).0, start)
  {
    TradeIsSettlement(b, r);
    SettleKeepsBooks(b, Traded(b.desk, r), start);
  }

  lemma RestKeepsBooks(b: Broker, r: OrderRequest, start: real)
    requires Books(b, start) && FreshSlot(b, r)
    requires r.key.Some? ==> Find(b.orders, r.key.value).None?
    ensures Books(b.(orders := b.orders + [Resting(r)]), start)
  {
    LogSnoc(b.orders, Resting(r));
    Snoc(Log(b.orders), EntryOf(Resting(r)), r.symbol);
    RecordKeepsKeys(b.orders, Resting(r));
  }

  lemma SubmitKeepsBooks(b: Broker, r: OrderRequest, start: real)
    requires Books(b, start) && FreshSlot(b, r)
    ensures Books(Submit(b, r).0, start)
  {
    if !(r.key.Some? && Find(b.orders, r.key.value).Some?) {
      TradeKeepsBooks(b, r, start);
      RestKeepsBooks(b, r, start);
    }
  }

  /** Whatever the books say, a submission never records a key twice. */
  lemma SubmitKeepsKeys(b: Broker, r: OrderRequest)
    requires UniqueKeys(b.orders) && FreshSlot(b, r)
    ensures UniqueKeys(Submit(b, r).0.orders)
  {
    if !(r.key.Some? && Find(b.orders, r.key.value).Some?) {
      RecordKeepsKeys(b.orders, Resting(r));
      RecordKeepsKeys(b.orders, Traded(b.desk, r));
      TradeIsSettlement(b, r);
      FillEffect(b, Traded(b.desk, r));
    }
  }

  lemma CancelKeepsBooks(b: Broker, oid: nat, start: real)
    requires Books(b, start)
    ensures Books(Cancel(b, oid).0, start)
  {
    LogOfCancel(b, oid);
  }

  lemma StepKeepsBooks(b: Broker, op: Op, start: real)
    requires Books(b, start) && Admissible(op)
    ensures Books(Step(b, op), start)
  {
    match op
    case DoSubmit(r) => SubmitKeepsBooks(b, r, start);
    case DoCancel(oid) => CancelKeepsBooks(b, oid, start);
    case DoReplace(oid, r) =>
      CancelKeepsBooks(b, oid, start);
      SubmitKeepsBooks(Cancel(b, oid).0, r, start);
    case DoClose(symbol, qty) =>
      if symbol in b.positions {
        SubmitKeepsBooks(b, CloseRequest(b, symbol, qty), start);
      }
    case DoConfigure(_) =>
  }

  lemma {:induction false} RunKeepsBooks(b: Broker, ops: seq<Op>, start: real)
    requires Books(b, start)
    requires forall op :: op in ops ==> Admissible(op)
    ensures Books(Run(b, ops), start)
    decreases ops
  {
    if ops != [] {
      StepKeepsBooks(b, ops[0], start);
      RunKeepsBooks(Step(b, ops[0]), ops[1..], start);
    }
  }

  /** After any run from a fresh broker, whatever was submitted, cancelled, replaced, closed or
      reconfigured: cash is the starting cash plus the fills' flows, equity is cash plus the
      marked positions, and no client order id was recorded twice. */
  lemma CashIsAFold(start: real, desk: Desk, ops: seq<Op>)
    requires forall op :: op in ops ==> Admissible(op)
    ensures
      var b := Run(Fresh(start, desk), ops);
      && b.cash == start + CashFlow(Log(b.orders))
      && b.equity == b.cash + Total(b.positions)
      && forall i, j :: 0 <= i < j < |b.orders| && b.orders[i].key.Some? ==> b.orders[i].key != b.orders[j].key
  {
    assert Books(Fresh(start, desk), start);
    RunKeepsBooks(Fresh(start, desk), ops, start);
  }

  // ----- Fills are self-financing -----

  lemma TotalAfterFill(m: map<string, Position>, symbol: string, side: Side, qty: real, price: real)
    ensures
      var p := Filled1(PositionOf(m, symbol), side, qty, price);
      Total(FillPositions(m, symbol, side, qty, price)) - Total(m) ==
        (if Abs(p.qty) < 0.000000001 then 0.0 else p.marketValue) - PositionOf(m, symbol).marketValue
  {
    if symbol in m {
      TotalRemove(m, symbol);
    } else {
      assert m - {symbol} == m;
    }
    TotalUpdate(m, symbol, Filled1(PositionOf(m, symbol), side, qty, price));
  }

  /** A fill moves equity only by re-marking what was already held: the shares it exchanges are
      paid for at the price they are marked at. Exactly when the remaining quantity is a dropped
      non-zero remainder does a further `next * price` leave the books. */
  lemma FillIsSelfFinancing(b: Broker, symbol: string, side: Side, qty: real, price: real)
    requires b.equity == b.cash + Total(b.positions)
    ensures
      var b' := ApplyFill(b, symbol, side, qty, price);
      var cur := Held(b.positions, symbol);
      var next := if side.Buy? then cur + qty else cur - qty;
      var remark := Times(cur, price) - PositionOf(b.positions, symbol).marketValue;
      && b'.equity - b.equity == remark - (if Abs(next) < 0.000000001 then Times(next, price) else 0.0)
      && (b'.equity - b.equity == remark <==> !(0.0 < Abs(next) < 0.000000001 && price != 0.0))
  {
    TotalAfterFill(b.positions, symbol, side, qty, price);
    Remark(Held(b.positions, symbol), side, qty, price);
  }

  lemma Remark(cur: real, side: Side, qty: real, price: real)
    ensures
      var next := if side.Buy? then cur + qty else cur - qty;
      && Times(next, price) + (if side.Buy? then -Times(qty, price) else Times(qty, price)) == Times(cur, price)
      && (Times(next, price) == 0.0 <==> next == 0.0 || price == 0.0)
  {
    Distribute(cur, qty, price);
  }

  /** The table moves by exactly the signed fill if and only if the fill does not leave a
      non-zero remainder below the drop threshold. */
  lemma PositionMovesByFill(m: map<string, Position>, symbol: string, side: Side, qty: real, price: real)
    ensures
      var next := if side.Buy? then Held(m, symbol) + qty else Held(m, symbol) - qty;
      (Held(FillPositions(m, symbol, side, qty, price), symbol) == next) <==> !(0.0 < Abs(next) < 0.000000001)
    ensures forall s :: s != symbol ==>
      Held(FillPositions(m, symbol, side, qty, price), s) == Held(m, s)
  {
  }

  // ----- Any quantity: exactly when a tolerance is overrun -----

  predicate PlainRequest(r: OrderRequest) {
    r.qty >= 0.0 && (r.limitPrice.Some? ==> r.limitPrice.value >= 0.0)
  }

  predicate PricesNonNegative(d: Desk) { forall s :: s in d.prices ==> d.prices[s] >= 0.0 }

  lemma TradeEffect(b: Broker, r: OrderRequest)
    requires Refusal(b, r).None?
    ensures
      var b', o := Trade(b, r).0, Traded(b.desk, r);
      && b'.cash == b.cash + Flow(EntryOf(o))
      && b'.desk == b.desk && b'.orders == b.orders + [o]
      && b'.positions == FillPositions(b.positions, r.symbol, r.side, FillQty(b.desk, r), FillPrice(b.desk, r))
  {
    TradeIsSettlement(b, r);
    FillEffect(b, Traded(b.desk, r));
  }

  /** An accepted sell leaves a short position if and only if it fills at least the share tolerance
      more than is held; with shorting off and full fills, only a request of exactly that size. */
  lemma SaleGoesShortIff(b: Broker, r: OrderRequest)
    requires r.side.Sell? && Refusal(b, r).None? && Held(b.positions, r.symbol) >= 0.0
    ensures
      var held, after := Held(b.positions, r.symbol), Held(Trade(b, r).0.positions, r.symbol);
      && (after < 0.0 <==> FillQty(b.desk, r) >= held + SHARE_TOLERANCE)
      && (!b.desk.allowShort && b.desk.partialFraction.None? ==>
            (after < 0.0 <==> r.qty == held + SHARE_TOLERANCE) && after >= -SHARE_TOLERANCE)
  {
    TradeEffect(b, r);
  }

  /** The trade is accepted and takes cash below the tolerance. */
  ghost predicate Overspends(b: Broker, r: OrderRequest) {
    Refusal(b, r).None? && Trade(b, r).0.cash < -CASH_TOLERANCE
  }

  /** An accepted buy overspends if and only if its fill, not its request, costs more than cash and
      tolerance; a full fill never does. */
  lemma PurchaseOverspendsIff(b: Broker, r: OrderRequest)
    requires r.side.Buy? && Refusal(b, r).None?
    ensures Overspends(b, r) <==> Times(FillQty(b.desk, r), FillPrice(b.desk, r)) > b.cash + CASH_TOLERANCE
    ensures b.desk.partialFraction.None? ==> !Overspends(b, r)
  {
    TradeEffect(b, r);
  }

  /** There is a cash balance at which a request overspends if and only if its fill rounds above it. */
  lemma OverfillIsTheOnlyOverspend(b: Broker, r: OrderRequest)
    requires r.side.Buy? && FillPrice(b.desk, r) > 0.0
    requires b.desk.fractionable || Abs(r.qty - Trunc(r.qty)) <= SHARE_TOLERANCE
    ensures (exists c :: Overspends(b.(cash := c), r)) <==> FillQty(b.desk, r) > r.qty
  {
    var p, q := FillPrice(b.desk, r), FillQty(b.desk, r);
    if q > r.qty {
      var tight := b.(cash := Times(r.qty, p) - CASH_TOLERANCE);
      TimesMonotone(r.qty, q, p);
      PurchaseOverspendsIff(tight, r);
      assert Overspends(b.(cash := Times(r.qty, p) - CASH_TOLERANCE), r);
    } else if c :| Overspends(b.(cash := c), r) {
      PurchaseOverspendsIff(b.(cash := c), r);
      TimesMonotone(q, r.qty, p);
    }
  }

  predicate FullDesk(d: Desk, shorting: bool) {
    d.partialFraction.None? && PricesNonNegative(d) && (d.allowShort ==> shorting)
  }

  predicate FullFills(op: Op, shorting: bool) {
    match op
    case DoSubmit(r) => PlainRequest(r)
    case DoReplace(_, r) => PlainRequest(r)
    case DoClose(_, qty) => qty.Some? ==> qty.value >= 0.0
    case DoConfigure(desk) => FullDesk(desk, shorting)
    case DoCancel(_) => true
  }

  ghost predicate WithinTolerance(b: Broker, shorting: bool) {
    && FullDesk(b.desk, shorting)
    && b.cash >= -CASH_TOLERANCE
    && (!shorting ==> forall s :: s in b.positions ==> b.positions[s].qty >= -SHARE_TOLERANCE)
  }

  lemma SubmitStaysWithinTolerance(b: Broker, r: OrderRequest, shorting: bool)
    requires WithinTolerance(b, shorting) && PlainRequest(r)
    ensures WithinTolerance(Submit(b, r).0, shorting)
  {
    if Refusal(b, r).None? {
      TradeEffect(b, r);
      FillPriceNonNegative(b.desk, r);
      TimesMonotone(0.0, r.qty, FillPrice(b.desk, r));
    } else {
      TradeIsSettlement(b, r);
    }
  }

  lemma StepStaysWithinTolerance(b: Broker, op: Op, shorting: bool)
    requires WithinTolerance(b, shorting) && FullFills(op, shorting)
    ensures WithinTolerance(Step(b, op), shorting)
  {
    match op
    case DoSubmit(r) => SubmitStaysWithinTolerance(b, r, shorting);
    case DoReplace(oid, r) => SubmitStaysWithinTolerance(Cancel(b, oid).0, r, shorting);
    case DoClose(symbol, qty) =>
      if symbol in b.positions { SubmitStaysWithinTolerance(b, CloseRequest(b, symbol, qty), shorting); }
    case _ =>
  }

  lemma {:induction false} RunStaysWithinTolerance(b: Broker, ops: seq<Op>, shorting: bool)
    requires WithinTolerance(b, shorting)
    requires forall op :: op in ops ==> FullFills(op, shorting)
    ensures WithinTolerance(Run(b, ops), shorting)
    decreases ops
  {
    if ops != [] {
      StepStaysWithinTolerance(b, ops[0], shorting);
      RunStaysWithinTolerance(Step(b, ops[0]), ops[1..], shorting);
    }
  }

  /** With full fills, for any quantities on or off the micro-share grid: after every run cash is
      at or above its tolerance, and where shorting stays off every position is at or above the
      share tolerance. Neither tolerance ever accumulates. */
  lemma TolerancesNeverAccumulate(start: real, desk: Desk, ops: seq<Op>, shorting: bool)
    requires start >= 0.0 && FullDesk(desk, shorting)
    requires forall op :: op in ops ==> FullFills(op, shorting)
    ensures
      var b := Run(Fresh(start, desk), ops);
      b.cash >= -CASH_TOLERANCE && (!shorting ==> forall s :: Held(b.positions, s) >= -SHARE_TOLERANCE)
  {
    RunStaysWithinTolerance(Fresh(start, desk), ops, shorting);
  }

  // ----- Any run: dropped dust is all that separates a position from its fills -----

  ghost predicate Drifted(b: Broker) {
    forall s :: Abs(Held(b.positions, s) - Net(Log(b.orders), s)) <= |b.orders| as real * SHARE_TOLERANCE
  }

  lemma AppendDrifts(b: Broker, o: BrokerOrder, m: map<string, Position>)
    requires Drifted(b)
    requires forall s :: Abs(Held(m, s) - Held(b.positions, s) - Signed(EntryOf(o), s)) <= SHARE_TOLERANCE
    ensures Drifted(b.(orders := b.orders + [o], positions := m))
  {
    LogSnoc(b.orders, o);
    var n := |b.orders| as real;
    assert (n + 1.0) * SHARE_TOLERANCE == n * SHARE_TOLERANCE + SHARE_TOLERANCE;
    forall s ensures Abs(Held(m, s) - Net(Log(b.orders + [o]), s)) <= (n + 1.0) * SHARE_TOLERANCE {
      Snoc(Log(b.orders), EntryOf(o), s);
    }
  }

  lemma SubmitDrifts(b: Broker, r: OrderRequest)
    requires Drifted(b)
    ensures Drifted(Submit(b, r).0)
  {
    AppendDrifts(b, Resting(r), b.positions);
    TradeIsSettlement(b, r);
    if Refusal(b, r).None? {
      TradeEffect(b, r);
      var m := FillPositions(b.positions, r.symbol, r.side, FillQty(b.desk, r), FillPrice(b.desk, r));
      AppendDrifts(b, Traded(b.desk, r), m);
      assert Drifted(Trade(b, r).0);
    }
  }

  lemma CancelDrifts(b: Broker, oid: nat)
    requires Drifted(b)
    ensures Drifted(Cancel(b, oid).0)
  {
    LogOfCancel(b, oid);
  }

  lemma {:induction false} RunDrifts(b: Broker, ops: seq<Op>)
    requires Drifted(b)
    ensures Drifted(Run(b, ops))
    decreases ops
  {
    if ops != [] {
      match ops[0] {
        case DoSubmit(r) => SubmitDrifts(b, r);
        case DoCancel(oid) => CancelDrifts(b, oid);
        case DoReplace(oid, r) => CancelDrifts(b, oid); SubmitDrifts(Cancel(b, oid).0, r);
        case DoClose(symbol, qty) => if symbol in b.positions { SubmitDrifts(b, CloseRequest(b, symbol, qty)); }
        case DoConfigure(_) =>
      }
      RunDrifts(Step(b, ops[0]), ops[1..]);
    }
  }

  /** After every run whatsoever, shorting, partial fills and odd quantities included, each position
      is the signed sum of its fills to within 1e-9 per recorded order. */
  lemma PositionsFollowFills(start: real, desk: Desk, ops: seq<Op>, symbol: string)
    ensures
      var b := Run(Fresh(start, desk), ops);
      Abs(Held(b.positions, symbol) - Net(Log(b.orders), symbol)) <= |b.orders| as real * SHARE_TOLERANCE
  {
    RunDrifts(Fresh(start, desk), ops);
  }

  // ----- Long books: exactly the clean trades keep them -----

  predicate Within(s: Span, avg: real) { s.Open? && s.lo <= avg <= s.hi }

  /** Cash is within its tolerance, every position is positive and the signed sum of its fills, and
      every average entry price lies in the span of the buys since the position was last flat. */
  ghost predicate LongBook(b: Broker) {
    && b.cash >= -CASH_TOLERANCE
    && (forall s :: s in b.positions ==> b.positions[s].qty > 0.0)
    && (forall s :: Held(b.positions, s) == Net(Log(b.orders), s))
    && (forall s :: s in b.positions ==> Within(BuySpan(Log(b.orders), s), b.positions[s].avgEntry))
  }

  /** What a fill leaves of the position. */
  function Remainder(b: Broker, o: BrokerOrder): real {
    if o.side.Buy? then Held(b.positions, o.symbol) + o.filledQty else Held(b.positions, o.symbol) - o.filledQty
  }

  /** The fill leaves nothing or at least the share tolerance, and can be paid for. */
  predicate Clean(b: Broker, o: BrokerOrder) {
    && (Remainder(b, o) == 0.0 || Remainder(b, o) >= SHARE_TOLERANCE)
    && b.cash + Flow(EntryOf(o)) >= -CASH_TOLERANCE
  }

  /** A volume-weighted mean stays inside any interval containing both prices. */
  lemma WeightedMean(w: real, a: real, q: real, p: real, lo: real, hi: real)
    requires w >= 0.0 && q >= 0.0 && w + q > 0.0
    requires w > 0.0 ==> lo <= a <= hi
    requires q > 0.0 ==> lo <= p <= hi
    ensures lo <= (Times(w, a) + Times(q, p)) / (w + q) <= hi
  {
    if w > 0.0 { Between(w, lo, a, hi); }
    if q > 0.0 { Between(q, lo, p, hi); }
    Distribute(w, q, lo);
    Distribute(w, q, hi);
    QuotientBounds(Times(w, a) + Times(q, p), w + q, lo, hi);
  }

  lemma Between(w: real, lo: real, a: real, hi: real)
    requires w > 0.0 && lo <= a <= hi
    ensures Times(w, lo) <= Times(w, a) <= Times(w, hi)
  {
  }

  lemma QuotientBounds(n: real, t: real, lo: real, hi: real)
    requires t > 0.0 && Times(t, lo) <= n <= Times(t, hi)
    ensures lo <= n / t <= hi
  {
  }

  lemma BlendStaysBetween(pos: Position, qty: real, price: real, lo: real, hi: real)
    requires pos.qty >= 0.0 && qty >= 0.0 && pos.qty + qty > 0.0
    requires pos.qty > 0.0 ==> lo <= pos.avgEntry <= hi
    requires qty > 0.0 ==> lo <= price <= hi
    ensures lo <= Filled1(pos, Buy, qty, price).avgEntry <= hi
  {
    WeightedMean(pos.qty, pos.avgEntry, qty, price, lo, hi);
  }

  lemma BlendStaysInSpan(log: seq<Entry>, e: Entry, pos: Position)
    requires pos.qty == Net(log, e.symbol) && pos.qty >= 0.0 && e.qty >= 0.0
    requires pos.qty > 0.0 ==> Within(BuySpan(log, e.symbol), pos.avgEntry)
    requires Net(log + [e], e.symbol) > 0.0
    ensures Within(BuySpan(log + [e], e.symbol), Filled1(pos, e.side, e.qty, e.price).avgEntry)
  {
    Snoc(log, e, e.symbol);
    if pos.qty == 0.0 { FlatWithoutNet(log, e.symbol); }
    if e.side.Buy? {
      var s := BuySpan(log + [e], e.symbol);
      BlendStaysBetween(pos, e.qty, e.price, s.lo, s.hi);
    }
  }

  lemma CleanFillKeepsPositions(b: Broker, o: BrokerOrder)
    requires LongBook(b) && o.avgFillPrice.Some? && o.filledQty >= 0.0
    requires Remainder(b, o) == 0.0 || Remainder(b, o) >= SHARE_TOLERANCE
    ensures
      var log' := Log(b.orders + [o]);
      var m := FillPositions(b.positions, o.symbol, o.side, o.filledQty, o.avgFillPrice.value);
      && (forall s :: s in m ==> m[s].qty > 0.0)
      && (forall s :: Held(m, s) == Net(log', s))
      && (forall s :: s in m ==> Within(BuySpan(log', s), m[s].avgEntry))
  {
    var log, e := Log(b.orders), EntryOf(o);
    var pos := PositionOf(b.positions, o.symbol);
    var m := FillPositions(b.positions, o.symbol, o.side, o.filledQty, o.avgFillPrice.value);
    LogSnoc(b.orders, o);
    assert pos.qty == Held(b.positions, o.symbol) == Net(log, o.symbol);
    Snoc(log, e, o.symbol);
    assert Remainder(b, o) == Net(log + [e], o.symbol);
    forall s
      ensures Held(m, s) == Net(log + [e], s)
      ensures s in m ==> m[s].qty > 0.0 && Within(BuySpan(log + [e], s), m[s].avgEntry)
    {
      Snoc(log, e, s);
      if s == o.symbol && s in m {
        BlendStaysInSpan(log, e, pos);
      }
    }
  }

  /** For any quantities and prices: a fill keeps the long book if and only if it is clean. */
  lemma SettleKeepsLongBookIff(b: Broker, o: BrokerOrder)
    requires LongBook(b) && o.avgFillPrice.Some? && o.filledQty >= 0.0
    ensures LongBook(Settle(b, o)) <==> Clean(b, o)
  {
    var b' := Settle(b, o);
    FillEffect(b, o);
    LogSnoc(b.orders, o);
    Snoc(Log(b.orders), EntryOf(o), o.symbol);
    assert Remainder(b, o) == Net(Log(b'.orders), o.symbol);
    assert LongBook(b') ==> Held(b'.positions, o.symbol) == Remainder(b, o);
    if Clean(b, o) { CleanFillKeepsPositions(b, o); }
  }

  lemma RestKeepsLongBook(b: Broker, r: OrderRequest)
    requires LongBook(b)
    ensures LongBook(b.(orders := b.orders + [Resting(r)]))
  {
    var log, e := Log(b.orders), EntryOf(Resting(r));
    LogSnoc(b.orders, Resting(r));
    forall s
      ensures Net(log + [e], s) == Net(log, s)
      ensures Net(log, s) != 0.0 ==> BuySpan(log + [e], s) == BuySpan(log, s)
    {
      Snoc(log, e, s);
    }
  }

  lemma CancelKeepsLongBook(b: Broker, oid: nat)
    requires LongBook(b)
    ensures LongBook(Cancel(b, oid).0)
  {
    LogOfCancel(b, oid);
  }

  /** The submission is neither interrupted, refused, repeated nor resting: it trades. */
  predicate Trades(b: Broker, r: OrderRequest) {
    && !Interrupted(b.desk) && b.desk.marketOpen && r.symbol !in b.desk.halted
    && (r.key.Some? ==> Find(b.orders, r.key.value).None?)
    && !Rests(b.desk, r) && Refusal(b, r).None?
  }

  predicate CleanSubmit(b: Broker, r: OrderRequest) { Trades(b, r) ==> Clean(b, Traded(b.desk, r)) }

  /** Checked before the call: whatever the operation trades is clean. */
  predicate CleanOp(b: Broker, op: Op) {
    match op
    case DoSubmit(r) => CleanSubmit(b, r)
    case DoReplace(oid, r) =>
      oid < |b.orders| && b.orders[oid].filledQty <= r.qty + 0.000000001 ==> CleanSubmit(Cancel(b, oid).0, r)
    case DoClose(symbol, qty) => symbol in b.positions ==> CleanSubmit(b, CloseRequest(b, symbol, qty))
    case _ => true
  }

  /** Nothing is traded in negative quantities. */
  predicate NonNegativeDesk(d: Desk) { d.partialFraction.Some? ==> d.partialFraction.value >= 0.0 }

  predicate NonNegativeOp(op: Op) {
    match op
    case DoSubmit(r) => r.qty >= 0.0
    case DoReplace(_, r) => r.qty >= 0.0
    case DoClose(_, qty) => qty.Some? ==> qty.value >= 0.0
    case DoConfigure(desk) => NonNegativeDesk(desk)
    case DoCancel(_) => true
  }

  lemma FillNonNegative(d: Desk, r: OrderRequest)
    requires NonNegativeDesk(d) && r.qty >= 0.0
    ensures FillQty(d, r) >= 0.0
  {
    if d.partialFraction.Some? {
      assert Times(r.qty, d.partialFraction.value) >= 0.0;
      assert OnGrid6(0.0);
      Round6OfGrid(0.0);
      Round6Monotone(0.0, Times(r.qty, d.partialFraction.value));
    }
  }

  lemma SubmitKeepsLongBookIff(b: Broker, r: OrderRequest)
    requires LongBook(b) && NonNegativeDesk(b.desk) && r.qty >= 0.0
    ensures LongBook(Submit(b, r).0) <==> CleanSubmit(b, r)
    ensures NonNegativeDesk(Submit(b, r).0.desk)
  {
    RestKeepsLongBook(b, r);
    TradeIsSettlement(b, r);
    FillNonNegative(b.desk, r);
    SettleKeepsLongBookIff(b, Traded(b.desk, r));
    if Refusal(b, r).None? { TradeEffect(b, r); }
  }

  lemma StepKeepsLongBookIff(b: Broker, op: Op)
    requires LongBook(b) && NonNegativeDesk(b.desk) && NonNegativeOp(op)
    ensures LongBook(Step(b, op)) <==> CleanOp(b, op)
    ensures NonNegativeDesk(Step(b, op).desk)
  {
    match op
    case DoSubmit(r) => SubmitKeepsLongBookIff(b, r);
    case DoCancel(oid) => CancelKeepsLongBook(b, oid);
    case DoReplace(oid, r) =>
      CancelKeepsLongBook(b, oid);
      SubmitKeepsLongBookIff(Cancel(b, oid).0, r);
    case DoClose(symbol, qty) =>
      if symbol in b.positions { SubmitKeepsLongBookIff(b, CloseRequest(b, symbol, qty)); }
    case DoConfigure(_) =>
  }

  /** The book is long after every operation of the run. */
  ghost predicate AlwaysLong(b: Broker, ops: seq<Op>)
    decreases ops
  {
    LongBook(b) && (ops == [] || AlwaysLong(Step(b, ops[0]), ops[1..]))
  }

  /** Every operation of the run is clean in the state it meets. */
  ghost predicate AlwaysClean(b: Broker, ops: seq<Op>)
    decreases ops
  {
    ops == [] || (CleanOp(b, ops[0]) && AlwaysClean(Step(b, ops[0]), ops[1..]))
  }

  /** For every run in non-negative quantities, on or off any grid, with partial fills and shorting
      allowed or not: the book stays long throughout if and only if every trade is clean. */
  lemma {:induction false} LongBookIff(b: Broker, ops: seq<Op>)
    requires LongBook(b) && NonNegativeDesk(b.desk)
    requires forall op :: op in ops ==> NonNegativeOp(op)
    ensures AlwaysLong(b, ops) <==> AlwaysClean(b, ops)
    decreases ops
  {
    if ops != [] {
      StepKeepsLongBookIff(b, ops[0]);
      if CleanOp(b, ops[0]) { LongBookIff(Step(b, ops[0]), ops[1..]); }
    }
  }

  // ----- In whole micro-shares with shorting off every trade is clean -----

  predicate GoodRequest(r: OrderRequest) { PlainRequest(r) && OnGrid6(r.qty) }

  predicate GoodDesk(d: Desk) {
    && !d.allowShort
    && PricesNonNegative(d)
    && (d.partialFraction.Some? ==> 0.0 <= d.partialFraction.value <= 1.0)
  }

  predicate LongOnly(op: Op) {
    match op
    case DoSubmit(r) => GoodRequest(r)
    case DoReplace(_, r) => GoodRequest(r)
    case DoClose(_, qty) => qty.Some? ==> qty.value >= 0.0 && OnGrid6(qty.value)
    case DoConfigure(desk) => GoodDesk(desk)
    case DoCancel(_) => true
  }

  predicate OnGrid(b: Broker) { GoodDesk(b.desk) && forall s :: s in b.positions ==> OnGrid6(b.positions[s].qty) }

  ghost predicate GridBook(b: Broker) { LongBook(b) && OnGrid(b) }

  lemma ScaleKeepsOrder(x: real, f: real)
    requires x >= 0.0 && 0.0 <= f <= 1.0
    ensures 0.0 <= Times(x, f) <= x
  {
  }

  lemma Round6Between(x: real, q: real)
    requires 0.0 <= x <= q && OnGrid6(q)
    ensures 0.0 <= Round6(x) <= q && OnGrid6(Round6(x))
  {
    Round6OnGrid(x);
    Round6OfGrid(q);
    Round6Monotone(x, q);
    Round6OfGrid(0.0);
    Round6Monotone(0.0, x);
  }

  lemma ScaledOnGrid(q: real, f: real)
    requires q >= 0.0 && OnGrid6(q) && 0.0 <= f <= 1.0
    ensures 0.0 <= Round6(Times(q, f)) <= q && OnGrid6(Round6(Times(q, f)))
  {
    ScaleKeepsOrder(q, f);
    Round6Between(Times(q, f), q);
  }

  /** On the grid, a partial fill is itself on the grid and never exceeds the request. */
  lemma NoOverfill(d: Desk, r: OrderRequest)
    requires GoodDesk(d) && GoodRequest(r)
    ensures 0.0 <= FillQty(d, r) <= r.qty && OnGrid6(FillQty(d, r))
  {
    if d.partialFraction.Some? {
      ScaledOnGrid(r.qty, d.partialFraction.value);
    }
  }

  lemma FillPriceNonNegative(d: Desk, r: OrderRequest)
    requires PricesNonNegative(d) && PlainRequest(r)
    ensures FillPrice(d, r) >= 0.0
  {
  }

  lemma TradeIsAffordable(b: Broker, r: OrderRequest)
    requires GridBook(b) && GoodRequest(r) && Refusal(b, r).None?
    ensures b.cash + Flow(EntryOf(Traded(b.desk, r))) >= -CASH_TOLERANCE
  {
    NoOverfill(b.desk, r);
    FillPriceNonNegative(b.desk, r);
    TimesMonotone(0.0, FillQty(b.desk, r), FillPrice(b.desk, r));
    TimesMonotone(FillQty(b.desk, r), r.qty, FillPrice(b.desk, r));
  }

  lemma SaleIsCovered(b: Broker, r: OrderRequest)
    requires GridBook(b) && GoodRequest(r) && Refusal(b, r).None? && r.side.Sell?
    ensures r.qty <= Held(b.positions, r.symbol)
  {
    assert OnGrid6(0.0);
    Grid6Gap(r.qty, Held(b.positions, r.symbol));
  }

  lemma GridTradeIsClean(b: Broker, r: OrderRequest)
    requires GridBook(b) && GoodRequest(r) && Refusal(b, r).None?
    ensures Clean(b, Traded(b.desk, r)) && OnGrid6(Remainder(b, Traded(b.desk, r)))
  {
    var held, next := Held(b.positions, r.symbol), Remainder(b, Traded(b.desk, r));
    assert OnGrid6(0.0);
    NoOverfill(b.desk, r);
    TradeIsAffordable(b, r);
    if r.side.Sell? { SaleIsCovered(b, r); }
    Grid6Closed(held, FillQty(b.desk, r));
    if next < 0.000001 { Grid6Gap(next, 0.0); }
  }

  lemma TradeStaysOnGrid(b: Broker, r: OrderRequest)
    requires GridBook(b) && GoodRequest(r)
    ensures OnGrid(Trade(b, r).0)
  {
    TradeIsSettlement(b, r);
    if Refusal(b, r).None? {
      GridTradeIsClean(b, r);
      TradeEffect(b, r);
    }
  }

  lemma SubmitKeepsGridBook(b: Broker, r: OrderRequest)
    requires GridBook(b) && GoodRequest(r)
    ensures GridBook(Submit(b, r).0) && CleanSubmit(b, r)
  {
    TradeStaysOnGrid(b, r);
    if Refusal(b, r).None? { GridTradeIsClean(b, r); }
    SubmitKeepsLongBookIff(b, r);
  }

  lemma StepKeepsGridBook(b: Broker, op: Op)
    requires GridBook(b) && LongOnly(op)
    ensures GridBook(Step(b, op)) && CleanOp(b, op)
  {
    match op
    case DoSubmit(r) => SubmitKeepsGridBook(b, r);
    case DoCancel(oid) => CancelKeepsLongBook(b, oid);
    case DoReplace(oid, r) =>
      CancelKeepsLongBook(b, oid);
      SubmitKeepsGridBook(Cancel(b, oid).0, r);
    case DoClose(symbol, qty) =>
      if symbol in b.positions {
        SubmitKeepsGridBook(b, CloseRequest(b, symbol, qty));
      }
    case DoConfigure(_) =>
  }

  lemma {:induction false} RunKeepsGridBook(b: Broker, ops: seq<Op>)
    requires GridBook(b)
    requires forall op :: op in ops ==> LongOnly(op)
    ensures GridBook(Run(b, ops)) && AlwaysClean(b, ops)
    decreases ops
  {
    if ops != [] {
      StepKeepsGridBook(b, ops[0]);
      RunKeepsGridBook(Step(b, ops[0]), ops[1..]);
    }
  }

  /** So in every reachable long-only state in whole micro-shares each position is the signed sum of
      its fills and is positive, cash never falls below the guard's tolerance, and each average
      entry price lies between the lowest and highest buy since that position was last flat. */
  lemma LongBookTheorem(start: real, desk: Desk, ops: seq<Op>)
    requires start >= 0.0 && GoodDesk(desk)
    requires forall op :: op in ops ==> LongOnly(op)
    ensures AlwaysClean(Fresh(start, desk), ops)
    ensures
      var b := Run(Fresh(start, desk), ops);
      && (forall s :: Held(b.positions, s) == Net(Log(b.orders), s) >= 0.0)
      && b.cash >= -CASH_TOLERANCE
      && (forall s :: s in b.positions ==> Within(BuySpan(Log(b.orders), s), b.positions[s].avgEntry))
  {
    RunKeepsGridBook(Fresh(start, desk), ops);
  }

  // ----- Two runs with a trade that is not clean -----

  function PlainDesk(fraction: Option<real>): Desk {
    Desk(true, false, true, {}, map[], fraction, false, false, false)
  }

  function At(side: Side, qty: real, price: real): OrderRequest {
    OrderRequest("SPY", side, qty, Market, Some(price), None, None)
  }

  /** Selling 1e-9 more than is held passes the guard and leaves a short position. */
  lemma ToleranceLeavesAShort()
    ensures
      var b := Run(Fresh(1000.0, PlainDesk(None)), [DoSubmit(At(Buy, 1.0, 1.0)), DoSubmit(At(Sell, 1.000000001, 1.0))]);
      Held(b.positions, "SPY") < 0.0
  {
    var b0 := Fresh(1000.0, PlainDesk(None));
    var r1, r2 := At(Buy, 1.0, 1.0), At(Sell, 1.000000001, 1.0);
    var b1 := Step(b0, DoSubmit(r1));
    assert FillPrice(b0.desk, r1) == 1.0001;
    assert b1.positions == map["SPY" := Filled1(Position(0.0, 0.0, 0.0), Buy, 1.0, 1.0001)];
    var b2 := Step(b1, DoSubmit(r2));
    assert Held(b2.positions, "SPY") == -0.000000001;
    assert Run(b0, [DoSubmit(r1), DoSubmit(r2)]) == Run(b1, [DoSubmit(r2)]) == Run(b2, []) by {
      assert [DoSubmit(r1), DoSubmit(r2)][1..] == [DoSubmit(r2)];
      assert [DoSubmit(r2)][1..] == [];
    }
  }

  /** A partial fill rounds to micro-shares and can exceed an off-grid request, so cash can sink
      below the guard's tolerance. */
  lemma RoundingOverfillsCash()
    ensures
      var b := Run(Fresh(100.0, PlainDesk(Some(1.0))), [DoSubmit(At(Buy, 0.0000006, 100000000.0))]);
      b.cash < -CASH_TOLERANCE
  {
    var b0, r := Fresh(100.0, PlainDesk(Some(1.0))), At(Buy, 0.0000006, 100000000.0);
    assert FillPrice(b0.desk, r) == 100010000.0;
    assert FillQty(b0.desk, r) == 0.000001;
    assert [DoSubmit(r)][1..] == [];
    assert Run(b0, [DoSubmit(r)]) == Step(b0, DoSubmit(r));
  }
}
