/** What the paper broker does with a request, on the request's and the broker's own fields
    (app/brokers/mock.py): which submissions are refused and why, what is recorded, and what a trade
    costs. */
module BrokerRules {
  import opened BrokerModels
  import opened Rounding
  import opened MockBrokers
  import opened Ledger

  // ----- Prices -----

  /** The price a trade starts from: a non-zero limit, else the desk's quote, else 100. */
  function BasePrice(d: Desk, r: OrderRequest): real {
    if r.limitPrice.Some? && r.limitPrice.value != 0.0 then r.limitPrice.value
    else if r.symbol in d.prices then d.prices[r.symbol]
    else 100.0
  }

  /** The last price a stop is compared with: the desk's quote, else a non-zero limit, else 100. */
  function LastPrice(d: Desk, r: OrderRequest): real {
    if r.symbol in d.prices then d.prices[r.symbol]
    else if r.limitPrice.Some? && r.limitPrice.value != 0.0 then r.limitPrice.value
    else 100.0
  }

  /** One basis point worse than the base price. */
  function TradePrice(d: Desk, r: OrderRequest): real {
    match r.side
    case Buy => 1.0001 * BasePrice(d, r)
    case Sell => 0.9999 * BasePrice(d, r)
  }

  // ----- Refusals -----

  predicate Faultless(d: Desk) { !d.timeoutNext && !d.rateLimitNext && !d.failNext }

  predicate KeyKnown(b: Broker, r: OrderRequest) {
    r.key.Some? && exists n :: 0 <= n < |b.orders| && b.orders[n].key == r.key
  }

  /** The broker looks at the request at all. */
  predicate Considers(b: Broker, r: OrderRequest) {
    Faultless(b.desk) && b.desk.marketOpen && r.symbol !in b.desk.halted && !KeyKnown(b, r)
  }

  /** A stop order whose stop price the market has not reached. */
  predicate Waits(d: Desk, r: OrderRequest) {
    && r.code in {Stp, Stop, StopLimit}
    && (r.stopPrice.Some? && r.stopPrice.value > 0.0 ==>
          if r.side == Sell then LastPrice(d, r) > r.stopPrice.value else LastPrice(d, r) < r.stopPrice.value)
  }

  function Holding(b: Broker, symbol: string): real {
    if symbol in b.positions then b.positions[symbol].qty else 0.0
  }

  predicate Uncovered(b: Broker, r: OrderRequest) {
    r.side == Sell && !b.desk.allowShort && r.qty > Holding(b, r.symbol) + 0.000000001
  }

  predicate Unaffordable(b: Broker, r: OrderRequest) {
    r.side == Buy && Times(r.qty, TradePrice(b.desk, r)) > b.cash + 0.000001
  }

  /** More than 1e-9 away from the whole shares below it (above it, for a negative quantity). */
  predicate Splits(b: Broker, r: OrderRequest) {
    !b.desk.fractionable &&
    (if r.qty >= 0.0 then r.qty - r.qty.Floor as real else -r.qty - (-r.qty).Floor as real) > 0.000000001
  }

  predicate Accepts(b: Broker, r: OrderRequest) {
    Considers(b, r) && !Waits(b.desk, r) && !Uncovered(b, r) && !Unaffordable(b, r) && !Splits(b, r)
  }

  lemma PriceIs(d: Desk, r: OrderRequest)
    ensures FillPrice(d, r) == TradePrice(d, r)
  {
  }

  lemma WaitsIff(d: Desk, r: OrderRequest)
    ensures Rests(d, r) <==> Waits(d, r)
  {
  }

  lemma RefusalIs(b: Broker, r: OrderRequest)
    ensures Refusal(b, r) ==
      if Uncovered(b, r) then Some(ShortingNotAllowed)
      else if Unaffordable(b, r) then Some(InsufficientBuyingPower)
      else if Splits(b, r) then Some(FractionalUnsupported)
      else None
  {
    PriceIs(b.desk, r);
    assert Abs(r.qty - Trunc(r.qty)) == if r.qty >= 0.0 then r.qty - r.qty.Floor as real else -r.qty - (-r.qty).Floor as real;
  }

  lemma KnownIff(b: Broker, r: OrderRequest)
    requires r.key.Some?
    ensures Find(b.orders, r.key.value).Some? <==> KeyKnown(b, r)
  {
  }

  /** A pending fault answers first and is used up; then a closed market, a halted symbol and a known
      client id, which returns the earliest order that carries it. None of these changes anything
      else. */
  lemma UnconsideredIs(b: Broker, r: OrderRequest)
    ensures
      var (b', o) := Submit(b, r);
      && (o == TimedOut <==> b.desk.timeoutNext)
      && (o == Failed(RateLimited) <==> b.desk.rateLimitNext && !b.desk.timeoutNext)
      && (o == Failed(SimulatedFailure) <==> b.desk.failNext && !b.desk.rateLimitNext && !b.desk.timeoutNext)
      && (o == Failed(MarketClosed) <==> Faultless(b.desk) && !b.desk.marketOpen)
      && (o == Failed(TradingHalt) <==> Faultless(b.desk) && b.desk.marketOpen && r.symbol in b.desk.halted)
      && (Faultless(b.desk) && b.desk.marketOpen && r.symbol !in b.desk.halted && KeyKnown(b, r) ==>
            && o.Done? && o.oid < |b.orders| && b.orders[o.oid].key == r.key
            && forall n :: 0 <= n < o.oid ==> b.orders[n].key != r.key)
      && (!Considers(b, r) ==> b' == b.(desk := b'.desk))
      && (!Considers(b, r) ==> b'.desk == AfterFault(b.desk))
  {
    if r.key.Some? { KnownIff(b, r); }
    RefusalIs(b, r);
  }

  /** The desk once its first pending fault is used up. */
  function AfterFault(d: Desk): Desk {
    if d.timeoutNext then d.(timeoutNext := false)
    else if d.rateLimitNext then d.(rateLimitNext := false)
    else d.(failNext := false)
  }

  /** A request the broker considers rests, is refused for the first reason that applies, or trades. */
  lemma ConsideredIs(b: Broker, r: OrderRequest)
    requires Considers(b, r)
    ensures
      var (b', o) := Submit(b, r);
      && (Waits(b.desk, r) ==> o == Done(|b.orders|) && b' == b.(orders := b.orders + [RestingOrder(r)]))
      && (!Waits(b.desk, r) && !Accepts(b, r) ==> b' == b && o == Failed(
            if Uncovered(b, r) then ShortingNotAllowed else if Unaffordable(b, r) then InsufficientBuyingPower
            else FractionalUnsupported))
      && (Accepts(b, r) ==> o == Done(|b.orders|) && (b', o) == Trade(b, r))
  {
    if r.key.Some? { KnownIff(b, r); }
    WaitsIff(b.desk, r);
    RefusalIs(b, r);
  }

  function RestingOrder(r: OrderRequest): BrokerOrder {
    BrokerOrder(r.key, r.symbol, r.side, r.qty, r.code, Accepted, 0.0, None)
  }

  // ----- What a trade records -----

  /** The filled quantity: all of it, or the desk's fraction of it to within half a micro-share. */
  predicate FillsAsSet(d: Desk, qty: real, filled: real) {
    && (d.partialFraction.None? ==> filled == qty)
    && (d.partialFraction.Some? ==>
          OnGrid6(filled) && Abs(filled - Times(qty, d.partialFraction.value)) <= 0.0000005)
  }

  /** The order as recorded: the request's own, filled as the desk is set, one basis point off. */
  predicate RecordsTrade(d: Desk, r: OrderRequest, o: BrokerOrder) {
    && o.key == r.key && o.symbol == r.symbol && o.side == r.side && o.qty == r.qty && o.code == r.code
    && FillsAsSet(d, r.qty, o.filledQty) && o.avgFillPrice == Some(TradePrice(d, r))
    && (o.status == Filled <==> d.partialFraction.None? || o.filledQty >= r.qty)
    && (o.status == Partial <==> d.partialFraction.Some? && o.filledQty < r.qty)
  }

  /** What is left of a position after a fill; a remainder under 1e-9 is dropped. */
  function After(held: real, o: BrokerOrder): real {
    var next := if o.side == Buy then held + o.filledQty else held - o.filledQty;
    if -0.000000001 < next < 0.000000001 then 0.0 else next
  }

  /** Cash pays for a buy and receives a sale; the holding moves by the fill, other symbols do not. */
  ghost predicate MovesBook(b: Broker, b': Broker, o: BrokerOrder, price: real) {
    && b'.cash == (if o.side == Buy then b.cash - Times(o.filledQty, price) else b.cash + Times(o.filledQty, price))
    && Holding(b', o.symbol) == After(Holding(b, o.symbol), o)
    && (o.symbol in b'.positions <==> After(Holding(b, o.symbol), o) != 0.0)
    && (forall s :: s != o.symbol ==> (s in b'.positions <==> s in b.positions))
    && (forall s :: s != o.symbol && s in b.positions ==> b'.positions[s] == b.positions[s])
  }

  /** The position is marked at the trade's price, and its average entry is the volume-weighted one
      after a buy and unchanged after a sale. */
  predicate MarksPosition(b: Broker, b': Broker, o: BrokerOrder, price: real) {
    o.symbol in b'.positions ==>
      var was := if o.symbol in b.positions then b.positions[o.symbol] else Position(0.0, 0.0, 0.0);
      var now := b'.positions[o.symbol];
      && now.marketValue == Times(now.qty, price)
      && (o.side == Sell ==> now.avgEntry == was.avgEntry)
      && (o.side == Buy ==>
            Times(now.avgEntry, Abs(now.qty)) == Times(Abs(was.qty), was.avgEntry) + Times(o.filledQty, price))
  }

  lemma FillIsSet(d: Desk, r: OrderRequest)
    ensures FillsAsSet(d, r.qty, FillQty(d, r))
  {
    if d.partialFraction.Some? {
      Round6OnGrid(Times(r.qty, d.partialFraction.value));
      Round6Slack(Times(r.qty, d.partialFraction.value));
    }
  }

  lemma EntryBlends(pos: Position, qty: real, price: real)
    requires pos.qty + qty != 0.0
    ensures
      var p := Filled1(pos, Buy, qty, price);
      Times(p.avgEntry, Abs(p.qty)) == Times(Abs(pos.qty), pos.avgEntry) + Times(qty, price)
  {
    var n, d := Times(Abs(pos.qty), pos.avgEntry) + Times(qty, price), Abs(pos.qty + qty);
    OverTimes(n, d);
  }

  /** An accepted request trades at once: it is recorded, the book moves by its fill, the position is
      marked, and equity is cash plus the marked positions. */
  lemma TradeIs(b: Broker, r: OrderRequest)
    requires Accepts(b, r)
    ensures
      var b' := Submit(b, r).0;
      && |b'.orders| == |b.orders| + 1 && b'.orders[..|b.orders|] == b.orders && b'.desk == b.desk
      && var o := b'.orders[|b.orders|];
         && RecordsTrade(b.desk, r, o)
         && MovesBook(b, b', o, TradePrice(b.desk, r))
         && MarksPosition(b, b', o, TradePrice(b.desk, r))
         && b'.equity == b'.cash + Total(b'.positions)
  {
    ConsideredIs(b, r);
    RefusalIs(b, r);
    TradeIsSettlement(b, r);
    TradeEffect(b, r);
    FillEffect(b, Traded(b.desk, r));
    PriceIs(b.desk, r);
    FillIsSet(b.desk, r);
    var pos := PositionOf(b.positions, r.symbol);
    if r.side == Buy && pos.qty + FillQty(b.desk, r) != 0.0 { EntryBlends(pos, FillQty(b.desk, r), FillPrice(b.desk, r)); }
  }

  /** Orders in full, at most one of them in each direction of one position. */
  predicate FullAt(b: Broker, r: OrderRequest, p: real) {
    Accepts(b, r) && b.desk.partialFraction.None? && BasePrice(b.desk, r) == p
  }

  lemma TwoBasisPoints(q: real, p: real)
    ensures Times(q, 1.0001 * p) - Times(q, 0.9999 * p) == 0.0002 * Times(p, q)
  {
    assert q * (1.0001 * p) == 1.0001 * (p * q);
    assert q * (0.9999 * p) == 0.9999 * (p * q);
  }

  /** Buying and selling back q shares in full at one unchanged price p costs exactly two basis points
      of their value. */
  lemma RoundTripCosts(b: Broker, buy: OrderRequest, sell: OrderRequest, p: real)
    requires buy.side == Buy && sell.side == Sell && buy.qty == sell.qty
    requires FullAt(b, buy, p) && FullAt(Submit(b, buy).0, sell, p)
    ensures Submit(Submit(b, buy).0, sell).0.cash == b.cash - 0.0002 * Times(p, buy.qty)
  {
    TradeIs(b, buy);
    TradeIs(Submit(b, buy).0, sell);
    TwoBasisPoints(buy.qty, p);
  }

  // ----- Cancel, replace, close -----

  /** Cancelling ends an order that is still open and touches nothing else. */
  lemma CancelIs(b: Broker, oid: nat)
    ensures
      var (b', o) := Cancel(b, oid);
      && b' == b.(orders := b'.orders) && |b'.orders| == |b.orders|
      && (o == (if oid < |b.orders| then Done(oid) else Failed(OrderNotFound)))
      && (forall n :: 0 <= n < |b.orders| && n != oid ==> b'.orders[n] == b.orders[n])
      && (oid < |b.orders| ==> b'.orders[oid] == b.orders[oid].(status :=
            if b.orders[oid].status in {New, Accepted, Partial} then Canceled else b.orders[oid].status))
  {
  }

  /** A replacement under the filled quantity is refused; any other cancels the order and submits. */
  lemma ReplaceIs(b: Broker, oid: nat, r: OrderRequest)
    ensures
      && (oid >= |b.orders| ==> Replace(b, oid, r) == (b, Failed(OrderNotFound)))
      && (oid < |b.orders| && b.orders[oid].filledQty > r.qty + 0.000000001 ==>
            Replace(b, oid, r) == (b, Failed(ReplaceBelowFilled)))
      && (oid < |b.orders| && b.orders[oid].filledQty <= r.qty + 0.000000001 ==>
            Replace(b, oid, r) == Submit(Cancel(b, oid).0, r))
  {
  }

  /** The quantity a close asks for. */
  function Asked(held: real, qty: Option<real>): real {
    if qty.None? || qty.value > Abs(held) then Abs(held) else qty.value
  }

  /** A close that trades in full moves the position towards flat by what was asked, at most all of it,
      so a close of everything leaves nothing. */
  lemma CloseMovesToFlat(b: Broker, symbol: string, qty: Option<real>)
    requires symbol in b.positions && b.desk.partialFraction.None?
    requires Accepts(b, CloseRequest(b, symbol, qty))
    ensures
      var held, after := b.positions[symbol].qty, Holding(Close(b, symbol, qty).0, symbol);
      var left := Abs(held) - Asked(held, qty);
      && Abs(after) == (if Abs(left) < 0.000000001 then 0.0 else Abs(left))
      && (qty.None? ==> symbol !in Close(b, symbol, qty).0.positions)
      && (after != 0.0 && left > 0.0 ==> (after > 0.0 <==> held > 0.0))
  {
    TradeIs(b, CloseRequest(b, symbol, qty));
  }

  /** A close is a market order on the other side for what was asked, under a client id of its own. */
  lemma CloseSends(b: Broker, symbol: string, qty: Option<real>)
    requires symbol in b.positions
    ensures
      var held := b.positions[symbol].qty;
      var r := OrderRequest(symbol, if held > 0.0 then Sell else Buy, Asked(held, qty), Market, None, None,
                            Some(CloseKey(|b.orders|)));
      Close(b, symbol, qty) == (Submit(b, r).0, Some(Submit(b, r).1))
  {
  }

  /** There is nothing to close in a symbol that is not held. */
  lemma CloseNeedsPosition(b: Broker, symbol: string, qty: Option<real>)
    ensures Close(b, symbol, qty).1.None? <==> symbol !in b.positions
    ensures symbol !in b.positions ==> Close(b, symbol, qty).0 == b
  {
  }
}
