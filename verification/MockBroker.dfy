/** The in-memory paper broker (app/brokers/mock.py): its state, its operations as functions
    of that state, and the class whose methods update the same state in place.

    Order ids are handed out in sequence and orders are never removed, so the order dictionary
    is a sequence and an order id is an index into it. Symbols are already upper case. */
module MockBrokers {
  import opened BrokerModels
  import opened Rounding

  datatype OrderRequest = OrderRequest(
    symbol: string, side: Side, qty: real, code: OrderCode,
    limitPrice: Option<real>, stopPrice: Option<real>, key: Option<Key>)

  datatype BrokerOrder = BrokerOrder(
    key: Option<Key>, symbol: string, side: Side, qty: real, code: OrderCode,
    status: OrderStatus, filledQty: real, avgFillPrice: Option<real>)

  datatype Position = Position(qty: real, avgEntry: real, marketValue: real)

  /** The switches a test or an operator can set on the broker between calls. */
  datatype Desk = Desk(
    marketOpen: bool, allowShort: bool, fractionable: bool, halted: set<string>,
    prices: map<string, real>, partialFraction: Option<real>,
    timeoutNext: bool, rateLimitNext: bool, failNext: bool)

  datatype Broker = Broker(
    orders: seq<BrokerOrder>, positions: map<string, Position>,
    cash: real, equity: real, desk: Desk)

  datatype BrokerError =
    | RateLimited | SimulatedFailure | MarketClosed | TradingHalt | ShortingNotAllowed
    | InsufficientBuyingPower | FractionalUnsupported | OrderNotFound | ReplaceBelowFilled

  datatype Outcome = Done(oid: nat) | Failed(error: BrokerError) | TimedOut

  function Fresh(startingCash: real, desk: Desk): Broker {
    Broker([], map[], startingCash, startingCash, desk)
  }

  // ----- Lookup by client id -----

  /** First order at or after `from` that carries the client id. */
  function FindFrom(orders: seq<BrokerOrder>, k: Key, from: nat): (r: Option<nat>)
    requires from <= |orders|
    ensures r.Some? ==> from <= r.value < |orders| && orders[r.value].key == Some(k)
    ensures r.Some? ==> forall j :: from <= j < r.value ==> orders[j].key != Some(k)
    ensures r.None? ==> forall j :: from <= j < |orders| ==> orders[j].key != Some(k)
    decreases |orders| - from
  {
    if from == |orders| then None
    else if orders[from].key == Some(k) then Some(from)
    else FindFrom(orders, k, from + 1)
  }

  function Find(orders: seq<BrokerOrder>, k: Key): Option<nat> { FindFrom(orders, k, 0) }

  // ----- Submission -----

  predicate IsMockStop(code: OrderCode) { code.Stp? || code.Stop? || code.StopLimit? }

  function Quote(d: Desk, symbol: string, fallback: real): real {
    if symbol in d.prices then d.prices[symbol] else fallback
  }

  /** A stop that the current quote has not reached rests at the broker. */
  predicate Rests(d: Desk, r: OrderRequest) {
    IsMockStop(r.code) &&
    var last := Quote(d, r.symbol, Or(r.limitPrice, 100.0));
    var stop := Or(r.stopPrice, 0.0);
    !(stop > 0.0 && (if r.side.Sell? then last <= stop else last >= stop))
  }

  /** One basis point against the trader. */
  function FillPrice(d: Desk, r: OrderRequest): real {
    var base := Or(r.limitPrice, Quote(d, r.symbol, 100.0));
    if r.side.Buy? then base + base * 0.0001 else base - base * 0.0001
  }

  function FillQty(d: Desk, r: OrderRequest): real {
    if d.partialFraction.None? then r.qty else Round6(Times(r.qty, d.partialFraction.value))
  }

  function FillStatus(d: Desk, r: OrderRequest): OrderStatus {
    if d.partialFraction.Some? && FillQty(d, r) < r.qty then Partial else Filled
  }

  function Held(positions: map<string, Position>, symbol: string): real {
    if symbol in positions then positions[symbol].qty else 0.0
  }

  function Refusal(b: Broker, r: OrderRequest): Option<BrokerError> {
    if r.side.Sell? && !b.desk.allowShort && r.qty > Held(b.positions, r.symbol) + 0.000000001 then
      Some(ShortingNotAllowed)
    else if r.side.Buy? && Times(r.qty, FillPrice(b.desk, r)) > b.cash + 0.000001 then
      Some(InsufficientBuyingPower)
    else if !b.desk.fractionable && Abs(r.qty - Trunc(r.qty)) > 0.000000001 then
      Some(FractionalUnsupported)
    else None
  }

  /** Sum of the market values of the open positions. */
  ghost function Total(m: map<string, Position>): real {
    if m == map[] then 0.0
    else
      var k :| k in m;
      m[k].marketValue + Total(m - {k})
  }

  function Filled1(pos: Position, side: Side, qty: real, price: real): Position {
    var next := if side.Buy? then pos.qty + qty else pos.qty - qty;
    var avg :=
      if side.Buy? && next != 0.0 then (Times(Abs(pos.qty), pos.avgEntry) + Times(qty, price)) / Abs(next)
      else pos.avgEntry;
    Position(next, avg, Times(next, price))
  }

  function PositionOf(m: map<string, Position>, symbol: string): Position {
    if symbol in m then m[symbol] else Position(0.0, 0.0, 0.0)
  }

  /** The position table after a fill: a remainder under 1e-9 is dropped. */
  function FillPositions(m: map<string, Position>, symbol: string, side: Side, qty: real, price: real)
    : map<string, Position>
  {
    var p := Filled1(PositionOf(m, symbol), side, qty, price);
    if Abs(p.qty) < 0.000000001 then m - {symbol} else m[symbol := p]
  }

  ghost function ApplyFill(b: Broker, symbol: string, side: Side, qty: real, price: real): Broker {
    var m := FillPositions(b.positions, symbol, side, qty, price);
    var cash := if side.Buy? then b.cash - Times(qty, price) else b.cash + Times(qty, price);
    b.(positions := m, cash := cash, equity := cash + Total(m))
  }

  function Resting(r: OrderRequest): BrokerOrder {
    BrokerOrder(r.key, r.symbol, r.side, r.qty, r.code, Accepted, 0.0, None)
  }

  function Traded(d: Desk, r: OrderRequest): BrokerOrder {
    BrokerOrder(r.key, r.symbol, r.side, r.qty, r.code, FillStatus(d, r), FillQty(d, r), Some(FillPrice(d, r)))
  }

  predicate Interrupted(d: Desk) { d.timeoutNext || d.rateLimitNext || d.failNext }

  /** The injected fault, which is consumed by the call it hits. */
  function Interrupt(d: Desk): (Desk, Outcome)
    requires Interrupted(d)
  {
    if d.timeoutNext then (d.(timeoutNext := false), TimedOut)
    else if d.rateLimitNext then (d.(rateLimitNext := false), Failed(RateLimited))
    else (d.(failNext := false), Failed(SimulatedFailure))
  }

  /** The guards and the fill of an order that trades at once. */
  ghost function Trade(b: Broker, r: OrderRequest): (Broker, Outcome) {
    if Refusal(b, r).Some? then (b, Failed(Refusal(b, r).value))
    else
      (ApplyFill(b.(orders := b.orders + [Traded(b.desk, r)]),
                 r.symbol, r.side, FillQty(b.desk, r), FillPrice(b.desk, r)),
       Done(|b.orders|))
  }

  ghost function Submit(b: Broker, r: OrderRequest): (Broker, Outcome) {
    if Interrupted(b.desk) then
      var (d, o) := Interrupt(b.desk);
      (b.(desk := d), o)
    else if !b.desk.marketOpen then (b, Failed(MarketClosed))
    else if r.symbol in b.desk.halted then (b, Failed(TradingHalt))
    else if r.key.Some? && Find(b.orders, r.key.value).Some? then
      (b, Done(Find(b.orders, r.key.value).value))
    else if Rests(b.desk, r) then
      (b.(orders := b.orders + [Resting(r)]), Done(|b.orders|))
    else Trade(b, r)
  }

  // ----- Cancel, replace, close -----

  predicate Terminal(s: OrderStatus) { s.Filled? || s.Canceled? || s.Rejected? }

  function Cancel(b: Broker, oid: nat): (Broker, Outcome) {
    if oid >= |b.orders| then (b, Failed(OrderNotFound))
    else if Terminal(b.orders[oid].status) then (b, Done(oid))
    else (b.(orders := b.orders[oid := b.orders[oid].(status := Canceled)]), Done(oid))
  }

  ghost function Replace(b: Broker, oid: nat, r: OrderRequest): (Broker, Outcome) {
    if oid >= |b.orders| then (b, Failed(OrderNotFound))
    else if b.orders[oid].filledQty > r.qty + 0.000000001 then (b, Failed(ReplaceBelowFilled))
    else Submit(Cancel(b, oid).0, r)
  }

  function CloseRequest(b: Broker, symbol: string, qty: Option<real>): OrderRequest
    requires symbol in b.positions
  {
    var cur := b.positions[symbol].qty;
    OrderRequest(symbol, if cur > 0.0 then Sell else Buy,
                 if qty.None? then Abs(cur) else Min(Abs(cur), qty.value),
                 Market, None, None, Some(CloseKey(|b.orders|)))
  }

  ghost function Close(b: Broker, symbol: string, qty: Option<real>): (Broker, Option<Outcome>) {
    if symbol !in b.positions then (b, None)
    else
      var (b', o) := Submit(b, CloseRequest(b, symbol, qty));
      (b', Some(o))
  }

  datatype Op =
    | DoSubmit(r: OrderRequest)
    | DoCancel(oid: nat)
    | DoReplace(oid: nat, r: OrderRequest)
    | DoClose(symbol: string, qty: Option<real>)
    | DoConfigure(desk: Desk)

  ghost function Step(b: Broker, op: Op): Broker {
    match op
    case DoSubmit(r) => Submit(b, r).0
    case DoCancel(oid) => Cancel(b, oid).0
    case DoReplace(oid, r) => Replace(b, oid, r).0
    case DoClose(symbol, qty) => Close(b, symbol, qty).0
    case DoConfigure(desk) => b.(desk := desk)
  }

  ghost function Run(b: Broker, ops: seq<Op>): Broker
    decreases ops
  {
    if ops == [] then b else Run(Step(b, ops[0]), ops[1..])
  }

  // ----- The same broker with its fields updated in place -----

  class MockBroker {
    var orders: seq<BrokerOrder>
    var positions: map<string, Position>
    var cash: real
    var equity: real
    var desk: Desk

    ghost function View(): Broker
      reads this
    {
      Broker(orders, positions, cash, equity, desk)
    }

    constructor (startingCash: real, d: Desk)
      ensures View() == Fresh(startingCash, d)
    {
      orders, positions, cash, equity, desk := [], map[], startingCash, startingCash, d;
    }

    method GetOrderByClientId(k: Key) returns (r: Option<nat>)
      ensures r == Find(orders, k)
    {
      var i := 0;
      while i < |orders|
        invariant i <= |orders|
        invariant Find(orders, k) == FindFrom(orders, k, i)
      {
        if orders[i].key == Some(k) {
          return Some(i);
        }
        i := i + 1;
      }
      return None;
    }

    method SumMarketValues() returns (s: real)
      ensures s == Total(positions)
    {
      s := 0.0;
      var rest := positions;
      while rest.Keys != {}
        invariant s + Total(rest) == Total(positions)
        decreases |rest|
      {
        var k :| k in rest.Keys;
        TotalRemove(rest, k);
        s := s + rest[k].marketValue;
        rest := rest - {k};
      }
      assert rest == map[];
    }

    static method Blend(pos: Position, side: Side, qty: real, price: real) returns (p: Position)
      ensures p == Filled1(pos, side, qty, price)
    {
      var cur, avg := pos.qty, pos.avgEntry;
      if side.Buy? {
        var next := cur + qty;
        if next != 0.0 {
          var prevCost := Times(Abs(cur), avg);
          avg := (prevCost + Times(qty, price)) / Abs(next);
        }
        cur := next;
      } else {
        cur := cur - qty;
      }
      p := Position(cur, avg, Times(cur, price));
    }

    method Fill(symbol: string, side: Side, qty: real, price: real)
      modifies this
      ensures View() == ApplyFill(old(View()), symbol, side, qty, price)
    {
      var pos := Blend(PositionOf(positions, symbol), side, qty, price);
      if Abs(pos.qty) < 0.000000001 {
        positions := positions - {symbol};
      } else {
        positions := positions[symbol := pos];
      }
      cash := if side.Buy? then cash - Times(qty, price) else cash + Times(qty, price);
      var mv := SumMarketValues();
      equity := cash + mv;
    }

    method Guard(r: OrderRequest) returns (e: Option<BrokerError>)
      ensures e == Refusal(View(), r)
    {
      if r.side.Sell? && !desk.allowShort {
        var posQty := Held(positions, r.symbol);
        if r.qty > posQty + 0.000000001 {
          return Some(ShortingNotAllowed);
        }
      }
      var notional := Times(r.qty, FillPrice(desk, r));
      if r.side.Buy? && notional > cash + 0.000001 {
        return Some(InsufficientBuyingPower);
      }
      if !desk.fractionable && Abs(r.qty - Trunc(r.qty)) > 0.000000001 {
        return Some(FractionalUnsupported);
      }
      return None;
    }

    method ExecuteNow(r: OrderRequest) returns (o: Outcome)
      modifies this
      ensures (View(), o) == Trade(old(View()), r)
    {
      var refusal := Guard(r);
      if refusal.Some? {
        return Failed(refusal.value);
      }
      var oid := |orders|;
      orders := orders + [Traded(desk, r)];
      Fill(r.symbol, r.side, FillQty(desk, r), FillPrice(desk, r));
      return Done(oid);
    }

    method SubmitOrder(r: OrderRequest) returns (o: Outcome)
      modifies this
      ensures (View(), o) == Submit(old(View()), r)
    {
      if desk.timeoutNext {
        desk := desk.(timeoutNext := false);
        return TimedOut;
      }
      if desk.rateLimitNext {
        desk := desk.(rateLimitNext := false);
        return Failed(RateLimited);
      }
      if desk.failNext {
        desk := desk.(failNext := false);
        return Failed(SimulatedFailure);
      }
      if !desk.marketOpen {
        return Failed(MarketClosed);
      }
      if r.symbol in desk.halted {
        return Failed(TradingHalt);
      }
      if r.key.Some? {
        var found := GetOrderByClientId(r.key.value);
        if found.Some? {
          return Done(found.value);
        }
      }
      if Rests(desk, r) {
        orders := orders + [Resting(r)];
        return Done(|orders| - 1);
      }
      o := ExecuteNow(r);
    }

    method CancelOrder(oid: nat) returns (o: Outcome)
      modifies this
      ensures (View(), o) == Cancel(old(View()), oid)
    {
      if oid >= |orders| {
        return Failed(OrderNotFound);
      }
      if !Terminal(orders[oid].status) {
        orders := orders[oid := orders[oid].(status := Canceled)];
      }
      return Done(oid);
    }

    method ReplaceOrder(oid: nat, r: OrderRequest) returns (o: Outcome)
      modifies this
      ensures (View(), o) == Replace(old(View()), oid, r)
    {
      if oid >= |orders| {
        return Failed(OrderNotFound);
      }
      if orders[oid].filledQty > r.qty + 0.000000001 {
        return Failed(ReplaceBelowFilled);
      }
      var _ := CancelOrder(oid);
      o := SubmitOrder(r);
    }

    method ClosePosition(symbol: string, qty: Option<real>) returns (o: Option<Outcome>)
      modifies this
      ensures (View(), o) == Close(old(View()), symbol, qty)
    {
      if symbol !in positions {
        return None;
      }
      var cur := positions[symbol].qty;
      var closeQty := if qty.None? then Abs(cur) else Min(Abs(cur), qty.value);
      var side := if cur > 0.0 then Sell else Buy;
      var res := SubmitOrder(OrderRequest(symbol, side, closeQty, Market, None, None, Some(CloseKey(|orders|))));
      o := Some(res);
    }
  }

  // ----- Sums over the position table -----

  lemma TotalRemove(m: map<string, Position>, k: string)
    requires k in m
    ensures Total(m) == m[k].marketValue + Total(m - {k})
    decreases |m|
  {
    var c :| c in m && Total(m) == m[c].marketValue + Total(m - {c});
    if c != k {
      TotalRemove(m - {c}, k);
      TotalRemove(m - {k}, c);
      assert m - {c} - {k} == m - {k} - {c};
    }
  }

  lemma TotalUpdate(m: map<string, Position>, k: string, p: Position)
    ensures Total(m[k := p]) == p.marketValue + Total(m - {k})
  {
    TotalRemove(m[k := p], k);
    assert m[k := p] - {k} == m - {k};
  }
}
