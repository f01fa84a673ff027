/** Order persistence and submission (app/execution/order_manager.py) against the paper broker.
    The clock decides which working rows are stale and arrives as a set of row numbers. */
module OrderManagers {
  import opened BrokerModels
  import opened OrderTables
  import MB = MockBrokers
  import VO = VenueOrders

  /** A validated intent; the thesis is already lower case. */
  datatype Intent = Intent(
    key: string, thesis: string, symbol: string, side: Side, qty: real, code: OrderCode,
    limit: Option<real>, stop: Option<real>, marketableVenue: bool)

  predicate Contains(text: string, part: string) {
    part <= text || (text != [] && Contains(text[1..], part))
  }

  predicate FlattenKey(key: string) {
    Contains(key, "force-close:") || Contains(key, "hard-stop:") || Contains(key, ":sell:SELL") || Contains(key, ":buy:BUY")
  }

  predicate IsPartialExit(i: Intent) {
    Contains(i.key, ":sell:PARTIAL_SELL") || Contains(i.key, ":sell:REDUCE") || Contains(i.key, ":buy:REDUCE")
  }

  predicate ClosingThesis(i: Intent) {
    "force_close" <= i.thesis || "hard_stop" <= i.thesis || "closing:" <= i.thesis
  }

  predicate IsFlatten(i: Intent) { FlattenKey(i.key) || ClosingThesis(i) }

  predicate IsExit(i: Intent) { FlattenKey(i.key) || IsPartialExit(i) || ClosingThesis(i) }

  /** Where a broker call is cut off: not at all, before the broker saw it, or after. */
  datatype Line = Delivered | LostBefore | LostAfter

  /** The local tables and the broker they talk to. */
  datatype Desk = Desk(db: Store, broker: MB.Broker)

  ghost function Transmit(b: MB.Broker, r: MB.OrderRequest, line: Line): (MB.Broker, MB.Outcome) {
    match line
    case Delivered => MB.Submit(b, r)
    case LostBefore => (b, MB.TimedOut)
    case LostAfter => (MB.Submit(b, r).0, MB.TimedOut)
  }

  // ----- Cancelling -----

  function WithRow(s: Store, id: nat, row: OrderRow): Store
    requires id < |s.rows|
  {
    s.(rows := s.rows[id := row])
  }

  /** Cancel one row, at the broker too when it was sent there. */
  function CancelRow(d: Desk, id: nat): Desk {
    if id >= |d.db.rows| then d
    else
      var row := d.db.rows[id];
      if row.brokerId.None? then d.(db := WithRow(d.db, id, row.(status := Cancelled)))
      else
        var (b, o) := MB.Cancel(d.broker, row.brokerId.value);
        if !o.Done? || o.oid >= |b.orders| then Desk(d.db, b)
        else Desk(WithRow(d.db, id, row.(status := FromBroker(b.orders[o.oid].status))), b)
  }

  function CancelRows(d: Desk, ids: seq<nat>): Desk
    decreases |ids|
  {
    if ids == [] then d else CancelRow(CancelRows(d, ids[..|ids| - 1]), ids[|ids| - 1])
  }

  lemma CancelRowsTake(d: Desk, ids: seq<nat>, n: nat)
    requires n < |ids|
    ensures CancelRows(d, ids[..n + 1]) == CancelRow(CancelRows(d, ids[..n]), ids[n])
  {
    assert ids[..n + 1][..n] == ids[..n];
  }

  // ----- Submitting one intent -----

  datatype Prelude = Skip | Proceed(d: Desk)

  /** The flatten is already working under its own key, and no such row has gone stale. */
  predicate FreshOwnRow(rows: seq<OrderRow>, working: seq<nat>, i: Intent, stale: set<nat>)
    requires forall w :: w in working ==> w < |rows|
  {
    && (exists w :: w in working && rows[w].key == ClientKey(i.key))
    && (forall w :: w in working && rows[w].key == ClientKey(i.key) ==> w !in stale)
  }

  /** An exit first looks at the working rows of its own symbol and side: a partial exit stands
      back, a flatten stands back for a fresh row of its own and otherwise cancels them all. */
  function ClearTheWay(d: Desk, i: Intent, stale: set<nat>): Prelude {
    var working := WorkingFor(d.db.rows, i.symbol, Some(i.side));
    if !IsExit(i) || working == [] then Proceed(d)
    else if IsPartialExit(i) then Skip
    else if IsFlatten(i) then
      if FreshOwnRow(d.db.rows, working, i, stale) then Skip
      else Proceed(CancelRows(d, working))
    else Proceed(d)
  }

  /** The row a submission will use: a dead one of the same key, or a new one. */
  datatype Slot = Taken | Slot(id: nat)

  function SlotFor(rows: seq<OrderRow>, i: Intent): Slot {
    var r := FindRow(rows, ClientKey(i.key));
    if r.None? then Slot(|rows|) else if Dead(rows[r.value].status) then Slot(r.value) else Taken
  }

  function PendingRow(i: Intent): OrderRow {
    OrderRow(ClientKey(i.key), i.symbol, i.side, i.qty, i.code, i.limit, i.stop, PendingSubmit, None)
  }

  /** A dead row taken over keeps its key, symbol and side. */
  function ReusedRow(row: OrderRow, i: Intent): OrderRow {
    row.(qty := i.qty, code := i.code, limit := i.limit, stop := i.stop, status := PendingSubmit, brokerId := None)
  }

  function SlotRow(rows: seq<OrderRow>, id: nat, i: Intent): OrderRow {
    if id < |rows| then ReusedRow(rows[id], i) else PendingRow(i)
  }

  function Place(s: Store, id: nat, row: OrderRow): Store
    requires id <= |s.rows|
  {
    if id == |s.rows| then s.(rows := s.rows + [row]) else WithRow(s, id, row)
  }

  function Shape(i: Intent, last: Option<real>): VO.Ticket {
    var t := VO.Ticket(i.code, i.limit);
    if i.marketableVenue then VO.ManagerShape(i.side, t, last, IsFlatten(i)) else t
  }

  function Request(i: Intent, t: VO.Ticket): MB.OrderRequest {
    MB.OrderRequest(i.symbol, i.side, i.qty, t.code, t.limit, i.stop, Some(ClientKey(i.key)))
  }

  /** What the reply makes of the pending row: the timeout path asks the broker for the order
      under the client id before it settles for UNKNOWN. */
  function Settle(s: Store, id: nat, i: Intent, b: MB.Broker, o: MB.Outcome): Store
    requires id < |s.rows|
  {
    var row := s.rows[id];
    match o
    case TimedOut =>
      var remote := MB.Find(b.orders, ClientKey(i.key));
      if remote.None? then WithRow(s, id, row.(status := Unknown))
      else WithRow(s, id, row.(status := FromBroker(b.orders[remote.value].status), brokerId := remote))
    case Failed(_) => WithRow(s, id, row.(status := RowRejected))
    case Done(oid) =>
      if oid >= |b.orders| then s
      else
        var order := b.orders[oid];
        var s' := WithRow(s, id, row.(status := FromBroker(order.status), brokerId := Some(oid)));
        if order.status.Filled? && order.avgFillPrice.Some?
        then s'.(executions := s'.executions + [Execution(id, Or(Some(order.filledQty), i.qty), order.avgFillPrice.value)])
        else s'
  }

  predicate MissingLimit(t: VO.Ticket) { (t.code.Limit? || t.code.StopLimit?) && t.limit.None? }

  ghost function SubmitNow(d: Desk, i: Intent, last: Option<real>, line: Line): Desk {
    var slot := SlotFor(d.db.rows, i);
    if slot.Taken? || slot.id > |d.db.rows| then d
    else
      var row := SlotRow(d.db.rows, slot.id, i);
      var s := Place(d.db, slot.id, row);
      var t := Shape(i, last);
      if MissingLimit(t) then Desk(WithRow(s, slot.id, row.(status := RowRejected)), d.broker)
      else
        var (b, o) := Transmit(d.broker, Request(i, t), line);
        Desk(Settle(s, slot.id, i, b, o), b)
  }

  ghost function SubmitOne(d: Desk, i: Intent, stale: set<nat>, last: Option<real>, line: Line): Desk {
    match ClearTheWay(d, i, stale)
    case Skip => d
    case Proceed(d') => SubmitNow(d', i, last, line)
  }

  // ----- Status sync -----

  function SyncRow(s: Store, b: MB.Broker, id: nat): Store {
    if id >= |s.rows| || s.rows[id].brokerId.None? || s.rows[id].brokerId.value >= |b.orders| then s
    else
      var row := s.rows[id];
      var order := b.orders[row.brokerId.value];
      if row.status == FromBroker(order.status) then s
      else
        var s' := WithRow(s, id, row.(status := FromBroker(order.status)));
        if order.status.Filled? && order.avgFillPrice.Some?
        then s'.(executions := s'.executions + [Execution(id, Or(Some(order.filledQty), row.qty), order.avgFillPrice.value)])
        else s'
  }

  function SyncRows(s: Store, b: MB.Broker, ids: seq<nat>): Store
    decreases |ids|
  {
    if ids == [] then s else SyncRow(SyncRows(s, b, ids[..|ids| - 1]), b, ids[|ids| - 1])
  }

  function Sync(d: Desk): Desk { d.(db := SyncRows(d.db, d.broker, WorkingRows(d.db.rows))) }

  // ----- The manager object -----

  class OrderManager {
    var db: Store
    const broker: MB.MockBroker

    ghost function View(): Desk
      reads this, broker
    {
      Desk(db, broker.View())
    }

    constructor (broker: MB.MockBroker)
      ensures this.broker == broker && db == EMPTY
    {
      this.broker := broker;
      db := EMPTY;
    }

    method CancelOrder(id: nat)
      modifies this, broker
      ensures View() == CancelRow(old(View()), id)
    {
      if id >= |db.rows| {
        return;
      }
      var row := db.rows[id];
      if row.brokerId.None? {
        db := WithRow(db, id, row.(status := Cancelled));
      } else {
        var o := broker.CancelOrder(row.brokerId.value);
        if o.Done? && o.oid < |broker.orders| {
          db := WithRow(db, id, row.(status := FromBroker(broker.orders[o.oid].status)));
        }
      }
    }

    method CancelWorkingForSymbol(symbol: string, side: Option<Side>)
      modifies this, broker
      ensures View() == CancelRows(old(View()), WorkingFor(old(db).rows, symbol, side))
    {
      var ids := WorkingFor(db.rows, symbol, side);
      var n := 0;
      while n < |ids|
        invariant 0 <= n <= |ids|
        invariant View() == CancelRows(old(View()), ids[..n])
      {
        CancelRowsTake(old(View()), ids, n);
        CancelOrder(ids[n]);
        n := n + 1;
      }
      assert ids[..|ids|] == ids;
    }

    method SendAndSettle(id: nat, i: Intent, t: VO.Ticket, line: Line)
      requires id < |db.rows|
      modifies this, broker
      ensures
        var (b, o) := Transmit(old(View()).broker, Request(i, t), line);
        View() == Desk(Settle(old(db), id, i, b, o), b)
    {
      var o := MB.TimedOut;
      if !line.LostBefore? {
        o := broker.SubmitOrder(Request(i, t));
      }
      var row := db.rows[id];
      if line.LostBefore? || line.LostAfter? || o.TimedOut? {
        db := WithRow(db, id, row.(status := Unknown));
        var remote := broker.GetOrderByClientId(ClientKey(i.key));
        if remote.Some? {
          db := WithRow(db, id, row.(status := FromBroker(broker.orders[remote.value].status), brokerId := remote));
        }
        return;
      }
      if o.Failed? {
        db := WithRow(db, id, row.(status := RowRejected));
        return;
      }
      if o.oid >= |broker.orders| {
        return;
      }
      var order := broker.orders[o.oid];
      db := WithRow(db, id, row.(status := FromBroker(order.status), brokerId := Some(o.oid)));
      if order.status.Filled? && order.avgFillPrice.Some? {
        db := db.(executions := db.executions +
          [Execution(id, Or(Some(order.filledQty), i.qty), order.avgFillPrice.value)]);
      }
    }

    method SubmitToSlot(i: Intent, last: Option<real>, line: Line)
      modifies this, broker
      ensures View() == SubmitNow(old(View()), i, last, line)
    {
      var existing := FindRow(db.rows, ClientKey(i.key));
      var id := |db.rows|;
      if existing.Some? {
        if !Dead(db.rows[existing.value].status) {
          return;
        }
        id := existing.value;
        db := WithRow(db, id, ReusedRow(db.rows[id], i));
      } else {
        db := db.(rows := db.rows + [PendingRow(i)]);
      }
      var t := Shape(i, last);
      if MissingLimit(t) {
        db := WithRow(db, id, db.rows[id].(status := RowRejected));
        return;
      }
      SendAndSettle(id, i, t, line);
    }

    method SubmitIntent(i: Intent, stale: set<nat>, last: Option<real>, line: Line)
      modifies this, broker
      ensures View() == SubmitOne(old(View()), i, stale, last, line)
    {
      if IsExit(i) {
        var working := WorkingFor(db.rows, i.symbol, Some(i.side));
        if working != [] && IsPartialExit(i) {
          return;
        }
        if working != [] && IsFlatten(i) {
          if FreshOwnRow(db.rows, working, i, stale) {
            return;
          }
          CancelWorkingForSymbol(i.symbol, Some(i.side));
        }
      }
      SubmitToSlot(i, last, line);
    }

    method SyncOrder(id: nat)
      modifies this
      ensures db == SyncRow(old(db), broker.View(), id)
    {
      if id >= |db.rows| || db.rows[id].brokerId.None? {
        return;
      }
      var row := db.rows[id];
      if row.brokerId.value >= |broker.orders| {
        return;
      }
      var order := broker.orders[row.brokerId.value];
      if row.status != FromBroker(order.status) {
        db := WithRow(db, id, row.(status := FromBroker(order.status)));
        if order.status.Filled? && order.avgFillPrice.Some? {
          db := db.(executions := db.executions +
            [Execution(id, Or(Some(order.filledQty), row.qty), order.avgFillPrice.value)]);
        }
      }
    }

    method SyncStatusesFromBroker()
      modifies this
      ensures View() == Sync(old(View()))
    {
      var ids := WorkingRows(db.rows);
      var n := 0;
      while n < |ids|
        invariant 0 <= n <= |ids|
        invariant db == SyncRows(old(db), broker.View(), ids[..n])
      {
        assert ids[..n + 1][..n] == ids[..n];
        SyncOrder(ids[n]);
        n := n + 1;
      }
      assert ids[..|ids|] == ids;
    }
  }
}
