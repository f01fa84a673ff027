/** What holds over every run of the order manager, the status sync and reconciliation against the
    paper broker, with broker calls cut off at any point and local rows rolled back at any point. */
module OrderManagerSafety {
  import opened BrokerModels
  import opened OrderTables
  import opened OrderManagers
  import MB = MockBrokers
  import L = Ledger
  import R = Reconciliations

  // ----- Runs -----

  datatype Session = Session(db: Store, committed: Store, broker: MB.Broker)

  /** `Outside` is another caller of the broker; `Moves` is an open order that fills, fills in part,
      is cancelled or is rejected at the broker between calls. */
  datatype Act =
    | Submit(i: Intent, stale: set<nat>, last: Option<real>, line: Line)
    | CancelOne(id: nat)
    | SyncAll
    | Reconcile(visible: Option<seq<nat>>)
    | Outside(op: MB.Op)
    | Moves(oid: nat, status: OrderStatus, qty: real, price: Option<real>)
    | Commit
    | Rollback

  predicate OpenOrder(o: MB.BrokerOrder) { o.status.New? || o.status.Accepted? || o.status.Partial? }

  /** A snapshot shows some of the broker's open orders, each once; possibly none of them. */
  predicate Honest(b: MB.Broker, visible: seq<nat>) {
    && (forall n :: 0 <= n < |visible| ==> visible[n] < |b.orders| && OpenOrder(b.orders[visible[n]]))
    && (forall n, m :: 0 <= n < m < |visible| ==> visible[n] != visible[m])
  }

  predicate Allowed(b: MB.Broker, a: Act) {
    match a
    case Submit(i, _, _, _) => i.qty > 0.0
    case Reconcile(visible) => visible.Some? ==> Honest(b, visible.value)
    case Outside(op) =>
      match op {
        case DoSubmit(r) => L.CallerKey(r) && r.qty > 0.0
        case DoReplace(_, r) => L.CallerKey(r) && r.qty > 0.0
        case DoClose(_, qty) => qty.Some? ==> qty.value > 0.0
        case DoCancel(_) => true
        case DoConfigure(_) => true
      }
    case Moves(oid, status, qty, price) =>
      oid < |b.orders| && OpenOrder(b.orders[oid]) && (status.Filled? ==> qty > 0.0 && price.Some?)
    case _ => true
  }

  function Snapshot(b: MB.Broker, visible: seq<nat>): seq<R.Remote>
    requires Honest(b, visible)
  {
    seq(|visible|, n requires 0 <= n < |visible| =>
      var o := b.orders[visible[n]];
      R.Remote(Some(visible[n]), o.symbol, o.side, o.qty, o.code, o.status))
  }

  function Moved(b: MB.Broker, oid: nat, status: OrderStatus, qty: real, price: Option<real>): MB.Broker
    requires oid < |b.orders|
  {
    b.(orders := b.orders[oid := b.orders[oid].(status := status, filledQty := qty, avgFillPrice := price)])
  }

  ghost function Step(s: Session, a: Act): Session
    requires Allowed(s.broker, a)
  {
    match a
    case Submit(i, stale, last, line) =>
      var d := SubmitOne(Desk(s.db, s.broker), i, stale, last, line);
      Session(d.db, s.committed, d.broker)
    case CancelOne(id) =>
      var d := CancelRow(Desk(s.db, s.broker), id);
      Session(d.db, s.committed, d.broker)
    case SyncAll => s.(db := Sync(Desk(s.db, s.broker)).db)
    case Reconcile(visible) =>
      s.(db := R.Reconcile(s.db, if visible.None? then None else Some(Snapshot(s.broker, visible.value))))
    case Outside(op) => s.(broker := MB.Step(s.broker, op))
    case Moves(oid, status, qty, price) => s.(broker := Moved(s.broker, oid, status, qty, price))
    case Commit => s.(committed := s.db)
    case Rollback => s.(db := s.committed)
  }

  ghost predicate Feasible(s: Session, acts: seq<Act>)
    decreases acts
  {
    acts == [] || (Allowed(s.broker, acts[0]) && Feasible(Step(s, acts[0]), acts[1..]))
  }

  ghost function Run(s: Session, acts: seq<Act>): Session
    requires Feasible(s, acts)
    decreases acts
  {
    if acts == [] then s else Run(Step(s, acts[0]), acts[1..])
  }

  // ----- The invariant -----

  ghost predicate UniqueRows(rows: seq<OrderRow>) {
    forall i, j :: 0 <= i < j < |rows| ==> rows[i].key != rows[j].key
  }

  /** A row that names a broker order names the one with its key, or the one it adopted. */
  ghost predicate RowLinked(row: OrderRow, b: MB.Broker) {
    && (row.brokerId.Some? ==>
          && row.brokerId.value < |b.orders|
          && (row.key == AdoptedKey(row.brokerId.value) || b.orders[row.brokerId.value].key == Some(row.key)))
    && (row.key.AdoptedKey? ==> row.brokerId == Some(row.key.oid))
  }

  ghost predicate Linked(rows: seq<OrderRow>, b: MB.Broker) {
    forall i :: 0 <= i < |rows| ==> RowLinked(rows[i], b)
  }

  /** An execution repeats the broker's fill of the filled order its row names. */
  ghost predicate Agrees(e: Execution, rows: seq<OrderRow>, b: MB.Broker) {
    && e.row < |rows|
    && rows[e.row].status.RowFilled?
    && rows[e.row].brokerId.Some?
    && rows[e.row].brokerId.value < |b.orders|
    && var o := b.orders[rows[e.row].brokerId.value];
       o.status.Filled? && o.filledQty == e.qty && o.avgFillPrice == Some(e.price)
  }

  ghost predicate ExecutionsAgree(s: Store, b: MB.Broker) {
    && (forall n :: 0 <= n < |s.executions| ==> Agrees(s.executions[n], s.rows, b))
    && (forall n, m :: 0 <= n < m < |s.executions| ==> s.executions[n].row != s.executions[m].row)
  }

  ghost predicate Safe(s: Store, b: MB.Broker) {
    UniqueRows(s.rows) && Linked(s.rows, b) && ExecutionsAgree(s, b)
  }

  ghost predicate FillsReal(b: MB.Broker) {
    forall n :: 0 <= n < |b.orders| && b.orders[n].status.Filled? ==>
      b.orders[n].filledQty > 0.0 && b.orders[n].avgFillPrice.Some?
  }

  /** A flat position is no entry of the table. */
  ghost predicate NoFlatPosition(b: MB.Broker) { forall s :: s in b.positions ==> b.positions[s].qty != 0.0 }

  ghost predicate BrokerOk(b: MB.Broker) { L.UniqueKeys(b.orders) && FillsReal(b) && NoFlatPosition(b) }

  ghost predicate SessionSafe(s: Session) {
    BrokerOk(s.broker) && Safe(s.db, s.broker) && Safe(s.committed, s.broker)
  }

  // ----- The broker only moves forward: keys never change and FILLED orders are frozen -----

  ghost predicate Forward(b: MB.Broker, b': MB.Broker) {
    && |b.orders| <= |b'.orders|
    && forall n :: 0 <= n < |b.orders| ==>
         && b'.orders[n].key == b.orders[n].key
         && (b.orders[n].status.Filled? ==> b'.orders[n] == b.orders[n])
  }

  lemma SafeForward(s: Store, b: MB.Broker, b': MB.Broker)
    requires Safe(s, b) && Forward(b, b')
    ensures Safe(s, b')
  {
    forall i | 0 <= i < |s.rows| ensures RowLinked(s.rows[i], b') { assert RowLinked(s.rows[i], b); }
    forall n | 0 <= n < |s.executions| ensures Agrees(s.executions[n], s.rows, b') {
      assert Agrees(s.executions[n], s.rows, b);
    }
  }

  lemma TradeOrders(b: MB.Broker, r: MB.OrderRequest)
    ensures
      var b' := MB.Trade(b, r).0;
      b'.orders == b.orders || b'.orders == b.orders + [MB.Traded(b.desk, r)]
  {
    L.TradeIsSettlement(b, r);
    L.FillEffect(b, MB.Traded(b.desk, r));
  }

  /** A submission appends at most one order, under the request's key. */
  lemma SubmitOrders(b: MB.Broker, r: MB.OrderRequest)
    ensures
      var b' := MB.Submit(b, r).0;
      || b'.orders == b.orders
      || b'.orders == b.orders + [MB.Traded(b.desk, r)]
      || b'.orders == b.orders + [MB.Resting(r)]
  {
    TradeOrders(b, r);
  }

  lemma FilledMeansPositive(d: MB.Desk, r: MB.OrderRequest)
    requires r.qty > 0.0 && MB.FillStatus(d, r).Filled?
    ensures MB.FillQty(d, r) > 0.0
  {
  }

  lemma SubmitKeepsPositions(b: MB.Broker, r: MB.OrderRequest)
    requires NoFlatPosition(b)
    ensures NoFlatPosition(MB.Submit(b, r).0)
  {
    L.TradeIsSettlement(b, r);
    if MB.Refusal(b, r).None? { L.TradeEffect(b, r); }
  }

  lemma SubmitMovesForward(b: MB.Broker, r: MB.OrderRequest)
    requires BrokerOk(b) && r.qty > 0.0 && L.FreshSlot(b, r)
    ensures Forward(b, MB.Submit(b, r).0) && BrokerOk(MB.Submit(b, r).0)
  {
    L.SubmitKeepsKeys(b, r);
    SubmitKeepsPositions(b, r);
    SubmitOrders(b, r);
    if MB.FillStatus(b.desk, r).Filled? { FilledMeansPositive(b.desk, r); }
  }

  lemma CancelMovesForward(b: MB.Broker, oid: nat)
    requires BrokerOk(b)
    ensures Forward(b, MB.Cancel(b, oid).0) && BrokerOk(MB.Cancel(b, oid).0)
  {
  }

  lemma TransmitMovesForward(b: MB.Broker, r: MB.OrderRequest, line: Line)
    requires BrokerOk(b) && r.qty > 0.0 && L.CallerKey(r)
    ensures Forward(b, Transmit(b, r, line).0) && BrokerOk(Transmit(b, r, line).0)
  {
    SubmitMovesForward(b, r);
  }

  // ----- Row edits -----

  predicate HasExecution(s: Store, id: nat) {
    exists n :: 0 <= n < |s.executions| && s.executions[n].row == id
  }

  lemma UnfilledHasNoExecution(s: Store, b: MB.Broker, id: nat)
    requires Safe(s, b) && id < |s.rows| && !s.rows[id].status.RowFilled?
    ensures !HasExecution(s, id)
  {
    forall n | 0 <= n < |s.executions| ensures s.executions[n].row != id {
      assert Agrees(s.executions[n], s.rows, b);
    }
  }

  /** A row without an execution may be rewritten freely, as long as its key and link stay true. */
  lemma EditKeepsSafe(s: Store, b: MB.Broker, id: nat, row: OrderRow)
    requires Safe(s, b) && id < |s.rows| && row.key == s.rows[id].key && RowLinked(row, b)
    requires !HasExecution(s, id)
    ensures Safe(WithRow(s, id, row), b)
  {
    var s' := WithRow(s, id, row);
    forall i | 0 <= i < |s'.rows| ensures RowLinked(s'.rows[i], b) { assert RowLinked(s.rows[i], b); }
    forall n | 0 <= n < |s.executions| ensures Agrees(s'.executions[n], s'.rows, b) {
      assert Agrees(s.executions[n], s.rows, b);
    }
  }

  lemma AppendKeepsSafe(s: Store, b: MB.Broker, row: OrderRow)
    requires Safe(s, b) && FindRow(s.rows, row.key).None? && RowLinked(row, b)
    ensures Safe(s.(rows := s.rows + [row]), b)
    ensures !HasExecution(s.(rows := s.rows + [row]), |s.rows|)
  {
    var s' := s.(rows := s.rows + [row]);
    forall i | 0 <= i < |s'.rows| ensures RowLinked(s'.rows[i], b) {
      if i < |s.rows| { assert RowLinked(s.rows[i], b); }
    }
    forall n | 0 <= n < |s.executions|
      ensures Agrees(s'.executions[n], s'.rows, b) && s'.executions[n].row != |s.rows|
    {
      assert Agrees(s.executions[n], s.rows, b);
    }
  }

  lemma ExecuteKeepsSafe(s: Store, b: MB.Broker, e: Execution)
    requires Safe(s, b) && !HasExecution(s, e.row) && Agrees(e, s.rows, b)
    ensures Safe(s.(executions := s.executions + [e]), b)
  {
    var s' := s.(executions := s.executions + [e]);
    forall n | 0 <= n < |s'.executions| ensures Agrees(s'.executions[n], s'.rows, b) {
      if n < |s.executions| { assert Agrees(s.executions[n], s.rows, b); }
    }
  }

  // ----- Cancel -----

  lemma CancelKeepsSafe(d: Desk, id: nat)
    requires Safe(d.db, d.broker) && BrokerOk(d.broker)
    ensures
      var d' := CancelRow(d, id);
      Safe(d'.db, d'.broker) && BrokerOk(d'.broker) && Forward(d.broker, d'.broker)
  {
    if id < |d.db.rows| {
      var row := d.db.rows[id];
      assert RowLinked(row, d.broker);
      if row.brokerId.None? {
        forall n | 0 <= n < |d.db.executions| ensures d.db.executions[n].row != id {
          assert Agrees(d.db.executions[n], d.db.rows, d.broker);
        }
        EditKeepsSafe(d.db, d.broker, id, row.(status := Cancelled));
      } else {
        CancelMovesForward(d.broker, row.brokerId.value);
        var b := MB.Cancel(d.broker, row.brokerId.value).0;
        SafeForward(d.db, d.broker, b);
        var row' := row.(status := FromBroker(b.orders[row.brokerId.value].status));
        if HasExecution(d.db, id) {
          var n :| 0 <= n < |d.db.executions| && d.db.executions[n].row == id;
          assert Agrees(d.db.executions[n], d.db.rows, d.broker);
          assert row' == row && WithRow(d.db, id, row') == d.db;
        } else {
          assert RowLinked(row', b) by { assert RowLinked(row, b); }
          EditKeepsSafe(d.db, b, id, row');
        }
      }
    }
  }

  lemma {:induction false} CancelsKeepSafe(d: Desk, ids: seq<nat>)
    requires Safe(d.db, d.broker) && BrokerOk(d.broker)
    ensures
      var d' := CancelRows(d, ids);
      Safe(d'.db, d'.broker) && BrokerOk(d'.broker) && Forward(d.broker, d'.broker)
    decreases |ids|
  {
    if ids != [] {
      CancelsKeepSafe(d, ids[..|ids| - 1]);
      CancelKeepsSafe(CancelRows(d, ids[..|ids| - 1]), ids[|ids| - 1]);
    }
  }

  // ----- Submit -----

  /** The row is ready to be sent under the intent's key: nothing at the broker, nothing executed. */
  ghost predicate Ready(s: Store, id: nat, i: Intent) {
    id < |s.rows| && s.rows[id].key == ClientKey(i.key) && s.rows[id].brokerId.None? && !HasExecution(s, id)
  }

  lemma PlaceKeepsSafe(s: Store, b: MB.Broker, i: Intent)
    requires Safe(s, b) && SlotFor(s.rows, i).Slot?
    ensures
      var id := SlotFor(s.rows, i).id;
      && id <= |s.rows|
      && var s' := Place(s, id, SlotRow(s.rows, id, i));
         Safe(s', b) && Ready(s', id, i) && s'.rows[id] == SlotRow(s.rows, id, i)
  {
    var r := FindRow(s.rows, ClientKey(i.key));
    if r.None? {
      AppendKeepsSafe(s, b, PendingRow(i));
    } else {
      var row := ReusedRow(s.rows[r.value], i);
      UnfilledHasNoExecution(s, b, r.value);
      EditKeepsSafe(s, b, r.value, row);
      var s' := Place(s, r.value, row);
      assert s'.executions == s.executions;
      assert !HasExecution(s', r.value) by {
        if HasExecution(s', r.value) { assert HasExecution(s, r.value); }
      }
    }
  }

  lemma SettleKeepsSafe(s: Store, id: nat, i: Intent, b: MB.Broker, o: MB.Outcome)
    requires Safe(s, b) && FillsReal(b) && Ready(s, id, i)
    requires o.Done? ==> o.oid < |b.orders| && b.orders[o.oid].key == Some(ClientKey(i.key))
    ensures Safe(Settle(s, id, i, b, o), b)
  {
    var row := s.rows[id];
    match o
    case TimedOut =>
      var remote := MB.Find(b.orders, ClientKey(i.key));
      EditKeepsSafe(s, b, id, row.(status := Unknown));
      if remote.Some? {
        EditKeepsSafe(s, b, id, row.(status := FromBroker(b.orders[remote.value].status), brokerId := remote));
      }
    case Failed(_) => EditKeepsSafe(s, b, id, row.(status := RowRejected));
    case Done(oid) =>
      var order := b.orders[oid];
      EditKeepsSafe(s, b, id, row.(status := FromBroker(order.status), brokerId := Some(oid)));
      var s' := WithRow(s, id, row.(status := FromBroker(order.status), brokerId := Some(oid)));
      if order.status.Filled? {
        var e := Execution(id, Or(Some(order.filledQty), i.qty), order.avgFillPrice.value);
        assert s'.executions == s.executions;
        assert !HasExecution(s', id) by { if HasExecution(s', id) { assert HasExecution(s, id); } }
        assert s'.rows[id].brokerId == Some(oid);
        assert Agrees(e, s'.rows, b);
        ExecuteKeepsSafe(s', b, e);
      }
  }

  lemma SubmitNames(b: MB.Broker, r: MB.OrderRequest)
    requires r.key.Some?
    ensures
      var (b', o) := MB.Submit(b, r);
      o.Done? ==> o.oid < |b'.orders| && b'.orders[o.oid].key == r.key
  {
    L.TradeIsSettlement(b, r);
    L.FillEffect(b, MB.Traded(b.desk, r));
  }

  lemma SubmitNowKeepsSafe(d: Desk, i: Intent, last: Option<real>, line: Line)
    requires Safe(d.db, d.broker) && BrokerOk(d.broker) && i.qty > 0.0
    ensures
      var d' := SubmitNow(d, i, last, line);
      Safe(d'.db, d'.broker) && BrokerOk(d'.broker) && Forward(d.broker, d'.broker)
  {
    var slot := SlotFor(d.db.rows, i);
    if slot.Slot? {
      PlaceKeepsSafe(d.db, d.broker, i);
      var s := Place(d.db, slot.id, SlotRow(d.db.rows, slot.id, i));
      var t := Shape(i, last);
      if MissingLimit(t) {
        EditKeepsSafe(s, d.broker, slot.id, s.rows[slot.id].(status := RowRejected));
      } else {
        var r := Request(i, t);
        TransmitMovesForward(d.broker, r, line);
        SubmitNames(d.broker, r);
        var (b, o) := Transmit(d.broker, r, line);
        SafeForward(s, d.broker, b);
        SettleKeepsSafe(s, slot.id, i, b, o);
      }
    }
  }

  lemma ForwardTrans(a: MB.Broker, b: MB.Broker, c: MB.Broker)
    requires Forward(a, b) && Forward(b, c)
    ensures Forward(a, c)
  {
  }

  lemma SubmitOneKeepsSafe(d: Desk, i: Intent, stale: set<nat>, last: Option<real>, line: Line)
    requires Safe(d.db, d.broker) && BrokerOk(d.broker) && i.qty > 0.0
    ensures
      var d' := SubmitOne(d, i, stale, last, line);
      Safe(d'.db, d'.broker) && BrokerOk(d'.broker) && Forward(d.broker, d'.broker)
  {
    CancelsKeepSafe(d, WorkingFor(d.db.rows, i.symbol, Some(i.side)));
    match ClearTheWay(d, i, stale)
    case Skip =>
    case Proceed(d') =>
      SubmitNowKeepsSafe(d', i, last, line);
      ForwardTrans(d.broker, d'.broker, SubmitNow(d', i, last, line).broker);
  }

  // ----- Sync -----

  lemma SyncRowKeepsSafe(s: Store, b: MB.Broker, id: nat)
    requires Safe(s, b) && FillsReal(b)
    ensures Safe(SyncRow(s, b, id), b)
  {
    if id < |s.rows| && s.rows[id].brokerId.Some? {
      var row := s.rows[id];
      assert RowLinked(row, b);
      var order := b.orders[row.brokerId.value];
      if row.status != FromBroker(order.status) {
        forall n | 0 <= n < |s.executions| ensures s.executions[n].row != id {
          assert Agrees(s.executions[n], s.rows, b);
        }
        var s' := WithRow(s, id, row.(status := FromBroker(order.status)));
        EditKeepsSafe(s, b, id, row.(status := FromBroker(order.status)));
        if order.status.Filled? {
          ExecuteKeepsSafe(s', b, Execution(id, Or(Some(order.filledQty), row.qty), order.avgFillPrice.value));
        }
      }
    }
  }

  lemma {:induction false} SyncRowsKeepSafe(s: Store, b: MB.Broker, ids: seq<nat>)
    requires Safe(s, b) && FillsReal(b)
    ensures Safe(SyncRows(s, b, ids), b)
    decreases |ids|
  {
    if ids != [] {
      SyncRowsKeepSafe(s, b, ids[..|ids| - 1]);
      SyncRowKeepsSafe(SyncRows(s, b, ids[..|ids| - 1]), b, ids[|ids| - 1]);
    }
  }

  // ----- Reconcile -----

  /** An id that no row of the table names has no adopted row either. */
  lemma NotYetAdopted(s: Store, b: MB.Broker, oid: nat, i: nat)
    requires Linked(s.rows, b) && oid !in BrokerIds(s.rows) && i < |s.rows|
    ensures s.rows[i].key != AdoptedKey(oid)
  {
    assert RowLinked(s.rows[i], b);
    if s.rows[i].brokerId.Some? { assert s.rows[i].brokerId.value in BrokerIds(s.rows); }
  }

  ghost predicate AdoptedFrom(rows: seq<OrderRow>, n: nat, visible: seq<nat>) {
    forall i :: n <= i < |rows| ==> rows[i].key.AdoptedKey? && rows[i].key.oid in visible
  }

  lemma AdoptOne(s: Store, b: MB.Broker, before: seq<OrderRow>, visible: seq<nat>, row: OrderRow)
    requires Linked(s.rows, b) && s.rows <= before && Safe(s.(rows := before), b)
    requires AdoptedFrom(before, |s.rows|, visible)
    requires row.brokerId.Some? && row.brokerId.value < |b.orders| && row.key == AdoptedKey(row.brokerId.value)
    requires row.brokerId.value !in BrokerIds(s.rows) && row.brokerId.value !in visible
    ensures Safe(s.(rows := before + [row]), b)
    ensures AdoptedFrom(before + [row], |s.rows|, visible + [row.brokerId.value])
  {
    forall i | 0 <= i < |before| ensures before[i].key != row.key {
      if i < |s.rows| { NotYetAdopted(s, b, row.brokerId.value, i); }
    }
    AppendKeepsSafe(s.(rows := before), b, row);
  }

  lemma {:induction false} AdoptKeepsSafe(s: Store, b: MB.Broker, visible: seq<nat>)
    requires Safe(s, b) && Honest(b, visible)
    ensures
      var rows := R.Adopt(s.rows, Snapshot(b, visible), BrokerIds(s.rows));
      Safe(s.(rows := rows), b) && AdoptedFrom(rows, |s.rows|, visible)
    decreases |visible|
  {
    if visible != [] {
      var init, oid := visible[..|visible| - 1], visible[|visible| - 1];
      var snap := Snapshot(b, visible);
      assert snap[..|visible| - 1] == Snapshot(b, init);
      assert visible == init + [oid];
      AdoptKeepsSafe(s, b, init);
      if oid !in BrokerIds(s.rows) {
        R.AdoptFacts(s.rows, Snapshot(b, init), BrokerIds(s.rows));
        AdoptOne(s, b, R.Adopt(s.rows, Snapshot(b, init), BrokerIds(s.rows)), init, R.AdoptedRow(snap[|visible| - 1]));
      }
    }
  }

  lemma CloseStaleKeepsSafe(s: Store, b: MB.Broker)
    requires Safe(s, b)
    ensures Safe(s.(rows := R.CloseStale(s.rows)), b)
  {
    var s' := s.(rows := R.CloseStale(s.rows));
    forall i | 0 <= i < |s'.rows| ensures RowLinked(s'.rows[i], b) && s'.rows[i].key == s.rows[i].key {
      assert RowLinked(s.rows[i], b);
    }
    forall n | 0 <= n < |s.executions| ensures Agrees(s'.executions[n], s'.rows, b) {
      assert Agrees(s.executions[n], s.rows, b);
    }
  }

  lemma ReconcileKeepsSafe(s: Store, b: MB.Broker, visible: Option<seq<nat>>)
    requires Safe(s, b) && (visible.Some? ==> Honest(b, visible.value))
    ensures Safe(R.Reconcile(s, if visible.None? then None else Some(Snapshot(b, visible.value))), b)
  {
    if visible.Some? {
      AdoptKeepsSafe(s, b, visible.value);
      var adopted := s.(rows := R.Adopt(s.rows, Snapshot(b, visible.value), BrokerIds(s.rows)));
      CloseStaleKeepsSafe(adopted, b);
      var s' := R.Reconcile(s, Some(Snapshot(b, visible.value)));
      RunsDoNotMatter(adopted, s'.runs, b);
      RunsDoNotMatter(adopted.(rows := R.CloseStale(adopted.rows)), s'.runs, b);
    } else {
      RunsDoNotMatter(s, R.Reconcile(s, None).runs, b);
    }
  }

  lemma RunsDoNotMatter(s: Store, runs: seq<ReconRun>, b: MB.Broker)
    requires Safe(s, b)
    ensures Safe(s.(runs := runs), b)
  {
  }

  // ----- The theorem -----

  lemma OutsideMovesForward(b: MB.Broker, op: MB.Op)
    requires BrokerOk(b) && Allowed(b, Outside(op))
    ensures Forward(b, MB.Step(b, op)) && BrokerOk(MB.Step(b, op))
  {
    match op
    case DoSubmit(r) => SubmitMovesForward(b, r);
    case DoCancel(oid) => CancelMovesForward(b, oid);
    case DoReplace(oid, r) =>
      CancelMovesForward(b, oid);
      SubmitMovesForward(MB.Cancel(b, oid).0, r);
      ForwardTrans(b, MB.Cancel(b, oid).0, MB.Submit(MB.Cancel(b, oid).0, r).0);
    case DoClose(symbol, qty) =>
      if symbol in b.positions { SubmitMovesForward(b, MB.CloseRequest(b, symbol, qty)); }
    case DoConfigure(_) =>
  }

  lemma MovesForward(b: MB.Broker, oid: nat, status: OrderStatus, qty: real, price: Option<real>)
    requires BrokerOk(b) && Allowed(b, Moves(oid, status, qty, price))
    ensures Forward(b, Moved(b, oid, status, qty, price)) && BrokerOk(Moved(b, oid, status, qty, price))
  {
    assert forall n :: 0 <= n < |b.orders| ==> Moved(b, oid, status, qty, price).orders[n].key == b.orders[n].key;
  }

  lemma StepKeepsSafe(s: Session, a: Act)
    requires SessionSafe(s) && Allowed(s.broker, a)
    ensures SessionSafe(Step(s, a))
  {
    var s' := Step(s, a);
    match a
    case Submit(i, stale, last, line) =>
      SubmitOneKeepsSafe(Desk(s.db, s.broker), i, stale, last, line);
      SafeForward(s.committed, s.broker, s'.broker);
    case CancelOne(id) =>
      CancelKeepsSafe(Desk(s.db, s.broker), id);
      SafeForward(s.committed, s.broker, s'.broker);
    case SyncAll => SyncRowsKeepSafe(s.db, s.broker, WorkingRows(s.db.rows));
    case Reconcile(visible) => ReconcileKeepsSafe(s.db, s.broker, visible);
    case Outside(op) =>
      OutsideMovesForward(s.broker, op);
      SafeForward(s.db, s.broker, s'.broker);
      SafeForward(s.committed, s.broker, s'.broker);
    case Moves(oid, status, qty, price) =>
      MovesForward(s.broker, oid, status, qty, price);
      SafeForward(s.db, s.broker, s'.broker);
      SafeForward(s.committed, s.broker, s'.broker);
    case Commit =>
    case Rollback =>
  }

  lemma {:induction false} RunKeepsSafe(s: Session, acts: seq<Act>)
    requires SessionSafe(s) && Feasible(s, acts)
    ensures SessionSafe(Run(s, acts))
    decreases acts
  {
    if acts != [] {
      StepKeepsSafe(s, acts[0]);
      RunKeepsSafe(Step(s, acts[0]), acts[1..]);
    }
  }

  /** Over every run of submit (with cancel-and-resubmit), cancel, sync and reconcile, with broker
      calls cut off before or after the broker acted and local rows rolled back at any point:
      at most one local row and one broker order per key, at most one execution per row, and every
      execution repeats the broker's filled quantity and price. */
  lemma OrderManagerTheorem(start: real, desk: MB.Desk, acts: seq<Act>)
    ensures
      var s0 := Session(EMPTY, EMPTY, MB.Fresh(start, desk));
      Feasible(s0, acts) ==>
        var s := Run(s0, acts);
        && (forall i, j :: 0 <= i < j < |s.db.rows| ==> s.db.rows[i].key != s.db.rows[j].key)
        && (forall i, j :: 0 <= i < j < |s.broker.orders| && s.broker.orders[i].key.Some?
              ==> s.broker.orders[i].key != s.broker.orders[j].key)
        && (forall n, m :: 0 <= n < m < |s.db.executions| ==> s.db.executions[n].row != s.db.executions[m].row)
        && (forall n :: 0 <= n < |s.db.executions| ==> Agrees(s.db.executions[n], s.db.rows, s.broker))
  {
    var s0 := Session(EMPTY, EMPTY, MB.Fresh(start, desk));
    if Feasible(s0, acts) { RunKeepsSafe(s0, acts); }
  }

  // ----- A row left UNKNOWN by a timeout -----

  lemma {:induction false} CancelsLeaveOthers(d: Desk, ids: seq<nat>, id: nat)
    requires id !in ids && id < |d.db.rows|
    ensures
      var d' := CancelRows(d, ids);
      && |d'.db.rows| == |d.db.rows| && d'.db.rows[id] == d.db.rows[id]
      && |d'.broker.orders| == |d.broker.orders|
      && forall i :: 0 <= i < |d.db.rows| ==> d'.db.rows[i].key == d.db.rows[i].key
    decreases |ids|
  {
    if ids != [] {
      CancelsLeaveOthers(d, ids[..|ids| - 1], id);
      assert ids[|ids| - 1] in ids;
    }
  }

  lemma {:induction false} SyncsLeaveOthers(s: Store, b: MB.Broker, ids: seq<nat>, id: nat)
    requires id !in ids && id < |s.rows|
    ensures |SyncRows(s, b, ids).rows| == |s.rows| && SyncRows(s, b, ids).rows[id] == s.rows[id]
    decreases |ids|
  {
    if ids != [] {
      SyncsLeaveOthers(s, b, ids[..|ids| - 1], id);
      assert ids[|ids| - 1] in ids;
    }
  }

  lemma SubmitNowLeavesUnknown(d: Desk, i: Intent, last: Option<real>, line: Line, id: nat)
    requires UniqueRows(d.db.rows) && id < |d.db.rows| && d.db.rows[id].status.Unknown?
    ensures
      var d' := SubmitNow(d, i, last, line);
      && id < |d'.db.rows| && d'.db.rows[id] == d.db.rows[id]
      && (d.db.rows[id].key == ClientKey(i.key) ==> d' == d)
  {
    var slot := SlotFor(d.db.rows, i);
    if slot.Slot? {
      assert slot.id != id && d.db.rows[id].key != ClientKey(i.key);
      var s := Place(d.db, slot.id, SlotRow(d.db.rows, slot.id, i));
      var (b, o) := Transmit(d.broker, Request(i, Shape(i, last)), line);
    }
  }

  /** Clearing the way leaves the row too, and adds no order. */
  lemma WayLeavesUnknown(d: Desk, i: Intent, stale: set<nat>, id: nat)
    requires UniqueRows(d.db.rows) && id < |d.db.rows| && d.db.rows[id].status.Unknown?
    requires ClearTheWay(d, i, stale).Proceed?
    ensures
      var d' := ClearTheWay(d, i, stale).d;
      && UniqueRows(d'.db.rows) && id < |d'.db.rows| && d'.db.rows[id] == d.db.rows[id]
      && |d'.broker.orders| == |d.broker.orders|
  {
    CancelsLeaveOthers(d, WorkingFor(d.db.rows, i.symbol, Some(i.side)), id);
  }

  lemma SubmitLeavesUnknown(d: Desk, i: Intent, stale: set<nat>, last: Option<real>, line: Line, id: nat)
    requires UniqueRows(d.db.rows) && id < |d.db.rows| && d.db.rows[id].status.Unknown?
    ensures
      var d' := SubmitOne(d, i, stale, last, line);
      && id < |d'.db.rows| && d'.db.rows[id] == d.db.rows[id]
      && (d.db.rows[id].key == ClientKey(i.key) ==> |d'.broker.orders| == |d.broker.orders|)
  {
    var way := ClearTheWay(d, i, stale);
    if way.Proceed? {
      WayLeavesUnknown(d, i, stale, id);
      SubmitNowLeavesUnknown(way.d, i, last, line, id);
    }
  }

  /** Nothing but an explicit cancel of that very row (or a rollback of the session) touches a row
      left UNKNOWN; in particular a submission under its key sends nothing. */
  lemma UnknownRowIsInert(s: Session, a: Act, id: nat)
    requires UniqueRows(s.db.rows) && Allowed(s.broker, a)
    requires id < |s.db.rows| && s.db.rows[id].status.Unknown?
    requires a != CancelOne(id) && a != Rollback
    ensures
      var s' := Step(s, a);
      && id < |s'.db.rows| && s'.db.rows[id] == s.db.rows[id]
      && (a.Submit? && s.db.rows[id].key == ClientKey(a.i.key) ==> |s'.broker.orders| == |s.broker.orders|)
  {
    match a
    case Submit(i, stale, last, line) => SubmitLeavesUnknown(Desk(s.db, s.broker), i, stale, last, line, id);
    case SyncAll => SyncsLeaveOthers(s.db, s.broker, WorkingRows(s.db.rows), id);
    case Reconcile(visible) =>
      if visible.Some? {
        R.AdoptFacts(s.db.rows, Snapshot(s.broker, visible.value), BrokerIds(s.db.rows));
      }
    case _ =>
  }

  predicate Spares(acts: seq<Act>, id: nat) {
    forall n :: 0 <= n < |acts| ==> acts[n] != CancelOne(id) && acts[n] != Rollback
  }

  /** So through every run without such a cancel or rollback the row stays UNKNOWN, and by
      `UnknownRowIsInert` no submission on the way is sent under its key. */
  lemma {:induction false} UnknownStaysUnknown(s: Session, acts: seq<Act>, id: nat)
    requires SessionSafe(s) && Feasible(s, acts) && Spares(acts, id)
    requires id < |s.db.rows| && s.db.rows[id].status.Unknown?
    ensures id < |Run(s, acts).db.rows| && Run(s, acts).db.rows[id] == s.db.rows[id]
    decreases acts
  {
    if acts != [] {
      StepKeepsSafe(s, acts[0]);
      UnknownRowIsInert(s, acts[0], id);
      assert forall n :: 0 <= n < |acts[1..]| ==> acts[1..][n] == acts[n + 1];
      UnknownStaysUnknown(Step(s, acts[0]), acts[1..], id);
    }
  }

  /** ... and that explicit cancel is enough: it makes the row reusable, and the next submission
      under its key takes it over. */
  lemma ExplicitCancelReopensUnknown(d: Desk, id: nat, i: Intent)
    requires UniqueRows(d.db.rows) && id < |d.db.rows|
    requires d.db.rows[id].status.Unknown? && d.db.rows[id].brokerId.None?
    requires d.db.rows[id].key == ClientKey(i.key)
    ensures SlotFor(d.db.rows, i) == Taken
    ensures SlotFor(CancelRow(d, id).db.rows, i) == Slot(id)
  {
    var rows := CancelRow(d, id).db.rows;
    assert forall j :: 0 <= j < |rows| ==> rows[j].key == d.db.rows[j].key;
    var r := FindRow(rows, ClientKey(i.key));
    assert r.Some? && r.value == id;
    var r0 := FindRow(d.db.rows, ClientKey(i.key));
    assert r0.Some? && r0.value == id;
  }

  /** Resubmitting under a key whose broker order was cancelled cannot bring it back to life: the
      paper broker returns the cancelled order, and the row ends cancelled with nothing sent. */
  lemma ResubmitAfterCancelIsInert(d: Desk, i: Intent, last: Option<real>, oid: nat)
    requires UniqueRows(d.db.rows) && SlotFor(d.db.rows, i).Slot?
    requires MB.Find(d.broker.orders, ClientKey(i.key)) == Some(oid) && d.broker.orders[oid].status.Canceled?
    requires !MB.Interrupted(d.broker.desk) && d.broker.desk.marketOpen && i.symbol !in d.broker.desk.halted
    requires !MissingLimit(Shape(i, last))
    ensures
      var d' := SubmitNow(d, i, last, Delivered);
      var id := SlotFor(d.db.rows, i).id;
      && d'.broker == d.broker
      && d'.db.executions == d.db.executions
      && id < |d'.db.rows| && d'.db.rows[id].status.Cancelled? && d'.db.rows[id].brokerId == Some(oid)
  {
  }
}
