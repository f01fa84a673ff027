/** Over runs: a local row and the broker order it names are for the same symbol and side, as long as
    submissions under one key agree on them. */
module OrderLinks {
  import opened BrokerModels
  import opened OrderTables
  import opened RowStatuses
  import opened OrderManagers
  import opened OrderManagerSafety
  import opened OrderPlacement
  import MB = MockBrokers
  import L = Ledger
  import BR = BrokerRules
  import R = Reconciliations

  /** What each client key is for. */
  type Purpose = string -> (string, Side)

  predicate ForPurpose(r: MB.OrderRequest, owner: Purpose) {
    r.key.Some? && r.key.value.ClientKey? ==> (r.symbol, r.side) == owner(r.key.value.text)
  }

  /** Every submission under a key is for the key's symbol and side. */
  predicate ActAgrees(a: Act, owner: Purpose) {
    match a
    case Submit(i, _, _, _) => (i.symbol, i.side) == owner(i.key)
    case Outside(DoSubmit(r)) => ForPurpose(r, owner)
    case Outside(DoReplace(_, r)) => ForPurpose(r, owner)
    case _ => true
  }

  predicate AllAgree(acts: seq<Act>, owner: Purpose) { forall n :: 0 <= n < |acts| ==> ActAgrees(acts[n], owner) }

  ghost predicate OrdersServe(b: MB.Broker, owner: Purpose) {
    forall n :: 0 <= n < |b.orders| && b.orders[n].key.Some? && b.orders[n].key.value.ClientKey? ==>
      (b.orders[n].symbol, b.orders[n].side) == owner(b.orders[n].key.value.text)
  }

  /** A row serves its key's purpose, or is the adoption of a broker order for the same. */
  ghost predicate RowServes(row: OrderRow, b: MB.Broker, owner: Purpose) {
    || (row.key.ClientKey? && (row.symbol, row.side) == owner(row.key.text))
    || (row.key.AdoptedKey? && row.key.oid < |b.orders|
        && row.symbol == b.orders[row.key.oid].symbol && row.side == b.orders[row.key.oid].side)
  }

  ghost predicate RowsServe(s: Store, b: MB.Broker, owner: Purpose) {
    forall n :: 0 <= n < |s.rows| ==> RowServes(s.rows[n], b, owner)
  }

  ghost predicate Serving(s: Session, owner: Purpose) {
    OrdersServe(s.broker, owner) && RowsServe(s.db, s.broker, owner) && RowsServe(s.committed, s.broker, owner)
  }

  // ----- Faces stay -----

  ghost predicate SameOrders(b: MB.Broker, b': MB.Broker) {
    && |b.orders| <= |b'.orders|
    && forall n :: 0 <= n < |b.orders| ==>
         b'.orders[n].key == b.orders[n].key && b'.orders[n].symbol == b.orders[n].symbol && b'.orders[n].side == b.orders[n].side
  }

  ghost predicate SameRows(s: Store, s': Store) {
    && |s.rows| <= |s'.rows|
    && forall n :: 0 <= n < |s.rows| ==>
         s'.rows[n].key == s.rows[n].key && s'.rows[n].symbol == s.rows[n].symbol && s'.rows[n].side == s.rows[n].side
  }

  lemma RowsKeepServing(s: Store, s': Store, b: MB.Broker, b': MB.Broker, owner: Purpose)
    requires RowsServe(s, b, owner) && SameOrders(b, b') && SameRows(s, s')
    requires forall n :: |s.rows| <= n < |s'.rows| ==> RowServes(s'.rows[n], b', owner)
    ensures RowsServe(s', b', owner)
  {
    forall n | 0 <= n < |s'.rows| ensures RowServes(s'.rows[n], b', owner) {
      if n < |s.rows| { assert RowServes(s.rows[n], b, owner); }
    }
  }

  /** A request for a key's purpose adds only an order for it. */
  lemma SubmitServes(b: MB.Broker, r: MB.OrderRequest, owner: Purpose)
    requires OrdersServe(b, owner) && ForPurpose(r, owner)
    ensures SameOrders(b, MB.Submit(b, r).0) && OrdersServe(MB.Submit(b, r).0, owner)
  {
    SubmitEnters(b, r);
    var b' := MB.Submit(b, r).0;
    assert b'.orders == b.orders || forall n :: 0 <= n < |b.orders| ==> b'.orders[n] == b'.orders[..|b.orders|][n] == b.orders[n];
  }

  lemma CancelServes(b: MB.Broker, oid: nat, owner: Purpose)
    requires OrdersServe(b, owner)
    ensures SameOrders(b, MB.Cancel(b, oid).0) && OrdersServe(MB.Cancel(b, oid).0, owner)
  {
    BR.CancelIs(b, oid);
  }

  lemma OutsideServes(b: MB.Broker, op: MB.Op, owner: Purpose)
    requires OrdersServe(b, owner) && ActAgrees(Outside(op), owner)
    ensures SameOrders(b, MB.Step(b, op)) && OrdersServe(MB.Step(b, op), owner)
  {
    match op
    case DoSubmit(r) => SubmitServes(b, r, owner);
    case DoCancel(oid) => CancelServes(b, oid, owner);
    case DoReplace(oid, r) =>
      CancelServes(b, oid, owner);
      SubmitServes(MB.Cancel(b, oid).0, r, owner);
    case DoClose(symbol, qty) =>
      if symbol in b.positions { SubmitServes(b, MB.CloseRequest(b, symbol, qty), owner); }
    case DoConfigure(_) =>
  }

  lemma CancelRowKeeps(d: Desk, id: nat, owner: Purpose)
    requires OrdersServe(d.broker, owner)
    ensures SameOrders(d.broker, CancelRow(d, id).broker) && OrdersServe(CancelRow(d, id).broker, owner)
    ensures SameRows(d.db, CancelRow(d, id).db) && |CancelRow(d, id).db.rows| == |d.db.rows|
  {
    if id < |d.db.rows| && d.db.rows[id].brokerId.Some? { CancelServes(d.broker, d.db.rows[id].brokerId.value, owner); }
  }

  lemma {:induction false} CancelRowsKeep(d: Desk, ids: seq<nat>, owner: Purpose)
    requires OrdersServe(d.broker, owner)
    ensures
      var d' := CancelRows(d, ids);
      && SameOrders(d.broker, d'.broker) && OrdersServe(d'.broker, owner)
      && SameRows(d.db, d'.db) && |d'.db.rows| == |d.db.rows|
    decreases |ids|
  {
    if ids != [] {
      CancelRowsKeep(d, ids[..|ids| - 1], owner);
      CancelRowKeeps(CancelRows(d, ids[..|ids| - 1]), ids[|ids| - 1], owner);
    }
  }

  lemma SettleKeeps(s: Store, at: nat, i: Intent, b: MB.Broker, o: MB.Outcome)
    requires at < |s.rows|
    ensures SameRows(s, Settle(s, at, i, b, o)) && |Settle(s, at, i, b, o).rows| == |s.rows|
  {
  }

  /** The line delivers the request or loses it. */
  lemma TransmitServes(b: MB.Broker, r: MB.OrderRequest, line: Line, owner: Purpose)
    requires OrdersServe(b, owner) && ForPurpose(r, owner)
    ensures SameOrders(b, Transmit(b, r, line).0) && OrdersServe(Transmit(b, r, line).0, owner)
  {
    SubmitServes(b, r, owner);
  }

  /** Rows keep their faces, and a row that is added serves its key's purpose. */
  ghost predicate AddsServing(s: Store, s': Store, b: MB.Broker, owner: Purpose) {
    SameRows(s, s') && forall n :: |s.rows| <= n < |s'.rows| ==> RowServes(s'.rows[n], b, owner)
  }

  lemma PlaceServes(s: Store, i: Intent, b: MB.Broker, owner: Purpose)
    requires SlotFor(s.rows, i).Slot? && SlotFor(s.rows, i).id <= |s.rows| && (i.symbol, i.side) == owner(i.key)
    ensures
      var id := SlotFor(s.rows, i).id;
      AddsServing(s, Place(s, id, SlotRow(s.rows, id, i)), b, owner) && id < |Place(s, id, SlotRow(s.rows, id, i)).rows|
  {
  }

  lemma SettleServes(s: Store, s1: Store, id: nat, i: Intent, b: MB.Broker, o: MB.Outcome, owner: Purpose)
    requires AddsServing(s, s1, b, owner) && id < |s1.rows|
    ensures AddsServing(s, Settle(s1, id, i, b, o), b, owner)
    ensures AddsServing(s, WithRow(s1, id, s1.rows[id].(status := RowRejected)), b, owner)
  {
    SettleKeeps(s1, id, i, b, o);
  }

  lemma SendKeeps(d: Desk, i: Intent, last: Option<real>, line: Line, owner: Purpose)
    requires OrdersServe(d.broker, owner) && (i.symbol, i.side) == owner(i.key)
    ensures
      var d' := SubmitNow(d, i, last, line);
      && SameOrders(d.broker, d'.broker) && OrdersServe(d'.broker, owner)
      && AddsServing(d.db, d'.db, d'.broker, owner)
  {
    var slot := SlotFor(d.db.rows, i);
    if slot.Slot? && slot.id <= |d.db.rows| {
      var s := Place(d.db, slot.id, SlotRow(d.db.rows, slot.id, i));
      var r := Request(i, Shape(i, last));
      TransmitServes(d.broker, r, line, owner);
      var (b, o) := Transmit(d.broker, r, line);
      PlaceServes(d.db, i, b, owner);
      PlaceServes(d.db, i, d.broker, owner);
      SettleServes(d.db, s, slot.id, i, b, o, owner);
      SettleServes(d.db, s, slot.id, i, d.broker, o, owner);
    }
  }

  lemma SubmissionServes(s: Session, a: Act, owner: Purpose)
    requires Serving(s, owner) && a.Submit? && Allowed(s.broker, a) && ActAgrees(a, owner)
    ensures Serving(Step(s, a), owner)
  {
    var d := Desk(s.db, s.broker);
    CancelRowsKeep(d, WorkingFor(d.db.rows, a.i.symbol, Some(a.i.side)), owner);
    var way := ClearTheWay(d, a.i, a.stale);
    if way.Proceed? {
      SendKeeps(way.d, a.i, a.last, a.line, owner);
      var d' := SubmitNow(way.d, a.i, a.last, a.line);
      RowsKeepServing(s.db, way.d.db, s.broker, way.d.broker, owner);
      RowsKeepServing(way.d.db, d'.db, way.d.broker, d'.broker, owner);
      RowsKeepServing(s.committed, s.committed, s.broker, way.d.broker, owner);
      RowsKeepServing(s.committed, s.committed, way.d.broker, d'.broker, owner);
    }
  }

  lemma {:induction false} SyncsKeep(s: Store, b: MB.Broker, ids: seq<nat>)
    ensures SameRows(s, SyncRows(s, b, ids)) && |SyncRows(s, b, ids).rows| == |s.rows|
    decreases |ids|
  {
    if ids != [] { SyncsKeep(s, b, ids[..|ids| - 1]); }
  }

  /** An adopted row is for the symbol and side of the order it adopts. */
  lemma {:induction false} AdoptionServes(rows: seq<OrderRow>, b: MB.Broker, visible: seq<nat>, known: set<nat>, owner: Purpose)
    requires Honest(b, visible)
    ensures
      var after := R.Adopt(rows, Snapshot(b, visible), known);
      rows <= after && forall n :: |rows| <= n < |after| ==> RowServes(after[n], b, owner)
    decreases |visible|
  {
    if visible != [] {
      var init := visible[..|visible| - 1];
      assert Snapshot(b, visible)[..|visible| - 1] == Snapshot(b, init);
      AdoptionServes(rows, b, init, known, owner);
    }
  }

  lemma ReconcileServes(s: Session, visible: Option<seq<nat>>, owner: Purpose)
    requires Serving(s, owner) && Allowed(s.broker, Reconcile(visible))
    ensures Serving(Step(s, Reconcile(visible)), owner)
  {
    if visible.Some? {
      AdoptionServes(s.db.rows, s.broker, visible.value, BrokerIds(s.db.rows), owner);
      var adopted := s.db.(rows := R.Adopt(s.db.rows, Snapshot(s.broker, visible.value), BrokerIds(s.db.rows)));
      RowsKeepServing(s.db, adopted, s.broker, s.broker, owner);
      RowsKeepServing(adopted, Step(s, Reconcile(visible)).db, s.broker, s.broker, owner);
    }
  }

  lemma StepServes(s: Session, a: Act, owner: Purpose)
    requires Serving(s, owner) && Allowed(s.broker, a) && ActAgrees(a, owner)
    ensures Serving(Step(s, a), owner)
  {
    match a
    case Submit(_, _, _, _) => SubmissionServes(s, a, owner);
    case CancelOne(id) =>
      CancelRowKeeps(Desk(s.db, s.broker), id, owner);
      RowsKeepServing(s.db, Step(s, a).db, s.broker, Step(s, a).broker, owner);
      RowsKeepServing(s.committed, s.committed, s.broker, Step(s, a).broker, owner);
    case SyncAll =>
      SyncsKeep(s.db, s.broker, WorkingRows(s.db.rows));
      RowsKeepServing(s.db, Step(s, a).db, s.broker, s.broker, owner);
    case Reconcile(visible) => ReconcileServes(s, visible, owner);
    case Outside(op) =>
      OutsideServes(s.broker, op, owner);
      RowsKeepServing(s.db, s.db, s.broker, Step(s, a).broker, owner);
      RowsKeepServing(s.committed, s.committed, s.broker, Step(s, a).broker, owner);
    case Moves(_, _, _, _) =>
      RowsKeepServing(s.db, s.db, s.broker, Step(s, a).broker, owner);
      RowsKeepServing(s.committed, s.committed, s.broker, Step(s, a).broker, owner);
    case _ =>
  }

  lemma {:induction false} RunServes(s: Session, acts: seq<Act>, owner: Purpose)
    requires Serving(s, owner) && Feasible(s, acts) && AllAgree(acts, owner)
    ensures Serving(Run(s, acts), owner)
    decreases acts
  {
    if acts != [] {
      StepServes(s, acts[0], owner);
      assert forall n :: 0 <= n < |acts[1..]| ==> acts[1..][n] == acts[n + 1];
      RunServes(Step(s, acts[0]), acts[1..], owner);
    }
  }

  /** The order a row names is for the row's symbol and side. */
  predicate NamesItsOwn(row: OrderRow, b: MB.Broker) {
    row.brokerId.Some? ==>
      && row.brokerId.value < |b.orders|
      && row.symbol == b.orders[row.brokerId.value].symbol && row.side == b.orders[row.brokerId.value].side
  }

  /** Over every run in which submissions under one key agree on symbol and side, every local row, sent,
      adopted or taken over, names a broker order for its own symbol and side. */
  lemma RowsNameTheirOwn(start: real, desk: MB.Desk, acts: seq<Act>, owner: Purpose)
    requires AllAgree(acts, owner)
    ensures
      var s0 := Session(EMPTY, EMPTY, MB.Fresh(start, desk));
      Feasible(s0, acts) ==>
        var s := Run(s0, acts);
        forall n :: 0 <= n < |s.db.rows| ==> NamesItsOwn(s.db.rows[n], s.broker)
  {
    var s0 := Session(EMPTY, EMPTY, MB.Fresh(start, desk));
    if Feasible(s0, acts) {
      RunKeepsSafe(s0, acts);
      RunServes(s0, acts, owner);
      var s := Run(s0, acts);
      forall n | 0 <= n < |s.db.rows| ensures NamesItsOwn(s.db.rows[n], s.broker) {
        assert RowLinked(s.db.rows[n], s.broker) && RowServes(s.db.rows[n], s.broker, owner);
      }
    }
  }

  /** Where they do not agree it fails: a dead row keeps its symbol and side when another intent takes
      it over, and then names an order for something else. */
  lemma ReusedRowCanNameAnother(d: Desk, i: Intent, n: nat)
    requires UniqueRows(d.db.rows) && n < |d.db.rows| && d.db.rows[n].key == ClientKey(i.key)
    requires Reusable(d.db.rows[n].status)
    requires d.db.rows[n].symbol != i.symbol || d.db.rows[n].side != i.side
    requires !i.marketableVenue && !(i.limit.None? && i.code in {Limit, StopLimit})
    requires BR.Accepts(d.broker, Asked(i, i.code, i.limit))
    ensures
      var d' := SubmitNow(d, i, None, Delivered);
      n < |d'.db.rows| && d'.db.rows[n].brokerId.Some? && !NamesItsOwn(d'.db.rows[n], d'.broker)
  {
    SlotIs(d.db.rows, i, n);
    BR.ConsideredIs(d.broker, Asked(i, i.code, i.limit));
    BR.TradeIs(d.broker, Asked(i, i.code, i.limit));
    assert Request(i, Shape(i, None)) == Asked(i, i.code, i.limit);
  }
}
