/** Which filled rows have an execution. The reply to a submission and the status sync record one;
    the lookup after a timeout and a cancel that meets a fill do not, and nothing makes up for it. */
module OrderExecutions {
  import opened BrokerModels
  import opened OrderTables
  import opened OrderManagers
  import opened OrderManagerSafety
  import MB = MockBrokers
  import L = Ledger
  import R = Reconciliations

  /** Every FILLED row has an execution; in a safe store it then has exactly one. */
  ghost predicate Booked(s: Store) {
    forall id :: 0 <= id < |s.rows| && s.rows[id].status.RowFilled? ==> HasExecution(s, id)
  }

  predicate FilledAt(b: MB.Broker, row: OrderRow) {
    row.brokerId.Some? && row.brokerId.value < |b.orders| && b.orders[row.brokerId.value].status.Filled?
  }

  /** The row and its broker order are FILLED and no execution was recorded. */
  ghost predicate Missed(s: Store, b: MB.Broker, id: nat) {
    id < |s.rows| && s.rows[id].status.RowFilled? && FilledAt(b, s.rows[id]) && !HasExecution(s, id)
  }

  ghost predicate SomeMissed(s: Store, b: MB.Broker) { exists id: nat :: Missed(s, b, id) }

  predicate NoRepeats(ids: seq<nat>) { forall x, y :: 0 <= x < y < |ids| ==> ids[x] != ids[y] }

  // ----- The quiet ways to become FILLED -----

  /** Cancelling the row would find it filled at the broker. */
  predicate QuietRow(d: Desk, id: nat) {
    id < |d.db.rows| && !d.db.rows[id].status.RowFilled? && FilledAt(d.broker, d.db.rows[id])
  }

  predicate FindsFill(b: MB.Broker, k: Key) {
    MB.Find(b.orders, k).Some? && b.orders[MB.Find(b.orders, k).value].status.Filled?
  }

  /** The call times out and the lookup by client id finds a filled order. */
  ghost predicate QuietSend(d: Desk, i: Intent, last: Option<real>, line: Line) {
    SlotFor(d.db.rows, i).Slot? && !MissingLimit(Shape(i, last)) &&
    var (b, o) := Transmit(d.broker, Request(i, Shape(i, last)), line);
    o.TimedOut? && FindsFill(b, ClientKey(i.key))
  }

  /** A flatten that cancels the working rows of its symbol and side meets one that has filled. */
  ghost predicate QuietPrelude(d: Desk, i: Intent, stale: set<nat>) {
    var working := WorkingFor(d.db.rows, i.symbol, Some(i.side));
    && IsExit(i) && !IsPartialExit(i) && IsFlatten(i) && working != []
    && !FreshOwnRow(d.db.rows, working, i, stale)
    && exists id :: id in working && QuietRow(d, id)
  }

  ghost predicate Quiet(s: Session, a: Act) {
    var d := Desk(s.db, s.broker);
    match a
    case Submit(i, stale, last, line) =>
      || QuietPrelude(d, i, stale)
      || (ClearTheWay(d, i, stale).Proceed? && QuietSend(ClearTheWay(d, i, stale).d, i, last, line))
    case CancelOne(id) => QuietRow(d, id)
    case _ => false
  }

  // ----- A missed execution stays missed -----

  ghost predicate SameExecutions(s: Store, s': Store, id: nat) { HasExecution(s', id) == HasExecution(s, id) }

  lemma AppendedExecution(s: Store, s': Store, e: Execution)
    requires s'.executions == s.executions + [e]
    ensures forall id: nat :: HasExecution(s', id) <==> HasExecution(s, id) || id == e.row
  {
    forall id: nat ensures HasExecution(s', id) <==> HasExecution(s, id) || id == e.row {
      if HasExecution(s, id) {
        var n :| 0 <= n < |s.executions| && s.executions[n].row == id;
        assert s'.executions[n].row == id;
      }
      if id == e.row { assert s'.executions[|s.executions|].row == id; }
    }
  }

  /** An edit of row `at` that may add an execution for it and for no other. */
  ghost predicate EditsOnly(s: Store, s': Store, at: nat) {
    && |s'.rows| == |s.rows|
    && (forall id :: 0 <= id < |s.rows| && id != at ==> s'.rows[id] == s.rows[id])
    && (forall id: nat :: id != at ==> SameExecutions(s, s', id))
    && (HasExecution(s, at) ==> HasExecution(s', at))
  }

  lemma EditBooks(s: Store, s': Store, at: nat)
    requires Booked(s) && EditsOnly(s, s', at)
    requires at < |s'.rows| && s'.rows[at].status.RowFilled? ==> HasExecution(s', at)
    ensures Booked(s')
  {
    forall id | 0 <= id < |s'.rows| && s'.rows[id].status.RowFilled? ensures HasExecution(s', id) {
      if id != at { assert SameExecutions(s, s', id); }
    }
  }

  lemma EditMisses(s: Store, s': Store, b: MB.Broker, b': MB.Broker, at: nat, id: nat)
    requires Missed(s, b, id) && EditsOnly(s, s', at) && Forward(b, b') && id != at
    ensures Missed(s', b', id)
  {
    assert SameExecutions(s, s', id);
  }

  lemma SameMisses(s: Store, s': Store, b: MB.Broker, b': MB.Broker, id: nat)
    requires Missed(s, b, id) && Forward(b, b')
    requires s'.executions == s.executions && id < |s'.rows| && s'.rows[id] == s.rows[id]
    ensures Missed(s', b', id)
  {
    assert HasExecution(s', id) == HasExecution(s, id);
  }

  lemma SameBooks(s: Store, s': Store)
    requires Booked(s) && s'.executions == s.executions
    requires forall id :: 0 <= id < |s'.rows| && s'.rows[id].status.RowFilled? ==> id < |s.rows| && s.rows[id].status.RowFilled?
    ensures Booked(s')
  {
    forall id | 0 <= id < |s'.rows| && s'.rows[id].status.RowFilled? ensures HasExecution(s', id) {
      assert HasExecution(s, id);
    }
  }

  // ----- Cancel -----

  lemma CancelEdits(d: Desk, at: nat)
    ensures EditsOnly(d.db, CancelRow(d, at).db, at)
    ensures CancelRow(d, at).db.executions == d.db.executions
  {
    var s' := CancelRow(d, at).db;
    forall id: nat ensures SameExecutions(d.db, s', id) {}
  }

  lemma CancelBooks(d: Desk, id: nat)
    requires Booked(d.db) && Safe(d.db, d.broker)
    ensures QuietRow(d, id) ==> Missed(CancelRow(d, id).db, CancelRow(d, id).broker, id)
    ensures !QuietRow(d, id) ==> Booked(CancelRow(d, id).db)
  {
    CancelEdits(d, id);
    var d' := CancelRow(d, id);
    if QuietRow(d, id) {
      UnfilledHasNoExecution(d.db, d.broker, id);
      assert SameExecutions(d.db, d'.db, id);
    } else {
      if id < |d.db.rows| {
        assert RowLinked(d.db.rows[id], d.broker);
        if d'.db.rows[id].status.RowFilled? { assert HasExecution(d.db, id); }
      }
      EditBooks(d.db, d'.db, id);
    }
  }

  lemma CancelMisses(d: Desk, at: nat, id: nat)
    requires Missed(d.db, d.broker, id)
    ensures Missed(CancelRow(d, at).db, CancelRow(d, at).broker, id)
  {
    CancelEdits(d, at);
    var d' := CancelRow(d, at);
    if at == id {
      assert d'.db.rows[id] == d.db.rows[id];
      SameMisses(d.db, d'.db, d.broker, d'.broker, id);
    } else {
      EditMisses(d.db, d'.db, d.broker, d'.broker, at, id);
    }
  }

  /** A cancel of another row changes neither a row's status nor whether its order is filled. */
  lemma CancelKeepsQuiet(d: Desk, at: nat, id: nat)
    requires at != id
    ensures QuietRow(CancelRow(d, at), id) == QuietRow(d, id)
  {
  }

  lemma {:induction false} CancelsBook(d: Desk, ids: seq<nat>)
    requires Booked(d.db) && Safe(d.db, d.broker) && BrokerOk(d.broker)
    requires NoRepeats(ids)
    ensures
      var d' := CancelRows(d, ids);
      && ((forall id :: id in ids ==> !QuietRow(d, id)) ==> Booked(d'.db))
      && ((exists id :: id in ids && QuietRow(d, id)) ==> SomeMissed(d'.db, d'.broker))
      && (forall id: nat :: id !in ids ==> QuietRow(d', id) == QuietRow(d, id))
    decreases |ids|
  {
    if ids != [] {
      var init, last := ids[..|ids| - 1], ids[|ids| - 1];
      assert ids == init + [last] && last !in init;
      CancelsBook(d, init);
      CancelsKeepSafe(d, init);
      var d1 := CancelRows(d, init);
      assert QuietRow(d1, last) == QuietRow(d, last);
      if SomeMissed(d1.db, d1.broker) {
        var id: nat :| Missed(d1.db, d1.broker, id);
        CancelMisses(d1, last, id);
        assert Missed(CancelRow(d1, last).db, CancelRow(d1, last).broker, id);
      } else {
        assert forall id :: id in init ==> !QuietRow(d, id);
        CancelBooks(d1, last);
      }
      forall id: nat | id !in ids ensures QuietRow(CancelRow(d1, last), id) == QuietRow(d, id) {
        CancelKeepsQuiet(d1, last, id);
      }
    }
  }

  lemma {:induction false} CancelsMiss(d: Desk, ids: seq<nat>, id: nat)
    requires Missed(d.db, d.broker, id)
    ensures Missed(CancelRows(d, ids).db, CancelRows(d, ids).broker, id)
    decreases |ids|
  {
    if ids != [] {
      CancelsMiss(d, ids[..|ids| - 1], id);
      CancelMisses(CancelRows(d, ids[..|ids| - 1]), ids[|ids| - 1], id);
    }
  }

  lemma {:induction false} WorkingForIsDistinct(rows: seq<OrderRow>, symbol: string, side: Option<Side>)
    ensures NoRepeats(WorkingFor(rows, symbol, side))
    decreases |rows|
  {
    if rows != [] {
      WorkingForIsDistinct(rows[..|rows| - 1], symbol, side);
      var before := WorkingFor(rows[..|rows| - 1], symbol, side);
      forall x | 0 <= x < |before| ensures before[x] < |rows| - 1 { assert before[x] in before; }
    }
  }

  // ----- Submit -----

  lemma SettleEdits(s: Store, at: nat, i: Intent, b: MB.Broker, o: MB.Outcome)
    requires at < |s.rows|
    ensures EditsOnly(s, Settle(s, at, i, b, o), at)
  {
    var s' := Settle(s, at, i, b, o);
    if s'.executions != s.executions {
      AppendedExecution(s, s', s'.executions[|s.executions|]);
    } else {
      forall id: nat ensures SameExecutions(s, s', id) {}
    }
  }

  /** Settling a pending row leaves it FILLED without an execution exactly on a timeout whose lookup
      finds a fill. */
  lemma SettleBooks(s: Store, at: nat, i: Intent, b: MB.Broker, o: MB.Outcome)
    requires Booked(s) && FillsReal(b) && Ready(s, at, i) && !s.rows[at].status.RowFilled?
    requires o.Done? ==> o.oid < |b.orders|
    ensures o.TimedOut? && FindsFill(b, ClientKey(i.key)) ==> Missed(Settle(s, at, i, b, o), b, at)
    ensures !(o.TimedOut? && FindsFill(b, ClientKey(i.key))) ==> Booked(Settle(s, at, i, b, o))
  {
    SettleEdits(s, at, i, b, o);
    var s' := Settle(s, at, i, b, o);
    if o.TimedOut? && FindsFill(b, ClientKey(i.key)) {
      assert s'.executions == s.executions;
      assert HasExecution(s', at) == HasExecution(s, at);
    } else {
      if s'.rows[at].status.RowFilled? {
        AppendedExecution(s, s', s'.executions[|s.executions|]);
      }
      EditBooks(s, s', at);
    }
  }

  lemma PlaceBooks(s: Store, b: MB.Broker, i: Intent)
    requires Booked(s) && Safe(s, b) && SlotFor(s.rows, i).Slot?
    ensures
      var id := SlotFor(s.rows, i).id;
      id <= |s.rows| && Booked(Place(s, id, SlotRow(s.rows, id, i)))
  {
    var id := SlotFor(s.rows, i).id;
    SameBooks(s, Place(s, id, SlotRow(s.rows, id, i)));
  }

  lemma PlaceMisses(s: Store, b: MB.Broker, i: Intent, id: nat)
    requires Missed(s, b, id) && SlotFor(s.rows, i).Slot?
    ensures
      var at := SlotFor(s.rows, i).id;
      at <= |s.rows| && at != id && Missed(Place(s, at, SlotRow(s.rows, at, i)), b, id)
  {
    var at := SlotFor(s.rows, i).id;
    SameMisses(s, Place(s, at, SlotRow(s.rows, at, i)), b, b, id);
  }

  lemma SubmitNowBooks(d: Desk, i: Intent, last: Option<real>, line: Line)
    requires Booked(d.db) && Safe(d.db, d.broker) && BrokerOk(d.broker) && i.qty > 0.0
    ensures
      var d' := SubmitNow(d, i, last, line);
      && (QuietSend(d, i, last, line) ==> SomeMissed(d'.db, d'.broker))
      && (!QuietSend(d, i, last, line) ==> Booked(d'.db))
  {
    var slot := SlotFor(d.db.rows, i);
    if slot.Slot? {
      PlaceBooks(d.db, d.broker, i);
      PlaceKeepsSafe(d.db, d.broker, i);
      var s := Place(d.db, slot.id, SlotRow(d.db.rows, slot.id, i));
      var t := Shape(i, last);
      if MissingLimit(t) {
        SameBooks(s, WithRow(s, slot.id, s.rows[slot.id].(status := RowRejected)));
      } else {
        var r := Request(i, t);
        TransmitMovesForward(d.broker, r, line);
        SubmitNames(d.broker, r);
        var (b, o) := Transmit(d.broker, r, line);
        SettleBooks(s, slot.id, i, b, o);
        if QuietSend(d, i, last, line) { assert Missed(Settle(s, slot.id, i, b, o), b, slot.id); }
      }
    }
  }

  lemma SubmitNowMisses(d: Desk, i: Intent, last: Option<real>, line: Line, id: nat)
    requires Missed(d.db, d.broker, id) && BrokerOk(d.broker) && i.qty > 0.0
    ensures
      var d' := SubmitNow(d, i, last, line);
      Missed(d'.db, d'.broker, id)
  {
    var slot := SlotFor(d.db.rows, i);
    if slot.Slot? {
      PlaceMisses(d.db, d.broker, i, id);
      var s := Place(d.db, slot.id, SlotRow(d.db.rows, slot.id, i));
      var t := Shape(i, last);
      if MissingLimit(t) {
        SameMisses(s, WithRow(s, slot.id, s.rows[slot.id].(status := RowRejected)), d.broker, d.broker, id);
      } else {
        TransmitMovesForward(d.broker, Request(i, t), line);
        var (b, o) := Transmit(d.broker, Request(i, t), line);
        SettleEdits(s, slot.id, i, b, o);
        EditMisses(s, Settle(s, slot.id, i, b, o), d.broker, b, slot.id, id);
      }
    }
  }

  /** After the exit prelude: something was missed exactly when the prelude was quiet. */
  lemma PreludeBooks(d: Desk, i: Intent, stale: set<nat>)
    requires Booked(d.db) && Safe(d.db, d.broker) && BrokerOk(d.broker)
    ensures
      var way := ClearTheWay(d, i, stale);
      && (QuietPrelude(d, i, stale) ==> way.Proceed? && SomeMissed(way.d.db, way.d.broker))
      && (way.Proceed? ==> Safe(way.d.db, way.d.broker) && BrokerOk(way.d.broker))
      && (way.Proceed? && !QuietPrelude(d, i, stale) ==> Booked(way.d.db))
  {
    var working := WorkingFor(d.db.rows, i.symbol, Some(i.side));
    WorkingForIsDistinct(d.db.rows, i.symbol, Some(i.side));
    CancelsBook(d, working);
    CancelsKeepSafe(d, working);
  }

  lemma SubmitBooks(s: Session, a: Act)
    requires SessionSafe(s) && Booked(s.db) && a.Submit? && Allowed(s.broker, a)
    ensures Quiet(s, a) ==> SomeMissed(Step(s, a).db, Step(s, a).broker)
    ensures !Quiet(s, a) ==> Booked(Step(s, a).db)
  {
    var d := Desk(s.db, s.broker);
    PreludeBooks(d, a.i, a.stale);
    var way := ClearTheWay(d, a.i, a.stale);
    if way.Proceed? {
      if QuietPrelude(d, a.i, a.stale) {
        var id: nat :| Missed(way.d.db, way.d.broker, id);
        SubmitNowMisses(way.d, a.i, a.last, a.line, id);
        assert Missed(Step(s, a).db, Step(s, a).broker, id);
      } else {
        SubmitNowBooks(way.d, a.i, a.last, a.line);
      }
    }
  }

  // ----- Sync and reconcile -----

  lemma SyncRowEdits(s: Store, b: MB.Broker, at: nat)
    ensures EditsOnly(s, SyncRow(s, b, at), at)
  {
    var s' := SyncRow(s, b, at);
    if s'.executions != s.executions {
      AppendedExecution(s, s', s'.executions[|s.executions|]);
    } else {
      forall id: nat ensures SameExecutions(s, s', id) {}
    }
  }

  lemma SyncRowBooks(s: Store, b: MB.Broker, at: nat)
    requires Booked(s) && FillsReal(b)
    ensures Booked(SyncRow(s, b, at))
  {
    SyncRowEdits(s, b, at);
    var s' := SyncRow(s, b, at);
    if s' != s && s'.rows[at].status.RowFilled? {
      AppendedExecution(s, s', s'.executions[|s.executions|]);
    }
    EditBooks(s, s', at);
  }

  lemma SyncRowMisses(s: Store, b: MB.Broker, at: nat, id: nat)
    requires Missed(s, b, id)
    ensures Missed(SyncRow(s, b, at), b, id)
  {
    if at != id {
      SyncRowEdits(s, b, at);
      EditMisses(s, SyncRow(s, b, at), b, b, at, id);
    }
  }

  lemma {:induction false} SyncsBook(s: Store, b: MB.Broker, ids: seq<nat>)
    requires FillsReal(b)
    ensures Booked(s) ==> Booked(SyncRows(s, b, ids))
    ensures forall id :: Missed(s, b, id) ==> Missed(SyncRows(s, b, ids), b, id)
    decreases |ids|
  {
    if ids != [] {
      var init, last := ids[..|ids| - 1], ids[|ids| - 1];
      SyncsBook(s, b, init);
      var s1 := SyncRows(s, b, init);
      if Booked(s) { SyncRowBooks(s1, b, last); }
      forall id | Missed(s, b, id) ensures Missed(SyncRow(s1, b, last), b, id) { SyncRowMisses(s1, b, last, id); }
    }
  }

  lemma {:induction false} AdoptedAreOpen(b: MB.Broker, visible: seq<nat>, rows: seq<OrderRow>, known: set<nat>)
    requires Honest(b, visible)
    ensures
      var after := R.Adopt(rows, Snapshot(b, visible), known);
      rows <= after && forall i :: |rows| <= i < |after| ==> !after[i].status.RowFilled?
    decreases |visible|
  {
    if visible != [] {
      var init := visible[..|visible| - 1];
      assert Snapshot(b, visible)[..|visible| - 1] == Snapshot(b, init);
      AdoptedAreOpen(b, init, rows, known);
      assert OpenOrder(b.orders[visible[|visible| - 1]]);
    }
  }

  lemma ReconcileRows(s: Session, visible: Option<seq<nat>>)
    requires Allowed(s.broker, Reconcile(visible))
    ensures
      var s' := Step(s, Reconcile(visible)).db;
      && s'.executions == s.db.executions && |s.db.rows| <= |s'.rows|
      && (forall i :: 0 <= i < |s.db.rows| && s.db.rows[i].status.RowFilled? ==> s'.rows[i] == s.db.rows[i])
      && (forall i :: 0 <= i < |s'.rows| && s'.rows[i].status.RowFilled? ==>
            i < |s.db.rows| && s.db.rows[i].status.RowFilled?)
  {
    if visible.Some? {
      AdoptedAreOpen(s.broker, visible.value, s.db.rows, BrokerIds(s.db.rows));
    }
  }

  // ----- Steps and runs -----

  lemma StepBooks(s: Session, a: Act)
    requires SessionSafe(s) && Booked(s.db) && Allowed(s.broker, a) && a != Rollback
    ensures Quiet(s, a) ==> SomeMissed(Step(s, a).db, Step(s, a).broker)
    ensures !Quiet(s, a) ==> Booked(Step(s, a).db)
  {
    match a
    case Submit(_, _, _, _) => SubmitBooks(s, a);
    case CancelOne(id) =>
      CancelBooks(Desk(s.db, s.broker), id);
      if Quiet(s, a) { assert Missed(Step(s, a).db, Step(s, a).broker, id); }
    case SyncAll => SyncsBook(s.db, s.broker, WorkingRows(s.db.rows));
    case Reconcile(visible) => ReconcileRows(s, visible); SameBooks(s.db, Step(s, a).db);
    case _ =>
  }

  lemma StepMisses(s: Session, a: Act, id: nat)
    requires SessionSafe(s) && Missed(s.db, s.broker, id) && Allowed(s.broker, a) && a != Rollback
    ensures Missed(Step(s, a).db, Step(s, a).broker, id)
  {
    var d := Desk(s.db, s.broker);
    match a
    case Submit(i, stale, last, line) =>
      CancelsMiss(d, WorkingFor(d.db.rows, i.symbol, Some(i.side)), id);
      CancelsKeepSafe(d, WorkingFor(d.db.rows, i.symbol, Some(i.side)));
      var way := ClearTheWay(d, i, stale);
      if way.Proceed? { SubmitNowMisses(way.d, i, last, line, id); }
    case CancelOne(at) => CancelMisses(d, at, id);
    case SyncAll => SyncsBook(s.db, s.broker, WorkingRows(s.db.rows));
    case Reconcile(visible) =>
      ReconcileRows(s, visible);
      SameMisses(s.db, Step(s, a).db, s.broker, s.broker, id);
    case Outside(op) =>
      OutsideMovesForward(s.broker, op);
      SameMisses(s.db, s.db, s.broker, Step(s, a).broker, id);
    case Moves(oid, status, qty, price) =>
      MovesForward(s.broker, oid, status, qty, price);
      SameMisses(s.db, s.db, s.broker, Step(s, a).broker, id);
    case _ =>
  }

  predicate NoRollback(acts: seq<Act>) { forall n :: 0 <= n < |acts| ==> acts[n] != Rollback }

  ghost predicate NeverQuiet(s: Session, acts: seq<Act>)
    requires Feasible(s, acts)
    decreases acts
  {
    acts == [] || (!Quiet(s, acts[0]) && NeverQuiet(Step(s, acts[0]), acts[1..]))
  }

  /** An execution missed once is missed for good: no later submit, cancel, sync or reconcile
      records it. */
  lemma {:induction false} MissedForGood(s: Session, acts: seq<Act>, id: nat)
    requires SessionSafe(s) && Feasible(s, acts) && NoRollback(acts) && Missed(s.db, s.broker, id)
    ensures Missed(Run(s, acts).db, Run(s, acts).broker, id)
    decreases acts
  {
    if acts != [] {
      StepMisses(s, acts[0], id);
      StepKeepsSafe(s, acts[0]);
      assert forall n :: 0 <= n < |acts[1..]| ==> acts[1..][n] == acts[n + 1];
      MissedForGood(Step(s, acts[0]), acts[1..], id);
    }
  }

  /** After every run without rollbacks each FILLED row has an execution if and only if no step of
      the run turned a row FILLED quietly: through the lookup after a timeout, or through a cancel
      that found the order filled. */
  lemma {:induction false} FilledRowsAreBookedIff(s: Session, acts: seq<Act>)
    requires SessionSafe(s) && Feasible(s, acts) && NoRollback(acts) && Booked(s.db)
    ensures Booked(Run(s, acts).db) <==> NeverQuiet(s, acts)
    decreases acts
  {
    if acts != [] {
      StepBooks(s, acts[0]);
      StepKeepsSafe(s, acts[0]);
      assert forall n :: 0 <= n < |acts[1..]| ==> acts[1..][n] == acts[n + 1];
      if Quiet(s, acts[0]) {
        var id: nat :| Missed(Step(s, acts[0]).db, Step(s, acts[0]).broker, id);
        MissedForGood(Step(s, acts[0]), acts[1..], id);
      } else {
        FilledRowsAreBookedIff(Step(s, acts[0]), acts[1..]);
      }
    }
  }

  ghost predicate ExactlyOneExecution(s: Store, id: nat) {
    exists n :: 0 <= n < |s.executions| && s.executions[n].row == id &&
      forall m :: 0 <= m < |s.executions| && s.executions[m].row == id ==> m == n
  }

  /** From an empty book: without a quiet fill, the FILLED rows are exactly the rows with exactly one
      execution. */
  lemma BookedTheorem(start: real, desk: MB.Desk, acts: seq<Act>)
    requires Feasible(Session(EMPTY, EMPTY, MB.Fresh(start, desk)), acts) && NoRollback(acts)
    ensures
      var s0 := Session(EMPTY, EMPTY, MB.Fresh(start, desk));
      var s := Run(s0, acts).db;
      NeverQuiet(s0, acts) <==>
        forall id :: 0 <= id < |s.rows| ==> (s.rows[id].status.RowFilled? <==> ExactlyOneExecution(s, id))
  {
    var s0 := Session(EMPTY, EMPTY, MB.Fresh(start, desk));
    RunKeepsSafe(s0, acts);
    FilledRowsAreBookedIff(s0, acts);
    var end := Run(s0, acts);
    forall id | 0 <= id < |end.db.rows|
      ensures ExactlyOneExecution(end.db, id) <==> HasExecution(end.db, id)
      ensures HasExecution(end.db, id) ==> end.db.rows[id].status.RowFilled?
    {
      OneExecutionAtMost(end.db, end.broker, id);
    }
  }

  lemma OneExecutionAtMost(s: Store, b: MB.Broker, id: nat)
    requires Safe(s, b)
    ensures ExactlyOneExecution(s, id) <==> HasExecution(s, id)
    ensures HasExecution(s, id) && id < |s.rows| ==> s.rows[id].status.RowFilled?
  {
    if HasExecution(s, id) {
      var n :| 0 <= n < |s.executions| && s.executions[n].row == id;
      assert Agrees(s.executions[n], s.rows, b);
    }
  }

  // ----- Runs that take each way -----

  const BUY_NOW := Intent("", "", "SPY", Buy, 1.0, Market, None, None, false)
  const BUY_STOP := Intent("", "", "SPY", Buy, 1.0, Stop, None, Some(200.0), false)
  const KEY := ClientKey("")

  function Opened(): Session { Session(EMPTY, EMPTY, MB.Fresh(1000.0, L.PlainDesk(None))) }

  lemma RunOne(s: Session, a: Act)
    requires Allowed(s.broker, a)
    ensures Feasible(s, [a]) && Run(s, [a]) == Step(s, a)
  {
    assert [a][1..] == [];
  }

  lemma RunThree(s: Session, a: Act, b: Act, c: Act)
    requires Allowed(s.broker, a) && Allowed(Step(s, a).broker, b) && Allowed(Step(Step(s, a), b).broker, c)
    ensures Feasible(s, [a, b, c]) && Run(s, [a, b, c]) == Step(Step(Step(s, a), b), c)
  {
    assert [a, b, c][1..] == [b, c] && [b, c][1..] == [c];
    RunOne(Step(Step(s, a), b), c);
  }

  lemma NoExit(i: Intent)
    requires i.key == "" && i.thesis == ""
    ensures !IsExit(i)
  {
  }

  lemma BuyFills()
    ensures
      var (b, o) := MB.Submit(Opened().broker, Request(BUY_NOW, Shape(BUY_NOW, None)));
      && o == MB.Done(0) && |b.orders| == 1
      && b.orders[0].key == Some(KEY) && b.orders[0].status.Filled?
  {
    var b, r := Opened().broker, Request(BUY_NOW, Shape(BUY_NOW, None));
    assert MB.FillPrice(b.desk, r) == 100.01 && MB.Refusal(b, r).None?;
    L.TradeEffect(b, r);
  }

  /** The reply to a market buy is lost after the broker filled it: the lookup finds the fill, the
      row ends FILLED, and no execution is ever recorded. */
  lemma LostReplyMissesExecution()
    ensures
      var acts := [Submit(BUY_NOW, {}, None, LostAfter)];
      Feasible(Opened(), acts) && Missed(Run(Opened(), acts).db, Run(Opened(), acts).broker, 0)
  {
    NoExit(BUY_NOW);
    BuyFills();
    RunOne(Opened(), Submit(BUY_NOW, {}, None, LostAfter));
    var s' := Step(Opened(), Submit(BUY_NOW, {}, None, LostAfter));
    assert s'.broker == MB.Submit(Opened().broker, Request(BUY_NOW, Shape(BUY_NOW, None))).0;
    assert MB.Find(s'.broker.orders, KEY) == Some(0);
    assert s'.db.executions == [];
  }

  /** A resting stop, accepted with the reply delivered. */
  function Rested(): Session {
    var o := MB.Resting(Request(BUY_STOP, Shape(BUY_STOP, None)));
    Session(Store([PendingRow(BUY_STOP).(status := RowAccepted, brokerId := Some(0))], [], []), EMPTY,
            Opened().broker.(orders := [o]))
  }

  lemma StopRests()
    ensures Step(Opened(), Submit(BUY_STOP, {}, None, Delivered)) == Rested()
  {
    NoExit(BUY_STOP);
    var r := Request(BUY_STOP, Shape(BUY_STOP, None));
    assert MB.Rests(Opened().broker.desk, r);
    assert [] + [MB.Resting(r)] == [MB.Resting(r)];
    assert MB.Submit(Opened().broker, r) == (Rested().broker, MB.Done(0));
    assert Place(EMPTY, 0, PendingRow(BUY_STOP)).rows == [PendingRow(BUY_STOP)];
  }

  const FILL := Moves(0, Filled, 1.0, Some(200.0))

  /** The stop fills at the broker and is cancelled before the next sync: the cancel finds it filled,
      and no execution is ever recorded. */
  lemma CancelAfterFillMissesExecution()
    ensures
      var acts := [Submit(BUY_STOP, {}, None, Delivered), FILL, CancelOne(0)];
      Feasible(Opened(), acts) && Missed(Run(Opened(), acts).db, Run(Opened(), acts).broker, 0)
  {
    StopRests();
    CancelOfFilled();
    RunThree(Opened(), Submit(BUY_STOP, {}, None, Delivered), FILL, CancelOne(0));
  }

  lemma CancelOfFilled()
    ensures
      var s := Step(Step(Rested(), FILL), CancelOne(0));
      Missed(s.db, s.broker, 0)
  {
    assert Step(Step(Rested(), FILL), CancelOne(0)).db.executions == [];
  }

  lemma OneWorkingRow(rows: seq<OrderRow>)
    requires |rows| == 1 && Working(rows[0].status)
    ensures WorkingRows(rows) == [0]
  {
    assert WorkingRows(rows[..0]) == [];
  }

  lemma SyncRowsOfOne(s: Store, b: MB.Broker)
    ensures SyncRows(s, b, [0]) == SyncRow(s, b, 0)
  {
    assert [0][..0] == [];
    assert SyncRows(s, b, []) == s;
  }

  lemma StepSyncs(s: Session)
    ensures Step(s, SyncAll).db == SyncRows(s.db, s.broker, WorkingRows(s.db.rows))
  {
  }

  /** A sync records the fill of the only row of a table, if it is working and its order filled. */
  lemma SyncOfOne(s: Session)
    requires |s.db.rows| == 1 && Working(s.db.rows[0].status) && FilledAt(s.broker, s.db.rows[0])
    requires s.broker.orders[s.db.rows[0].brokerId.value].avgFillPrice.Some?
    ensures
      var row := s.db.rows[0];
      var o := s.broker.orders[row.brokerId.value];
      Step(s, SyncAll).db.executions ==
      s.db.executions + [Execution(0, Or(Some(o.filledQty), row.qty), o.avgFillPrice.value)]
  {
    StepSyncs(s);
    OneWorkingRow(s.db.rows);
    SyncRowsOfOne(s.db, s.broker);
  }

  /** The stop that rested has filled; the table has not seen it. */
  lemma StopFills()
    ensures
      var s := Step(Rested(), FILL);
      && s.db == Rested().db && |s.broker.orders| == 1
      && s.broker.orders[0].status.Filled? && s.broker.orders[0].filledQty == 1.0
      && s.broker.orders[0].avgFillPrice == Some(200.0)
  {
  }

  /** The same fill found by the sync is recorded. */
  lemma SyncAfterFillRecordsExecution()
    ensures
      var acts := [Submit(BUY_STOP, {}, None, Delivered), FILL, SyncAll];
      Feasible(Opened(), acts) && Run(Opened(), acts).db.executions == [Execution(0, 1.0, 200.0)]
  {
    StopRests();
    StopFills();
    SyncOfOne(Step(Rested(), FILL));
    RunThree(Opened(), Submit(BUY_STOP, {}, None, Delivered), FILL, SyncAll);
  }
}
