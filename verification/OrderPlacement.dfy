/** What a submission puts at the broker and into the order table, on the intent's own fields
    (app/execution/order_manager.py). */
module OrderPlacement {
  import opened BrokerModels
  import opened Rounding
  import opened OrderTables
  import opened RowStatuses
  import opened OrderManagers
  import opened OrderManagerSafety
  import MB = MockBrokers
  import L = Ledger
  import BR = BrokerRules
  import VO = VenueOrders
  import R = Reconciliations

  // ----- The order -----

  /** The order is for what the intent asks, under the intent's key. */
  predicate ForIntent(o: MB.BrokerOrder, i: Intent) {
    o.symbol == i.symbol && o.side == i.side && o.qty == i.qty && o.key == Some(ClientKey(i.key))
  }

  /** Code and limit are the intent's own, or on a marketable venue a limit order at the more aggressive
      of a sane own limit and the price through the last print. */
  ghost predicate OwnOrShaped(i: Intent, last: Option<real>, code: OrderCode, limit: Option<real>) {
    || (code == i.code && limit == i.limit)
    || (i.marketableVenue && last.Some? && last.value != 0.0 && !VO.RestingStop(i.code) &&
        exists flatten, price ::
          && VO.Aggressive(i.side, last.value, flatten) == Some(price)
          && code == Limit && limit.Some? && VO.Best(i.side, limit.value, Candidates(i, price)))
  }

  /** The intent's own limit, where it is a sane one of a limit order, and the shaped price. */
  function Candidates(i: Intent, price: real): seq<real> {
    if (i.code == Limit || i.code == Lmt) && i.limit.Some? && 0.0 < i.limit.value < 1000000.0 then [i.limit.value, price]
    else [price]
  }

  function Asked(i: Intent, code: OrderCode, limit: Option<real>): MB.OrderRequest {
    MB.OrderRequest(i.symbol, i.side, i.qty, code, limit, i.stop, Some(ClientKey(i.key)))
  }

  /** At most one order is added, it is for the intent, and it traded or rests as asked. */
  ghost predicate Places(b: MB.Broker, b': MB.Broker, i: Intent, last: Option<real>) {
    || |b'.orders| == |b.orders|
    || (|b'.orders| == |b.orders| + 1 && ForIntent(b'.orders[|b.orders|], i)
        && PlacedAs(b, b', i, last, b'.orders[|b.orders|]))
  }

  /** A traded order moves cash and the holding by its fill at one basis point off the limit it was
      given (or the quote); a resting one moves nothing. */
  ghost predicate PlacedAs(b: MB.Broker, b': MB.Broker, i: Intent, last: Option<real>, o: MB.BrokerOrder) {
    exists limit :: OwnOrShaped(i, last, o.code, limit) && EntersBook(b, b', Asked(i, o.code, limit), o)
  }

  ghost predicate EntersBook(b: MB.Broker, b': MB.Broker, r: MB.OrderRequest, o: MB.BrokerOrder) {
    if o.avgFillPrice.Some? then BR.RecordsTrade(b.desk, r, o) && BR.MovesBook(b, b', o, BR.TradePrice(b.desk, r))
    else o == BR.RestingOrder(r) && b'.cash == b.cash && b'.positions == b.positions
  }

  lemma ShapeIsOwnOrShaped(i: Intent, last: Option<real>)
    ensures OwnOrShaped(i, last, Shape(i, last).code, Shape(i, last).limit)
  {
    var t := VO.Ticket(i.code, i.limit);
    if Shape(i, last) != t {
      var want := VO.Aggressive(i.side, last.value, IsFlatten(i));
      var target := VO.Target(i.side, VO.Tape(last, None, None), IsFlatten(i));
      assert target == want && want.Some?;
      var lean := VO.Lean(i.side, t, want.value);
      assert Shape(i, last) == VO.Ticket(Limit, Some(lean));
      assert lean in Candidates(i, want.value);
      assert VO.Best(i.side, lean, Candidates(i, want.value));
    }
  }

  lemma SubmitEnters(b: MB.Broker, r: MB.OrderRequest)
    ensures
      var b' := MB.Submit(b, r).0;
      || b'.orders == b.orders
      || (|b'.orders| == |b.orders| + 1 && b'.orders[..|b.orders|] == b.orders &&
          EntersBook(b, b', r, b'.orders[|b.orders|]))
  {
    if BR.Considers(b, r) {
      BR.ConsideredIs(b, r);
      if BR.Accepts(b, r) { BR.TradeIs(b, r); }
    } else {
      BR.UnconsideredIs(b, r);
    }
  }

  lemma SendPlaces(d: Desk, i: Intent, last: Option<real>, line: Line)
    ensures Places(d.broker, SubmitNow(d, i, last, line).broker, i, last)
    ensures SubmitNow(d, i, last, line).broker.orders[..|d.broker.orders|] == d.broker.orders
  {
    var t := Shape(i, last);
    var r := Request(i, t);
    SubmitEnters(d.broker, r);
    ShapeIsOwnOrShaped(i, last);
    var b, b' := d.broker, SubmitNow(d, i, last, line).broker;
    assert b'.orders == b.orders || b' == MB.Submit(b, r).0;
    if b'.orders != b.orders {
      var o := b'.orders[|b.orders|];
      assert EntersBook(b, b', Asked(i, t.code, t.limit), o);
      assert o.code == t.code;
      assert OwnOrShaped(i, last, o.code, t.limit);
    } else {
      assert b.orders[..|b.orders|] == b.orders;
    }
  }

  /** Cancelling rows at the broker ends orders and leaves the rest of the book alone. */
  ghost predicate OnlyEnds(b: MB.Broker, b': MB.Broker) {
    && b' == b.(orders := b'.orders) && |b'.orders| == |b.orders|
    && forall n :: 0 <= n < |b.orders| ==>
         b'.orders[n] == b.orders[n] || b'.orders[n] == b.orders[n].(status := Canceled)
  }

  lemma CancelOnlyEnds(d: Desk, id: nat)
    ensures OnlyEnds(d.broker, CancelRow(d, id).broker)
  {
  }

  lemma EndsTrans(a: MB.Broker, b: MB.Broker, c: MB.Broker)
    requires OnlyEnds(a, b) && OnlyEnds(b, c)
    ensures OnlyEnds(a, c)
  {
  }

  lemma {:induction false} CancelsOnlyEnd(d: Desk, ids: seq<nat>)
    ensures OnlyEnds(d.broker, CancelRows(d, ids).broker)
    decreases |ids|
  {
    if ids != [] {
      var mid := CancelRows(d, ids[..|ids| - 1]);
      CancelsOnlyEnd(d, ids[..|ids| - 1]);
      CancelOnlyEnds(mid, ids[|ids| - 1]);
      EndsTrans(d.broker, mid.broker, CancelRows(d, ids).broker);
    }
  }

  lemma PlacesAfterEnds(a: MB.Broker, b: MB.Broker, c: MB.Broker, i: Intent, last: Option<real>)
    requires OnlyEnds(a, b) && Places(b, c, i, last)
    ensures Places(a, c, i, last)
  {
    if |c.orders| == |a.orders| + 1 {
      var o := c.orders[|a.orders|];
      var limit :| OwnOrShaped(i, last, o.code, limit) && EntersBook(b, c, Asked(i, o.code, limit), o);
      assert EntersBook(a, c, Asked(i, o.code, limit), o);
    }
  }

  /** Whatever the state and wherever the call is cut off, a submission adds at most one order to the
      broker's book, and that order is for the intent's own symbol, side and quantity under its key. */
  lemma SubmissionPlaces(d: Desk, i: Intent, stale: set<nat>, last: Option<real>, line: Line)
    ensures Places(d.broker, SubmitOne(d, i, stale, last, line).broker, i, last)
  {
    CancelsOnlyEnd(d, WorkingFor(d.db.rows, i.symbol, Some(i.side)));
    match ClearTheWay(d, i, stale)
    case Skip =>
    case Proceed(d') =>
      SendPlaces(d', i, last, line);
      PlacesAfterEnds(d.broker, d'.broker, SubmitOne(d, i, stale, last, line).broker, i, last);
  }

  /** So does every submitting step of every run, and no step but a submission or another caller of the
      broker adds an order at all. */
  lemma EveryStepPlaces(s: Session, a: Act)
    requires Allowed(s.broker, a)
    ensures
      var s' := Step(s, a);
      && (a.Submit? ==> Places(s.broker, s'.broker, a.i, a.last))
      && (!a.Submit? && !a.Outside? ==> |s'.broker.orders| == |s.broker.orders|)
      && (!a.Submit? && !a.Outside? ==> s'.broker.positions == s.broker.positions && s'.broker.cash == s.broker.cash)
  {
    if a.Submit? { SubmissionPlaces(Desk(s.db, s.broker), a.i, a.stale, a.last, a.line); }
    if a.CancelOne? { CancelOnlyEnds(Desk(s.db, s.broker), a.id); }
  }

  // ----- When it is sent -----

  lemma {:induction false} NothingWorks(rows: seq<OrderRow>, symbol: string, side: Option<Side>)
    requires forall n :: 0 <= n < |rows| ==> !WorksFor(rows[n], symbol, side)
    ensures WorkingFor(rows, symbol, side) == []
    decreases |rows|
  {
    if rows != [] { NothingWorks(rows[..|rows| - 1], symbol, side); }
  }

  /** With no row under its key and nothing to clear, a submission goes to the broker as asked, off a
      marketable venue exactly as the intent says, and appends one row that describes the intent. */
  lemma FreshIntentIsSent(d: Desk, i: Intent, stale: set<nat>, last: Option<real>)
    requires forall n :: 0 <= n < |d.db.rows| ==> d.db.rows[n].key != ClientKey(i.key)
    requires forall n :: 0 <= n < |d.db.rows| ==> !WorksFor(d.db.rows[n], i.symbol, Some(i.side))
    requires !i.marketableVenue && !(i.limit.None? && i.code in {Limit, StopLimit})
    ensures
      var d' := SubmitOne(d, i, stale, last, Delivered);
      && d'.broker == MB.Submit(d.broker, Asked(i, i.code, i.limit)).0
      && |d'.db.rows| == |d.db.rows| + 1 && d'.db.rows[..|d.db.rows|] == d.db.rows
      && var row := d'.db.rows[|d.db.rows|];
         && row == OrderRow(ClientKey(i.key), i.symbol, i.side, i.qty, i.code, i.limit, i.stop, row.status, row.brokerId)
         && RowFollowsReply(row, d'.broker, MB.Submit(d.broker, Asked(i, i.code, i.limit)).1)
  {
    NothingWorks(d.db.rows, i.symbol, Some(i.side));
    assert FindRow(d.db.rows, ClientKey(i.key)).None?;
  }

  /** A reply names the order and passes on its status; a refusal leaves the row rejected; after a
      timeout the row follows the order found under the key, or is unknown. */
  predicate RowFollowsReply(row: OrderRow, b: MB.Broker, o: MB.Outcome) {
    match o
    case Done(oid) => oid < |b.orders| ==> row.brokerId == Some(oid) && FollowsStatus(row.status, b.orders[oid].status)
    case Failed(_) => row.status == RowRejected && row.brokerId.None?
    case TimedOut =>
      var found := MB.Find(b.orders, row.key);
      && row.brokerId == found
      && (found.None? ==> row.status == Unknown)
      && (found.Some? ==> FollowsStatus(row.status, b.orders[found.value].status))
  }

  /** A row still under its key stops a submission, unless it was cancelled, rejected or expired; then
      the submission takes the row over, keeping its key, symbol and side. */
  lemma SlotIs(rows: seq<OrderRow>, i: Intent, n: nat)
    requires OrderManagerSafety.UniqueRows(rows) && n < |rows| && rows[n].key == ClientKey(i.key)
    ensures SlotFor(rows, i) == if Reusable(rows[n].status) then Slot(n) else Taken
    ensures SlotFor(rows, i).Slot? ==>
      SlotRow(rows, n, i) ==
      OrderRow(rows[n].key, rows[n].symbol, rows[n].side, i.qty, i.code, i.limit, i.stop, PendingSubmit, None)
  {
    var r := FindRow(rows, ClientKey(i.key));
    assert r.Some? && r.value == n;
  }

  /** Without a row under its key a submission appends one, pending and for what the intent asks. */
  lemma NewSlotIs(rows: seq<OrderRow>, i: Intent)
    requires forall n :: 0 <= n < |rows| ==> rows[n].key != ClientKey(i.key)
    ensures SlotFor(rows, i) == Slot(|rows|)
    ensures SlotRow(rows, |rows|, i) ==
      OrderRow(ClientKey(i.key), i.symbol, i.side, i.qty, i.code, i.limit, i.stop, PendingSubmit, None)
  {
    assert FindRow(rows, ClientKey(i.key)).None?;
  }

  /** A limit order that ends without a limit is rejected before it is sent. */
  lemma NoLimitIsRejected(d: Desk, i: Intent, last: Option<real>, line: Line)
    requires SlotFor(d.db.rows, i).Slot? && !i.marketableVenue && i.limit.None? && i.code in {Limit, StopLimit}
    ensures
      var d', id := SubmitNow(d, i, last, line), SlotFor(d.db.rows, i).id;
      d'.broker == d.broker && id < |d'.db.rows| && d'.db.rows[id].status == RowRejected && d'.db.executions == d.db.executions
  {
  }

  // ----- What an exit clears away -----

  predicate PartAt(text: string, part: string, n: nat) { n + |part| <= |text| && text[n..n + |part|] == part }

  predicate HasPart(text: string, part: string) { exists n :: 0 <= n <= |text| && PartAt(text, part, n) }

  lemma {:induction false} ContainsIff(text: string, part: string)
    ensures Contains(text, part) <==> HasPart(text, part)
    decreases |text|
  {
    if part <= text { assert PartAt(text, part, 0); }
    if text != [] {
      ContainsIff(text[1..], part);
      if HasPart(text[1..], part) {
        var n :| 0 <= n <= |text[1..]| && PartAt(text[1..], part, n);
        assert text[1..][n..n + |part|] == text[n + 1..n + 1 + |part|];
        assert PartAt(text, part, n + 1);
      }
      if HasPart(text, part) && !(part <= text) {
        var n :| 0 <= n <= |text| && PartAt(text, part, n);
        assert n > 0 && text[1..][n - 1..n - 1 + |part|] == text[n..n + |part|];
        assert PartAt(text[1..], part, n - 1);
      }
    }
  }

  predicate ClosesByThesis(i: Intent) { "force_close" <= i.thesis || "hard_stop" <= i.thesis || "closing:" <= i.thesis }

  /** A forced close, a hard stop or a full exit. */
  predicate Flattens(i: Intent) {
    || HasPart(i.key, "force-close:") || HasPart(i.key, "hard-stop:")
    || HasPart(i.key, ":sell:SELL") || HasPart(i.key, ":buy:BUY") || ClosesByThesis(i)
  }

  predicate ReducesOnly(i: Intent) {
    HasPart(i.key, ":sell:PARTIAL_SELL") || HasPart(i.key, ":sell:REDUCE") || HasPart(i.key, ":buy:REDUCE")
  }

  lemma ExitKinds(i: Intent)
    ensures IsPartialExit(i) <==> ReducesOnly(i)
    ensures IsFlatten(i) <==> Flattens(i)
    ensures IsExit(i) <==> Flattens(i) || ReducesOnly(i)
  {
    ContainsIff(i.key, "force-close:");
    ContainsIff(i.key, "hard-stop:");
    ContainsIff(i.key, ":sell:SELL");
    ContainsIff(i.key, ":buy:BUY");
    ContainsIff(i.key, ":sell:PARTIAL_SELL");
    ContainsIff(i.key, ":sell:REDUCE");
    ContainsIff(i.key, ":buy:REDUCE");
  }

  predicate InTheWay(rows: seq<OrderRow>, i: Intent, n: nat) {
    n < |rows| && rows[n].symbol == i.symbol && rows[n].side == i.side && WorkingStatus(rows[n].status)
  }

  predicate Obstructed(rows: seq<OrderRow>, i: Intent) { exists n :: 0 <= n < |rows| && InTheWay(rows, i, n) }

  /** One of the rows in the way is the intent's own, and none of its own has gone stale. */
  predicate OwnIsFresh(rows: seq<OrderRow>, i: Intent, stale: set<nat>) {
    && (exists n :: 0 <= n < |rows| && InTheWay(rows, i, n) && rows[n].key == ClientKey(i.key))
    && (forall n :: 0 <= n < |rows| && InTheWay(rows, i, n) && rows[n].key == ClientKey(i.key) ==> n !in stale)
  }

  lemma WorkingForIs(rows: seq<OrderRow>, i: Intent, n: nat)
    ensures n in WorkingFor(rows, i.symbol, Some(i.side)) <==> InTheWay(rows, i, n)
  {
  }

  /** The prelude of a submission: it stands back if and only if something of its symbol and side is
      working and it only reduces, or it flattens and its own fresh row is among them. It cancels those
      rows if and only if it flattens and does not stand back; otherwise it touches nothing. */
  lemma PreludeIs(d: Desk, i: Intent, stale: set<nat>)
    ensures
      var way, rows := ClearTheWay(d, i, stale), d.db.rows;
      && (way == Skip <==> Obstructed(rows, i) && (ReducesOnly(i) || (Flattens(i) && OwnIsFresh(rows, i, stale))))
      && (way.Proceed? && !(Obstructed(rows, i) && Flattens(i)) ==> way == Proceed(d))
      && (way.Proceed? && Obstructed(rows, i) && Flattens(i) ==>
            way == Proceed(CancelRows(d, WorkingFor(rows, i.symbol, Some(i.side)))))
  {
    var working := WorkingFor(d.db.rows, i.symbol, Some(i.side));
    ExitKinds(i);
    forall n ensures n in working <==> n >= 0 && InTheWay(d.db.rows, i, n) {}
    if working != [] { assert working[0] in working && InTheWay(d.db.rows, i, working[0]); }
  }

  /** A cancelled row that was never sent ends cancelled; one that was sent says what its broker order
      says once the broker has ended it. No other row changes. */
  lemma CancelRowIs(d: Desk, id: nat)
    requires id < |d.db.rows|
    requires d.db.rows[id].brokerId.Some? ==> d.db.rows[id].brokerId.value < |d.broker.orders|
    ensures
      var d', row := CancelRow(d, id), d.db.rows[id];
      && |d'.db.rows| == |d.db.rows| && d'.db.executions == d.db.executions && d'.db.runs == d.db.runs
      && (forall n :: 0 <= n < |d.db.rows| && n != id ==> d'.db.rows[n] == d.db.rows[n])
      && d'.db.rows[id] == row.(status := d'.db.rows[id].status)
      && (row.brokerId.None? ==> d'.db.rows[id].status == Cancelled && d'.broker == d.broker)
      && (row.brokerId.Some? ==>
            var was := d.broker.orders[row.brokerId.value].status;
            FollowsStatus(d'.db.rows[id].status, if was in {New, Accepted, Partial} then Canceled else was)
            && d'.broker.orders[row.brokerId.value].status == (if was in {New, Accepted, Partial} then Canceled else was))
  {
    if d.db.rows[id].brokerId.Some? { BR.CancelIs(d.broker, d.db.rows[id].brokerId.value); }
  }

  /** A synced row says what its broker order says, and a row that newly turns filled records the fill. */
  lemma SyncRowIs(s: Store, b: MB.Broker, id: nat)
    requires id < |s.rows| && s.rows[id].brokerId.Some? && s.rows[id].brokerId.value < |b.orders|
    ensures
      var s', row, o := SyncRow(s, b, id), s.rows[id], b.orders[s.rows[id].brokerId.value];
      && |s'.rows| == |s.rows| && s'.runs == s.runs
      && (forall n :: 0 <= n < |s.rows| && n != id ==> s'.rows[n] == s.rows[n])
      && s'.rows[id] == row.(status := s'.rows[id].status) && FollowsStatus(s'.rows[id].status, o.status)
      && s'.executions ==
         if o.status == Filled && row.status != RowFilled && o.avgFillPrice.Some?
         then s.executions + [Execution(id, if o.filledQty == 0.0 then row.qty else o.filledQty, o.avgFillPrice.value)]
         else s.executions
  {
    FollowsBroker(b.orders[s.rows[id].brokerId.value].status);
  }

  // ----- What a snapshot shows -----

  /** Every entry of a snapshot describes an order that is new, accepted or partly filled, and any such
      order can be shown. */
  lemma SnapshotShows(b: MB.Broker, visible: seq<nat>, oid: nat)
    requires Honest(b, visible)
    ensures |Snapshot(b, visible)| == |visible|
    ensures forall n :: 0 <= n < |visible| ==>
      && visible[n] < |b.orders| && b.orders[visible[n]].status in {New, Accepted, Partial}
      && var o := b.orders[visible[n]];
         Snapshot(b, visible)[n] == R.Remote(Some(visible[n]), o.symbol, o.side, o.qty, o.code, o.status)
    ensures oid < |b.orders| && b.orders[oid].status in {New, Accepted, Partial} ==> Honest(b, [oid])
  {
  }
}
