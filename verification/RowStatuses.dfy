/** How order rows and broker orders say the same thing (app/execution/order_manager.py,
    app/execution/reconciliation.py). */
module RowStatuses {
  import opened BrokerModels
  import opened OrderTables

  predicate WorkingStatus(s: RowStatus) {
    s in {RowNew, PendingSubmit, PendingNew, Submitting, Submitted, RowAccepted, PartiallyFilled, CancelPending, ReplacePending}
  }

  /** A status a fresh submission under the same key may take over. */
  predicate Reusable(s: RowStatus) { s in {Cancelled, RowRejected, RowExpired} }

  /** How a row says what the broker says. */
  predicate FollowsStatus(s: RowStatus, o: OrderStatus) {
    match o
    case New => s == RowAccepted
    case Accepted => s == RowAccepted
    case Partial => s == PartiallyFilled
    case Filled => s == RowFilled
    case Canceled => s == Cancelled
    case Rejected => s == RowRejected
  }

  lemma FollowsBroker(o: OrderStatus)
    ensures FollowsStatus(FromBroker(o), o)
  {
  }

  /** A row is open where its order is, and filled or reusable where its order is filled or dead. */
  lemma RowsAgreeWithOrders(o: OrderStatus)
    ensures Working(FromBroker(o)) <==> o in {New, Accepted, Partial}
    ensures FromBroker(o) == RowFilled <==> o == Filled
    ensures Dead(FromBroker(o)) <==> o in {Canceled, Rejected}
    ensures Working(Spelled(o)) == Working(FromBroker(o)) && Dead(Spelled(o)) == Dead(FromBroker(o))
    ensures Spelled(o) == RowFilled <==> o == Filled
  {
  }

  /** Every row status is exactly one of working, reusable, filled, or stuck until someone looks. */
  lemma StatusKinds(s: RowStatus)
    ensures Working(s) <==> WorkingStatus(s)
    ensures Dead(s) <==> Reusable(s)
    ensures Working(s) || Dead(s) || s == RowFilled || s == Unknown || s == RowFailed
    ensures !(Working(s) && Dead(s))
  {
  }

  /** The broker's own order-type codes fold into the internal ones, and nothing else changes. */
  lemma CodesFold(code: OrderCode)
    ensures Canonical(code) !in {Mkt, Lmt, Stp, StpLmtSpaced, StpLmt, Trail}
    ensures Canonical(code) == Market <==> code in {Mkt, Market}
    ensures Canonical(code) == Limit <==> code in {Lmt, Limit}
    ensures Canonical(code) == Stop <==> code in {Stp, Stop}
    ensures Canonical(code) == StopLimit <==> code in {StpLmtSpaced, StpLmt, StopLimit}
    ensures Canonical(code) == TrailingStop <==> code in {Trail, TrailingStop}
    ensures code.OtherCode? ==> Canonical(code) == code
  {
  }
}
