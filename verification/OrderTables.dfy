/** The local order, execution and reconciliation tables (app/execution/order_manager.py,
    app/execution/service.py, app/execution/reconciliation.py). Rows are identified by their position. Two writers spell
    statuses in different case and every reader folds them, so a status here is the folded one. */
module OrderTables {
  import opened BrokerModels

  datatype RowStatus =
    | RowNew | PendingSubmit | PendingNew | Submitting | Submitted | RowAccepted | PartiallyFilled
    | CancelPending | ReplacePending
    | RowFilled | Cancelled | RowRejected | RowExpired | RowFailed | Unknown

  predicate Working(s: RowStatus) {
    || s.RowNew? || s.PendingSubmit? || s.PendingNew? || s.Submitting? || s.Submitted?
    || s.RowAccepted? || s.PartiallyFilled? || s.CancelPending? || s.ReplacePending?
  }

  /** Rows a fresh submission may take over. */
  predicate Dead(s: RowStatus) { s.Cancelled? || s.RowRejected? || s.RowExpired? }

  /** The row status a broker status maps to. */
  function FromBroker(s: OrderStatus): RowStatus {
    match s
    case New => RowAccepted
    case Accepted => RowAccepted
    case Partial => PartiallyFilled
    case Filled => RowFilled
    case Canceled => Cancelled
    case Rejected => RowRejected
  }

  /** A broker status written to a row in the broker's own spelling, as the execution service does. */
  function Spelled(s: OrderStatus): RowStatus { if s.New? then RowNew else FromBroker(s) }

  datatype OrderRow = OrderRow(
    key: Key, symbol: string, side: Side, qty: real, code: OrderCode,
    limit: Option<real>, stop: Option<real>, status: RowStatus, brokerId: Option<nat>)

  datatype Execution = Execution(row: nat, qty: real, price: real)

  /** What a run noted about an empty broker snapshot. */
  datatype SnapshotIssue =
    | NoSnapshotIssue
    | EmptyRemote(localOpen: nat, streak: nat)
    | StaleCleared(closed: nat, streak: nat)

  /** The issues of a run: ids missing on either side, the snapshot issue, and a failed fetch. */
  datatype Issues = Issues(
    localMissingRemote: set<nat>, remoteMissingLocal: set<nat>, snapshot: SnapshotIssue, fetchFailed: bool)

  datatype ReconRun = ReconRun(result: ReconResult, issues: Issues)

  datatype Store = Store(rows: seq<OrderRow>, executions: seq<Execution>, runs: seq<ReconRun>)

  const EMPTY := Store([], [], [])

  function FindRow(rows: seq<OrderRow>, k: Key): (r: Option<nat>)
    ensures r.Some? ==> r.value < |rows| && rows[r.value].key == k
    ensures r.None? ==> forall i :: 0 <= i < |rows| ==> rows[i].key != k
  {
    FirstWith(rows, (row: OrderRow) => row.key, k)
  }

  predicate WorksFor(row: OrderRow, symbol: string, side: Option<Side>) {
    row.symbol == symbol && (side.Some? ==> row.side == side.value) && Working(row.status)
  }

  /** Working rows of a symbol, of one side or of both, in table order. */
  function WorkingFor(rows: seq<OrderRow>, symbol: string, side: Option<Side>): (ids: seq<nat>)
    ensures forall i :: i in ids ==> i < |rows| && WorksFor(rows[i], symbol, side)
    ensures forall i :: 0 <= i < |rows| && WorksFor(rows[i], symbol, side) ==> i in ids
  {
    if rows == [] then []
    else
      WorkingFor(rows[..|rows| - 1], symbol, side) +
      (if WorksFor(rows[|rows| - 1], symbol, side) then [|rows| - 1] else [])
  }

  function WorkingRows(rows: seq<OrderRow>): (ids: seq<nat>)
    ensures forall i :: i in ids ==> i < |rows| && Working(rows[i].status)
    ensures forall i :: 0 <= i < |rows| && Working(rows[i].status) ==> i in ids
  {
    if rows == [] then []
    else
      WorkingRows(rows[..|rows| - 1]) + (if Working(rows[|rows| - 1].status) then [|rows| - 1] else [])
  }

  /** Broker ids of a table. */
  function BrokerIds(rows: seq<OrderRow>): set<nat> {
    set i | 0 <= i < |rows| && rows[i].brokerId.Some? :: rows[i].brokerId.value
  }

  /** Broker ids of the working rows. */
  function OpenIds(rows: seq<OrderRow>): set<nat> {
    set i | 0 <= i < |rows| && Working(rows[i].status) && rows[i].brokerId.Some? :: rows[i].brokerId.value
  }
}
