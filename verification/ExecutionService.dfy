/** Intent, validation, approval and submission (app/execution/service.py), run by one caller at a
    time over a database session that can be committed or rolled back at any point, against a
    broker that does not deduplicate and can fail before or after it has recorded an order.

    The client order id is a digest of the intent's identity and the attempt number; it is modelled
    by that pair. */
module ExecutionServices {
  import opened BrokerModels
  import C = Controls
  import P = Pretrade
  import OT = OrderTables

  datatype IntentType =
    | OpenLong | AddLong | ReduceLong | CloseLong | OpenShort | AddShort | ReduceShort | CloseShort
    | Hedge | CancelPending | NoAction

  datatype IntentStatus =
    | Created | Validating | RiskRejected | PendingApproval | Approved | Rejected | Expired
    | Cancelled | Submitting | Submitted | Completed | Failed

  datatype Intent = Intent(
    intentType: IntentType, thesis: string, symbol: string, side: Side, quantity: real,
    entry: Option<real>, stop: Option<real>, code: OrderCode, expiresAt: Option<nat>,
    status: IntentStatus, approvedQuantity: Option<real>, clientKey: Option<Key>)

  datatype ApprovalStatus = ApprovalPending | ApprovalApproved | ApprovalRejected | ApprovalExpired

  datatype Approval = Approval(
    intent: nat, status: ApprovalStatus, createdAt: nat, expiresAt: nat, actedAt: Option<nat>)

  /** A stored pre-trade check with the inputs it was computed from. */
  datatype CheckRow = CheckRow(intent: nat, at: nat, ctl: C.TradingState, order: P.Order, verdict: P.Verdict)

  datatype Store = Store(
    intents: map<nat, Intent>, approvals: seq<Approval>, checks: seq<CheckRow>,
    orders: seq<OT.OrderRow>, runs: seq<ReconResult>)

  /** An order as the broker recorded it. */
  datatype SentOrder = SentOrder(key: Key, symbol: string, side: Side, qty: real, status: OrderStatus)

  datatype Config = Config(
    policy: P.Policy, brokerOrders: bool, brokerConnected: bool, startingCash: real, approvalMinutes: nat)

  datatype World = World(
    db: Store, committed: Store, broker: seq<SentOrder>, ctl: C.TradingState, now: nat, nextIntent: nat)

  datatype Reason =
    | IntentNotFound | EmergencyStopActive | BrokerOrdersDisabled | ConnectionDisabled
    | NotAllowedFrom(status: IntentStatus) | ApprovalLapsed | ReconciliationBlocks
    | FinalPretradeBlocked | SizingCrashed | ZeroQuantity | SubmitTimedOut | SubmitFailed

  datatype Outcome = Done | Returned(row: nat) | Raised(reason: Reason)

  /** How the broker call ends, and whether the order was recorded before it ended. */
  datatype Reply = Accept(status: OrderStatus) | Timeout(recorded: bool) | Error(recorded: bool)

  function Recorded(r: Reply): bool { r.Accept? || r.recorded }

  const EMPTY := Store(map[], [], [], [], [])

  function Start(ctl: C.TradingState, now: nat): World { World(EMPTY, EMPTY, [], ctl, now, 0) }

  // ----- Lookups -----

  function LatestApproval(rows: seq<Approval>, id: nat): (r: Option<nat>)
    ensures r.Some? ==> r.value < |rows| && rows[r.value].intent == id
    ensures r.Some? ==> forall i :: r.value < i < |rows| ==> rows[i].intent != id
    ensures r.None? ==> forall i :: 0 <= i < |rows| ==> rows[i].intent != id
  {
    if rows == [] then None
    else if rows[|rows| - 1].intent == id then Some(|rows| - 1)
    else LatestApproval(rows[..|rows| - 1], id)
  }

  function LatestCheck(rows: seq<CheckRow>, id: nat): (r: Option<CheckRow>)
    ensures r.Some? ==> r.value in rows && r.value.intent == id
  {
    if rows == [] then None
    else if rows[|rows| - 1].intent == id then Some(rows[|rows| - 1])
    else LatestCheck(rows[..|rows| - 1], id)
  }

  function FindSent(sent: seq<SentOrder>, k: Key): (r: Option<nat>)
    ensures r.Some? ==> r.value < |sent| && sent[r.value].key == k
    ensures r.None? ==> forall i :: 0 <= i < |sent| ==> sent[i].key != k
  {
    FirstWith(sent, (o: SentOrder) => o.key, k)
  }

  // ----- Intent helpers -----

  predicate IsExit(i: Intent) {
    || i.intentType.ReduceLong? || i.intentType.CloseLong? || i.intentType.ReduceShort?
    || i.intentType.CloseShort? || i.intentType.CancelPending?
    || "closing:" <= i.thesis || "force_close:" <= i.thesis
  }

  /** `approved_quantity or quantity`: a zero approval falls back to the full request. */
  function Effective(i: Intent): real { Or(i.approvedQuantity, i.quantity) }

  predicate Lapsed(i: Intent, now: nat) { i.expiresAt.Some? && i.expiresAt.value < now }

  datatype Inputs = Inputs(
    equity: real, buyingPower: real, positionQty: real, dataQuality: real,
    quoteAge: Option<real>, spreadBps: Option<real>, hardVetoes: seq<string>,
    marketOpen: bool, tradable: bool)

  function OrderFor(i: Intent, x: Inputs, now: nat): P.Order {
    P.Order(i.side, i.quantity, Or(i.entry, 0.0), i.stop, x.equity, x.buyingPower, x.positionQty,
            x.dataQuality, x.quoteAge, x.spreadBps, x.hardVetoes, x.tradable, x.marketOpen,
            false, false, false, Lapsed(i, now), 0)
  }

  /** The last gate before sending runs against the starting cash and an empty position. */
  function FinalOrder(cfg: Config, i: Intent, now: nat): P.Order {
    P.Order(i.side, Effective(i), Or(i.entry, 0.0), i.stop, cfg.startingCash, cfg.startingCash, 0.0,
            1.0, Some(0.0), Some(10.0), [], true, true, false, false, false, Lapsed(i, now), 0)
  }

  predicate Blocking(runs: seq<ReconResult>) {
    runs != [] &&
    (runs[|runs| - 1].MaterialDrift? || runs[|runs| - 1].BrokerUnavailable? || runs[|runs| - 1].LocalStateInvalid?)
  }

  function WithIntent(s: Store, id: nat, i: Intent): Store { s.(intents := s.intents[id := i]) }

  // ----- The four calls -----

  /** The status a verdict leads to. */
  function StatusAfter(cfg: Config, v: P.Verdict): IntentStatus
    requires v.Check?
  {
    match v.status
    case RiskRejected => IntentStatus.RiskRejected
    case SystemBlocked => IntentStatus.RiskRejected
    case RequiresManualApproval => PendingApproval
    case _ => if cfg.policy.manualApproval then PendingApproval else IntentStatus.Approved
  }

  function ValidateIntent(cfg: Config, w: World, id: nat, x: Inputs): (World, Outcome) {
    if id !in w.db.intents then (w, Raised(IntentNotFound))
    else
      var i := w.db.intents[id];
      var order := OrderFor(i, x, w.now);
      FileCheck(cfg, w, id, order, P.Validate(cfg.policy, w.ctl, order))
  }

  /** What a validation leaves behind, given its verdict. */
  function FileCheck(cfg: Config, w: World, id: nat, order: P.Order, v: P.Verdict): (World, Outcome)
    requires id in w.db.intents
  {
    var i := w.db.intents[id];
    if v.Crash? then
      (w.(db := WithIntent(w.db, id, i.(status := Validating))), Raised(SizingCrashed))
    else
      var i' := i.(status := StatusAfter(cfg, v), approvedQuantity := Some(v.approved));
      var approvals :=
        if v.status.RequiresManualApproval?
        then w.db.approvals + [Approval(id, ApprovalPending, w.now, w.now + cfg.approvalMinutes, None)]
        else w.db.approvals;
      (w.(db := WithIntent(w.db, id, i').(
            checks := w.db.checks + [CheckRow(id, w.now, w.ctl, order, v)], approvals := approvals)),
       Done)
  }

  /** Marking the intent as validating first changes nothing in the end. */
  lemma FileAfterMark(cfg: Config, w: World, id: nat, order: P.Order, v: P.Verdict)
    requires id in w.db.intents
    ensures
      var marked := w.(db := WithIntent(w.db, id, w.db.intents[id].(status := Validating)));
      FileCheck(cfg, marked, id, order, v) == FileCheck(cfg, w, id, order, v)
  {
    var i := w.db.intents[id];
    assert forall j: Intent {:trigger w.db.intents[id := j]} ::
      w.db.intents[id := i.(status := Validating)][id := j] == w.db.intents[id := j];
  }

  function ApproveIntent(w: World, id: nat): (World, Outcome) {
    if id !in w.db.intents then (w, Raised(IntentNotFound))
    else
      var i := w.db.intents[id];
      if !i.status.PendingApproval? then (w, Raised(NotAllowedFrom(i.status)))
      else
        var a := LatestApproval(w.db.approvals, id);
        if a.None? then (w.(db := WithIntent(w.db, id, i.(status := IntentStatus.Approved))), Done)
        else
          var row := w.db.approvals[a.value];
          if row.expiresAt < w.now then
            (w.(db := WithIntent(w.db, id, i.(status := Expired)).(
                  approvals := w.db.approvals[a.value := row.(status := ApprovalExpired)])),
             Raised(ApprovalLapsed))
          else
            (w.(db := WithIntent(w.db, id, i.(status := IntentStatus.Approved)).(
                  approvals := w.db.approvals[a.value := row.(status := ApprovalApproved, actedAt := Some(w.now))])),
             Done)
  }

  function RejectIntent(w: World, id: nat): (World, Outcome) {
    if id !in w.db.intents then (w, Raised(IntentNotFound))
    else
      var i := w.db.intents[id];
      var a := LatestApproval(w.db.approvals, id);
      var approvals :=
        if a.None? then w.db.approvals
        else w.db.approvals[a.value := w.db.approvals[a.value].(status := ApprovalRejected, actedAt := Some(w.now))];
      (w.(db := WithIntent(w.db, id, i.(status := IntentStatus.Rejected)).(approvals := approvals)), Done)
  }

  /** Why a submission stops before it looks the order up at the broker; `None` means it goes on. */
  function Gate(cfg: Config, w: World, id: nat, attempt: nat): (r: Option<Outcome>)
    ensures r.None? ==> id in w.db.intents && w.db.intents[id].status == IntentStatus.Approved
    ensures r.None? ==> OT.FindRow(w.db.orders, IntentKey(id, attempt)).None?
  {
    if id !in w.db.intents then Some(Raised(IntentNotFound))
    else
      var i := w.db.intents[id];
      if w.ctl.EmergencyStop? then Some(Raised(EmergencyStopActive))
      else if !cfg.brokerOrders then Some(Raised(BrokerOrdersDisabled))
      else if !cfg.brokerConnected then Some(Raised(ConnectionDisabled))
      else if !i.status.Approved? && !i.status.Submitted? && !i.status.Submitting? then
        Some(Raised(NotAllowedFrom(i.status)))
      else
        var existing := OT.FindRow(w.db.orders, IntentKey(id, attempt));
        if existing.Some? then Some(Returned(existing.value))
        else if !i.status.Approved? then Some(Raised(NotAllowedFrom(i.status)))
        else if Blocking(w.db.runs) && !IsExit(i) then Some(Raised(ReconciliationBlocks))
        else None
  }

  function NewRow(s: Store, id: nat, i: Intent, row: OT.OrderRow): Store {
    WithIntent(s, id, i).(orders := s.orders + [row])
  }

  /** The row written for an intent. */
  function RowFor(i: Intent, k: Key, status: OT.RowStatus, brokerId: Option<nat>): OT.OrderRow {
    OT.OrderRow(k, i.symbol, i.side, Effective(i), i.code, i.entry, i.stop, status, brokerId)
  }

  /** The order is already at the broker: adopt it locally and send nothing. */
  function Recover(w: World, id: nat, k: Key, at: nat): (World, Outcome)
    requires id in w.db.intents && at < |w.broker|
  {
    var i := w.db.intents[id];
    var row := RowFor(i, k, OT.Spelled(w.broker[at].status), Some(at));
    (w.(db := NewRow(w.db, id, i.(status := Submitted, clientKey := Some(k)), row)), Returned(|w.db.orders|))
  }

  function StatusOf(r: Reply): OrderStatus { if r.Accept? then r.status else New }

  /** Write the row, call the broker, and record how the call ended. */
  function Send(w: World, id: nat, k: Key, r: Reply): (World, Outcome)
    requires id in w.db.intents
  {
    var i := w.db.intents[id].(clientKey := Some(k));
    var qty := Effective(i);
    if qty <= 0.0 then
      (w.(db := WithIntent(w.db, id, i.(status := Failed))), Raised(ZeroQuantity))
    else
      var broker := if Recorded(r) then w.broker + [SentOrder(k, i.symbol, i.side, qty, StatusOf(r))] else w.broker;
      match r
      case Accept(status) =>
        (w.(broker := broker,
            db := NewRow(w.db, id, i.(status := Submitted), RowFor(i, k, OT.Spelled(status), Some(|w.broker|)))),
         Returned(|w.db.orders|))
      case Timeout(_) =>
        (w.(broker := broker, db := NewRow(w.db, id, i.(status := Failed), RowFor(i, k, OT.Unknown, None))),
         Raised(SubmitTimedOut))
      case Error(_) =>
        (w.(broker := broker, db := NewRow(w.db, id, i.(status := Failed), RowFor(i, k, OT.RowFailed, None))),
         Raised(SubmitFailed))
  }

  /** The verdict of the last gate. */
  function FinalVerdict(cfg: Config, w: World, id: nat): P.Verdict
    requires id in w.db.intents
  {
    P.Validate(cfg.policy, w.ctl, FinalOrder(cfg, w.db.intents[id], w.now))
  }

  /** Past the gates: act on the final verdict, look the order up at the broker, send if unknown. */
  function SubmitGated(w: World, id: nat, k: Key, hard: P.Verdict, r: Reply): (World, Outcome)
    requires id in w.db.intents
  {
    if hard.Crash? then (w, Raised(SizingCrashed))
    else if !P.Passed(hard) then
      (w.(db := WithIntent(w.db, id, w.db.intents[id].(status := IntentStatus.RiskRejected))), Raised(FinalPretradeBlocked))
    else
      var remote := FindSent(w.broker, k);
      if remote.Some? then Recover(w, id, k, remote.value) else Send(w, id, k, r)
  }

  function SubmitIntent(cfg: Config, w: World, id: nat, attempt: nat, r: Reply): (World, Outcome) {
    var g := Gate(cfg, w, id, attempt);
    if g.Some? then (w, g.value)
    else SubmitGated(w, id, IntentKey(id, attempt), FinalVerdict(cfg, w, id), r)
  }

  // ----- Runs -----

  datatype Call =
    | Create(intent: Intent)
    | Validate(id: nat, inputs: Inputs)
    | Approve(id: nat)
    | Reject(id: nat)
    | Submit(id: nat, attempt: nat, reply: Reply)
    | Reconciled(result: ReconResult)
    | Control(state: C.TradingState)
    | Elapse(ticks: nat)
    | Commit
    | Rollback

  function Step(cfg: Config, w: World, c: Call): World {
    match c
    case Create(i) =>
      w.(db := WithIntent(w.db, w.nextIntent, i.(status := Created, approvedQuantity := None, clientKey := None)),
         nextIntent := w.nextIntent + 1)
    case Validate(id, x) => ValidateIntent(cfg, w, id, x).0
    case Approve(id) => ApproveIntent(w, id).0
    case Reject(id) => RejectIntent(w, id).0
    case Submit(id, attempt, r) => SubmitIntent(cfg, w, id, attempt, r).0
    case Reconciled(result) => w.(db := w.db.(runs := w.db.runs + [result]))
    case Control(state) => w.(ctl := state)
    case Elapse(ticks) => w.(now := w.now + ticks)
    case Commit => w.(committed := w.db)
    case Rollback => w.(db := w.committed)
  }

  function Run(cfg: Config, w: World, cs: seq<Call>): World
    decreases |cs|
  {
    if cs == [] then w else Step(cfg, Run(cfg, w, cs[..|cs| - 1]), cs[|cs| - 1])
  }

  lemma RunTake(cfg: Config, w: World, cs: seq<Call>, n: nat)
    requires n < |cs|
    ensures Run(cfg, w, cs[..n + 1]) == Step(cfg, Run(cfg, w, cs[..n]), cs[n])
  {
    assert cs[..n + 1][..n] == cs[..n];
  }

  // ----- The service object -----

  class ExecutionService {
    const cfg: Config
    var db: Store
    var committed: Store
    var broker: seq<SentOrder>
    var ctl: C.TradingState
    var now: nat
    var nextIntent: nat

    ghost function View(): World
      reads this
    {
      World(db, committed, broker, ctl, now, nextIntent)
    }

    constructor (cfg: Config, ctl: C.TradingState, now: nat)
      ensures View() == Start(ctl, now) && this.cfg == cfg
    {
      this.cfg := cfg;
      db, committed, broker := EMPTY, EMPTY, [];
      this.ctl, this.now, nextIntent := ctl, now, 0;
    }

    method SetStatus(id: nat, status: IntentStatus)
      requires id in db.intents
      modifies `db
      ensures db == WithIntent(old(db), id, old(db).intents[id].(status := status))
    {
      db := WithIntent(db, id, db.intents[id].(status := status));
    }

    method StoreCheck(id: nat, c: CheckRow)
      requires id in db.intents && c.verdict.Check?
      modifies `db
      ensures db == old(db).(checks := old(db).checks + [c],
        intents := old(db).intents[id := old(db).intents[id].(approvedQuantity := Some(c.verdict.approved))])
    {
      db := db.(checks := db.checks + [c]);
      db := WithIntent(db, id, db.intents[id].(approvedQuantity := Some(c.verdict.approved)));
    }

    method ActOn(id: nat, v: P.Verdict)
      requires id in db.intents && v.Check?
      modifies `db
      ensures db == WithIntent(old(db), id, old(db).intents[id].(status := StatusAfter(cfg, v))).(approvals :=
        if v.status.RequiresManualApproval?
        then old(db).approvals + [Approval(id, ApprovalPending, now, now + cfg.approvalMinutes, None)]
        else old(db).approvals)
    {
      if v.status.RiskRejected? || v.status.SystemBlocked? {
        SetStatus(id, IntentStatus.RiskRejected);
      } else if v.status.RequiresManualApproval? {
        SetStatus(id, PendingApproval);
        db := db.(approvals := db.approvals + [Approval(id, ApprovalPending, now, now + cfg.approvalMinutes, None)]);
      } else {
        SetStatus(id, if cfg.policy.manualApproval then PendingApproval else IntentStatus.Approved);
      }
    }

    method DoFileCheck(id: nat, order: P.Order, v: P.Verdict) returns (o: Outcome)
      requires id in db.intents && db.intents[id].status == Validating
      modifies `db
      ensures (View(), o) == FileCheck(cfg, old(View()), id, order, v)
    {
      if v.Crash? {
        assert db == WithIntent(db, id, db.intents[id].(status := Validating));
        return Raised(SizingCrashed);
      }
      ghost var before := db;
      StoreCheck(id, CheckRow(id, now, ctl, order, v));
      ActOn(id, v);
      assert db.intents == before.intents[id :=
        before.intents[id].(status := StatusAfter(cfg, v), approvedQuantity := Some(v.approved))];
      return Done;
    }

    method DoValidate(id: nat, x: Inputs) returns (o: Outcome)
      modifies `db
      ensures (View(), o) == ValidateIntent(cfg, old(View()), id, x)
    {
      if id !in db.intents {
        return Raised(IntentNotFound);
      }
      ghost var before := View();
      var order := OrderFor(db.intents[id], x, now);
      SetStatus(id, Validating);
      var v := P.Validate(cfg.policy, ctl, order);
      FileAfterMark(cfg, before, id, order, v);
      o := DoFileCheck(id, order, v);
    }

    method DoApprove(id: nat) returns (o: Outcome)
      modifies `db
      ensures (View(), o) == ApproveIntent(old(View()), id)
    {
      if id !in db.intents {
        return Raised(IntentNotFound);
      }
      if !db.intents[id].status.PendingApproval? {
        return Raised(NotAllowedFrom(db.intents[id].status));
      }
      var a := LatestApproval(db.approvals, id);
      if a.Some? && db.approvals[a.value].expiresAt < now {
        db := db.(approvals := db.approvals[a.value := db.approvals[a.value].(status := ApprovalExpired)]);
        SetStatus(id, Expired);
        return Raised(ApprovalLapsed);
      }
      if a.Some? {
        db := db.(approvals := db.approvals[a.value :=
          db.approvals[a.value].(status := ApprovalApproved, actedAt := Some(now))]);
      }
      SetStatus(id, IntentStatus.Approved);
      return Done;
    }

    method DoReject(id: nat) returns (o: Outcome)
      modifies `db
      ensures (View(), o) == RejectIntent(old(View()), id)
    {
      if id !in db.intents {
        return Raised(IntentNotFound);
      }
      var a := LatestApproval(db.approvals, id);
      if a.Some? {
        db := db.(approvals := db.approvals[a.value :=
          db.approvals[a.value].(status := ApprovalRejected, actedAt := Some(now))]);
      }
      SetStatus(id, IntentStatus.Rejected);
      return Done;
    }

    method CallBroker(order: SentOrder, r: Reply)
      modifies `broker
      ensures broker == if Recorded(r) then old(broker) + [order] else old(broker)
    {
      if Recorded(r) {
        broker := broker + [order];
      }
    }

    method DoSend(id: nat, k: Key, r: Reply) returns (o: Outcome)
      requires id in db.intents
      modifies `db, `broker
      ensures (View(), o) == Send(old(View()), id, k, r)
    {
      ghost var before := db;
      var i := db.intents[id].(status := Submitting, clientKey := Some(k));
      var qty := Effective(i);
      if qty <= 0.0 {
        db := WithIntent(db, id, i.(status := Failed));
        return Raised(ZeroQuantity);
      }
      var at, oid := |db.orders|, |broker|;
      db := NewRow(db, id, i, RowFor(i, k, OT.Submitting, None));
      CallBroker(SentOrder(k, i.symbol, i.side, qty, StatusOf(r)), r);
      match r {
        case Accept(status) =>
          db := db.(orders := db.orders[at := db.orders[at].(status := OT.Spelled(status), brokerId := Some(oid))]);
          SetStatus(id, Submitted);
          o := Returned(at);
        case Timeout(_) =>
          db := db.(orders := db.orders[at := db.orders[at].(status := OT.Unknown)]);
          SetStatus(id, Failed);
          o := Raised(SubmitTimedOut);
        case Error(_) =>
          db := db.(orders := db.orders[at := db.orders[at].(status := OT.RowFailed)]);
          SetStatus(id, Failed);
          o := Raised(SubmitFailed);
      }
      assert db.intents == before.intents[id := db.intents[id]];
      assert db.orders == before.orders + [db.orders[at]];
    }

    method DoSubmit(id: nat, attempt: nat, r: Reply) returns (o: Outcome)
      modifies `db, `broker
      ensures (View(), o) == SubmitIntent(cfg, old(View()), id, attempt, r)
    {
      var g := Gate(cfg, World(db, committed, broker, ctl, now, nextIntent), id, attempt);
      if g.Some? {
        return g.value;
      }
      var i := db.intents[id];
      var hard := P.Validate(cfg.policy, ctl, FinalOrder(cfg, i, now));
      if hard.Crash? {
        return Raised(SizingCrashed);
      }
      if !P.Passed(hard) {
        SetStatus(id, IntentStatus.RiskRejected);
        return Raised(FinalPretradeBlocked);
      }
      var k := IntentKey(id, attempt);
      var remote := FindSent(broker, k);
      if remote.Some? {
        var row := RowFor(i, k, OT.Spelled(broker[remote.value].status), remote);
        db := db.(orders := db.orders + [row]);
        db := WithIntent(db, id, i.(status := Submitted, clientKey := Some(k)));
        return Returned(|db.orders| - 1);
      }
      o := DoSend(id, k, r);
    }

    method CommitSession()
      modifies `committed
      ensures committed == db
    {
      committed := db;
    }

    method RollbackSession()
      modifies `db
      ensures db == committed
    {
      db := committed;
    }

    method DoCreate(i: Intent)
      modifies `db, `nextIntent
      ensures View() == Step(cfg, old(View()), Create(i))
    {
      db := WithIntent(db, nextIntent, i.(status := Created, approvedQuantity := None, clientKey := None));
      nextIntent := nextIntent + 1;
    }

    /** One call, whatever it is, moves the service as the step function does. */
    method Perform(c: Call)
      modifies this
      ensures View() == Step(cfg, old(View()), c)
    {
      match c {
        case Create(i) => DoCreate(i);
        case Validate(id, x) => var _ := DoValidate(id, x);
        case Approve(id) => var _ := DoApprove(id);
        case Reject(id) => var _ := DoReject(id);
        case Submit(id, attempt, r) => var _ := DoSubmit(id, attempt, r);
        case Reconciled(result) => db := db.(runs := db.runs + [result]);
        case Control(state) => ctl := state;
        case Elapse(ticks) => now := now + ticks;
        case Commit => CommitSession();
        case Rollback => RollbackSession();
      }
    }

    /** Any sequence of calls on the service is a run of the step function. */
    method PerformAll(cs: seq<Call>)
      modifies this
      ensures View() == Run(cfg, old(View()), cs)
    {
      var n := 0;
      while n < |cs|
        invariant 0 <= n <= |cs|
        invariant View() == Run(cfg, old(View()), cs[..n])
      {
        RunTake(cfg, old(View()), cs, n);
        Perform(cs[n]);
        n := n + 1;
      }
      assert cs[..n] == cs;
    }
  }
}
