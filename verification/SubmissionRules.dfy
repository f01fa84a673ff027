/** What the execution service decides and sends, on the stored rows' own fields
    (app/execution/service.py). */
module SubmissionRules {
  import opened BrokerModels
  import opened Rounding
  import opened ExecutionServices
  import opened ExecutionTraces
  import C = Controls
  import P = Pretrade
  import PR = PretradeRules
  import OT = OrderTables
  import RS = RowStatuses
  import R = Reconciliations
  import RR = ReconRules

  // ----- The gates of a submission -----

  /** Reducing, closing or cancelling, by type or by the opening of its thesis. */
  predicate GetsOut(i: Intent) {
    || i.intentType in {ReduceLong, CloseLong, ReduceShort, CloseShort, CancelPending}
    || (|i.thesis| >= 8 && i.thesis[..8] == "closing:")
    || (|i.thesis| >= 12 && i.thesis[..12] == "force_close:")
  }

  predicate LastRunIsBad(runs: seq<ReconResult>) {
    runs != [] && runs[|runs| - 1] in {MaterialDrift, BrokerUnavailable, LocalStateInvalid}
  }

  /** A local row under the intent's key. */
  predicate HasRow(w: World, id: nat, attempt: nat) {
    exists n :: 0 <= n < |w.db.orders| && w.db.orders[n].key == IntentKey(id, attempt)
  }

  predicate OpenForOrders(cfg: Config, w: World) {
    w.ctl != C.EmergencyStop && cfg.brokerOrders && cfg.brokerConnected
  }

  /** Every way a submission is stopped before the final check, in the order the gates stand; it goes
      on only for a known, approved intent without a row, while nothing blocks it. */
  lemma GateIs(cfg: Config, w: World, id: nat, attempt: nat)
    ensures
      var g, known := Gate(cfg, w, id, attempt), id in w.db.intents;
      && (g == Some(Raised(IntentNotFound)) <==> !known)
      && (g == Some(Raised(EmergencyStopActive)) <==> known && w.ctl == C.EmergencyStop)
      && (g == Some(Raised(BrokerOrdersDisabled)) <==> known && w.ctl != C.EmergencyStop && !cfg.brokerOrders)
      && (g == Some(Raised(ConnectionDisabled)) <==>
            known && w.ctl != C.EmergencyStop && cfg.brokerOrders && !cfg.brokerConnected)
  {
  }

  lemma RowFound(w: World, id: nat, attempt: nat)
    ensures OT.FindRow(w.db.orders, IntentKey(id, attempt)).Some? <==> HasRow(w, id, attempt)
  {
  }

  /** ... then an intent that is not on its way is refused, one with a row gets it back, and what is left
      must be approved. */
  lemma StatusGateIs(cfg: Config, w: World, id: nat, attempt: nat)
    requires id in w.db.intents && OpenForOrders(cfg, w)
    ensures
      var g, status := Gate(cfg, w, id, attempt), w.db.intents[id].status;
      var onItsWay := status in {IntentStatus.Approved, Submitted, Submitting};
      && (g == Some(Raised(NotAllowedFrom(status))) <==>
            !onItsWay || (!HasRow(w, id, attempt) && status != IntentStatus.Approved))
      && ((g.Some? && g.value.Returned?) <==> onItsWay && HasRow(w, id, attempt))
      && (g.Some? && g.value.Returned? ==>
            g.value.row < |w.db.orders| && w.db.orders[g.value.row].key == IntentKey(id, attempt))
  {
    RowFound(w, id, attempt);
  }

  /** ... and then the latest reconciliation blocks exactly an intent that does not get out while that
      run found material drift, an unavailable broker or an invalid local state. */
  lemma ReconciliationGateIs(cfg: Config, w: World, id: nat, attempt: nat)
    requires id in w.db.intents && OpenForOrders(cfg, w)
    requires w.db.intents[id].status == IntentStatus.Approved && !HasRow(w, id, attempt)
    ensures Gate(cfg, w, id, attempt) ==
      if LastRunIsBad(w.db.runs) && !GetsOut(w.db.intents[id]) then Some(Raised(ReconciliationBlocks)) else None
  {
    RowFound(w, id, attempt);
  }

  // ----- What is sent -----

  /** The approved quantity, or the whole request where that is missing or zero. */
  function QuantityOf(i: Intent): real {
    if i.approvedQuantity.Some? && i.approvedQuantity.value != 0.0 then i.approvedQuantity.value else i.quantity
  }

  /** The order as sent and the row written for it describe the intent. */
  predicate SentFor(i: Intent, k: Key, o: SentOrder) {
    o.key == k && o.symbol == i.symbol && o.side == i.side && o.qty == QuantityOf(i) > 0.0
  }

  predicate WrittenFor(i: Intent, k: Key, row: OT.OrderRow) {
    && row.key == k && row.symbol == i.symbol && row.side == i.side && row.qty == QuantityOf(i)
    && row.code == i.code && row.limit == i.entry && row.stop == i.stop
  }

  /** The broker spells NEW where a row that follows it says accepted. */
  predicate SpellsStatus(s: OT.RowStatus, o: OrderStatus) {
    if o == New then s == OT.RowNew else RS.FollowsStatus(s, o)
  }

  /** The intent is otherwise as it was. */
  predicate OnlyMoves(before: Intent, after: Intent, status: IntentStatus, k: Key) {
    after == before.(status := status, clientKey := Some(k))
  }

  /** Nothing but the intent and the order rows changes, and of those one intent and at most one row. */
  predicate OnlyThisIntent(w: World, w': World, id: nat) {
    && w' == w.(db := w'.db, broker := w'.broker)
    && w'.db == w.db.(intents := w'.db.intents, orders := w'.db.orders)
    && id in w'.db.intents && w'.db.intents == w.db.intents[id := w'.db.intents[id]]
  }

  predicate OneRowFor(w: World, w': World, id: nat, k: Key) {
    && id in w.db.intents && |w'.db.orders| == |w.db.orders| + 1 && w'.db.orders[..|w.db.orders|] == w.db.orders
    && WrittenFor(w.db.intents[id], k, w'.db.orders[|w.db.orders|])
  }

  predicate OneOrderFor(w: World, w': World, id: nat, k: Key, status: OrderStatus) {
    && id in w.db.intents && |w'.broker| == |w.broker| + 1 && w'.broker[..|w.broker|] == w.broker
    && SentFor(w.db.intents[id], k, w'.broker[|w.broker|]) && w'.broker[|w.broker|].status == status
  }

  /** A send writes one row and puts at most one order at the broker, as the reply says: accepted, the
      row names it and spells its status; timed out, the row is unknown and the intent failed; refused,
      both failed. Whether the order was recorded is the reply's alone. */
  lemma SendIs(w: World, id: nat, k: Key, r: Reply)
    requires id in w.db.intents && QuantityOf(w.db.intents[id]) > 0.0
    ensures
      var (w', o) := Send(w, id, k, r);
      && OnlyThisIntent(w, w', id) && OneRowFor(w, w', id, k)
      && var i, row := w.db.intents[id], w'.db.orders[|w.db.orders|];
         && (r.Accept? ==>
               && OneOrderFor(w, w', id, k, r.status) && o == Returned(|w.db.orders|)
               && OnlyMoves(i, w'.db.intents[id], Submitted, k)
               && row.brokerId == Some(|w.broker|) && SpellsStatus(row.status, r.status))
         && (!r.Accept? ==>
               && (if r.recorded then OneOrderFor(w, w', id, k, New) else w'.broker == w.broker)
               && OnlyMoves(i, w'.db.intents[id], Failed, k) && row.brokerId == None
               && row.status == (if r.Timeout? then OT.Unknown else OT.RowFailed)
               && o == Raised(if r.Timeout? then SubmitTimedOut else SubmitFailed))
  {
  }

  /** A quantity that is not positive is never sent. */
  lemma NothingToSend(w: World, id: nat, k: Key, r: Reply)
    requires id in w.db.intents && QuantityOf(w.db.intents[id]) <= 0.0
    ensures
      var (w', o) := Send(w, id, k, r);
      && OnlyThisIntent(w, w', id) && w'.db.orders == w.db.orders && w'.broker == w.broker
      && OnlyMoves(w.db.intents[id], w'.db.intents[id], Failed, k) && o == Raised(ZeroQuantity)
  {
  }

  /** An order already at the broker is adopted: nothing is sent, and one row names it. */
  lemma RecoverIs(w: World, id: nat, k: Key, at: nat)
    requires id in w.db.intents && at < |w.broker|
    ensures
      var (w', o) := Recover(w, id, k, at);
      && OnlyThisIntent(w, w', id) && OneRowFor(w, w', id, k) && w'.broker == w.broker
      && OnlyMoves(w.db.intents[id], w'.db.intents[id], Submitted, k) && o == Returned(|w.db.orders|)
      && w'.db.orders[|w.db.orders|].brokerId == Some(at)
      && SpellsStatus(w'.db.orders[|w.db.orders|].status, w.broker[at].status)
  {
  }

  predicate AtBroker(w: World, id: nat, attempt: nat) {
    exists n :: 0 <= n < |w.broker| && w.broker[n].key == IntentKey(id, attempt)
  }

  // ----- The final check -----

  predicate HasLapsed(i: Intent, now: nat) { i.expiresAt.Some? && i.expiresAt.value < now }

  /** The final check sees the quantity to be sent against the starting cash, an empty position and ideal
      market data, and whether the intent has lapsed. */
  predicate FinalCheckSees(cfg: Config, i: Intent, now: nat, o: P.Order) {
    && o.side == i.side && o.quantity == QuantityOf(i) && o.stop == i.stop
    && o.entry == (if i.entry.Some? then i.entry.value else 0.0)
    && o.equity == cfg.startingCash && o.buyingPower == cfg.startingCash && o.positionQty == 0.0
    && o.dataQuality == 1.0 && o.quoteAge == Some(0.0) && o.spreadBps == Some(10.0) && o.hardVetoes == []
    && o.tradable && o.marketOpen && !o.accountBlocked && !o.duplicate && !o.conflicting
    && o.openPositions == 0 && (o.expired <==> HasLapsed(i, now))
  }

  lemma FinalOrderIs(cfg: Config, i: Intent, now: nat)
    ensures FinalCheckSees(cfg, i, now, FinalOrder(cfg, i, now))
  {
  }

  /** What the final check asks of an intent. */
  predicate FitToSend(cfg: Config, i: Intent, now: nat) {
    var entry := if i.entry.Some? then i.entry.value else 0.0;
    && !HasLapsed(i, now) && entry > 0.0
    && (i.side == Buy ==> i.stop.Some? && i.stop.value < entry)
    && (i.side == Sell ==> i.stop.Some? && i.stop.value > entry && (cfg.policy.shortSelling || QuantityOf(i) <= 0.000000001))
    && cfg.startingCash * cfg.policy.riskPct > 0.0 && cfg.startingCash * cfg.policy.maxPositionPct > 0.0
    && cfg.startingCash > 0.0
    && cfg.policy.dataQualityFloor <= 1.0 && 0.0 <= cfg.policy.quoteMaxAge && 10.0 <= cfg.policy.maxSpreadBps
    && (i.side == Buy ==> cfg.policy.maxOpenPositions > 0)
  }

  lemma FinalCheckIff(cfg: Config, w: World, id: nat)
    requires id in w.db.intents
    ensures P.Passed(FinalVerdict(cfg, w, id)) <==> w.ctl == C.Active && FitToSend(cfg, w.db.intents[id], w.now)
  {
    var o := FinalOrder(cfg, w.db.intents[id], w.now);
    FinalOrderIs(cfg, w.db.intents[id], w.now);
    PR.PassesIff(cfg.policy, w.ctl, o);
  }

  /** After the gates: a failed final check rejects the intent, a crash in it changes nothing, and a
      passed one adopts the order the broker already has under the key or sends it. */
  lemma GatedIs(cfg: Config, w: World, id: nat, attempt: nat, r: Reply)
    requires Gate(cfg, w, id, attempt).None?
    ensures
      var (w', o) := SubmitIntent(cfg, w, id, attempt, r);
      var hard, k := FinalVerdict(cfg, w, id), IntentKey(id, attempt);
      && (hard.Crash? ==> w' == w && o == Raised(SizingCrashed))
      && (!hard.Crash? && !P.Passed(hard) ==>
            && o == Raised(FinalPretradeBlocked) && w'.broker == w.broker && OnlyThisIntent(w, w', id)
            && w'.db.orders == w.db.orders
            && w'.db.intents[id] == w.db.intents[id].(status := IntentStatus.RiskRejected))
      && (P.Passed(hard) && !AtBroker(w, id, attempt) ==> (w', o) == Send(w, id, k, r))
      && (P.Passed(hard) && AtBroker(w, id, attempt) ==>
            exists at :: 0 <= at < |w.broker| && w.broker[at].key == k && (w', o) == Recover(w, id, k, at))
  {
    var found := FindSent(w.broker, IntentKey(id, attempt));
    if P.Passed(FinalVerdict(cfg, w, id)) && found.Some? {
      assert w.broker[found.value].key == IntentKey(id, attempt);
    }
  }

  // ----- Over runs -----

  /** The step that sends: for whom, and what stood open. */
  predicate SendsProperly(cfg: Config, w: World, id: nat, o: SentOrder) {
    && id in w.db.intents && SentFor(w.db.intents[id], o.key, o)
    && w.db.intents[id].status == IntentStatus.Approved
    && w.ctl == C.Active && cfg.brokerOrders && cfg.brokerConnected
    && (LastRunIsBad(w.db.runs) ==> GetsOut(w.db.intents[id]))
    && FitToSend(cfg, w.db.intents[id], w.now)
  }

  lemma SubmitSendsProperly(cfg: Config, w: World, id: nat, attempt: nat, r: Reply)
    requires SubmitIntent(cfg, w, id, attempt, r).0.broker != w.broker
    ensures
      var sent := SubmitIntent(cfg, w, id, attempt, r).0.broker;
      && |sent| == |w.broker| + 1 && sent[|w.broker|].key == IntentKey(id, attempt)
      && SendsProperly(cfg, w, id, sent[|w.broker|])
  {
    assert Gate(cfg, w, id, attempt).None?;
    GateIs(cfg, w, id, attempt);
    RowFound(w, id, attempt);
    ReconciliationGateIs(cfg, w, id, attempt);
    GatedIs(cfg, w, id, attempt, r);
    FinalCheckIff(cfg, w, id);
    if QuantityOf(w.db.intents[id]) > 0.0 {
      SendIs(w, id, IntentKey(id, attempt), r);
    } else {
      NothingToSend(w, id, IntentKey(id, attempt), r);
    }
  }

  /** In every run, the step that sends is a submission of an approved intent that has not lapsed, for
      its own symbol, side and quantity, while trading is active and the broker switched on; and while
      the latest reconciliation found material drift, an unavailable broker or an invalid local state,
      only a reducing, closing or cancelling intent is sent. */
  lemma EverySendIsProper(cfg: Config, ctl: C.TradingState, now: nat, cs: seq<Call>, k: nat)
    requires k < |cs|
    ensures
      var w, w' := Run(cfg, Start(ctl, now), cs[..k]), Run(cfg, Start(ctl, now), cs[..k + 1]);
      w'.broker != w.broker ==>
        cs[k].Submit? && |w'.broker| == |w.broker| + 1 && SendsProperly(cfg, w, cs[k].id, w'.broker[|w.broker|])
  {
    var w := Run(cfg, Start(ctl, now), cs[..k]);
    RunTake(cfg, Start(ctl, now), cs, k);
    if cs[k].Submit? && Step(cfg, w, cs[k]).broker != w.broker {
      SubmitSendsProperly(cfg, w, cs[k].id, cs[k].attempt, cs[k].reply);
    }
  }

  /** An approved intent without a row that gets out is never stopped by reconciliation, and after a run
      that is in sync or found minor drift no intent is. */
  lemma ExitsAreNotBlocked(cfg: Config, w: World, id: nat, attempt: nat)
    requires id in w.db.intents && OpenForOrders(cfg, w)
    requires w.db.intents[id].status == IntentStatus.Approved && !HasRow(w, id, attempt)
    ensures GetsOut(w.db.intents[id]) ==> Gate(cfg, w, id, attempt) == None
    ensures w.db.runs != [] && w.db.runs[|w.db.runs| - 1] in {InSync, MinorDrift} ==> Gate(cfg, w, id, attempt) == None
  {
    ReconciliationGateIs(cfg, w, id, attempt);
  }

  /** After a reconciliation that could not read the broker, or that met a snapshot without a working
      local id, nothing is sent but an intent that gets out. */
  lemma UnreadBrokerBlocks(cfg: Config, w: World, s: OT.Store, remote: Option<seq<R.Remote>>, id: nat, attempt: nat, r: Reply)
    requires |R.Reconcile(s, remote).runs| == |s.runs| + 1
    requires w.db.runs != [] && w.db.runs[|w.db.runs| - 1] == RR.ResultOf(s, remote)
    requires remote == None || (remote.value != [] && RR.SomeMissing(s.rows, remote.value))
    requires id in w.db.intents && !GetsOut(w.db.intents[id])
    ensures SubmitIntent(cfg, w, id, attempt, r).0.broker == w.broker
  {
    RR.VerdictIs(s, remote);
    if SubmitIntent(cfg, w, id, attempt, r).0.broker != w.broker { SubmitSendsProperly(cfg, w, id, attempt, r); }
  }

  // ----- Validation, approval, rejection -----

  /** The check sees the intent's own request, the inputs of the call, and whether the intent lapsed. */
  predicate CheckSees(i: Intent, x: Inputs, now: nat, o: P.Order) {
    && o.side == i.side && o.quantity == i.quantity && o.stop == i.stop
    && o.entry == (if i.entry.Some? then i.entry.value else 0.0)
    && o.equity == x.equity && o.buyingPower == x.buyingPower && o.positionQty == x.positionQty
    && o.dataQuality == x.dataQuality && o.quoteAge == x.quoteAge && o.spreadBps == x.spreadBps
    && o.hardVetoes == x.hardVetoes && o.tradable == x.tradable && o.marketOpen == x.marketOpen
    && !o.accountBlocked && !o.duplicate && !o.conflicting && o.openPositions == 0
    && (o.expired <==> HasLapsed(i, now))
  }

  /** One more approval is asked for, open from now for as long as configured. */
  predicate AsksApproval(cfg: Config, w: World, s: Store, id: nat) {
    && |s.approvals| == |w.db.approvals| + 1 && s.approvals[..|w.db.approvals|] == w.db.approvals
    && s.approvals[|w.db.approvals|] == Approval(id, ApprovalPending, w.now, w.now + cfg.approvalMinutes, None)
  }

  /** Only the validated intent, the checks and the approvals change. */
  predicate OnlyChecks(w: World, w': World, id: nat) {
    && w' == w.(db := w'.db)
    && w'.db == w.db.(intents := w'.db.intents, checks := w'.db.checks, approvals := w'.db.approvals)
    && id in w'.db.intents && w'.db.intents == w.db.intents[id := w'.db.intents[id]]
  }

  /** A validation stores the verdict on what it saw. An order that does not pass leaves the intent
      rejected; one that passes is approved at the approved quantity, or waits for an operator who is
      then asked, if and only if manual approval is required. */
  lemma ValidationIs(cfg: Config, w: World, id: nat, x: Inputs)
    requires id in w.db.intents && !P.Validate(cfg.policy, w.ctl, OrderFor(w.db.intents[id], x, w.now)).Crash?
    ensures
      var (w', o) := ValidateIntent(cfg, w, id, x);
      var i, i' := w.db.intents[id], w'.db.intents[id];
      && o == Done && OnlyChecks(w, w', id)
      && |w'.db.checks| == |w.db.checks| + 1 && w'.db.checks[..|w.db.checks|] == w.db.checks
      && var c := w'.db.checks[|w.db.checks|];
         && c.intent == id && c.at == w.now && c.ctl == w.ctl && CheckSees(i, x, w.now, c.order)
         && c.verdict == P.Validate(cfg.policy, w.ctl, c.order) && c.verdict.Check?
         && i' == i.(status := i'.status, approvedQuantity := Some(c.verdict.approved))
         && (i'.status == IntentStatus.RiskRejected <==> !P.Passed(c.verdict))
         && (i'.status == IntentStatus.Approved <==> P.Passed(c.verdict) && !cfg.policy.manualApproval)
         && (i'.status == PendingApproval <==> P.Passed(c.verdict) && cfg.policy.manualApproval)
         && (if i'.status == PendingApproval then AsksApproval(cfg, w, w'.db, id) else w'.db.approvals == w.db.approvals)
  {
    P.PassedMeaning(cfg.policy, w.ctl, OrderFor(w.db.intents[id], x, w.now));
    PR.VerdictIs(cfg.policy, w.ctl, OrderFor(w.db.intents[id], x, w.now));
  }

  /** A check that crashes leaves the intent validating, and an unknown intent changes nothing. */
  lemma FailedValidationIs(cfg: Config, w: World, id: nat, x: Inputs)
    ensures id !in w.db.intents ==> ValidateIntent(cfg, w, id, x) == (w, Raised(IntentNotFound))
    ensures id in w.db.intents && P.Validate(cfg.policy, w.ctl, OrderFor(w.db.intents[id], x, w.now)).Crash? ==>
      var (w', o) := ValidateIntent(cfg, w, id, x);
      && o == Raised(SizingCrashed) && OnlyChecks(w, w', id)
      && w'.db.checks == w.db.checks && w'.db.approvals == w.db.approvals
      && w'.db.intents[id] == w.db.intents[id].(status := Validating)
  {
  }

  /** The place of the newest approval of an intent. */
  predicate NewestApproval(rows: seq<Approval>, id: nat, n: nat) {
    n < |rows| && rows[n].intent == id && forall m :: n < m < |rows| ==> rows[m].intent != id
  }

  predicate NoApproval(rows: seq<Approval>, id: nat) { forall n :: 0 <= n < |rows| ==> rows[n].intent != id }

  /** Only the intent's status and the one approval change. */
  predicate OnlyDecides(w: World, w': World, id: nat, status: IntentStatus) {
    && id in w.db.intents
    && w' == w.(db := w.db.(intents := w.db.intents[id := w.db.intents[id].(status := status)], approvals := w'.db.approvals))
  }

  /** An approval that is not asked for is refused; one in time approves the intent and is marked with
      the time; one past its expiry expires both. Without an approval row the intent is approved. */
  lemma ApprovalIs(w: World, id: nat)
    ensures
      var (w', o) := ApproveIntent(w, id);
      && (o == Raised(IntentNotFound) <==> id !in w.db.intents)
      && (id in w.db.intents && w.db.intents[id].status != PendingApproval ==>
            w' == w && o == Raised(NotAllowedFrom(w.db.intents[id].status)))
      && (id in w.db.intents && w.db.intents[id].status == PendingApproval ==>
            && (NoApproval(w.db.approvals, id) ==>
                  o == Done && OnlyDecides(w, w', id, IntentStatus.Approved) && w'.db.approvals == w.db.approvals)
            && forall n :: 0 <= n < |w.db.approvals| && NewestApproval(w.db.approvals, id, n) ==>
                 var row := w.db.approvals[n];
                 if row.expiresAt < w.now
                 then && o == Raised(ApprovalLapsed) && OnlyDecides(w, w', id, Expired)
                      && w'.db.approvals == w.db.approvals[n := row.(status := ApprovalExpired)]
                 else && o == Done && OnlyDecides(w, w', id, IntentStatus.Approved)
                      && w'.db.approvals == w.db.approvals[n := row.(status := ApprovalApproved, actedAt := Some(w.now))])
  {
    var a := LatestApproval(w.db.approvals, id);
  }

  /** A rejection takes effect from every status and marks the newest approval, if there is one. */
  lemma RejectionIs(w: World, id: nat)
    ensures
      var (w', o) := RejectIntent(w, id);
      && (o == Raised(IntentNotFound) <==> id !in w.db.intents)
      && (id !in w.db.intents ==> w' == w)
      && (id in w.db.intents ==>
            && o == Done && OnlyDecides(w, w', id, IntentStatus.Rejected)
            && (NoApproval(w.db.approvals, id) ==> w'.db.approvals == w.db.approvals)
            && forall n :: 0 <= n < |w.db.approvals| && NewestApproval(w.db.approvals, id, n) ==>
                 w'.db.approvals ==
                 w.db.approvals[n := w.db.approvals[n].(status := ApprovalRejected, actedAt := Some(w.now))])
  {
    var a := LatestApproval(w.db.approvals, id);
  }

  // ----- The other calls -----

  /** A new intent waits under an id of its own, which a rollback does not give back. */
  lemma CreationIs(cfg: Config, w: World, i: Intent)
    ensures
      var w' := Step(cfg, w, Create(i));
      && w' == w.(db := w'.db, nextIntent := w'.nextIntent) && w'.nextIntent == w.nextIntent + 1
      && w'.db == w.db.(intents := w'.db.intents)
      && (forall id :: id in w'.db.intents <==> id in w.db.intents || id == w.nextIntent)
      && (forall id :: id in w.db.intents && id != w.nextIntent ==> w'.db.intents[id] == w.db.intents[id])
      && var i' := w'.db.intents[w.nextIntent];
         && i'.status == Created && i'.approvedQuantity == None && i'.clientKey == None
         && i' == i.(status := i'.status, approvedQuantity := None, clientKey := None)
  {
  }

  /** A commit keeps what the session holds, and a rollback comes back to the last commit; neither
      touches the broker, the controls or the clock. */
  lemma {:induction false} RollbackForgets(cfg: Config, w: World, cs: seq<Call>)
    requires forall n :: 0 <= n < |cs| ==> cs[n] != Commit
    ensures
      var w' := Run(cfg, Step(cfg, w, Commit), cs);
      && w'.committed == w.db
      && Step(cfg, w', Rollback) == w'.(db := w.db)
    decreases |cs|
  {
    if cs != [] {
      RollbackForgets(cfg, w, cs[..|cs| - 1]);
      var before := Run(cfg, Step(cfg, w, Commit), cs[..|cs| - 1]);
      KeepsCommitted(cfg, before, cs[|cs| - 1]);
    }
  }

  lemma KeepsCommitted(cfg: Config, w: World, c: Call)
    requires c != Commit
    ensures Step(cfg, w, c).committed == w.committed
  {
  }
}
