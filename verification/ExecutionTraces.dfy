/** What holds over every run of the execution service: no order is sent twice, nothing is sent
    without a validation that covers it, and nothing is sent past a stop, a pause or a blocking
    reconciliation. */
module ExecutionTraces {
  import opened BrokerModels
  import opened Rounding
  import opened ExecutionServices
  import C = Controls
  import P = Pretrade
  import S = Sizing
  import OT = OrderTables

  // ----- The invariant -----

  ghost predicate UniqueSent(sent: seq<SentOrder>) {
    forall i, j :: 0 <= i < j < |sent| ==> sent[i].key != sent[j].key
  }

  ghost predicate UniqueRows(rows: seq<OT.OrderRow>) {
    forall i, j :: 0 <= i < j < |rows| ==> rows[i].key != rows[j].key
  }

  /** Every local row that names a broker order names the one recorded under its own key. */
  ghost predicate RowsMatchBroker(rows: seq<OT.OrderRow>, sent: seq<SentOrder>) {
    forall i :: 0 <= i < |rows| && rows[i].brokerId.Some? ==>
      rows[i].brokerId.value < |sent| && sent[rows[i].brokerId.value].key == rows[i].key
  }

  /** The intent stands on its most recent check: same request, passed, quantity as approved. */
  ghost predicate Covered(cfg: Config, s: Store, id: nat, now: nat) {
    id in s.intents &&
    var c := LatestCheck(s.checks, id);
    && c.Some?
    && c.value.at <= now
    && c.value.order.quantity == s.intents[id].quantity
    && c.value.verdict == P.Validate(cfg.policy, c.value.ctl, c.value.order)
    && P.Passed(c.value.verdict)
    && s.intents[id].approvedQuantity == Some(c.value.verdict.approved)
  }

  /** The latest approval belongs to the latest check. */
  ghost predicate ApprovalOpen(cfg: Config, s: Store, id: nat, now: nat) {
    var a := LatestApproval(s.approvals, id);
    var c := LatestCheck(s.checks, id);
    && a.Some? && c.Some?
    && c.value.at <= s.approvals[a.value].createdAt <= now
    && s.approvals[a.value].expiresAt == s.approvals[a.value].createdAt + cfg.approvalMinutes
  }

  /** ... and an operator granted it after the check and no later than its expiry. */
  ghost predicate ApprovalGranted(cfg: Config, s: Store, id: nat, now: nat) {
    && ApprovalOpen(cfg, s, id, now)
    && var a := s.approvals[LatestApproval(s.approvals, id).value];
       a.status.ApprovalApproved? && a.actedAt.Some? && a.createdAt <= a.actedAt.value <= a.expiresAt
  }

  ghost predicate IntentSound(cfg: Config, s: Store, id: nat, now: nat)
    requires id in s.intents
  {
    var st := s.intents[id].status;
    && (st.PendingApproval? || st.Approved? ==> Covered(cfg, s, id, now))
    && (cfg.policy.manualApproval && st.PendingApproval? ==> ApprovalOpen(cfg, s, id, now))
    && (cfg.policy.manualApproval && st.Approved? ==> ApprovalGranted(cfg, s, id, now))
  }

  ghost predicate StoreSound(cfg: Config, s: Store, sent: seq<SentOrder>, now: nat) {
    && UniqueRows(s.orders)
    && RowsMatchBroker(s.orders, sent)
    && forall id :: id in s.intents ==> IntentSound(cfg, s, id, now)
  }

  ghost predicate Sound(cfg: Config, w: World) {
    && UniqueSent(w.broker)
    && StoreSound(cfg, w.db, w.broker, w.now)
    && StoreSound(cfg, w.committed, w.broker, w.now)
  }

  // ----- Frames -----

  lemma CheckSnoc(rows: seq<CheckRow>, c: CheckRow, id: nat)
    ensures LatestCheck(rows + [c], id) == if c.intent == id then Some(c) else LatestCheck(rows, id)
  {
    assert (rows + [c])[..|rows|] == rows;
  }

  lemma ApprovalSnoc(rows: seq<Approval>, a: Approval, id: nat)
    ensures LatestApproval(rows + [a], id) == if a.intent == id then Some(|rows|) else LatestApproval(rows, id)
  {
    assert (rows + [a])[..|rows|] == rows;
  }

  /** Editing an approval in place does not change which approval is the latest. */
  lemma {:induction false} ApprovalEdit(rows: seq<Approval>, at: nat, a: Approval, id: nat)
    requires at < |rows| && a.intent == rows[at].intent
    ensures LatestApproval(rows[at := a], id) == LatestApproval(rows, id)
  {
    var edited := rows[at := a];
    if at < |rows| - 1 {
      ApprovalEdit(rows[..|rows| - 1], at, a, id);
      assert edited[..|rows| - 1] == rows[..|rows| - 1][at := a];
    } else {
      assert edited[..|rows| - 1] == rows[..|rows| - 1];
    }
  }

  /** Soundness of one intent depends only on that intent, its latest check and its latest approval. */
  lemma SoundFrame(cfg: Config, s: Store, s': Store, id: nat, now: nat)
    requires id in s.intents && id in s'.intents && s'.intents[id] == s.intents[id]
    requires IntentSound(cfg, s, id, now)
    requires LatestCheck(s'.checks, id) == LatestCheck(s.checks, id)
    requires LatestApproval(s'.approvals, id) == LatestApproval(s.approvals, id)
    requires LatestApproval(s.approvals, id).Some? ==>
      var a := LatestApproval(s.approvals, id).value; s'.approvals[a] == s.approvals[a]
    ensures IntentSound(cfg, s', id, now)
  {
  }

  lemma TimePasses(cfg: Config, s: Store, sent: seq<SentOrder>, now: nat, later: nat)
    requires StoreSound(cfg, s, sent, now) && now <= later
    ensures StoreSound(cfg, s, sent, later)
  {
    forall id | id in s.intents
      ensures IntentSound(cfg, s, id, later)
    {
      assert IntentSound(cfg, s, id, now);
    }
  }

  lemma BrokerGrows(cfg: Config, s: Store, sent: seq<SentOrder>, o: SentOrder, now: nat)
    requires StoreSound(cfg, s, sent, now)
    ensures StoreSound(cfg, s, sent + [o], now)
  {
  }

  /** Moving an intent out of the two approval states needs nothing from its history. */
  lemma RetireIntent(cfg: Config, s: Store, id: nat, i: Intent, now: nat)
    requires forall x :: x in s.intents ==> IntentSound(cfg, s, x, now)
    requires !i.status.PendingApproval? && !i.status.Approved?
    ensures forall x :: x in WithIntent(s, id, i).intents ==> IntentSound(cfg, WithIntent(s, id, i), x, now)
  {
    forall x | x in WithIntent(s, id, i).intents
      ensures IntentSound(cfg, WithIntent(s, id, i), x, now)
    {
      if x != id { SoundFrame(cfg, s, WithIntent(s, id, i), x, now); }
    }
  }

  // ----- Each call keeps it -----

  lemma ValidateKeepsSound(cfg: Config, w: World, id: nat, x: Inputs)
    requires Sound(cfg, w)
    ensures Sound(cfg, ValidateIntent(cfg, w, id, x).0)
  {
    if id in w.db.intents {
      var w' := ValidateIntent(cfg, w, id, x).0;
      var i := w.db.intents[id];
      var order := OrderFor(i, x, w.now);
      var v := P.Validate(cfg.policy, w.ctl, order);
      if v.Crash? {
        RetireIntent(cfg, w.db, id, i.(status := Validating), w.now);
      } else {
        var c := CheckRow(id, w.now, w.ctl, order, v);
        var a := Approval(id, ApprovalPending, w.now, w.now + cfg.approvalMinutes, None);
        P.PassedMeaning(cfg.policy, w.ctl, order);
        forall y | y in w'.db.intents
          ensures IntentSound(cfg, w'.db, y, w.now)
        {
          CheckSnoc(w.db.checks, c, y);
          ApprovalSnoc(w.db.approvals, a, y);
          if y != id { SoundFrame(cfg, w.db, w'.db, y, w.now); }
        }
      }
    }
  }

  lemma EditKeepsOthers(cfg: Config, s: Store, id: nat, i: Intent, at: nat, a: Approval, now: nat, y: nat)
    requires y in s.intents && y != id && IntentSound(cfg, s, y, now)
    requires at < |s.approvals| && s.approvals[at].intent == id && a.intent == id
    ensures
      var s' := WithIntent(s, id, i).(approvals := s.approvals[at := a]);
      y in s'.intents && IntentSound(cfg, s', y, now)
  {
    ApprovalEdit(s.approvals, at, a, y);
    SoundFrame(cfg, s, WithIntent(s, id, i).(approvals := s.approvals[at := a]), y, now);
  }

  lemma ApproveKeepsSound(cfg: Config, w: World, id: nat)
    requires Sound(cfg, w)
    ensures Sound(cfg, ApproveIntent(w, id).0)
  {
    var w' := ApproveIntent(w, id).0;
    if id in w.db.intents && w.db.intents[id].status.PendingApproval? {
      assert IntentSound(cfg, w.db, id, w.now);
      var la := LatestApproval(w.db.approvals, id);
      forall y | y in w'.db.intents
        ensures IntentSound(cfg, w'.db, y, w.now)
      {
        if la.Some? {
          var a := w'.db.approvals[la.value];
          ApprovalEdit(w.db.approvals, la.value, a, y);
          if y != id { EditKeepsOthers(cfg, w.db, id, w'.db.intents[id], la.value, a, w.now, y); }
        } else if y != id {
          SoundFrame(cfg, w.db, w'.db, y, w.now);
        }
      }
    }
  }

  lemma RejectKeepsSound(cfg: Config, w: World, id: nat)
    requires Sound(cfg, w)
    ensures Sound(cfg, RejectIntent(w, id).0)
  {
    var w' := RejectIntent(w, id).0;
    if id in w.db.intents {
      var la := LatestApproval(w.db.approvals, id);
      forall y | y in w'.db.intents
        ensures IntentSound(cfg, w'.db, y, w.now)
      {
        if y != id {
          if la.Some? {
            EditKeepsOthers(cfg, w.db, id, w'.db.intents[id], la.value, w'.db.approvals[la.value], w.now, y);
          } else {
            SoundFrame(cfg, w.db, w'.db, y, w.now);
          }
        }
      }
    }
  }

  lemma NewRowKeepsSound(cfg: Config, s: Store, sent: seq<SentOrder>, id: nat, i: Intent, row: OT.OrderRow, now: nat)
    requires StoreSound(cfg, s, sent, now)
    requires !i.status.PendingApproval? && !i.status.Approved?
    requires OT.FindRow(s.orders, row.key).None?
    requires row.brokerId.Some? ==> row.brokerId.value < |sent| && sent[row.brokerId.value].key == row.key
    ensures StoreSound(cfg, NewRow(s, id, i, row), sent, now)
  {
    var s' := NewRow(s, id, i, row);
    RetireIntent(cfg, s, id, i, now);
    forall x | x in s'.intents
      ensures IntentSound(cfg, s', x, now)
    {
      SoundFrame(cfg, WithIntent(s, id, i), s', x, now);
    }
  }

  lemma SendKeepsSound(cfg: Config, w: World, id: nat, k: Key, r: Reply)
    requires Sound(cfg, w) && id in w.db.intents
    requires OT.FindRow(w.db.orders, k).None? && FindSent(w.broker, k).None?
    ensures Sound(cfg, Send(w, id, k, r).0)
  {
    var w' := Send(w, id, k, r).0;
    var i := w.db.intents[id].(clientKey := Some(k));
    if Effective(i) <= 0.0 {
      RetireIntent(cfg, w.db, id, i.(status := Failed), w.now);
    } else {
      if Recorded(r) {
        var o := w'.broker[|w.broker|];
        BrokerGrows(cfg, w.db, w.broker, o, w.now);
        BrokerGrows(cfg, w.committed, w.broker, o, w.now);
      }
      NewRowKeepsSound(cfg, w.db, w'.broker, id, w'.db.intents[id], w'.db.orders[|w.db.orders|], w.now);
    }
  }

  lemma GatedKeepsSound(cfg: Config, w: World, id: nat, k: Key, hard: P.Verdict, r: Reply)
    requires Sound(cfg, w) && id in w.db.intents && OT.FindRow(w.db.orders, k).None?
    ensures Sound(cfg, SubmitGated(w, id, k, hard, r).0)
  {
    RetireIntent(cfg, w.db, id, w.db.intents[id].(status := IntentStatus.RiskRejected), w.now);
    var remote := FindSent(w.broker, k);
    if remote.Some? {
      var w' := Recover(w, id, k, remote.value).0;
      NewRowKeepsSound(cfg, w.db, w.broker, id, w'.db.intents[id], w'.db.orders[|w.db.orders|], w.now);
    } else {
      SendKeepsSound(cfg, w, id, k, r);
    }
  }

  lemma SubmitKeepsSound(cfg: Config, w: World, id: nat, attempt: nat, r: Reply)
    requires Sound(cfg, w)
    ensures Sound(cfg, SubmitIntent(cfg, w, id, attempt, r).0)
  {
    if Gate(cfg, w, id, attempt).None? {
      GatedKeepsSound(cfg, w, id, IntentKey(id, attempt), FinalVerdict(cfg, w, id), r);
    }
  }

  lemma StepKeepsSound(cfg: Config, w: World, c: Call)
    requires Sound(cfg, w)
    ensures Sound(cfg, Step(cfg, w, c))
  {
    match c
    case Create(i) =>
      RetireIntent(cfg, w.db, w.nextIntent, i.(status := Created, approvedQuantity := None, clientKey := None), w.now);
    case Validate(id, x) => ValidateKeepsSound(cfg, w, id, x);
    case Approve(id) => ApproveKeepsSound(cfg, w, id);
    case Reject(id) => RejectKeepsSound(cfg, w, id);
    case Submit(id, attempt, r) => SubmitKeepsSound(cfg, w, id, attempt, r);
    case Reconciled(result) =>
      var s' := w.db.(runs := w.db.runs + [result]);
      forall x | x in s'.intents ensures IntentSound(cfg, s', x, w.now) { SoundFrame(cfg, w.db, s', x, w.now); }
    case Elapse(ticks) =>
      TimePasses(cfg, w.db, w.broker, w.now, w.now + ticks);
      TimePasses(cfg, w.committed, w.broker, w.now, w.now + ticks);
    case _ =>
  }

  lemma {:induction false} RunKeepsSound(cfg: Config, ctl: C.TradingState, now: nat, cs: seq<Call>)
    ensures Sound(cfg, Run(cfg, Start(ctl, now), cs))
    decreases |cs|
  {
    if cs != [] {
      RunKeepsSound(cfg, ctl, now, cs[..|cs| - 1]);
      StepKeepsSound(cfg, Run(cfg, Start(ctl, now), cs[..|cs| - 1]), cs[|cs| - 1]);
    }
  }

  // ----- Exactly once -----

  predicate FirstAttempts(cs: seq<Call>) {
    forall i :: 0 <= i < |cs| && cs[i].Submit? ==> cs[i].attempt == 1
  }

  ghost predicate AddsAtMost(sent: seq<SentOrder>, sent': seq<SentOrder>, k: Key) {
    sent' == sent || (|sent'| == |sent| + 1 && sent'[..|sent|] == sent && sent'[|sent|].key == k)
  }

  lemma GatedSends(w: World, id: nat, k: Key, hard: P.Verdict, r: Reply)
    requires id in w.db.intents
    ensures AddsAtMost(w.broker, SubmitGated(w, id, k, hard, r).0.broker, k)
  {
    var sent := SubmitGated(w, id, k, hard, r).0.broker;
    if sent != w.broker { assert sent[..|w.broker|] == w.broker; }
  }

  /** Only a submit adds to the broker's book, and it adds one order under its own key. */
  lemma StepSends(cfg: Config, w: World, c: Call)
    ensures
      var sent := Step(cfg, w, c).broker;
      sent == w.broker || (c.Submit? && AddsAtMost(w.broker, sent, IntentKey(c.id, c.attempt)))
  {
    if c.Submit? && Gate(cfg, w, c.id, c.attempt).None? {
      GatedSends(w, c.id, IntentKey(c.id, c.attempt), FinalVerdict(cfg, w, c.id), c.reply);
    }
  }

  ghost predicate AllFirst(sent: seq<SentOrder>) {
    forall i :: 0 <= i < |sent| ==> sent[i].key.IntentKey? && sent[i].key.attempt == 1
  }

  lemma {:induction false} SentByFirstAttempts(cfg: Config, ctl: C.TradingState, now: nat, cs: seq<Call>)
    requires FirstAttempts(cs)
    ensures AllFirst(Run(cfg, Start(ctl, now), cs).broker)
    decreases |cs|
  {
    if cs != [] {
      var init, last := cs[..|cs| - 1], cs[|cs| - 1];
      SentByFirstAttempts(cfg, ctl, now, init);
      var before, sent := Run(cfg, Start(ctl, now), init).broker, Run(cfg, Start(ctl, now), cs).broker;
      StepSends(cfg, Run(cfg, Start(ctl, now), init), last);
      forall i | 0 <= i < |sent|
        ensures sent[i].key.IntentKey? && sent[i].key.attempt == 1
      {
        if i < |before| { assert sent[i] == sent[..|before|][i] == before[i]; }
      }
    }
  }

  /** Over every run of create, validate, approve, reject and first-attempt submit calls, with any
      broker reply, any commit and any rollback of uncommitted rows, the broker never holds two
      orders for one intent, there is never a second local row for a key, and a local row that
      names a broker order names the one recorded under its key. */
  lemma AtMostOneOrderPerIntent(cfg: Config, ctl: C.TradingState, now: nat, cs: seq<Call>)
    requires FirstAttempts(cs)
    ensures
      var w := Run(cfg, Start(ctl, now), cs);
      && (forall i, j :: 0 <= i < j < |w.broker| && w.broker[i].key.IntentKey? && w.broker[j].key.IntentKey?
            ==> w.broker[i].key.intent != w.broker[j].key.intent)
      && UniqueRows(w.db.orders) && RowsMatchBroker(w.db.orders, w.broker)
  {
    RunKeepsSound(cfg, ctl, now, cs);
    SentByFirstAttempts(cfg, ctl, now, cs);
  }

  /** Once the broker holds the order, no submission sends it again, whatever the local rows say.
      If the local row was lost and the gates let the intent through, a row naming the recorded
      order is restored. */
  lemma LostRowIsRecovered(cfg: Config, w: World, id: nat, attempt: nat, r: Reply)
    ensures
      var k := IntentKey(id, attempt);
      var (w', o) := SubmitIntent(cfg, w, id, attempt, r);
      FindSent(w.broker, k).Some? ==>
        && w'.broker == w.broker
        && (Gate(cfg, w, id, attempt).None? && P.Passed(FinalVerdict(cfg, w, id)) ==>
              && o.Returned? && o.row < |w'.db.orders|
              && w'.db.orders[o.row].key == k
              && w'.db.orders[o.row].brokerId == FindSent(w.broker, k)
              && w'.db.orders[o.row].qty == Effective(w.db.intents[id])
              && w'.db.intents[id].status == Submitted)
  {
  }

  // ----- Nothing is sent uncovered -----

  /** The check an order is sent under, and what that check allows. */
  ghost predicate SendJustified(cfg: Config, w: World, id: nat, o: SentOrder) {
    && id in w.db.intents
    && Covered(cfg, w.db, id, w.now)
    && var c := LatestCheck(w.db.checks, id).value;
       && o.qty > 0.0
       && o.qty == Or(Some(c.verdict.approved), c.order.quantity)
       && (o.qty <= c.verdict.approved <==> c.verdict.approved > 0.0)
       && (c.verdict.approved > 0.0 ==>
             o.qty <= Min(c.order.quantity, S.QuantityOf(S.Size(P.SizingOf(cfg.policy, c.order)))))
       && (cfg.policy.manualApproval ==> ApprovalGranted(cfg, w.db, id, w.now))
       && w.ctl.Active?
       && (Blocking(w.db.runs) ==> IsExit(w.db.intents[id]))
  }

  lemma SubmitIsJustified(cfg: Config, w: World, id: nat, attempt: nat, r: Reply)
    requires Sound(cfg, w)
    ensures
      var sent := SubmitIntent(cfg, w, id, attempt, r).0.broker;
      sent != w.broker ==>
        && |sent| == |w.broker| + 1 && sent[..|w.broker|] == w.broker
        && sent[|w.broker|].key == IntentKey(id, attempt)
        && SendJustified(cfg, w, id, sent[|w.broker|])
  {
    if SubmitIntent(cfg, w, id, attempt, r).0.broker != w.broker {
      assert Gate(cfg, w, id, attempt).None?;
      assert IntentSound(cfg, w.db, id, w.now);
      var i := w.db.intents[id];
      P.PassedMeaning(cfg.policy, w.ctl, FinalOrder(cfg, i, w.now));
      var c := LatestCheck(w.db.checks, id).value;
      P.PassedMeaning(cfg.policy, c.ctl, c.order);
      assert SubmitIntent(cfg, w, id, attempt, r) == Send(w, id, IntentKey(id, attempt), r);
      assert SubmitIntent(cfg, w, id, attempt, r).0.broker[..|w.broker|] == w.broker;
    }
  }

  /** In every run, the step that sends an order is a submit of an intent whose most recent check
      passed; the quantity sent is that check's approval - at most the smaller of requested and
      sized - exactly when the approval was positive, and the full request when it had rounded to
      zero. With manual approval required, an operator approved after that check and before the
      approval's expiry. Trading was active, and a blocking reconciliation let only exits through. */
  lemma EverySendIsJustified(cfg: Config, ctl: C.TradingState, now: nat, cs: seq<Call>, k: nat)
    requires k < |cs|
    ensures
      var w := Run(cfg, Start(ctl, now), cs[..k]);
      var w' := Run(cfg, Start(ctl, now), cs[..k + 1]);
      w'.broker != w.broker ==>
        && cs[k].Submit?
        && |w'.broker| == |w.broker| + 1 && w'.broker[..|w.broker|] == w.broker
        && SendJustified(cfg, w, cs[k].id, w'.broker[|w.broker|])
  {
    var w := Run(cfg, Start(ctl, now), cs[..k]);
    assert cs[..k + 1][..k] == cs[..k];
    RunKeepsSound(cfg, ctl, now, cs[..k]);
    if cs[k].Submit? && Step(cfg, w, cs[k]).broker != w.broker {
      SubmitIsJustified(cfg, w, cs[k].id, cs[k].attempt, cs[k].reply);
    }
  }

  // ----- The quantity of a restored row -----

  /** The quantity a stored check lets through. */
  function CheckedQuantity(c: CheckRow): real
    requires c.verdict.Check?
  {
    Or(Some(c.verdict.approved), c.order.quantity)
  }

  /** The order is at the broker, has no local row, and the gates let the intent through. */
  predicate Recovers(cfg: Config, w: World, id: nat, attempt: nat) {
    && FindSent(w.broker, IntentKey(id, attempt)).Some?
    && Gate(cfg, w, id, attempt).None?
    && P.Passed(FinalVerdict(cfg, w, id))
  }

  /** What a submission sends or restores is the quantity of the intent's latest check. */
  lemma QuantityFollowsCheck(cfg: Config, w: World, id: nat, attempt: nat)
    requires Sound(cfg, w) && Gate(cfg, w, id, attempt).None?
    ensures
      var c := LatestCheck(w.db.checks, id);
      c.Some? && c.value.verdict.Check? && Effective(w.db.intents[id]) == CheckedQuantity(c.value)
  {
    assert IntentSound(cfg, w.db, id, w.now);
  }

  lemma StepGrows(cfg: Config, w: World, c: Call)
    ensures w.broker <= Step(cfg, w, c).broker
  {
    StepSends(cfg, w, c);
  }

  /** The broker's book after the first n calls. */
  function BookAt(cfg: Config, w: World, cs: seq<Call>, n: nat): seq<SentOrder>
    requires n <= |cs|
  {
    Run(cfg, w, cs[..n]).broker
  }

  lemma NextGrows(cfg: Config, w: World, cs: seq<Call>, n: nat)
    requires n < |cs|
    ensures BookAt(cfg, w, cs, n) <= BookAt(cfg, w, cs, n + 1)
  {
    RunTake(cfg, w, cs, n);
    StepGrows(cfg, Run(cfg, w, cs[..n]), cs[n]);
  }

  lemma {:induction false} BrokerOnlyGrows(cfg: Config, w: World, cs: seq<Call>, k: nat, n: nat)
    requires k <= n <= |cs|
    ensures BookAt(cfg, w, cs, k) <= BookAt(cfg, w, cs, n)
  {
    if k < n {
      BrokerOnlyGrows(cfg, w, cs, k, n - 1);
      NextGrows(cfg, w, cs, n - 1);
    }
  }

  lemma SentStaysFound(cfg: Config, ctl: C.TradingState, now: nat, cs: seq<Call>, k: nat, n: nat)
    requires k < n <= |cs| && cs[k].Submit?
    ensures
      var before, after := Run(cfg, Start(ctl, now), cs[..k]), Run(cfg, Start(ctl, now), cs[..n]);
      Run(cfg, Start(ctl, now), cs[..k + 1]).broker != before.broker ==>
        && FindSent(after.broker, IntentKey(cs[k].id, cs[k].attempt)) == Some(|before.broker|)
        && LatestCheck(before.db.checks, cs[k].id).Some?
        && LatestCheck(before.db.checks, cs[k].id).value.verdict.Check?
        && after.broker[|before.broker|].qty == CheckedQuantity(LatestCheck(before.db.checks, cs[k].id).value)
  {
    var w, wk := Start(ctl, now), Run(cfg, Start(ctl, now), cs[..k]);
    RunTake(cfg, w, cs, k);
    RunKeepsSound(cfg, ctl, now, cs[..k]);
    SubmitIsJustified(cfg, wk, cs[k].id, cs[k].attempt, cs[k].reply);
    var wk1, wn := Run(cfg, w, cs[..k + 1]), Run(cfg, w, cs[..n]);
    if wk1.broker != wk.broker {
      BrokerOnlyGrows(cfg, w, cs, k + 1, n);
      RunKeepsSound(cfg, ctl, now, cs[..n]);
      assert wn.broker[|wk.broker|] == wk1.broker[|wk.broker|];
    }
  }

  /** In every run: an order sent at step k whose local row was lost is restored at step n with the
      broker's quantity if and only if the intent's latest check then lets the same quantity
      through as the one the order was sent under. */
  lemma RestoredQuantityAgreesIff(cfg: Config, ctl: C.TradingState, now: nat, cs: seq<Call>, k: nat, n: nat)
    requires k < n < |cs| && cs[k].Submit? && cs[n].Submit?
    requires cs[n].id == cs[k].id && cs[n].attempt == cs[k].attempt
    ensures
      var w, w', id := Run(cfg, Start(ctl, now), cs[..k]), Run(cfg, Start(ctl, now), cs[..n]), cs[k].id;
      Run(cfg, Start(ctl, now), cs[..k + 1]).broker != w.broker && Recovers(cfg, w', id, cs[n].attempt) ==>
        var sent, latest := LatestCheck(w.db.checks, id), LatestCheck(w'.db.checks, id);
        var (w'', o) := SubmitIntent(cfg, w', id, cs[n].attempt, cs[n].reply);
        && sent.Some? && sent.value.verdict.Check? && latest.Some? && latest.value.verdict.Check?
        && o.Returned? && o.row < |w''.db.orders|
        && w''.db.orders[o.row].brokerId == Some(|w.broker|) && |w.broker| < |w'.broker|
        && (w''.db.orders[o.row].qty == w'.broker[|w.broker|].qty <==>
              CheckedQuantity(latest.value) == CheckedQuantity(sent.value))
  {
    var w' := Run(cfg, Start(ctl, now), cs[..n]);
    SentStaysFound(cfg, ctl, now, cs, k, n);
    RunKeepsSound(cfg, ctl, now, cs[..n]);
    if Recovers(cfg, w', cs[n].id, cs[n].attempt) {
      QuantityFollowsCheck(cfg, w', cs[n].id, cs[n].attempt);
      LostRowIsRecovered(cfg, w', cs[n].id, cs[n].attempt, cs[n].reply);
    }
  }

  // ----- Sells -----

  const DUST := 0.000000001

  ghost predicate SellsAreDust(sent: seq<SentOrder>) {
    forall i :: 0 <= i < |sent| && sent[i].side.Sell? ==> sent[i].qty <= DUST
  }

  /** The final gate runs against an empty position, so without short selling it stops every sell. */
  lemma GateStopsSells(cfg: Config, w: World, id: nat)
    requires !cfg.policy.shortSelling && id in w.db.intents && w.db.intents[id].side.Sell?
    ensures P.Passed(FinalVerdict(cfg, w, id)) ==> Effective(w.db.intents[id]) <= DUST
  {
    var o := FinalOrder(cfg, w.db.intents[id], w.now);
    P.PassedMeaning(cfg.policy, w.ctl, o);
    if P.Passed(FinalVerdict(cfg, w, id)) {
      assert |P.Objections(cfg.policy, o)| == 0 && |P.MarketObjections(cfg.policy, o)| == 0;
      assert |P.Flag(P.ShortsWithoutLeave(cfg.policy, o), P.ShortSellingDisabled)| == 0;
    }
  }

  lemma SubmitSellsDust(cfg: Config, w: World, id: nat, attempt: nat, r: Reply)
    requires !cfg.policy.shortSelling && SellsAreDust(w.broker)
    ensures SellsAreDust(SubmitIntent(cfg, w, id, attempt, r).0.broker)
  {
    if Gate(cfg, w, id, attempt).None? {
      if w.db.intents[id].side.Sell? { GateStopsSells(cfg, w, id); }
    }
  }

  /** With short selling off, no run ever sends a sell of more than 1e-9 shares, not even to close
      a position. */
  lemma {:induction false} SellsNeedShortSelling(cfg: Config, ctl: C.TradingState, now: nat, cs: seq<Call>)
    requires !cfg.policy.shortSelling
    ensures SellsAreDust(Run(cfg, Start(ctl, now), cs).broker)
    decreases |cs|
  {
    if cs != [] {
      var w, c := Run(cfg, Start(ctl, now), cs[..|cs| - 1]), cs[|cs| - 1];
      SellsNeedShortSelling(cfg, ctl, now, cs[..|cs| - 1]);
      if c.Submit? { SubmitSellsDust(cfg, w, c.id, c.attempt, c.reply); }
    }
  }

  // ----- An approval that rounds to zero releases the whole request -----

  const SamplePolicy := P.Policy(false, 0.0, 60.0, 50.0, 10, false, 1.0, 100.0, false)

  /** Any positive starting cash will do for the final gate. */
  function SampleConfig(cash: real): Config { Config(SamplePolicy, true, true, cash, 30) }

  const SampleIntent := Intent(OpenLong, "", "XYZ", Buy, 5.0, Some(100000.0), Some(1.0), Limit, None, Created, None, None)
  const SampleInputs := Inputs(1.0, 1000000.0, 0.0, 1.0, Some(0.0), Some(10.0), [], true, true)

  lemma SampleCheckSize()
    ensures S.Size(P.SizingOf(SamplePolicy, OrderFor(SampleIntent, SampleInputs, 0))).Sized?
    ensures S.Size(P.SizingOf(SamplePolicy, OrderFor(SampleIntent, SampleInputs, 0))).quantity == 0.0
  {
    var inp := P.SizingOf(SamplePolicy, OrderFor(SampleIntent, SampleInputs, 0));
    assert S.Misdirected(inp).None? && S.RiskAmount(inp) == 0.01 && S.PositionBudget(inp) == 1.0;
    assert S.Caps(inp) == [Over(0.01, 99999.0), Over(1.0, 100000.0), Over(1000000.0, 100000.0)];
    assert 0.0 < S.RawQuantity(inp) <= S.Caps(inp)[0] < 0.0000002;
    S.BuyingPowerGuardIsDead(inp);
    assert HalfEven(S.RawQuantity(inp) * 1000000.0) == 0;
  }

  lemma SampleGateSize(cash: real)
    requires cash > 0.0
    ensures S.Size(P.SizingOf(SamplePolicy, FinalOrder(SampleConfig(cash), SampleIntent, 0))).Sized?
  {
    var inp := P.SizingOf(SamplePolicy, FinalOrder(SampleConfig(cash), SampleIntent, 0));
    assert S.RiskAmount(inp) == cash / 100.0 && S.PositionBudget(inp) == cash;
    S.PositiveBudgetsSize(inp);
  }

  const SampleApproved := SampleIntent.(status := IntentStatus.Approved, approvedQuantity := Some(0.0))

  lemma SampleValidation(cash: real, w: World)
    requires w.ctl.Active? && w.now == 0 && 0 in w.db.intents && w.db.intents[0] == SampleIntent
    ensures
      var s := ValidateIntent(SampleConfig(cash), w, 0, SampleInputs).0.db;
      && s.intents[0] == SampleApproved
      && |s.checks| == |w.db.checks| + 1
      && s.checks[|w.db.checks|].verdict.Check? && s.checks[|w.db.checks|].verdict.approved == 0.0
      && s.orders == w.db.orders && s.runs == w.db.runs
  {
    SampleCheckSize();
    P.PassedMeaning(SamplePolicy, C.Active, OrderFor(SampleIntent, SampleInputs, 0));
  }

  lemma SampleSubmission(cash: real, w: World)
    requires cash > 0.0
    requires w.ctl.Active? && w.now == 0 && 0 in w.db.intents && w.db.intents[0] == SampleApproved
    requires w.db.orders == [] && w.db.runs == [] && w.broker == []
    ensures
      var w' := SubmitIntent(SampleConfig(cash), w, 0, 1, Accept(Filled)).0;
      |w'.broker| == 1 && w'.broker[0].qty == 5.0 && w'.db.checks == w.db.checks
  {
    SampleGateSize(cash);
    assert FinalOrder(SampleConfig(cash), SampleApproved, 0) == FinalOrder(SampleConfig(cash), SampleIntent, 0);
    P.PassedMeaning(SamplePolicy, C.Active, FinalOrder(SampleConfig(cash), SampleApproved, 0));
    assert Effective(SampleApproved) == 5.0;
  }

  const SampleRun := [Create(SampleIntent), Validate(0, SampleInputs), Submit(0, 1, Accept(Filled))]

  lemma SampleSteps(cash: real)
    ensures
      var cfg, w0 := SampleConfig(cash), Start(C.Active, 0);
      Run(cfg, w0, SampleRun) == Step(cfg, Step(cfg, Step(cfg, w0, SampleRun[0]), SampleRun[1]), SampleRun[2])
  {
    var cfg, w0 := SampleConfig(cash), Start(C.Active, 0);
    RunTake(cfg, w0, SampleRun, 0);
    RunTake(cfg, w0, SampleRun, 1);
    RunTake(cfg, w0, SampleRun, 2);
    assert SampleRun[..0] == [] && SampleRun[..3] == SampleRun;
  }

  /** A check that approves zero shares, then a submission of all five. */
  lemma ZeroApprovalSendsFullRequest(cash: real)
    requires cash > 0.0
    ensures
      var w := Run(SampleConfig(cash), Start(C.Active, 0), SampleRun);
      && |w.db.checks| == 1 && w.db.checks[0].verdict.Check? && w.db.checks[0].verdict.approved == 0.0
      && |w.broker| == 1 && w.broker[0].qty == 5.0
  {
    SampleSteps(cash);
    var w1 := Step(SampleConfig(cash), Start(C.Active, 0), SampleRun[0]);
    SampleValidation(cash, w1);
    SampleSubmission(cash, Step(SampleConfig(cash), w1, SampleRun[1]));
  }

  // ----- A restored row with another quantity than its order -----

  const LotIntent := Intent(OpenLong, "", "XYZ", Buy, 10.0, Some(2.0), Some(1.0), Limit, None, Created, None, None)

  function LotInputs(equity: real): Inputs {
    Inputs(equity, 1000000.0, 0.0, 1.0, Some(0.0), Some(10.0), [], true, true)
  }

  /** A quantity one percent of some equity can buy in whole micro-shares. */
  predicate Lot(q: real) { 0.0 < q <= 10.0 && OnGrid6(q) }

  /** One percent of the equity, at a stop one dollar away, is that many shares. */
  lemma LotSize(q: real)
    requires Lot(q)
    ensures
      var size := S.Size(P.SizingOf(SamplePolicy, OrderFor(LotIntent, LotInputs(100.0 * q), 0)));
      size.Sized? && size.quantity == q
  {
    var inp := P.SizingOf(SamplePolicy, OrderFor(LotIntent, LotInputs(100.0 * q), 0));
    assert S.StopDistance(inp) == 1.0 && S.RiskAmount(inp) == q && S.PositionBudget(inp) == 100.0 * q;
    S.RiskDecides(inp, q);
  }

  function LotApproved(q: real): Intent {
    LotIntent.(status := IntentStatus.Approved, approvedQuantity := Some(q))
  }

  lemma LotGateSize(cash: real, q: real)
    requires cash > 0.0
    ensures S.Size(P.SizingOf(SamplePolicy, FinalOrder(SampleConfig(cash), LotApproved(q), 0))).Sized?
  {
    var inp := P.SizingOf(SamplePolicy, FinalOrder(SampleConfig(cash), LotApproved(q), 0));
    assert S.RiskAmount(inp) == cash / 100.0 && S.PositionBudget(inp) == cash;
    S.PositiveBudgetsSize(inp);
  }

  lemma LotValidation(cash: real, w: World, q: real)
    requires cash > 0.0 && Lot(q) && w.ctl.Active? && w.now == 0 && 0 in w.db.intents && w.db.intents[0] == LotIntent
    ensures
      var w' := Step(SampleConfig(cash), w, Validate(0, LotInputs(100.0 * q)));
      && w' == w.(db := w'.db) && 0 in w'.db.intents && w'.db.intents[0] == LotApproved(q)
      && w'.db.orders == w.db.orders && w'.db.runs == w.db.runs
  {
    LotSize(q);
    P.PassedMeaning(SamplePolicy, C.Active, OrderFor(LotIntent, LotInputs(100.0 * q), 0));
  }

  predicate LotReady(w: World, q: real) {
    && w.ctl.Active? && w.now == 0 && 0 in w.db.intents && w.db.intents[0] == LotApproved(q)
    && w.db.orders == [] && w.db.runs == []
  }

  /** The intent passes every gate. */
  lemma LotIsOpen(cash: real, w: World, q: real)
    requires cash > 0.0 && Lot(q) && LotReady(w, q)
    ensures Gate(SampleConfig(cash), w, 0, 1).None? && P.Passed(FinalVerdict(SampleConfig(cash), w, 0))
  {
    LotGateSize(cash, q);
    P.PassedMeaning(SamplePolicy, C.Active, FinalOrder(SampleConfig(cash), LotApproved(q), 0));
  }

  /** A reply lost after the order was recorded, then a rollback, leave only the broker's order. */
  lemma LoseReply(cfg: Config, w: World, id: nat, attempt: nat)
    requires Gate(cfg, w, id, attempt).None? && P.Passed(FinalVerdict(cfg, w, id))
    requires w.broker == [] && Effective(w.db.intents[id]) > 0.0
    ensures
      var w' := Step(cfg, Step(cfg, w, Submit(id, attempt, Timeout(true))), Rollback);
      && w' == w.(db := w.committed, broker := w'.broker)
      && |w'.broker| == 1 && w'.broker[0].key == IntentKey(id, attempt)
      && w'.broker[0].qty == Effective(w.db.intents[id])
  {
  }

  /** The intent is stored and committed, and nothing else is. */
  predicate LotStored(w: World) {
    && w.ctl.Active? && w.now == 0 && w.db == w.committed && w.db.intents == map[0 := LotIntent]
    && w.db.orders == [] && w.db.runs == []
  }

  lemma SendAndLose(cash: real, w: World, q: real)
    requires cash > 0.0 && Lot(q) && LotStored(w) && w.broker == []
    ensures
      var w' := Step(SampleConfig(cash), Step(SampleConfig(cash), Step(SampleConfig(cash), w, Validate(0, LotInputs(100.0 * q))),
                                        Submit(0, 1, Timeout(true))), Rollback);
      LotStored(w') && |w'.broker| == 1 && w'.broker[0].key == IntentKey(0, 1) && w'.broker[0].qty == q
  {
    LotValidation(cash, w, q);
    var w1 := Step(SampleConfig(cash), w, Validate(0, LotInputs(100.0 * q)));
    LotIsOpen(cash, w1, q);
    LoseReply(SampleConfig(cash), w1, 0, 1);
  }

  lemma CheckAndRestore(cash: real, w: World, q: real)
    requires cash > 0.0 && Lot(q) && LotStored(w) && |w.broker| == 1 && w.broker[0].key == IntentKey(0, 1)
    ensures
      var w' := Step(SampleConfig(cash), Step(SampleConfig(cash), w, Validate(0, LotInputs(100.0 * q))), Submit(0, 1, Accept(Filled)));
      && w'.broker == w.broker
      && |w'.db.orders| == 1 && w'.db.orders[0].brokerId == Some(0) && w'.db.orders[0].qty == q
  {
    LotValidation(cash, w, q);
    var w1 := Step(SampleConfig(cash), w, Validate(0, LotInputs(100.0 * q)));
    LotIsOpen(cash, w1, q);
    LostRowIsRecovered(SampleConfig(cash), w1, 0, 1, Accept(Filled));
  }

  function LotRun(q: real, r: real): seq<Call> {
    [Create(LotIntent), Commit, Validate(0, LotInputs(100.0 * q)), Submit(0, 1, Timeout(true)), Rollback,
     Validate(0, LotInputs(100.0 * r)), Submit(0, 1, Accept(Filled))]
  }

  lemma LotSteps(cfg: Config, w: World, q: real, r: real)
    ensures
      var cs := LotRun(q, r);
      && Run(cfg, w, cs[..2]) == Step(cfg, Step(cfg, w, Create(LotIntent)), Commit)
      && Run(cfg, w, cs[..5]) == Step(cfg, Step(cfg, Step(cfg, Run(cfg, w, cs[..2]), cs[2]), cs[3]), cs[4])
      && Run(cfg, w, cs) == Step(cfg, Step(cfg, Run(cfg, w, cs[..5]), cs[5]), cs[6])
  {
    var cs := LotRun(q, r);
    assert cs[..0] == [] && cs[..7] == cs;
    RunTake(cfg, w, cs, 0);
    RunTake(cfg, w, cs, 1);
    RunTake(cfg, w, cs, 2);
    RunTake(cfg, w, cs, 3);
    RunTake(cfg, w, cs, 4);
    RunTake(cfg, w, cs, 5);
    RunTake(cfg, w, cs, 6);
  }

  /** q shares are sent and recorded, the reply is lost and the rows roll back; the intent is checked
      again at another equity, which allows r shares, and submitted again. Nothing more is sent, and
      the restored row says r: for q other than r it disagrees with the order it names. */
  lemma RestoredQuantityCanDiffer(cash: real, q: real, r: real)
    requires cash > 0.0 && Lot(q) && Lot(r)
    ensures
      var w := Run(SampleConfig(cash), Start(C.Active, 0), LotRun(q, r));
      && |w.broker| == 1 && w.broker[0].qty == q
      && |w.db.orders| == 1 && w.db.orders[0].brokerId == Some(0) && w.db.orders[0].qty == r
  {
    LotSteps(SampleConfig(cash), Start(C.Active, 0), q, r);
    SendAndLose(cash, Run(SampleConfig(cash), Start(C.Active, 0), LotRun(q, r)[..2]), q);
    CheckAndRestore(cash, Run(SampleConfig(cash), Start(C.Active, 0), LotRun(q, r)[..5]), r);
  }
}
