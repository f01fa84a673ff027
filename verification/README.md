# Verified model of the paper-trading execution core

This project models the part of the trading firm that turns an order intent into at most one broker
order and keeps the books that must agree with that broker, and proves what the code guarantees over
every run. Code that updates objects in place is modelled by classes whose methods are proved equal
to functions on the state; the laws are then proved about those functions and about runs of them. The
`*Rules` modules say what each operation decides and changes on the literal fields of its inputs.

| module | models |
|---|---|
| `MockBrokers`, `Ledger`, `BrokerRules` | the in-memory paper broker: submit, fill, cancel, replace, close; its cash, positions and equity |
| `ExecutionServices`, `ExecutionTraces`, `SubmissionRules` | create, validate, approve, reject and submit over a session that can be committed or rolled back, against a broker that may fail before or after it recorded the order |
| `Controls`, `Pretrade`, `PretradeRules`, `Sizing`, `SizingRules` | the kill switch and its persistence, the pre-trade validator, position sizing |
| `OrderTables`, `RowStatuses`, `OrderManagers`, `OrderManagerSafety`, `OrderPlacement`, `OrderLinks`, `OrderExecutions` | idempotent submission, cancel-and-resubmit, cancel and status sync against the paper broker, and which fills get an execution row |
| `Reconciliations`, `ReconRules` | adoption of remote orders and the empty-snapshot streak |
| `PositionMirrors`, `Snapshots` | the position table as a mirror; fingerprint-gated equity snapshots |
| `VenueOrders`, `VenueRules` | price ticks and the shaping of orders into marketable limits |
| `CioAllocators`, `CioRules`, `SleeveBounds`, `FloorSafety` | the cash and sleeve allocator |
| `Schedulers`, `SchedulerRules`, `StableSort`, `NewsDedup`, `NewsRules`, `Indicators` | due-job coalescing, stable sorting, news deduplication, RSI and swing trend |
| `BrokerModels`, `Rounding` | shared vocabulary and the rounding functions |

Quantities, prices and percentages are reals; where the code rounds (micro-shares, hundredths of a
percent, four-decimal equity, price ticks) the model rounds too, with the same tie rule. Clocks,
quotes, broker replies and the point at which a call is cut off are parameters, so every theorem
holds for all of them. `dafny verify dfyconfig.toml` checks everything.

## What the code turns out to do

- `pause()` leaves an emergency stop like `clear_emergency()` does; only `resume()` refuses
  (`Controls.StopNeedsTwoSteps`). A restart forgets every command after the last one persisted.
- An approval that rounds to zero shares releases the full request, because `approved_quantity or
  quantity` treats zero as missing. `ExecutionTraces.EverySendIsJustified` gives the exact
  condition: the sent quantity stays within the approval if and only if the approval is positive.
- The final gate runs against an empty position, so with short selling off no sell is sent.
- Sizing's second buying-power guard can never fire.
- A row left UNKNOWN by a timeout is never resubmitted, except after an explicit cancel of that row,
  which makes it reusable. Resubmitting under a key whose paper-broker order was cancelled sends
  nothing: the broker returns the cancelled order.
- A dead row that another intent takes over keeps its symbol and side, so where submissions under one
  key disagree on them the row names a broker order for something else
  (`OrderLinks.ReusedRowCanNameAnother`).
- A row that turns FILLED through the lookup after a timeout, or through a cancel that finds the
  order filled, never gets an execution row: the sync reads only working rows.
- The paper broker's `1e-9` and `1e-6` tolerances never accumulate with full fills, whatever the
  quantities. A sell of exactly 1e-9 too much leaves a short position, and a partial fill that rounds
  above an off-grid request can sink cash below the tolerance; `Ledger.LongBookIff` says exactly when.
- The cash floor is broken when rounding lifts the room above what cash, floor and the entries
  already decided leave. It has two causes: the deployable cash is rounded (30.006% cash with a 10%
  floor), and so is the room beside entries that are not in hundredths (30% cash, a 10% floor and an
  entry of 19.004%). The pipeline passes the cash percentage unrounded (app/agents/pipeline.py:534)
  and the schema admits any entry from 0 to 100 (app/schemas/cio.py:31), so such inputs do reach it.
- On the tick grid the 10% collar holds for references above 20 cents; at and below that the two-cent
  minimum slip is 10% or more, except for sells just above a cent, which the one-cent floor catches.
- An unforced sync that repeats the previous fingerprint with another equity is lost to the snapshot
  table, peak included.
- The position table stops mirroring the broker when a report under a known contract id has another
  symbol, when two reports are for one row, or when a row's pair is taken over by another row;
  `PositionMirrors.SyncMirrorsIff` gives the exact condition. A mere change of venue is followed.
- News clusters cover every article if and only if no two kept items share a fingerprint; otherwise
  the later one overwrites the earlier cluster.
- `swing_trend` calls every series under 18 closes sideways, although its own minimum is 8.
- The status sync looks for `order_not_found`, while the paper broker says `order not found`, so
  against that broker a missing order counts as an error and the row stays open.

## Model

| member | source | states |
|---|---|---|
| `MockBrokers.MockBroker.SubmitOrder` | app/brokers/mock.py:119-210 | One submission moves the whole broker state as `Submit` does, including consumed faults, the return of an existing order under the same client id, resting stops and every refusal; the laws below are about `Submit` |
| `MockBrokers.MockBroker.Fill` | app/brokers/mock.py:212-240 | The in-place fill with its summing loop gives the functional fill: blended entry, dropped dust, cash, and equity equal to cash plus all market values |
| `MockBrokers.MockBroker.CancelOrder` | app/brokers/mock.py:242-257 | Cancelling changes only the status of a non-terminal order |
| `MockBrokers.MockBroker.ReplaceOrder` | app/brokers/mock.py:267-274 | Replace refuses to go below the filled quantity and otherwise is cancel followed by submit |
| `MockBrokers.MockBroker.ClosePosition` | app/brokers/mock.py:276-292 | Close submits the opposite side for at most the held quantity under a fresh client id |
| `MockBrokers.MockBroker.GetOrderByClientId` | app/brokers/mock.py:306-310 | The scan returns the first order with the client id |
| `MockBrokers.FindFrom` | app/brokers/mock.py:134-138 | What is found carries the id and is the earliest; nothing found means no order carries it |
| `Ledger.CashIsAFold` | app/brokers/mock.py:119-240 | After every run of submit, cancel, replace, close and reconfigure: cash is starting cash plus the flows of the order log, equity is cash plus marked positions, no client id is recorded twice |
| `Ledger.RunKeepsBooks` | app/brokers/mock.py:119-292 | The same books are kept from any state that has them |
| `Ledger.FillIsSelfFinancing` | app/brokers/mock.py:212-240 | A fill changes equity only by re-marking what was held, if and only if it leaves no non-zero remainder under 1e-9 at a non-zero price; the difference is stated otherwise |
| `Ledger.PositionMovesByFill` | app/brokers/mock.py:213-231 | A position moves by exactly the signed fill if and only if no dust is dropped; other symbols do not move |
| `Ledger.NoOverfill` | app/brokers/mock.py:187-191 | On the micro-share grid a partial fill is on the grid and between zero and the request |
| `Ledger.SaleGoesShortIff` | app/brokers/mock.py:170-231 | An accepted sell leaves a short position if and only if it fills at least 1e-9 above the holding; with shorting off and full fills, only at exactly that size, and never further |
| `Ledger.PurchaseOverspendsIff` | app/brokers/mock.py:174-240 | An accepted buy takes cash below -1e-6 if and only if its fill costs more than cash plus 1e-6; a full fill never does |
| `Ledger.OverfillIsTheOnlyOverspend` | app/brokers/mock.py:180-191 | Some cash balance lets a request overspend if and only if its partial fill rounds above the request |
| `Ledger.TolerancesNeverAccumulate` | app/brokers/mock.py:119-292 | With full fills and any non-negative quantities, on or off the grid: after every run cash is at least -1e-6, and with shorting off every position is at least -1e-9 |
| `Ledger.PositionsFollowFills` | app/brokers/mock.py:119-292 | After every run whatsoever each position is the signed sum of its fills to within 1e-9 per recorded order |
| `Ledger.SettleKeepsLongBookIff` | app/brokers/mock.py:212-240 | A fill of any size and price keeps the long book if and only if it leaves zero or at least 1e-9 shares and can be paid for within the tolerance |
| `Ledger.LongBookIff` | app/brokers/mock.py:119-292 | For every run in non-negative quantities, with partial fills and shorting allowed or not, the book is long after every operation if and only if every trade is clean in that sense |
| `Ledger.LongBookTheorem` | app/brokers/mock.py:119-257 | In every reachable long-only state each position is the signed sum of its fills and not negative, cash is at least -1e-6, and the average entry lies between the lowest and highest buy since the position was last flat |
| `Ledger.ToleranceLeavesAShort` | app/brokers/mock.py:170-173 | A run from a fresh broker that meets the condition of `SaleGoesShortIff` |
| `Ledger.RoundingOverfillsCash` | app/brokers/mock.py:189-191 | A run from a fresh broker that meets the condition of `PurchaseOverspendsIff` |
| `BrokerRules.UnconsideredIs` | app/brokers/mock.py:119-138 | A pending fault answers first and is used up, then a closed market, a halted symbol and a known client id, which returns the earliest order carrying it; each outcome if and only if its own condition holds, and nothing else changes |
| `BrokerRules.ConsideredIs` | app/brokers/mock.py:140-210 | Any other request rests if its stop is not reached, is refused for the first of an uncovered sell, an unaffordable buy and an unsupported fraction, and otherwise trades |
| `BrokerRules.TradeIs` | app/brokers/mock.py:174-240 | A trade is recorded as asked, at 1.0001 times (buy) or 0.9999 times (sell) the non-zero limit, else the desk's quote, else 100; cash and the one holding move by the fill, the position is marked at that price, its entry blends on a buy and stays on a sale |
| `BrokerRules.RoundTripCosts` | app/brokers/mock.py:174-240 | Buying and selling back q shares in full at one unchanged price p loses exactly 0.0002 * p * q of cash |
| `BrokerRules.CancelIs` | app/brokers/mock.py:242-257 | A cancel ends a new, accepted or partly filled order and touches nothing else |
| `BrokerRules.ReplaceIs` | app/brokers/mock.py:267-274 | A replacement more than 1e-9 under the filled quantity is refused; any other is the cancel and then the submission |
| `BrokerRules.CloseSends` | app/brokers/mock.py:276-292 | A close is a market order on the other side for the smaller of the holding and what was asked |
| `BrokerRules.CloseMovesToFlat` | app/brokers/mock.py:276-292 | A close that trades in full moves the position towards flat by exactly that, and a close of everything leaves no position |
| `VenueOrders.RoundEquityWithinHalfTick` | app/brokers/pricing.py:8-21 | Rounding moves a price by at most half its tick |
| `VenueOrders.RoundEquityKeepsSideOfDollar` | app/brokers/pricing.py:8-21 | Rounding never crosses the dollar at which the tick changes |
| `VenueOrders.RoundEquityMonotone` | app/brokers/pricing.py:8-21 | Rounding is monotone across the tick change |
| `VenueOrders.RoundEquityIdempotent` | app/brokers/pricing.py:8-21 | Rounding twice is rounding once |
| `VenueOrders.AggressiveInsideCollar` | app/brokers/venue_orders.py:71-81 | On the tick grid, both sides and both modes, the aggressive limit is strictly through the reference and within 10% of it if and only if the reference is above 0.20 (or a sell just above a cent is caught by the one-cent floor); off the grid the threshold blurs by half a mill |
| `VenueOrders.PennyLimitIsExact` | app/brokers/venue_orders.py:71-81 | Between 3 and 25 cents on the tick grid the limit is exactly two cents through the reference in both modes |
| `VenueOrders.PassesCompose` | app/brokers/venue_orders.py:84-115 | Any sequence of shaping passes over any quotes ends at the most aggressive of the order's own sane limit and all targets, or leaves the order untouched when no pass had a price |
| `VenueOrders.LaterPassNeverRelaxes` | app/brokers/venue_orders.py:84-115 | A further pass never gives back what an earlier one took |
| `VenueOrders.NothingReachesMarketUnshaped` | app/brokers/ibkr.py:308-349 | What the adapter lets through is a limit order or an untouched resting stop; the shaper itself refuses resting stops |
| `VenueRules.ReferenceIs` | app/brokers/venue_orders.py:59-68 | Sells lean through the bid, buys through the ask, else through the last print, else through the other side, whichever is usable first; no reference if and only if none is |
| `VenueRules.LimitIff` | app/brokers/venue_orders.py:71-81 | A limit is set if and only if it is the tick nearest to the reference moved by 2.5% (8% for a flatten) or two cents, whichever is more, never under a cent for a sell, and both prices are usable |
| `VenueRules.ShapingIs` | app/brokers/venue_orders.py:84-115 | Which order types and venues are refused, when there is no price, and that a limit order already leaning at least that far keeps its own limit |
| `VenueRules.RoundEquityIsNearestTick` | app/brokers/pricing.py:8-21 | A positive price becomes the nearest whole cent from a dollar up and the nearest hundredth of a cent below, ties upwards |
| `Sizing.SizePosition` | app/execution/sizing.py:36-75 | The chain of overwrites computes the minimum of all caps, with every error branch and the unguarded division by a zero price |
| `Sizing.SizeMeetsEveryCap` | app/execution/sizing.py:36-75 | Every size meets the risk, position, buying-power, liquidity, symbol and sector caps up to half a micro-share |
| `Sizing.FartherStopNeverGrows` | app/execution/sizing.py:36-75 | Moving the stop further away never grows the quantity |
| `Sizing.BuyingPowerGuardIsDead` | app/execution/sizing.py:71-73 | The second buying-power guard never rejects |
| `SizingRules.SizedIff` | app/execution/sizing.py:36-75 | In fractions there is a size if and only if the stop is on the losing side of a positive entry price and every cap leaves room |
| `SizingRules.RefusalIff` | app/execution/sizing.py:36-75 | Each refusal if and only if its own condition holds, the division by a zero price included |
| `SizingRules.SizeReachesACap` | app/execution/sizing.py:36-75 | No larger size was possible: half a micro-share more, or one share more where only whole shares trade, reaches one of the six limits |
| `Controls.TradingControls.Restore` | app/execution/ops_persistence.py:54-83 | A restore takes the newest persisted state; with no row or an unreadable one it restores nothing |
| `Controls.TradingControls.Serve` | app/execution/safety_controls.py:33-94 | The object under any sequence of pause, resume, stop, clear, persist and restart is the replay the laws below are about |
| `Controls.RestartsAreInvisible` | app/execution/ops_persistence.py:19-83 | When every command is persisted, any run with restarts ends in the state of the same commands without restarts |
| `Controls.RestartForgetsUnsaved` | app/execution/ops_persistence.py:19-83 | After any run, with any writes lost and any row garbled, a restart comes back to the state right after the last persisted command, to the initial state when the last row is unreadable, and to what the history held before where nothing was written |
| `Controls.StopSurvivesIff` | app/execution/ops_persistence.py:19-83 | After any run that wrote a row, a restart comes up stopped if and only if the last row is a persisted stop, or a persisted resume that was refused in a stop |
| `Controls.StopNeedsTwoSteps` | app/execution/safety_controls.py:52-94 | In every persisted run, restarts included, trading becomes active again after a stop only through a pause or clear followed later by a resume |
| `Controls.CommandIs` | app/execution/safety_controls.py:52-94 | Where each of the four commands leads from every state, what it records, and that a resume of a stopped process is ignored |
| `Controls.CancelledIffStopped` | app/execution/safety_controls.py:52-94 | In every persisted run the state says that open orders were cancelled if and only if trading is stopped |
| `Pretrade.PretradeRiskValidator.ValidateOrder` | app/execution/pretrade.py:68-262 | The step-by-step validator returns the verdict function's result in every branch, with the violations in order |
| `Pretrade.PassedMeaning` | app/execution/pretrade.py:68-262 | An order passes if and only if trading is active, there is no veto or objection and it can be sized; it is then approved for the smaller of requested and sized, and for zero otherwise |
| `Pretrade.ApprovalMeetsCaps` | app/execution/pretrade.py:193-262 | The approved quantity meets the sizing caps with the same slack |
| `Pretrade.RevalidationIsStable` | app/execution/pretrade.py:193-262 | Revalidating at the approved quantity passes, approves the same quantity and reports no reduction |
| `Pretrade.FartherStopNeverGrowsApproval` | app/execution/pretrade.py:193-262 | Moving the stop further away never grows the approved quantity |
| `PretradeRules.PassesIff` | app/execution/pretrade.py:68-262 | An order passes if and only if, on its own fields: trading is active, no veto, not expired, account not blocked, market open or extended hours on, tradable, neither duplicate nor conflicting, data quality at the floor, quote and spread within their limits, no new buy at the position cap, no uncovered sell with shorting off, a buy has a stop, and it can be sized |
| `PretradeRules.ViolationIff` | app/execution/pretrade.py:140-208 | Past the veto check a verdict contains each violation if and only if that violation's own condition holds |
| `PretradeRules.VerdictIs` | app/execution/pretrade.py:68-278 | Status, quantities and violations of every verdict, the kill switch and the vetoes included |
| `PretradeRules.ApprovedQuantityIs` | app/execution/pretrade.py:193-262 | The approved quantity loses at most the risk budget at the stop and fits the position budget and the buying power; it is the whole request unless half a micro-share more would pass one of the three |
| `ExecutionServices.ExecutionService.DoValidate` | app/execution/service.py:176-251 | The step-by-step update of intent, check and approval rows equals the validation step of the traces |
| `ExecutionServices.ExecutionService.DoApprove` | app/execution/service.py:253-274 | Approval with its expiry branch equals the approval step |
| `ExecutionServices.ExecutionService.DoReject` | app/execution/service.py:276-288 | Rejection equals the rejection step |
| `ExecutionServices.ExecutionService.DoSubmit` | app/execution/service.py:290-403 | The gates, the final check and the lookup before sending equal the submission step |
| `ExecutionServices.ExecutionService.DoSend` | app/execution/service.py:405-500 | Row first, then the call, then the outcome: accepted, timed out (UNKNOWN) or failed |
| `ExecutionServices.ExecutionService.PerformAll` | app/execution/service.py:176-500 | Any sequence of calls, commits and rollbacks on the service object is a run of the step function the theorems are about |
| `ExecutionServices.Gate` | app/execution/service.py:292-343 | Only an APPROVED intent without a row under its key gets past the gates |
| `ExecutionTraces.StepKeepsSound` | app/execution/service.py:176-500 | Every call, commit, rollback and passing of time keeps the invariant tying intents, checks, approvals, rows and the broker's orders, for live and committed rows |
| `ExecutionTraces.AtMostOneOrderPerIntent` | app/execution/service.py:307-494 | Over every run of first-attempt calls, with any broker reply and any rollback, the broker never holds two orders for one intent, without broker deduplication |
| `ExecutionTraces.LostRowIsRecovered` | app/execution/service.py:380-403 | Once the broker holds an order, no submission under its key sends again, whatever the local rows say; past the gates a lost row is restored, names that order and carries the intent's effective quantity |
| `ExecutionTraces.RestoredQuantityAgreesIff` | app/execution/service.py:380-411 | In every run the restored row has the broker's quantity if and only if the intent's latest check lets through the same quantity as the check the order was sent under |
| `ExecutionTraces.RestoredQuantityCanDiffer` | app/execution/service.py:380-411 | Runs for every pair of quantities: q shares are sent, the rows roll back, a new check allows r, and the restored row says r |
| `ExecutionTraces.EverySendIsJustified` | app/execution/service.py:195-411 | Every order sent in any run stands on the intent's latest check, which passed; its quantity is at most min(requested, sized) when the approval is positive; under manual approval it was granted after that check and before expiry; trading was active and a blocking reconciliation let only exits through |
| `ExecutionTraces.SellsNeedShortSelling` | app/execution/service.py:346-367 | With short selling off no run ever sends a sell above 1e-9 shares, closing sells included |
| `ExecutionTraces.ZeroApprovalSendsFullRequest` | app/execution/service.py:405-411 | A concrete run whose check approves zero shares and which sends all five |
| `SubmissionRules.GateIs` | app/execution/service.py:292-299 | An unknown intent, an emergency stop, disabled broker orders and a disabled connection stop a submission in this order, each if and only if its own condition holds |
| `SubmissionRules.StatusGateIs` | app/execution/service.py:300-325 | Then an intent that is not on its way is refused, one with a row under its key gets that row back, and what is left must be approved |
| `SubmissionRules.ReconciliationGateIs` | app/execution/service.py:327-343 | An approved intent without a row is stopped if and only if the latest run found material drift, an unavailable broker or an invalid local state and the intent neither reduces, closes or cancels by type nor has a thesis opening with `closing:` or `force_close:` |
| `SubmissionRules.FinalCheckIff` | app/execution/service.py:345-367 | The final check passes if and only if trading is active and the intent, on its own fields, is fit to send |
| `SubmissionRules.EverySendIsProper` | app/execution/service.py:290-500 | In every run the step that sends submits an approved, unlapsed intent for its own symbol, side and quantity, with trading active and the broker switched on, and under a blocking reconciliation only one of those exits |
| `SubmissionRules.ExitsAreNotBlocked` | app/execution/service.py:51-64 | An exit is never stopped by reconciliation, and after an in-sync run or minor drift no intent is |
| `SubmissionRules.UnreadBrokerBlocks` | app/execution/service.py:327-343 | While the latest run could not read the broker, or missed the id of a working row, no intent but an exit is sent |
| `SubmissionRules.SendIs` | app/execution/service.py:405-500 | A send writes one row for the intent and puts at most one order for it at the broker; accepted, timed out and refused each leave the stated row, intent status and order |
| `SubmissionRules.ValidationIs` | app/execution/service.py:176-251 | A validation stores its verdict on the intent's own request; the intent ends rejected, approved or waiting for an operator, each if and only if stated, and an approval is asked for exactly in the last case |
| `SubmissionRules.ApprovalIs` | app/execution/service.py:253-274 | An approval takes effect only on an intent that waits for one; in time it approves and marks the newest approval, past its expiry it expires both |
| `Reconciliations.ReconciliationService.Run` | app/execution/reconciliation.py:178-302 | The whole run with its issues, verdict and row changes equals `Reconcile` |
| `Reconciliations.ReconciliationService.AdoptRemoteOrders` | app/execution/reconciliation.py:114-138 | The adoption loop appends one row per unknown remote order and counts them |
| `Reconciliations.ReconciliationService.PriorEmptyRemoteStreak` | app/execution/reconciliation.py:140-163 | The newest-first loop over at most eight rows equals the recursive streak |
| `Reconciliations.ReconciliationService.CloseStaleLocalOpens` | app/execution/reconciliation.py:165-176 | Exactly the working rows become cancelled and are counted |
| `Reconciliations.ReconcileIsClosed` | app/execution/reconciliation.py:205-278 | After any run every remote open id has a local row, and a second run on the same snapshot adopts nothing |
| `Reconciliations.MaterialDriftMeaning` | app/execution/reconciliation.py:235-278 | MATERIAL_DRIFT if and only if the snapshot is non-empty and some working local id is missing from it |
| `Reconciliations.StreakIsConsecutiveCount` | app/execution/reconciliation.py:140-163 | Over every sequence of runs the streak read from eight log rows equals the plain count of consecutive empty snapshots since the last forced close, and is at most 2 |
| `Reconciliations.ForcedCloseIsThirdInARow` | app/execution/reconciliation.py:235-265 | Local opens are force-closed exactly on every third consecutive empty snapshot; other runs touch no existing row, and any other kind of run resets the count |
| `ReconRules.VerdictIs` | app/execution/reconciliation.py:178-302 | All four verdicts on the inputs: unavailable if and only if the broker could not be read, and then no row changes; material drift if and only if a non-empty snapshot misses the id of a working row; minor drift if and only if an empty one meets such a row; in sync otherwise |
| `ReconRules.IssuesAre` | app/execution/reconciliation.py:235-267 | What a run logs: the working ids a non-empty snapshot misses, and never a remote order missing locally |
| `ReconRules.SnapshotIssueIs` | app/execution/reconciliation.py:238-265 | Over any sequence of runs, what is logged about an empty snapshot: how many ids are open and the count since the last forced close, and on the third how many rows were closed |
| `ReconRules.AdoptionIs` | app/execution/reconciliation.py:59-138 | Adoption appends rows for exactly the snapshot's unknown orders, each describing its order |
| `ReconRules.ForcedCloseCancels` | app/execution/reconciliation.py:165-176 | A forced close cancels exactly the working rows |
| `OrderManagers.OrderManager.SubmitIntent` | app/execution/order_manager.py:241-447 | One submission, with its prelude for exits, equals `SubmitOne` on tables and broker together |
| `OrderManagers.OrderManager.SubmitToSlot` | app/execution/order_manager.py:269-360 | New row, dead row taken over with its key, symbol and side, or nothing sent |
| `OrderManagers.OrderManager.SendAndSettle` | app/execution/order_manager.py:364-447 | Reply, timeout with lookup by client id, and rejection, with the execution row of a fill |
| `OrderManagers.OrderManager.CancelOrder` | app/execution/order_manager.py:449-469 | Cancels at the broker when sent there and copies the broker's answer |
| `OrderManagers.OrderManager.CancelWorkingForSymbol` | app/execution/order_manager.py:218-239 | The loop cancels every working row of the symbol, of one side or of both, one after another |
| `OrderManagers.OrderManager.SyncStatusesFromBroker` | app/execution/order_manager.py:500-557 | The loop refreshes every working row and records an execution when one turns filled |
| `OrderManagerSafety.OrderManagerTheorem` | app/execution/order_manager.py:241-557 | Over every run of submit, cancel-and-resubmit, cancel, sync and reconcile, with open orders filling or ending at the broker between calls, calls cut off and rows rolled back anywhere: one row and one broker order per key, one execution per row, and every execution equals the broker's fill |
| `OrderManagerSafety.UnknownRowIsInert` | app/execution/order_manager.py:274-284 | No step except a cancel of that row or a rollback touches a row left UNKNOWN, and a submission under its key sends nothing |
| `OrderManagerSafety.UnknownStaysUnknown` | app/execution/order_manager.py:378-400 | So it stays UNKNOWN through every run without those two |
| `OrderManagerSafety.ExplicitCancelReopensUnknown` | app/execution/order_manager.py:449-469 | An explicit cancel makes the row reusable by the next submission |
| `OrderManagerSafety.ResubmitAfterCancelIsInert` | app/execution/order_manager.py:282-298 | Resubmitting under a cancelled order's key sends nothing and ends cancelled |
| `OrderPlacement.SubmissionPlaces` | app/execution/order_manager.py:241-447 | Whatever the state and wherever the call is cut off, a submission adds at most one order, for the intent's symbol, side and quantity under its key, with its own code and limit or the shaped ones; where it trades, cash and the holding move by the fill, down for a sell and up for a buy |
| `OrderPlacement.EveryStepPlaces` | app/execution/order_manager.py:241-557 | So does every submitting step of every run, and no other step of the manager adds an order or moves the book |
| `OrderPlacement.FreshIntentIsSent` | app/execution/order_manager.py:300-447 | With no row under its key and nothing to clear, an intent off a marketable venue is sent exactly as it says and one row describing it is appended, which follows the reply |
| `OrderPlacement.SlotIs` | app/execution/order_manager.py:269-298 | A row under the key stops a submission unless it is cancelled, rejected or expired; then it is taken over with its key, symbol and side |
| `OrderPlacement.PreludeIs` | app/execution/order_manager.py:248-267 | A submission stands back if and only if something of its symbol and side is working and it only reduces, or it flattens and its own fresh row is among them; it cancels those rows if and only if it flattens and does not stand back |
| `OrderPlacement.ExitKinds` | app/execution/order_manager.py:162-200 | What counts as a reducing, flattening or exit intent, by the parts of its key and the opening of its thesis |
| `OrderPlacement.CancelRowIs` | app/execution/order_manager.py:449-469 | What a cancelled row says afterwards, and that no other row changes |
| `OrderPlacement.SyncRowIs` | app/execution/order_manager.py:500-557 | A synced row says what its order says, and one that newly turns filled records the fill |
| `OrderLinks.RowsNameTheirOwn` | app/execution/order_manager.py:241-557 | Over every run in which submissions under one key agree on symbol and side, every row names a broker order for its own symbol and side |
| `OrderLinks.ReusedRowCanNameAnother` | app/execution/order_manager.py:282-298 | Where they do not, a dead row taken over keeps its symbol and side and names an order for something else |
| `RowStatuses.RowsAgreeWithOrders` | app/execution/order_manager.py:26-42 | A row is working, filled or reusable where its order is open, filled or dead |
| `OrderExecutions.SettleBooks` | app/execution/order_manager.py:378-440 | Settling a pending row leaves it FILLED without an execution if and only if the call timed out and the lookup found a fill |
| `OrderExecutions.CancelBooks` | app/execution/order_manager.py:449-469 | A cancel leaves a FILLED row without an execution if and only if it finds the order filled at the broker |
| `OrderExecutions.MissedForGood` | app/execution/order_manager.py:500-557 | An execution missed once is never recorded by any later submit, cancel, sync or reconcile |
| `OrderExecutions.FilledRowsAreBookedIff` | app/execution/order_manager.py:241-557 | After every run without rollbacks each FILLED row has an execution if and only if no step took one of those two quiet ways |
| `OrderExecutions.BookedTheorem` | app/execution/order_manager.py:241-557 | From an empty book, FILLED rows are exactly the rows with exactly one execution if and only if no step was quiet |
| `OrderExecutions.LostReplyMissesExecution` | app/execution/order_manager.py:378-400 | A run that takes the first quiet way: the reply to a market buy is lost after the fill |
| `OrderExecutions.CancelAfterFillMissesExecution` | app/execution/order_manager.py:449-469 | A run that takes the second: a resting stop fills and is cancelled before the next sync |
| `OrderExecutions.SyncAfterFillRecordsExecution` | app/execution/order_manager.py:540-556 | The same fill found by the sync is recorded |
| `PositionMirrors.PositionManager.SyncFromBroker` | app/execution/position_manager.py:106-195 | The two-index upsert loop and the delete pass compute `SyncTable` |
| `PositionMirrors.SyncMirrorsIff` | app/execution/position_manager.py:106-195 | For any table and list with unique pairs and contract ids on each side: the table after the sync equals the broker's non-zero positions, every field, both directions, if and only if no two reports are for one row, no report changes a row's symbol, and every row whose pair is reported is some report's row |
| `PositionMirrors.EverySyncMirrorsIff` | app/execution/position_manager.py:106-195 | Over every sequence of syncs the table mirrors the broker after each of them if and only if each list meets that condition against the table it meets |
| `PositionMirrors.EverySyncMirrors` | app/execution/position_manager.py:106-195 | Where every contract id stays with one pair the condition always holds |
| `PositionMirrors.RenamedTickerBreaksMirror` | app/execution/position_manager.py:106-195 | For any table in which one row holds a contract id and any list that reports that id under another symbol, with no uniqueness assumed, the table after the sync does not mirror the broker |
| `PositionMirrors.TwoReportsForOneRow` | app/execution/position_manager.py:106-195 | A report without a contract id and one whose contract id moved venue hit one row, and the mirror is lost without any rename |
| `PositionMirrors.VenueMoveIsMirrored` | app/execution/position_manager.py:106-195 | A contract id that only moves venue is followed |
| `PositionMirrors.SyncListsPositions` | app/execution/position_manager.py:106-195 | After such a sync there is a row for each report of a named symbol with a non-zero quantity, field by field, and for nothing else |
| `Snapshots.SnapshotTable.Sync` | app/execution/position_manager.py:224-297 | The gated write with its peak and drawdown updates equals `Record` |
| `Snapshots.RecordTellsAllIff` | app/execution/position_manager.py:224-297 | One sync keeps the newest row telling the last equity, the maximum and the true drawdown if and only if it writes or sees the stored equity again |
| `Snapshots.RecordKeepsPeakIff` | app/execution/position_manager.py:224-297 | The stored peak stays the maximum if and only if the sync writes or its equity is no new maximum |
| `Snapshots.LosslessIff` | app/execution/position_manager.py:224-297 | Over any run on any equities, compaction is lossless after every sync if and only if no unforced sync repeats the previous fingerprint with a different equity |
| `Snapshots.PeakIsTrueIff` | app/execution/position_manager.py:224-297 | The stored peak is the running maximum after every sync if and only if no unforced sync reaches a new maximum under the previous fingerprint |
| `Snapshots.CompactionIsLossless` | app/execution/position_manager.py:224-297 | On 4-decimal equities that condition always holds |
| `Snapshots.CompactionIsNearlyLossless` | app/execution/position_manager.py:224-297 | For arbitrary equities the stored peak is an equity seen and no equity exceeds it by more than 0.0001 |
| `Snapshots.StoredDrawdownsAreTrue` | app/execution/position_manager.py:250-297 | In every row stored by any run the drawdown is the true one from the stored peak; for non-negative equities it lies in [0, 100] and is zero exactly at the peak |
| `Snapshots.SkippedWriteHidesPeak` | app/execution/position_manager.py:224-297 | Two equities in one four-decimal bucket meet the condition under which the stored peak falls behind |
| `Snapshots.SkippedIff` | app/execution/position_manager.py:224-249 | A sync is skipped if and only if it is not forced and neither its book nor its equity and cash to four decimals have changed |
| `Snapshots.DrawdownIsPercentage` | app/execution/position_manager.py:250-297 | The drawdown is the percentage of the peak that is lost |
| `Indicators.ComputeRsi` | app/agents/quant_strategist.py:54-68 | The accumulating loop and the textbook quotient equal the share of gains in all movement |
| `Indicators.RsiInRange` | app/agents/quant_strategist.py:54-68 | RSI lies in [0, 100] |
| `Indicators.RsiOfReversedWindow` | app/agents/quant_strategist.py:54-68 | The RSI of the reversed window is 100 minus the RSI |
| `Indicators.RsiScaleInvariant` | app/agents/quant_strategist.py:54-68 | Multiplying all closes by a positive factor leaves RSI unchanged |
| `Indicators.SmaWithinWindow` | app/agents/quant_strategist.py:47-51 | An average lies between any bounds of its window |
| `Indicators.TrendScaleInvariant` | app/agents/quant_strategist.py:71-103 | Multiplying all closes by a positive factor leaves the swing trend unchanged |
| `Indicators.ShortSeriesIsSideways` | app/agents/quant_strategist.py:71-103 | Every series under 18 closes is sideways |
| `Indicators.TrendIff` | app/agents/quant_strategist.py:71-103 | From 18 closes on, up and down if and only if the stated inequalities between the averages and the last close hold |
| `Schedulers.CoalesceDueJobs` | app/core/scheduler.py:237-280 | Returns the coalesced list and marks exactly the dropped jobs skipped, with the right reason; kept jobs are untouched |
| `Schedulers.CoalesceMeaning` | app/core/scheduler.py:237-280 | The result is sorted, holds every other job and per venue at most one evaluation, the latest planned, and none for a closing venue |
| `Schedulers.CoalesceIdempotent` | app/core/scheduler.py:237-280 | Coalescing a coalesced list returns it unchanged, ties included |
| `Schedulers.PrioritizeMeaning` | app/core/scheduler.py:285-307 | A permutation with all live-venue jobs first and closed-venue evaluations last, by planned time within a rank |
| `SchedulerRules.SurvivesIff` | app/core/scheduler.py:237-282 | A due job survives coalescing if and only if it is no evaluation, or is the first of the latest planned evaluations of its venue and no due job closes or liquidates that venue |
| `SchedulerRules.CoalescedIsOrdered` | app/core/scheduler.py:280-282 | Survivors come in order of planned time |
| `SchedulerRules.PrioritizedIs` | app/core/scheduler.py:285-307 | Jobs of live venues come first, then the others, then evaluations of closed venues, each by planned time |
| `NewsDedup.ClusterNews` | app/data_quality/news_dedup.py:26-103 | The loop over dictionaries returns the kept items and clusters of `Dedup` |
| `NewsDedup.KeptStoriesDiffer` | app/data_quality/news_dedup.py:26-103 | Kept items have pairwise distinct provider ids and urls, and no two similar headlines with a common symbol within the window |
| `NewsDedup.ReplayIsIdentity` | app/data_quality/news_dedup.py:26-103 | Deduplicating the kept items keeps them all, with the same indexes |
| `NewsDedup.ClustersPartitionIff` | app/data_quality/news_dedup.py:71-132 | Clusters are disjoint and hold only input ids; they cover the input if and only if kept fingerprints are distinct |
| `NewsRules.DroppedIff` | app/data_quality/news_dedup.py:39-76 | After any items the next one is dropped if and only if a kept item has its provider id or url, or the item last kept under its headline lies within the window, or a kept item tells its story; it joins for the first reason that applies |
| `NewsRules.SimilarIff` | app/data_quality/news_dedup.py:135-142 | Headlines are similar if and only if both have words and at least 60% of all their words are shared |
| `NewsRules.WordsMeaning` | app/data_quality/news_dedup.py:135-137 | The words of a headline are exactly its maximal runs of lower-case letters and digits |
| `NewsRules.SameStoryIff` | app/data_quality/news_dedup.py:60-70 | One story: a common symbol, similar headlines, published within the window of each other |
| `NewsRules.SameFingerprintIff` | app/data_quality/news_dedup.py:19-23 | Fingerprints agree if and only if symbols and categories agree, order aside, and the first eighty characters of the headlines do |
| `NewsRules.ClustersRecord` | app/data_quality/news_dedup.py:82-132 | In every run each cluster starts with its primary article, is called primary while alone, carries the latest time of its members and a confidence of 0.9 if and only if a correction joined |
| `CioAllocators.QuantEntryPlans` | app/agents/cio.py:57-157 | The loop over ranked views equals the fold the theorems are about |
| `CioAllocators.AllocatorTheorem` | app/agents/cio.py:74-157 | Plan sizes plus remaining cash equal the room, remaining cash is not negative, no held name is added and none twice, per-book counts hold, and sleeve ceilings hold to within 0.005 |
| `SleeveBounds.CeilingsHoldInHundredths` | app/agents/cio.py:74-157 | A sleeve whose use starts in hundredths never exceeds its ceiling, for any views and with or without a cash limit |
| `SleeveBounds.SleeveOverrunIff` | app/universe/allocation.py:46-84 | Some book and position cap overrun a sleeve ceiling if and only if rounding lifts the room left in the sleeve above the real one and to at least 1% |
| `CioAllocators.CashTargetAfterPlans` | app/agents/cio.py:39-54 | The loop computes the floored, capped cash left after the entries |
| `CioAllocators.EnsureCioTakesSetups` | app/agents/cio.py:160-243 | The merge with its early returns equals `EnsureSetups` |
| `CioAllocators.MergeAddsUp` | app/agents/cio.py:181-243 | The merged entries deploy exactly the old entries plus the extras, and the extras fit the room |
| `CioAllocators.ToppedUpKeepsFloor` | app/agents/cio.py:181-243 | Whenever anything is added, cash left after all entries is at most 0.01 under the floor |
| `CioAllocators.ToppedUpTargetIsExact` | app/agents/cio.py:181-243 | For any decision and any cash: when the room is at most what cash, floor and the entries already decided really leave, whatever is added leaves the floor untouched, and the cash target is the cash left after every entry, rounded and at or above the floor |
| `CioAllocators.RoomIsRealInHundredths` | app/agents/cio.py:181-187 | For entries in hundredths that condition is that the deployable cash is at most cash minus the floor |
| `CioRules.NothingElseFits` | app/agents/cio.py:57-157 | When the pass ends every view is entered already, not admissible, or too small to enter with what is left |
| `CioRules.TakenIff` | app/agents/cio.py:83-157 | A view is taken if and only if it meets every gate, on its own fields, and at least 1% fits; then for exactly what fits, and counts, use and cash move by that |
| `CioRules.EntryIs` | app/universe/allocation.py:46-84 | An entry is the least of the position cap, the book's size and the room under a ceiling of 25 for the four sleeves and 0 for any other, in hundredths |
| `CioRules.RankingIs` | app/agents/cio.py:77-82 | Most probable first, views of equal probability in the order given |
| `CioRules.ProbableFirst` | app/agents/cio.py:77-157 | What the more probable views are given does not depend on the less probable ones |
| `CioRules.OpeningIs` | app/agents/cio.py:188-212 | The pass starts from the open and entering names, each book's entries, and each book's weight in open positions and entries; a position without a weight counts for the position cap |
| `CioRules.ToppedUpIff` | app/agents/cio.py:160-243 | A decision changes if and only if the pass is enabled, nothing vetoes it, the deployable cash leaves 1% beside its entries and some view is taken; then only its actions and cash target change |
| `CioRules.MergedIs` | app/agents/cio.py:226-228 | Old actions on names that are not entered are kept, and each plan becomes one entry |
| `CioRules.CashTargetIs` | app/agents/cio.py:39-54 | The cash target is the cash left, at most everything and at least the floor |
| `FloorSafety.FloorIsSafeIff` | app/agents/cio.py:181-243 | For given cash, floor and amount already deployed, with a room of at most 100%: every decision keeps the floor under all books, views and holdings if and only if the room is real in that sense or under 1% |
| `FloorSafety.RoundedCashBreaksFloor` | app/universe/allocation.py:37-39 | With 30.006% cash, a 10% floor and nothing deployed, the deployable cash rounds up and 9.996% is left |
| `FloorSafety.RoundedRoomBreaksFloor` | app/agents/cio.py:184-187 | With 30% cash, a 10% floor and an entry of 19.004%, the deployable cash is exact, the room rounds up and 9.996% is left |

## Left out

- The gateway adapter, market data, LLM agents, API, CLI, dashboards, metrics and configuration; of the adapter only its order-shaping sequence is used.
- The validation and firm-execution modules, the scheduler's dispatch loop and leases, alerts, lifecycle and P&L code.
- Concurrent callers, and an order that reaches the broker only after a later lookup: calls run one at a time and a cut-off call either was recorded or never is.
- Floating-point rounding of single operations; only the rounding the code asks for is modelled.
- The digests behind client order ids and news fingerprints, which are taken to be injective.
- Upper-casing of symbols, headline and url normalisation and the letter case of statuses, done before the model starts; `fold_status` makes the last harmless.
- Report fields, warnings, event records and raw payloads that no decision reads; the order of issues within a reconciliation run.
- Cancel-all and close-all, which are loops over modelled operations, and the transition table in app/brokers/models.py, which the order manager does not consult.
- The book-strategy rules behind a setup, horizon assignment and venue resolution, which are inputs.
- Controls.TradingControls.Restore: a persisted row that parses but names no known state or time raises in the source; such rows are not modelled.
- Ledger.LongBookTheorem: is stated for requests in whole micro-shares with short selling off, where every accepted trade is clean; `LongBookIff` covers all other runs with its exact condition.
- Snapshots.CompactionIsLossless: is stated for four-decimal equities; `LosslessIff` covers all others with its exact condition.
- CioAllocators.ToppedUpKeepsFloor: allows 0.01; `ToppedUpTargetIsExact` and `FloorIsSafeIff` are exact.
- FloorSafety.FloorIsSafeIff: is stated for rooms of up to 100%, the most the four sleeves hold together; a larger room needs more than 100% cash.
- PositionMirrors.EverySyncMirrors: is stated for contract ids that stay with one pair; `EverySyncMirrorsIff` covers all other sequences with its exact condition.
- OrderExecutions.FilledRowsAreBookedIff: leaves out rollbacks, which restore an earlier table and can take a row back to before its quiet fill.
- OrderLinks.RowsNameTheirOwn: assumes that submissions under one key agree on symbol and side; `ReusedRowCanNameAnother` shows why.
- BrokerRules.RoundTripCosts: is stated for full fills, where both trades are for the same quantity.
- SizingRules.SizedIff: is stated where fractions trade; whole-share sizes are covered by `SizeReachesACap`.
