# Verified models of the RETRAC trading core

A Dafny project that models the parts of RETRAC where money can be lost by an interleaving, a crash
or a rounding, and proves what they guarantee.

* **Live submission.** `LiveOrderEngine`, `StateStores` and `LiveOrderMonitor` are the engine, the
  durable stores and the monitor as classes that write step by step. `SubmissionProtocol` is the
  transition system of several processes over the order ledger, the managed portfolio, the state
  lock and the exchange, with crashes between any two writes; an undisturbed submission and a
  monitor pass are shown to be runs of it. `ExactlyOnce` holds without any assumption about the
  lock. `OneInFlight` holds as long as no new order enters a process that already holds the lock,
  and `LockReentry` shows that exactly those entries break it.
* **The budget and the engine around it.** `AutonomousLiveSession`, `ControlledLiveAuthorization`,
  `LiveEngine` (every interleaving of timer-started cycles), `OperatorResolution`.
* **The managed portfolio.** `Portfolio`, `PortfolioLaws` and `AccountingHistory`; `DoubleBooking`
  is about one exchange order in its three ledgers, `ResolutionHistory` about an interrupted operator
  resolution with monitor passes in between, `StaleWrites` about writers that do not load again.
* **The manual bridge.** `ManualBridge` specifies every operation by its two writes, so a crash is
  the first write alone; `ManualRecovery` is about `reconcile`, `ManualHistory` about whole
  histories with overlapping settlements, `ManualOverlaps` has two of them.
* **Backtesting and data.** `Backtest`, `BacktestLaws`, `BacktestReport`, `BacktestFill`,
  `CandleAcquisition`, `MarketCoordinator`.
* **Exact money and its text.** `Money`, `DecimalText`, `ManualIntentStore`.

An amount is the scaled integer of the original. Truncating division is written out. Exceptions are
`Failure` or `None` results. Exchange answers, reads, clocks, random ids and the success of a write
are parameters.

## Where the code and its promises differ

The models follow the code. Each of these is stated with the exact condition.

* The state lock is re-entrant inside its process, also across awaits: a second submission of the
  same process passes the one-in-flight guard (`LockReentry.OverlapIffUnsafe`), and the engine's timer
  can start it (`LiveEngine.TwoCyclesPlaceAtOnce`).
* The monitor releases the funds of a canceled order with a reported fill when no execution of it
  is proven (`MonitorLaws.ReleasedDespiteFillIff`), and never returns to an order left final by a crashed pass
  (`MonitorLaws.FinalOrdersAreNotRevisited`).
* A manual settlement books an exchange order that was attested or whose executions are applied
  (`DoubleBooking.ManualSettlementBooksTwiceIff`), and a monitor pass books one that was settled or
  attested (`DoubleBooking.PassBooksTwiceIff`), as between the two writes of an operator resolution
  (`ResolutionHistory.RetryCompletes`); a sale can unfund a commitment
  (`AccountingHistory.HistoryStaysFundedIff`).
* A settlement waiting for its read overwrites a cancellation, an accounted or void intent and newer
  evidence (the `ManualHistory.WaitingSettlement…` lemmas, `ManualHistory.LifecycleIsMonotoneIff`), and
  evidence with a negative quantity makes the intent store unloadable
  (`ManualHistory.EvidenceKeepsStoreReadableIff`).
* The manual command line saves the portfolio it loaded when it started, and so takes back what was
  reserved or settled since (`StaleWrites.StaleSaveKeepsFundsIff`,
  `StaleWrites.StaleSaveKeepsSettlementIff`).
* A backtest fee rate above one passes validation and can drive cash below zero
  (`BacktestLaws.HigherRateGoesBelowZero`); the reported drawdown can overstate
  (`BacktestReport.ReportedIsTrueIff`); the upward tick rounding rounds the magnitude
  (`Money.CeilReachesValueIff`).
* Candle windows are adjacent at one millisecond, not one second, and a page that is empty on every
  attempt is accepted inside the series (`CandleAcquisition.StoredRowIsCollectedIff`).

## Checking

`dafny verify dfyconfig.toml` checks the whole project.

## Model

| member | source | states |
|---|---|---|
| `Money.MulIsNearest` | src/money/Money.ts:127-140 | A product is within half a unit of the exact product of the two amounts, for all signs. |
| `Money.MulIsSymmetric` | src/money/Money.ts:127-140 | Negating either factor negates the product, and the factors commute: rounding is symmetric in sign. |
| `Money.MulFractionIsFloor` | src/money/Money.ts:102-119 | A fraction of an amount is the mathematical floor for every combination of signs, also for a negative denominator. |
| `Money.MulFractionMonotone` | src/money/Money.ts:102-119 | A larger numerator never gives a smaller fraction of a non-negative amount. |
| `Money.TickRounding` | src/money/Money.ts:210-243 | Rounded, floored and raised amounts are on the tick grid; floor and ceiling bound the magnitude within one tick, rounding is within half a tick. |
| `Money.TickRoundingSigned` | src/money/Money.ts:230-243 | The floored amount lies between zero and the value, the raised one beyond it, on either side of zero. |
| `Money.CeilReachesValueIff` | src/backtest/fill.ts:28-39 | The upward tick rounding, documented as toward plus infinity, reaches the value exactly when the value is not negative or already on the grid. |
| `DecimalText.RoundTrip` | src/money/Money.ts:41-63 | Reading the text written for an amount gives the amount back, for every amount. |
| `DecimalText.MagnitudeIsNearest` | src/money/Money.ts:50-63 | A decimal text is read exactly up to eight fraction digits and to the nearest unit beyond. |
| `PortfolioLaws.ReserveOrderKeeps` | src/portfolio/Portfolio.ts:397-435 | A reservation keeps the reserved pool equal to the sum of the active reservations and never commits more cash than there is. |
| `PortfolioLaws.ReleaseOrderReservationKeeps` | src/portfolio/Portfolio.ts:468-480 | A release keeps the pool equal to the sum and never lowers what can be deployed, also when repeated. |
| `PortfolioLaws.ConsumeKeepsPool` | src/portfolio/Portfolio.ts:356-466 | Consuming part of a reservation moves the order's remainder and the pool by the same amount; the silent no-op of the pool release cannot happen. |
| `PortfolioLaws.ApplyLiveFillKeeps` | src/portfolio/Portfolio.ts:737-825 | A new execution keeps the pool, and leaves its quote commitments funded exactly when its outflow is paid from its own reservation or fits the free cash. |
| `PortfolioLaws.SettleManualOrderKeeps` | src/portfolio/Portfolio.ts:884-1056 | A manual settlement keeps the pool, repeats without effect, and leaves commitments funded exactly when its outflow is affordable. |
| `PortfolioLaws.SettleLiveOrderAttestedKeeps` | src/portfolio/Portfolio.ts:1058-1229 | The same for an operator attestation of a live order. |
| `PortfolioLaws.SaleCanUnfundACommitment` | src/portfolio/Portfolio.ts:737-825 | A sale whose fee exceeds its proceeds is accepted and can leave a reservation unfunded (a concrete portfolio). |
| `PortfolioLaws.SettleManualOrderKeepsOrdersApart` | src/portfolio/Portfolio.ts:884-1056 | No exchange order ever carries two manual settlements, ids compared as numbers. |
| `DoubleBooking.ManualSettlementBooksTwiceIff` | src/portfolio/Portfolio.ts:884-1056 | A new manual settlement books an exchange order a second time exactly when that order is attested or executions of it are applied, over all three ledgers. |
| `DoubleBooking.AttestationBooksTwiceIff` | src/portfolio/Portfolio.ts:1058-1229 | A new attestation does so exactly when another record of the same exchange order has applied executions. |
| `DoubleBooking.AttestationNeverBooksTwice` | src/portfolio/Portfolio.ts:1058-1229 | As long as no other record carries its exchange order id, an attestation never books an order that any ledger booked. |
| `DoubleBooking.PassBooksTwiceIff` | src/execution/LiveOrderMonitor.ts:184-234 | A monitor visit books a settled or attested order again exactly when its record is still observable and a proven, new, quote-fee execution that overdraws nothing and that the portfolio takes was read. |
| `DoubleBooking.ExecutedOrderIsSettledAgain` | src/portfolio/Portfolio.ts:884-1056 | A concrete sale booked by the monitor and then settled manually: its proceeds arrive twice. |
| `AccountingHistory.BooksExplainBalances` | src/portfolio/Portfolio.ts:397-1229 | Over any sequence of operations with repeats and conflicts, cash and position are the initial ones plus each ledger entry once. |
| `AccountingHistory.HistoryKeepsPool` | src/portfolio/Portfolio.ts:397-1229 | Over any sequence of operations the reserved pool is the sum of the active reservations and exchange orders stay apart. |
| `AccountingHistory.HistoryStaysFundedIff` | src/portfolio/Portfolio.ts:397-1229 | From a funded portfolio, every point of any sequence of operations has the commitments in a currency covered by cash if and only if each booking it adds is paid from its own reservation or fits the free cash. |
| `SubmissionRules.ValidatedIsInScope` | src/execution/LiveExecutionEngine.ts:740-802 | An order that passes validation is a priced LIMIT order within the configured quantity and notional caps, IOC when autonomous, whatever the exchange reads said. |
| `StateStores.ManagedStateStore.Reserve` | src/execution/liveHooks.ts:71-93 | Reserves exactly notional plus conservative fee, or refuses and leaves the store as it was; a failed save reserves nothing. |
| `StateStores.ManagedStateStore.Release` | src/execution/liveHooks.ts:95-107 | Gives the order's reservation back at most once and never fails. |
| `StateStores.OrderStore.Save` | src/persistence/OrderStore.ts:106-112 | An atomic upsert: the record is replaced, or a failed save leaves the ledger as it was. |
| `ManagedStore.ReservedByFund` | src/execution/liveHooks.ts:78-93 | A successful reservation sets aside the exact cost of the order, untouched. |
| `ManagedStore.ReserveLeavesOthers` | src/execution/liveHooks.ts:78-93 | A reservation, successful or not, changes no other reservation. |
| `ManagedStore.ReleaseLeavesOthers` | src/execution/liveHooks.ts:95-107 | A release changes no reservation but its own. |
| `LiveOrderEngine.FindInFlight` | src/execution/LiveExecutionEngine.ts:847-857 | The guard's scan finds an unresolved live order exactly when the ledger holds one. |
| `LiveOrderEngine.LiveOrderEngine.Admit` | src/execution/LiveExecutionEngine.ts:504-544 | Guard, validation, managed-state guard and duplicate check write nothing, refuse in this order, and are a run of the submission protocol. |
| `LiveOrderEngine.LiveOrderEngine.Persist` | src/execution/LiveExecutionEngine.ts:545-578 | Either the reservation and the CREATED record are both durable, or the ledger is unchanged and the exchange is not contacted. |
| `LiveOrderEngine.LiveOrderEngine.Conclude` | src/execution/LiveExecutionEngine.ts:580-600 | The answer is recorded, only a definite rejection gives the funds back, and an unwritable acknowledgement falls back to UNKNOWN. |
| `LiveOrderEngine.LiveOrderEngine.Contact` | src/execution/LiveExecutionEngine.ts:580-602 | One exchange call, then the conclusion; the section ends with the lock released. |
| `LiveOrderEngine.LiveOrderEngine.Submit` | src/execution/LiveExecutionEngine.ts:504-602 | A submission is a run of the protocol; it calls the exchange at most once and never when refused; afterwards the ledger holds the outcome or CREATED, and the exact cost stays reserved unless the exchange rejected the order. |
| `ExactlyOnce.AdvanceIsStretch` | src/execution/LiveExecutionEngine.ts:504-602 | What one atomic stretch of a submission may change: its own section, its own ledger entry and its own call. |
| `ExactlyOnce.StepKeepsOrderly` | src/execution/LiveExecutionEngine.ts:504-602 | Every event of every process, crashes included, keeps the invariant behind exactly-once submission. |
| `ExactlyOnce.ExactlyOnceSubmission` | src/execution/LiveExecutionEngine.ts:545-602 | In every interleaving with crashes anywhere, placeOrder is called at most once per client order id, each time for a recorded order within scope; no assumption about the lock. |
| `ExactlyOnce.AdvanceKeepsReservation` | src/execution/LiveExecutionEngine.ts:551-600 | A stretch of a submission touches no reservation but its own order's, and that only before the CREATED record or after a definite rejection. |
| `ExactlyOnce.ReleaseIsJustified` | src/execution/LiveExecutionEngine.ts:551-600 | In every reachable state a submission changes a reservation only of its own order, and only if the exchange was never called for it or rejected it definitely. |
| `ExactlyOnce.OpenOutcomeLeavesFunds` | src/execution/LiveExecutionEngine.ts:580-600 | Every other ending of a called order leaves the portfolio exactly as it is and records the acknowledgement or UNKNOWN. |
| `OneInFlight.StepKeepsGuarded` | src/execution/LiveExecutionEngine.ts:504-602 | Every event that is not an overlap keeps one live order in flight, one lock owner, and the section's CREATED record alone and unidentified. |
| `OneInFlight.OneInFlightAlways` | src/execution/LiveExecutionEngine.ts:839-857 | Without an overlap the ledger never holds two unresolved live orders, over submissions, monitor passes, both operator commands, stale answers and crashes. |
| `OneInFlight.CallsAreBacked` | src/execution/LiveExecutionEngine.ts:545-581 | In every run without overlap, at the moment of an exchange call the ledger holds exactly that order as CREATED, nothing else is in flight, the id was never called, and the exact cost of a reserved purchase is set aside. |
| `OneInFlight.FundsStayReserved` | src/execution/LiveExecutionEngine.ts:874-902 | Over every run without overlap, whose other portfolio writers keep protected reservations, the exact cost of a called purchase stays reserved while its record is in flight, unidentified and not rejected. |
| `StaleWrites.StaleSaveKeepsProtectedIff` | src/cli/manual-cmd.ts:845-864 | A save made from a copy is one of those writers if and only if the copy holds the protected reservations as they are stored. |
| `StaleWrites.StaleSaveKeepsFundsIff` | src/cli/manual-cmd.ts:845-864 | Such a save leaves the funds of every open call in place if and only if the copy already held the exact cost of each. |
| `StaleWrites.FundsStayReservedUnderStaleSaves` | src/cli/manual-cmd.ts:845-864 | The claims about reserved funds and one order in flight over every run that also has saves from up-to-date copies. |
| `StaleWrites.ReservationIsLost` | src/cli/manual-cmd.ts:845-864 | A copy loaded before a live reservation takes it back and hands the same quote to a proposal the stored portfolio would refuse. |
| `LockReentry.OverlapBreaksGuard` | src/persistence/lock.ts:145-159 | From every state of a run, a placeable new order that enters while its own process holds the lock has a continuation, without further overlap, in which two live orders are in flight. |
| `LockReentry.OverlapIffUnsafe` | src/persistence/lock.ts:132-159 | In a state reached without overlap, an event is an overlap if and only if some overlap-free continuation after it has two live orders in flight. |
| `LockReentry.OverlapIffUnbackedCall` | src/persistence/lock.ts:132-159 | In such a state an event is an overlap if and only if some overlap-free continuation after it has an exchange call without that backing. |
| `LockReentry.OverlapIsReachable` | src/persistence/lock.ts:132-159 | Such an overlap is reachable from an empty ledger by one process that starts two submissions. |
| `LiveOrderMonitor.CorrelateExecution` | src/reconcile/executionCorrelation.ts:31-68 | An execution is correlated exactly to the one order that owns it, and to none when it is incomplete or several own it. |
| `LiveOrderMonitor.LiveOrderMonitor.BookExecutions` | src/execution/LiveOrderMonitor.ts:184-234 | The loop over the account's executions books what the fold says and sums the proven quantity. |
| `LiveOrderMonitor.LiveOrderMonitor.Apply` | src/execution/LiveOrderMonitor.ts:145-259 | The locked phase leaves the folded ledger, and the folded portfolio if anything was booked or released and no crash intervened. |
| `MonitorLaws.PassIsExplained` | src/execution/LiveOrderMonitor.ts:145-259 | Whatever the evidence, a pass moves cash and position by exactly what it adds to the books, and the reserved pool stays the sum of reservations. |
| `MonitorLaws.PassKeepsProtected` | src/execution/LiveOrderMonitor.ts:145-259 | A pass leaves the reservations of live orders in flight that were never identified as they are: the assumption the protocol makes about other writers. |
| `MonitorLaws.HistoryKeepsOtherReservations` | src/portfolio/Portfolio.ts:397-1229 | No history of accounting operations touches, adds or removes a reservation that none of them is for. |
| `MonitorLaws.PassIsRun` | src/execution/LiveOrderMonitor.ts:145-182 | The ledger a pass leaves is that of a run of the protocol's monitor events. |
| `MonitorLaws.NothingProvenIff` | src/execution/LiveOrderMonitor.ts:184-190 | The proven quantity is zero exactly when no execution is proven for the order. |
| `MonitorLaws.ReleasedIff` | src/execution/LiveOrderMonitor.ts:236-252 | A pass ends the reservation of an order exactly when no execution of it is proven and the exchange reports it canceled, rejected, expired or filled with nothing. |
| `MonitorLaws.ReleasedDespiteFillIff` | src/execution/LiveOrderMonitor.ts:236-252 | A reservation is given back although the exchange reports a filled quantity exactly when the state is canceled, rejected or expired and no execution that was read is proven for the order; such evidence always exists. |
| `MonitorLaws.FinalOrdersAreNotRevisited` | src/execution/LiveOrderMonitor.ts:160-182 | An order left in a final state, as by a pass that died before writing the portfolio, is never booked, released or changed by any later pass. |
| `OperatorResolution.OperatorCommands.ResolveCreated` | src/cli/resolve-created-order-cmd.ts:361-427 | ATTACH or ABANDON is applied exactly when the reloaded order is unidentified, unchanged and identical in identity; the ledger is the protocol's. |
| `OperatorResolution.OperatorCommands.ResolveLive` | src/cli/resolve-live-order-cmd.ts:481-572 | The attested aggregate is written before the FILLED record; a refusal changes nothing, a crash leaves only the first write. |
| `ResolutionHistory.PassesBookIff` | src/execution/LiveOrderMonitor.ts:145-259 | Over any sequence of monitor passes, crashed ones included, executions of an order are booked exactly when one of the visits to it, found observable, accepts one. |
| `ResolutionHistory.PassRepeatsIff` | src/execution/LiveOrderMonitor.ts:145-259 | A whole pass books an exchange order again exactly when it books an execution of a record whose order is settled or attested. |
| `ResolutionHistory.RetryCompletes` | src/cli/resolve-live-order-cmd.ts:481-572 | After a first resolution that died between its writes and any monitor passes, the same command succeeds exactly when the record still has the checked identity, books nothing more, and the order carries executions beside its attestation exactly when some pass accepted one. |
| `ResolutionHistory.CompletedIsNotRevisited` | src/cli/resolve-live-order-cmd.ts:481-572 | Once the FILLED record is written no sequence of passes books the order or changes the record. |
| `ResolutionHistory.CompletedRepeatsWithoutEffect` | src/cli/resolve-live-order-cmd.ts:481-572 | After a completed resolution and any monitor passes the same command still succeeds and leaves both stores as they are. |
| `ResolutionHistory.AttestedOrderIsBookedAgain` | src/cli/resolve-live-order-cmd.ts:481-572 | A concrete sale attested by a command that dies between its writes, booked again by the next pass, and completed by the repeated command: its proceeds arrive twice. |
| `OperatorResolution.RetryWithOtherEvidenceIff` | src/cli/resolve-live-order-cmd.ts:481-572 | A half-done resolution can be completed with other evidence exactly when that evidence books the very same aggregate in a quote fee. |
| `LiveEngine.LiveEngine.BeginCycle` | src/engine/LiveEngine.ts:257-276 | A cycle up to its first await: the kill switch halts only once market information is loaded. |
| `LiveEngine.LiveEngine.Resumed` | src/engine/LiveEngine.ts:276-322 | After its own reconcile a cycle starts a placement exactly when nothing is halted, the ledger shows nothing in flight and a trade passed its gate. |
| `LiveEngine.LiveEngine.ReconcileReturned` | src/engine/LiveEngine.ts:418-445 | A halting outcome halts, a failure counts as a cycle error. |
| `LiveEngine.LiveEngine.PlaceReturned` | src/engine/LiveEngine.ts:364-412 | An unknown outcome halts the engine, a refusal or rejection only ends the cycle. |
| `LiveEngine.LiveEngine.CatchError` | src/engine/LiveEngine.ts:322-332 | Enough consecutive errors halt the engine. |
| `LiveEngine.LiveEngine.HaltNow` | src/engine/LiveEngine.ts:246-254 | The first halt reason is kept. |
| `LiveEngine.HaltIsSticky` | src/engine/LiveEngine.ts:246-254 | Once halted, the reason stays and no placement starts, whatever the cycles under way do. |
| `LiveEngine.RunIsSane` | src/engine/LiveEngine.ts:257-334 | In every interleaving each cycle places at most once, every placement saw a ledger with nothing in flight, and enough consecutive errors have halted the engine. |
| `LiveEngine.EachPlacementIsItsCyclesOnly` | src/engine/LiveEngine.ts:276-322 | A placement follows the cycle's own successful reconcile, is its only one, and happens unhalted on a ledger without unresolved live orders. |
| `LiveEngine.TwoCyclesPlaceAtOnceIff` | src/engine/LiveEngine.ts:225-227 | While one cycle awaits its placement another one can start one exactly when the ledger it reads shows nothing in flight. |
| `LiveEngine.TwoCyclesPlaceAtOnce` | src/engine/LiveEngine.ts:225-227 | Two timer-started cycles can await placements at the same time (a concrete run). |
| `AutonomousLiveSession.SessionRegistry.Create` | src/execution/AutonomousLiveSession.ts:130-138 | Issues a session exactly for a valid scope. |
| `AutonomousLiveSession.SessionRegistry.Evaluate` | src/execution/AutonomousLiveSession.ts:193-234 | An order is allowed exactly when the presented session is genuine and unexpired and its scope and remaining budget cover the order; nothing is consumed. |
| `AutonomousLiveSession.SessionRegistry.Authorize` | src/execution/AutonomousLiveSession.ts:243-254 | Consumes one order and its notional exactly when the order is allowed. |
| `AutonomousLiveSession.BudgetConserved` | src/execution/AutonomousLiveSession.ts:130-254 | Over every sequence of calls with any presented sessions, counters equal the number and notional of the granted orders, no session exceeds its budget, and every grant is within its scope and before expiry. |
| `AutonomousLiveSession.EndedStaysEnded` | src/execution/AutonomousLiveSession.ts:160-163 | An ended session grants nothing more. |
| `ControlledLiveAuthorization.AuthorizationRegistry.IsControlledLiveOrder` | src/execution/ControlledLiveAuthorization.ts:199-215 | Authorizes exactly a genuine, unused token for an order of its side within its caps, and consumes it. |
| `ControlledLiveAuthorization.EachTokenGrantsOnce` | src/execution/ControlledLiveAuthorization.ts:130-215 | Over every sequence of calls a token grants at most one order, of its own side and within its issued caps. |
| `ManualValidation.AcceptedEvidenceKeepsItsClassIff` | src/manual/validation.ts:122-147 | New evidence is accepted exactly when the recorded one is not final or the new one is of the same class, final without a fill or final otherwise. |
| `ManualBridge.ManualTradeBridge.Propose` | src/manual/bridge.ts:172-232 | Writes the reservation and then the intent, or refuses and writes nothing. |
| `ManualBridge.ManualTradeBridge.Confirm` | src/manual/bridge.ts:237-247 | Confirms exactly a proposed intent and changes nothing else. |
| `ManualBridge.ManualTradeBridge.RecordEvidence` | src/manual/bridge.ts:256-300 | Records evidence exactly for a confirmed, unfinished intent without a conflict of progress. |
| `ManualBridge.ManualTradeBridge.BeginSettle` | src/manual/bridge.ts:319-343 | Goes on only with a settleable, structurally sound intent, which it leaves untouched; contradictory evidence marks it ambiguous. |
| `ManualBridge.ManualTradeBridge.FinishSettle` | src/manual/bridge.ts:345-446 | After the exchange read: the two writes of the outcome the read decides, from the intent as it was before the read. |
| `ManualBridge.ManualTradeBridge.Cancel` | src/manual/bridge.ts:457-493 | Releases and cancels exactly an unexecuted intent without a reported fill. |
| `ManualBridge.ManualTradeBridge.Reconcile` | src/manual/bridge.ts:526-668 | The loop over reservations and intents yields exactly the specified report and repaired stores, and nothing when the intent store cannot be loaded. |
| `ManualRecovery.SafeIffClean` | src/manual/bridge.ts:526-668 | From any pair of stores safeToTrade holds if and only if the two stores agree afterwards, and cash, positions and settlements are untouched. |
| `ManualRecovery.ReconcileIsIdempotent` | src/manual/bridge.ts:526-668 | A second pass changes nothing and reports the same errors without fixes. |
| `ManualRecovery.ProposalKeepsClean` | src/manual/bridge.ts:172-232 | A completed proposal keeps the agreement of the two stores. |
| `ManualRecovery.ConfirmationAndEvidenceKeepClean` | src/manual/bridge.ts:237-300 | So do confirmations and accepted evidence. |
| `ManualRecovery.CancellationKeepsClean` | src/manual/bridge.ts:457-493 | So does a completed cancellation, because it releases what it cancels. |
| `ManualRecovery.SettlementKeepsCleanIff` | src/manual/bridge.ts:319-446 | A completed settlement keeps the agreement exactly when it does not end ambiguous or reconciliation-required. |
| `ManualRecovery.CrashedProposalIsReported` | src/manual/bridge.ts:182-231 | A crash after the reservation of a proposal is reported as an orphan; a sale leaves no trace. |
| `ManualRecovery.CrashedSettlementIsCompleted` | src/manual/bridge.ts:410-445 | After a crash between settlement and intent the next pass ends exactly where the settlement would have, and reports only that. |
| `ManualRecovery.CrashedReleaseIsReported` | src/manual/bridge.ts:371-493 | A crash after releasing a purchase's reservation, in a settlement without fill or a cancellation, is reported as a missing reservation. |
| `ManualHistory.SettleBooksTheRead` | src/manual/bridge.ts:345-446 | A settlement books the quantity, price and fee of the exchange read, positive and within the proposal, or nothing. |
| `ManualHistory.ManualAccountingIsSound` | src/manual/bridge.ts:319-446 | Over every history with overlapping settlements, retries, crashes, recovery passes and other accounting, what is booked for an intent lies within its proposal at a positive price and fee. |
| `ManualHistory.BookedOnce` | src/manual/bridge.ts:319-446 | A booked settlement is never replaced: one per intent, over every history of writers that load the portfolio again. |
| `StaleWrites.StaleSaveKeepsSettlementIff` | src/cli/manual-cmd.ts:845-864 | A booked settlement survives a save made from a copy if and only if the copy held it. |
| `StaleWrites.SettlementIsLost` | src/cli/manual-cmd.ts:845-864 | A copy loaded before a sale was settled takes the settlement and its proceeds back. |
| `StaleWrites.BookedOnceUnderStaleSaves` | src/cli/manual-cmd.ts:845-864 | A booked settlement stays over every history of the bridge with saves from copies that held it. |
| `ManualHistory.LifecycleIsMonotone` | src/manual/bridge.ts:237-493 | Over every history in which each settlement that waited for the intent ends harmlessly, accounted, canceled and void intents never change, except that a recovery pass gives an intent the status of its booking, and final evidence keeps its class. |
| `ManualHistory.LifecycleIsMonotoneIff` | src/manual/bridge.ts:237-493 | The condition is exact: the settlements end harmlessly if and only if no step but a recovery pass takes anything final back. |
| `ManualHistory.SerializedLifecycleIsMonotone` | src/manual/bridge.ts:237-493 | It holds whatever the exchange answers when nothing is started on an intent, and no recovery pass runs, while a settlement waits for it. |
| `ManualHistory.ReconcileFinalizes` | src/manual/bridge.ts:578-600 | A recovery pass changes an intent only to the accounted form of what is booked for it. |
| `ManualHistory.WaitingSettlementKeepsCancellationIff` | src/manual/bridge.ts:345-389 | A settlement that was waiting keeps a cancellation exactly when nothing else changed the intent and the exchange reports a final state without a fill. |
| `ManualHistory.WaitingSettlementKeepsAccountedIff` | src/manual/bridge.ts:345-446 | It keeps an accounted intent exactly when nothing but the accounting in its own mode changed the intent and the exchange confirms the very booking again. |
| `ManualHistory.WaitingSettlementNeverKeepsVoid` | src/manual/bridge.ts:345-446 | It never leaves a void intent void. |
| `ManualHistory.WaitingSettlementKeepsEvidenceIff` | src/manual/bridge.ts:345-446 | It writes its own evidence back, so recorded evidence keeps its class exactly when the evidence it read had that class. |
| `ManualOverlaps.AccountedIntentIsTakenBack` | src/manual/bridge.ts:345-365 | Two settlements of one intent: the second, whose read fails, takes the accounted intent back to reconciliation-required. |
| `ManualOverlaps.FinalEvidenceIsTakenBack` | src/manual/bridge.ts:256-365 | Final evidence recorded during a settlement is overwritten by open evidence, and contradicting evidence is then accepted. |
| `ManualHistory.CanceledPurchaseIsNotBooked` | src/manual/bridge.ts:408-440 | Without an active reservation a waiting settlement never books a purchase. |
| `ManualHistory.EvidenceKeepsStoreReadableIff` | src/manual/bridge.ts:276-300 | Accepted evidence leaves the intent store loadable exactly when its filled quantity is not negative. |
| `ManualHistory.NegativeFillIsAcceptedIff` | src/manual/bridge.ts:276-300 | An intent that takes evidence takes a negative quantity exactly while no final fill is recorded. |
| `ManualHistory.UnreadableStoreStaysAsItIs` | src/manual/ManualIntentStore.ts:169-176 | Once the store cannot be loaded no operation writes an intent again. |
| `ManualIntentStore.StoredIntentRoundTrip` | src/manual/ManualIntentStore.ts:367-476 | Reading a written intent gives it back with every field, up to empty event details. |
| `ManualIntentStore.WrittenEntryIsValidIff` | src/manual/ManualIntentStore.ts:274-365 | A written intent passes the checks of names, ids and amounts a load makes exactly when its amounts satisfy the condition the bridge model tests. |
| `ManualIntentStore.MigrationIsSound` | src/manual/ManualIntentStore.ts:245-260 | A valid entry of the first version is valid after migration, migration is idempotent, SETTLED becomes accounted and is refused in the second version. |
| `BacktestFill.FillIsAdverse` | src/backtest/fill.ts:56-69 | For every non-negative slippage and spread a purchase pays at least and a sale receives at most the open, on the tick grid and within a tick of the moved price. |
| `BacktestFill.PurchasePaysLeastTick` | src/backtest/fill.ts:28-69 | A purchase pays the least grid price that covers the moved price. |
| `BacktestFill.FeeWithinNotional` | src/backtest/fee.ts:20-23 | Up to a rate of one the fee lies between zero and the notional. |
| `BacktestFill.FeeAboveNotional` | src/backtest/fee.ts:20-23 | Above a rate of one there is a notional whose fee exceeds it. |
| `Backtest.ValidateCandles` | src/backtest/validation.ts:46-100 | The scan accepts exactly the valid, strictly ascending series. |
| `Backtest.RunBacktest` | src/backtest/engine.ts:63-234 | Refuses exactly invalid input, and otherwise is the fold over the bars. |
| `BacktestLaws.EveryIntentEndsOnce` | src/backtest/engine.ts:117-163 | For every run and every bar: an approval with a bar after it in the run has exactly one trade of its signal or exactly one refusal at the next fill, never both, and a bar without one has neither. |
| `BacktestLaws.EveryTradeIsItsIntent` | src/backtest/engine.ts:117-163 | Every trade is of the bar after its signal, where the decision approved its side and quantity. |
| `BacktestLaws.EndedIntentsAddUp` | src/backtest/engine.ts:117-163 | Over every run the approvals are as many as the trades, the refusals at a fill and the pending intent. |
| `BacktestLaws.NoLookahead` | src/backtest/engine.ts:109-176 | Series that agree on their first k bars give complete runs with the same equity, trades and rejections of those bars; all later entries are of later bars. |
| `BacktestLaws.EveryFillIsAtTheNextOpen` | src/backtest/engine.ts:247-346 | Every trade fills at the open of exactly the bar after its signal, at the adverse price. |
| `BacktestLaws.EveryBarConserves` | src/backtest/engine.ts:247-346 | After every bar cash is the initial cash less purchases and fees plus sales less fees, the position is bought less sold, and equity is both at the close. |
| `BacktestLaws.NeverBelowZero` | src/backtest/engine.ts:262-285 | With a fee rate of at most one neither cash nor position is ever negative. |
| `BacktestLaws.HigherRateGoesBelowZero` | src/backtest/validation.ts:162-164 | For every higher rate, which validation admits, there is a run that ends with negative cash. |
| `BacktestReport.ComputeMetrics` | src/backtest/report.ts:22-84 | The two loops compute the counts, sums, extremes and the drawdown of their specifications. |
| `BacktestReport.MetricsMatchThePortfolio` | src/backtest/report.ts:36-51 | Gross profit less gross loss is the profit the portfolio itself realized, after every bar of every run. |
| `BacktestReport.ReportedIsAtLeastTrue` | src/backtest/report.ts:55-64 | For every non-negative equity curve, under truncating division, the reported drawdown is at least the one with a genuine running peak. |
| `BacktestReport.ReportedIsPeakToLowest` | src/backtest/report.ts:55-64 | Started from the final peak the loop reports the fall from that peak to the lowest point, in either order. |
| `BacktestReport.ReportedIsTrueIff` | src/backtest/report.ts:55-64 | On exact fractions the report is the true drawdown if and only if the lowest point has the final peak as its running peak, or a positive one and is a total loss. |
| `BacktestReport.TruncatedReportIsTrue` | src/backtest/report.ts:55-64 | Under truncation the report is the true one under that condition, and otherwise shows the same digits only when the two differ by less than a unit of the last one. |
| `BacktestReport.DrawdownIsFloor` | src/backtest/report.ts:55-64 | The reported number is the exact fraction cut off after its eighth digit. |
| `BacktestReport.FinalPeakOfARun` | src/backtest/engine.ts:166-190 | The peak a run hands to the report is the final peak of its equity curve. |
| `BacktestReport.ReportedCanOverstate` | src/backtest/report.ts:55-64 | A rising curve without any drawdown is reported to have lost half. |
| `CandleAcquisition.EarliestTimestamp` | src/backtest/candleAcquisition.ts:315-322 | The scan returns the least timestamp of a non-empty page. |
| `CandleAcquisition.PageCoversHead` | src/backtest/candleAcquisition.ts:331-334 | True exactly when some row lies at or before the expected head. |
| `CandleAcquisition.IsBetterPage` | src/backtest/candleAcquisition.ts:342-349 | A better page starts earlier, or starts with the other and is longer. |
| `CandleAcquisition.FetchPage` | src/backtest/candleAcquisition.ts:142-183 | The retry loop uses at most the given attempts, stops at the first answer that covers the head, and refuses exactly when data was collected, no attempt covered the head, and some attempt was not empty. |
| `CandleAcquisition.FetchPages` | src/backtest/candleAcquisition.ts:129-187 | For every source the paging loop ends within pages times attempts requests, over adjacent windows, each closed by the rules; it stops early exactly at the first window that is truncated on every attempt. |
| `CandleAcquisition.WindowsPartition` | src/backtest/candleAcquisition.ts:133-186 | Every instant of the requested range lies in exactly one window. |
| `CandleAcquisition.AcquireCandles` | src/backtest/candleAcquisition.ts:101-283 | It succeeds exactly when no window is truncated and the collected rows have no duplicate, other market, missing or invalid candle, and otherwise reports the first of these; on success the series is exactly the rows of the accepted pages within the range, strictly ascending, within the request bound. |
| `CandleAcquisition.StoredRowIsCollectedIff` | src/backtest/candleAcquisition.ts:135-185 | When the source answers with nothing or with a time suffix of what it stores, a stored row from one bar after the start of a window inside the series is collected if and only if that window was not empty on every attempt. |
| `CandleAcquisition.EmptyWindowLosesARow` | src/backtest/candleAcquisition.ts:135-185 | A concrete source whose second window is always empty: every window is closed, nothing is wrong with the series, and a stored row is missing from it. |
| `MarketCoordinator.Evaluate` | src/engine/MarketCoordinator.ts:148-266 | The loop judges every symbol once in code-unit order, and its decision is an approval, of an exit if any is approved, least in its kind among all approvals; none only when nothing is approved. |
| `MarketCoordinator.OrderDoesNotMatter` | src/engine/MarketCoordinator.ts:150 | Permuting or repeating the input symbols changes nothing, also for a strategy and risk manager with state. |
| `MarketCoordinator.CandidatesAreApproved` | src/engine/MarketCoordinator.ts:152-263 | The candidates are exactly the approvals of the judge, in the state the symbols before left, each for its own symbol and in order. |
| `MarketCoordinator.EvaluationIsRight` | src/engine/MarketCoordinator.ts:148-377 | For every set of symbols the decision is risk-approved and the best approval: the least-symbol sale if any sale is approved, otherwise the purchase least by spread and then symbol. |
| `MarketCoordinator.SelectionIsRight` | src/engine/MarketCoordinator.ts:358-377 | The selected trade is a candidate: the least symbol among sales if there is any sale, otherwise least by spread and then symbol; none only without candidates. |
| `MarketCoordinator.ValuePositions` | src/engine/MarketCoordinator.ts:281-325 | A valuation is known exactly when every other managed position has a fresh price, and then still leaves out a position exactly when it is the candidate's own without a price. |

## Left out

- LiveOrderEngine: `refreshOrder` and `recoverOrder` save exchange answers without a locked re-check, so the one-in-flight claim is not stated over them; `prepare`, `placePrepared` and the risk re-evaluation before a submission are not modelled.
- LiveOrderEngine: the operation runs with nothing else interleaved; interleavings are the transition system's, whose events other writers are, and an asynchronous call is a step with an arbitrary answer. Log messages, timestamps and the texts of refusals are left out.
- SubmissionProtocol: writers of the portfolio other than submissions are one event that keeps the reservations of live orders in flight that were never identified; this is shown for monitor passes, for every history of accounting operations on other ids, and for saves from up-to-date copies. Other saves of the manual command line are in `StaleWrites` only.
- SubmissionProtocol: the file formats, envelopes and the corrupt state of the order ledger; a store is a value replaced by an atomic save that can fail.
- `commitProven` and the classification part of reconciliation (src/reconcile/orchestrator.ts): the engine's reconcile is an outcome, sound, halting or failing.
- LiveOrderMonitor: the report's lists of transitions and errors, and a ledger save that throws in the middle of a pass.
- OperatorResolution: the reads, confirmation and fee resolution before the lock is taken; their results are parameters.
- LiveEngine: status publication, events, equity display, market information and eligibility; the coordinator's decision is a parameter of a resumed cycle.
- AutonomousLiveSession: the issued scope object is shared with the caller in the original; scopes are immutable values here, so its mutation in place is not captured.
- ManualBridge: audit events, evidence source and notes, the two confirmation flags, and the risk evaluation that sizes a proposal. Settlement states that the exchange check already excludes (a fill above the proposal) are not repeated.
- ManualBridge: the bridge's portfolio accessor is the durable portfolio, except in `StaleWrites`; a settlement of an id without an intent is outside what `reconcile` looks at, and outside the agreement proved.
- ManualIntentStore.WrittenEntryIsValidIff: does not model the structural checks of untyped JSON (wrong types, missing objects, non-finite numbers), because a written entry has its fields by construction; names, ids and amounts are checked.
- ManualIntentStore: the order of fields, and the contents of the applied limits, which are text that is passed through.
- DecimalText: the white space trimmed is blank, tab and line ends, not every Unicode space; `toFixed` with other numbers of places.
- Portfolio: external holdings and their authorization, daily profit, peak equity, and the dates and audit fields of settlements and attestations.
- Backtest: strategy and risk manager are any decision function of the completed bars, the portfolio and the fills so far; their own rules, warnings and the gap notice are not modelled.
- BacktestReport: ratios converted to floating point (win rate, total return); the drawdown is the truncated fixed-point fraction before that conversion.
- CandleAcquisition: the gap statistics and coverage warnings of the result.
- MarketCoordinator: market data, strategy and risk are one judgement; `localeCompare` is any total preorder, and spreads are ordered keys with a missing one last. The per-market evaluation report is left out.
- Fractions given as floating-point numbers are numerators over 10^9, the integers the original makes of them before any arithmetic.
- The NDAX adapter, HTTP server, dashboard, command-line parsing and rendering, configuration, paper trading, readiness and freshness conjunctions: plumbing or flat checks.
