# Polybot verification model

A Dafny model of the parts of the Polybot trading backend that carry unbounded state, loops or concurrent parties, with
proofs of what they promise. `dafny verify dfyconfig.toml` checks the whole project. Each module names the source file
it models; paths in the table are relative to the repository root.

* **Sizing and cost bounds** (`Decimals`, `Fees`, `OrderBook`, `BookSweep`, `Strategy`, `Risk`, `BucketGap`, `Policy`,
  `Portfolio`):
  the worst-case BUY bound over all partial fills, the greedy book sweep as an exact maximum, the agreement of strategy
  and risk gate, and the soundness of tightening limits.
* **Runtime-control latch** (`RuntimeControl`, `RuntimeWorld`, `RuntimeLatch`, `RuntimeStops`, `RuntimeDowngrade`): a
  history of the durable control row in which watcher, engine stop, downgrade clean-up, shutdown and operators
  interleave. Each party is a method over a `World` that other parties may change before every call; the contract of
  `World.Interfere` is the only thing relied upon, and every method proves that its own steps respect it.
* **Mode and readiness gate** (`ModeGate`): the tasks of the worker as a state machine, one await-free stretch a step;
  what holds in every interleaving, what closes the gate, and that it can be opened again from every reachable state.
* **Wallet lifecycle** (`WalletTables`, `WalletRepository`, `WalletEffects`, `WalletRuns`, `WalletFencing`): the in-memory
  repository as a class proved against table functions, what each of these does to which rows, then invariants and fencing
  over all runs.
* **Calibration chain** (`Performance`, `Calibration`, `Correction`, `Ensemble`): from ledger rows to a forecast interval.
* **Bounded registries and the backtest** (`Limiter`, `Registry`, `Backtest`).
* **Reconciliation** (`ReconcileTrades`, `ReconcilePositions`, `Reconcile`): attribution, positions, rolling cursors.
* **Engine** (`IntentLog`, `CyclePlan`, `Engine`): the submission discipline of a cycle among parties sharing the intent
  store, and a cycle as a fold over the answers of its calls: what it asks the AI, what it submits, when it stops.
* `Wrappers` and `Histories` hold what several of these share: optional values, and what one party added to a log.

## Where the code and its promise differ

* A disarm into paper or shadow clears the cancellation latch instead of setting it (stores/memory.py:298), so an armed or
  latched row can be re-armed without an acknowledgement. `RearmWithoutAckExactly` says when. `ShadowDisarmReopens` shows
  it on the trace of the downgrade clean-up: another party arms between its checks and its last disarm. `LeakOnlyByRace`
  says that the clean-up loses a latch in no other way. The disarm route of the tenant API reads the mode and then disarms
  into it (api.py:1436-1440), with the same race; that route is not part of this model.
* The sweep stops at a level below 0.01 shares; `DustLosesExactly` says when that costs size.
* The gate adds the unclassified bucket's exposure to every bucket, the strategy does not. `BucketGapExactly` gives the
  boundary on forecast, portfolio and settings; `BucketBracket` the bounds for one book.
* Claim eligibility requires fewer than five attempts for revocations too, so a wallet verified at its fifth attempt can
  never be picked up for revocation; `RevocationClaimableExactly`, `StuckIsReachable`.
* The running-peak drawdown can understate a run that ends below zero: `ReportedDrawdownExactly` says when, and
  `RuinUnderstatesDrawdown` is a run of two trades that reports 1.5 for a fall of 1.75. `GuardedDrawdownIsTrue` gives a
  guard on rows and settings under which no run ends there, `OneTradeRuinsExactly` when a single trade does.
* The Brier sum of a run that stops early covers the processed rows but is divided by all of them. `BrierExactly` says when
  the figure is right; `EarlyStopUnderstatesBrier` is a run where it is too low.
* A trade that yields no perspective is discarded before the baseline without a token test;
  `EmptyTradeDiscardedVacuously`.
* A hard breach first seen at a market's own checkpoint stops real money, but in paper or shadow a market without anything
  to sell still goes on to the AI budget; `BreachedMarketAsksExactly` says when, `BrokenPaperMarketAsks` shows it. An entry
  then still needs an unbroken portfolio after the forecast.
* The cap on AI markets per cycle does not count a market that fails after its reservation. `CapHoldsExactly` says when the
  cap holds, `RunCycle` that a cycle reserves exactly so often, and `CapIsOverrun` shows a cycle of two with a cap of one.

## Assumptions

* Decimals are mathematical reals; quantization, floor division (truncating toward zero) and half-up rounding are exact.
* Clocks are monotone. Fee exponents are natural numbers, at least one where fees are enabled.
* Store procedures behave as the in-memory store does: every change bumps the version, acknowledge and expire are version
  compare-and-set operations, `reserve_intent` inserts if absent. Fresh identifiers do not repeat, and equal intent hashes
  mean equal contents.
* Any awaited call returns any allowed value or raises, before or after its effect; other parties may act in between. The
  other parties follow the same discipline this project proves of the modelled ones.
* A trade listing read to its end holds every visible trade newer than its cursor, and a trade that appears late is less
  than 60 seconds older than what was read before it (predicate `Trusted`).

## Model

| member | source | states |
|---|---|---|
| `Fees.FeePeak` | backend/src/polybot/fees.py:6-24 | the fee of any price at or below a limit is at most the fee at min(limit, 0.5), for every natural exponent |
| `Fees.CommitmentMonotone` | backend/src/polybot/fees.py:33-57 | a dearer limit never lowers the worst-case commitment per share |
| `Fees.RoundFeeAtMostDouble` | backend/src/polybot/fees.py:42-57 | half-up rounding of a matched fee never more than doubles it, which is why the bound reserves two fees |
| `Fees.ScheduleExactly` | backend/src/polybot/fees.py:6-24 | nothing is charged without an enabled positive rate or outside the open price range; inside, the rate times one factor of price and complement per unit of the exponent |
| `Fees.MatchedFeeExactly` | backend/src/polybot/fees.py:60-81 | a maker pays nothing, a taker the reported rate to within half a unit of five decimals |
| `Fees.WorstCaseSplitBound` | backend/src/polybot/fees.py:33-57 | for every list of partial fills at or below the limit and within the size, cost plus individually rounded schedule fees stays within `maximum_buy_cost` |
| `Fees.WorstCaseFillBound` | backend/src/polybot/fees.py:33-80 | the same bound for the fees the venue reports per fill (basis points, maker and taker), however the BUY is split |
| `Fees.BoundIsTight` | backend/src/polybot/fees.py:42-57 | the factor two is exact: at every rate, splits of any length reach the bound |
| `OrderBook.SortedKeepsLevels` | backend/src/polybot/strategy.py:347-348 | sorting a book side keeps its levels and their validity |
| `OrderBook.BestQuoteIsFirst` | backend/src/polybot/models.py:98-104 | the best quote is the first level of the sorted side |
| `OrderBook.CheapestFill` | backend/src/polybot/strategy.py:348-375 | walking asks by price costs no more than any other way of filling the same size from the same levels |
| `BookSweep.SweepBook` | backend/src/polybot/strategy.py:341-377 | the greedy loop returns exactly the optimal sweep of the sorted asks: size, gross, fee and limit |
| `BookSweep.SweepIsOptimal` | backend/src/polybot/strategy.py:341-377 | with every level of at least 0.01, the size is the maximum over all limits k of min(quantized depth through k, quantized budget over the commitment per share at k) |
| `BookSweep.LimitLevel` | backend/src/polybot/strategy.py:356-376 | the level holding the last share sets the limit, and its own cap admits the whole size |
| `BookSweep.SweepWithinBudget` | backend/src/polybot/strategy.py:341-377 | for any book: the size is a multiple of 0.01 and its maximum cost at the returned limit is within the budget |
| `BookSweep.DustLosesExactly` | backend/src/polybot/strategy.py:361-366 | the loop stops at a level below 0.01; this loses size if and only if a level behind it has depth and affords one more share |
| `BookSweep.DustStopsTheSweep` | backend/src/polybot/strategy.py:361-366 | a concrete book where a dust level at the top keeps the loop from an affordable level |
| `Strategy.LateChecksNeverFire` | backend/src/polybot/strategy.py:224-244 | the quantize after the sweep is the identity and the commitment-above-budget rejection cannot happen |
| `Strategy.BuyFacts` | backend/src/polybot/strategy.py:178-263 | what every BUY candidate satisfies: grid size, minimum size, price order, and a commitment within each of the seven budgets |
| `Strategy.BuyNeverDrawsSizingCodes` | backend/src/polybot/strategy.py:178-263 | a BUY of the strategy never draws the gate's order-cap, cash, trade-risk, event, gross, minimum-size, empty-ask or marketability code on the same book and portfolio |
| `BucketGap.BucketBracket` | backend/src/polybot/strategy.py:197-222 | for a BUY on any book: unclassified exposure up to the bucket room less the budget never draws the bucket code, exposure of the whole room or more always does |
| `BucketGap.CheapAskCommits` | backend/src/polybot/strategy.py:178-263 | any amount below the attainable budget is exceeded by the commitment of a BUY on some book |
| `BucketGap.BucketGapExactly` | backend/src/polybot/strategy.py:197-222 | some book makes the strategy size a BUY that the gate's bucket test refuses, if and only if the forecast clears the reserve, a budget is attainable, and the unclassified exposure exceeds the bucket room less that budget |
| `Strategy.UnclassifiedBucketRefusesABuy` | backend/src/polybot/strategy.py:195-215 | a concrete portfolio where unclassified exposure makes the gate refuse a BUY the strategy sized |
| `Strategy.HardBreachStopsEveryBuy` | backend/src/polybot/risk.py:94-101 | the strategy's hard-breach test holds exactly when the gate draws a daily-loss or drawdown code, and then no BUY is approved |
| `Strategy.FillBids` | backend/src/polybot/strategy.py:128-147 | the exit loop fills the sorted bids up to the cap: filled, gross, fee and last price |
| `Strategy.SellIsSafe` | backend/src/polybot/strategy.py:265-338 | a SELL is at most the position, its gross at most `max_order_usd`, and limit <= average price <= best bid even after rescaling the sub-step remainder |
| `Strategy.RiskExitIsSafe` | backend/src/polybot/strategy.py:107-176 | the same for a risk exit |
| `Strategy.ExitNeverDrawsSizingCodes` | backend/src/polybot/risk.py:53-110 | a safe exit draws no size, cap or sell-side code of the gate |
| `Strategy.ChosenAgreesWithGate` | backend/src/polybot/strategy.py:26-80 | whatever `choose` returns is a valid candidate on the book of its own outcome and agrees with the independently written gate there |
| `Strategy.ChosenByItsBound` | backend/src/polybot/strategy.py:26-80 | on the fields of the choice: a SELL brings more than the upper bound of its outcome plus the reserve, a BUY costs less than the lower bound less the reserve, with 1 - high and 1 - low for NO; an entry comes only if neither book has a viable exit; no viable candidate of its side has a larger edge, YES first on a tie; nothing below the minimum confidence |
| `Strategy.NothingChosenExactly` | backend/src/polybot/strategy.py:26-80 | nothing is chosen exactly when confidence is missing or none of the four candidates is viable |
| `Strategy.BuyViableExactly` | backend/src/polybot/strategy.py:178-263 | an entry is viable exactly when its budget is positive, the sweep reaches the minimum size and its cost stays below bound and reserve; the other rejections of the code never decide |
| `Strategy.BudgetIsTheTightest` | backend/src/polybot/strategy.py:192-222 | the budget is the smallest of the seven rooms, and positive exactly when all of them are |
| `Strategy.SellViableExactly` | backend/src/polybot/strategy.py:265-338 | an exit is viable exactly when something is held, cap and fill reach the minimum size and the net proceeds beat bound and reserve; the test of the best bid never decides |
| `Strategy.ExitCapIsLargest` | backend/src/polybot/strategy.py:114-123 | the exit cap is the largest share-grid size within the position and the order cap at the best bid |
| `Strategy.OrderableKeepsRates` | backend/src/polybot/strategy.py:146-152 | only the part of a fill below the share grid is dropped, and proceeds and fee shrink in proportion |
| `Strategy.RiskExitExactly` | backend/src/polybot/strategy.py:82-105 | a risk exit is proposed exactly when the portfolio is broken and one side is viable, and then the side that brings more, YES on a tie |
| `Strategy.RiskExitOnlyUnderBreach` | backend/src/polybot/strategy.py:82-98 | a risk exit is proposed only under a hard breach and is a safe SELL on the book of its own outcome |
| `Risk.EvaluateCandidate` | backend/src/polybot/risk.py:26-119 | the gate reports exactly the codes that are drawn and approves exactly when none is |
| `Risk.DailyLossExactly` | backend/src/polybot/risk.py:94-97 | the daily-loss code is drawn exactly when the realized loss or the fall of the equity reaches the fraction of the bankroll, or of the start-of-day equity where that is smaller |
| `Risk.DrawdownExactly` | backend/src/polybot/risk.py:98-99 | the drawdown code is drawn exactly when the equity has fallen from a positive peak by that fraction of it |
| `Risk.ExposureCapsExactly` | backend/src/polybot/risk.py:47-93 | when a BUY draws each of the six cap codes, by its worst-case cost and the exposures it adds to |
| `Risk.TickAlignedExactly` | backend/src/polybot/risk.py:64-65 | a price is on the tick grid exactly when it is a whole number of ticks |
| `Risk.TighteningIsSound` | backend/src/polybot/risk.py:26-119 | whatever is approved under some limits is approved under limits no tighter |
| `Policy.PersonalConfiguration.Tighten` | backend/src/polybot/personal_configuration.py:39-50 | the loop refuses any invalid request and otherwise keeps the stricter of ceiling and request, field by field |
| `Policy.PersonalConfiguration.PolicyValues` | backend/src/polybot/personal_configuration.py:31-52 | a policy is accepted exactly when it is active, of this account and valid; the canary order cap applies on top |
| `Policy.PersonalConfiguration.ApplyPolicy` | backend/src/polybot/personal_configuration.py:54-65 | all limits are published at once, or the call raises and nothing changes |
| `Policy.NeverLooser` | backend/src/polybot/personal_configuration.py:31-52 | accepted limits are never looser than the deployment ceilings |
| `Policy.TightestInForce` | backend/src/polybot/personal_configuration.py:31-52 | each limit the gate reads is the tightest of ceiling and request, and the canary cap applies to the order size in canary mode alone |
| `Policy.AcceptedExactly` | backend/src/polybot/personal_configuration.py:31-50 | which stored policies are accepted, by account, activity and the range of every request |
| `Policy.PersonalConfiguration.ApprovalSurvivesCeilings` | backend/src/polybot/personal_configuration.py:31-65 | after any calls, a candidate approved under the current limits is approved under the ceilings |
| `Policy.ReplayCalls` | backend/src/polybot/personal_configuration.py:54-65 | after any sequence of accepted and raising calls the limits depend on the last accepted policy and mode alone |
| `RuntimeControl.StepFacts` | backend/src/polybot/stores/memory.py:201-326 | what each control RPC can do to the row: shape, version growth, latch on leaving an armed state, no arm while latched |
| `RuntimeControl.ArmExactly` | backend/src/polybot/stores/memory.py:201-248 | an arm is granted exactly for real money, at the version read, with nothing to acknowledge, within fifteen minutes, on a disarmed row or as a renewal; it leaves a row that is live until exactly then |
| `RuntimeControl.ExpiryEndsLife` | backend/src/polybot/stores/memory.py:250-278 | an armed row can be expired exactly from the moment it is no longer live, and then it is disarmed and latched |
| `RuntimeControl.ShapeKept` | backend/src/polybot/models.py:510-534 | every row of every history passes the gate-shape validator |
| `RuntimeControl.VersionPins` | backend/src/polybot/stores/memory.py:304-326 | two positions of a history with equal versions hold the very same row |
| `RuntimeControl.LatchHolds` | backend/src/polybot/stores/memory.py:280-302 | an armed period that ended unacknowledged keeps the cancellation latch unless a disarm into paper or shadow intervened |
| `RuntimeControl.ArmedPeriodsSeparated` | backend/src/polybot/worker.py:199-294 | in every interleaving of all parties, two armed periods without such a disarm between them are separated by an acknowledgement that follows a cancel, a zero-open-orders report and a "no unresolved orders" answer while the latched row stood still |
| `RuntimeControl.RearmWithoutAckExactly` | backend/src/polybot/stores/memory.py:201-248 | after an unacknowledged armed period the row accepts a new arm if and only if its mode is paper or shadow |
| `RuntimeControl.ShadowDisarmReopens` | backend/src/polybot/personal_cycle.py:126-152 | a concrete interleaving with two armed periods and no acknowledgement: another party arms between the checks of a clean-up into shadow and its last disarm |
| `RuntimeControl.CasJustifies` | backend/src/polybot/stores/memory.py:304-326 | a version compare-and-set that succeeds proves the row stood still since the version was read |
| `RuntimeControl.RefusalMeansMoved` | backend/src/polybot/stores/memory.py:304-326 | a refused acknowledgement of a version read off a stopped and latched row means that an order is unresolved or that the row has moved since |
| `RuntimeWorld.World.DisarmControl` | backend/src/polybot/stores/memory.py:280-302 | the unconditional disarm among other parties, raising before or after its effect |
| `RuntimeWorld.World.ExpireControl` | backend/src/polybot/stores/memory.py:250-278 | the expiry compare-and-set among other parties |
| `RuntimeWorld.World.AcknowledgeCancellation` | backend/src/polybot/stores/memory.py:304-326 | an acknowledgement needs the caller's evidence, and its success keeps every history disciplined; a refusal is recorded with the version it was asked for |
| `RuntimeLatch.ReadAndSettle` | backend/src/polybot/worker.py:210-236 | in real money a row first read as armed for another mode is disarmed, and one armed for this mode is expired unless the database refused; otherwise nothing is written, and the exchange is not touched yet; the arm counts as live for this worker exactly if the row was live for this mode and nothing had to be written |
| `RuntimeLatch.LatchBeforeExchange` | backend/src/polybot/worker.py:257-269 | whatever requires a cancellation in real money first establishes the database latch |
| `RuntimeLatch.CancelAndAcknowledge` | backend/src/polybot/worker.py:276-294 | a cancel comes first, and only a verified one and a clear order check acknowledge, only the version whose latch was seen; when every call answers, the cancellation stays pending only if the cancel was not verified, the order check was not clear, or the store was asked for that version and refused |
| `RuntimeLatch.PreparePass` | backend/src/polybot/worker.py:210-275 | before the exchange is touched: a pending cancellation is exactly a latched row, a remembered arm is a live one, leaving an armed state or a first disarmed sight sets the latch, and a live arm or a quiet row is left alone: nothing is written and the arm is remembered as it is |
| `RuntimeLatch.EnforceRuntimeControlOnce` | backend/src/polybot/worker.py:199-294 | a whole pass: every cancel follows a latched row; a mismatched arm is disarmed; leaving an armed state or a first disarmed sight reaches the exchange; a live arm for this mode with nothing pending is remembered and met with no write and no cancel, and so is a quiet disarmed row; the version it remembers is that of a row seen behind all its own disarms, and in real money a cancellation is pending exactly if that row is latched; it fails exactly when a call raised, and otherwise stays pending only for an unverified cancel, an order check that was not clear, or a recorded refusal of that very version |
| `RuntimeStops.PersistStop` | backend/src/polybot/engine.py:128-159 | a failed read or an unstopped row leads to the unconditional disarm; success means a durably stopped row of this mode was seen |
| `RuntimeStops.PersistStopAndVerifyCancellation` | backend/src/polybot/engine.py:120-201 | the exchange is cancelled whatever happened to the row; success means a stopped row and then a verified cancel; when every call answers, a verified cancel is a success, and a latched row ends unlatched unless the order check was not clear or the store refused the version of that row |
| `RuntimeStops.AcknowledgeIfClear` | backend/src/polybot/engine.py:169-194 | the order check precedes the acknowledgement, and success leaves a stopped, unlatched row; when every call answers, failure is an order check that was not clear, or a clear one followed by the refusal of this version |
| `RuntimeStops.PersistDisarm` | backend/src/polybot/worker.py:320-342 | at most `attempts` disarms, and what was persisted was seen |
| `RuntimeStops.CancelRepeatedly` | backend/src/polybot/worker.py:344-382 | between one and `attempts` cancels, each right after a validation of the lease, stopping at the first verified one; the lease counts as held exactly when no validation failed |
| `RuntimeStops.ConfirmAndAcknowledge` | backend/src/polybot/worker.py:384-419 | the lease is validated first and decides, and a required acknowledgement comes after it |
| `RuntimeStops.ShutdownLiveSafely` | backend/src/polybot/worker.py:297-432 | the lease is released only after a persisted disarm, a later verified cancel, a later successful validation of the lease, a later acknowledgement in real money, and no failed validation; at most `attempts` cancels, each preceded by a validation; the four flags of the result say what happened; when every call answers, the lease stays held and a cancel is verified, the lease is released unless the order check was not clear or the store refused the version of the row its own last disarm wrote |
| `RuntimeDowngrade.CancelAndList` | backend/src/polybot/personal_cycle.py:186-208 | one cancel and at most three listings; empty only when a listing reported zero open orders |
| `RuntimeDowngrade.LatchHistory` | backend/src/polybot/personal_cycle.py:159-176 | the former real-money row is latched before the exchange is touched |
| `RuntimeDowngrade.SettleHistory` | backend/src/polybot/personal_cycle.py:186-234 | success means exactly this happened, in order: one cancel, up to three listings of which the last reported no open order, a held lease, a clear order check, the acknowledgement; and the row is settled; a failure without a raised call is that sequence broken off at an answer that failed |
| `RuntimeDowngrade.CleanHistory` | backend/src/polybot/personal_cycle.py:159-240 | the clean-up of a real-money past: latch, settle, and the lease once more, leaving exactly that trace or, without a raised call, breaking it off at an answer that failed |
| `RuntimeDowngrade.ClearPersonalLiveDowngrade` | backend/src/polybot/personal_cycle.py:109-265 | true only after exactly the trace the row first read and the first order check call for, ending with a settled row of the new mode; the final disarm can lose a latch only if another party moved the row after it was seen settled; when every call answers, a failure is exactly such a trace broken off at an answer that failed (a third non-empty listing, a lost lease, an order check that was not clear, a refusal of the version that had to be acknowledged), or a missing key or client once the row is latched |
| `RuntimeDowngrade.CallsForExactly` | backend/src/polybot/personal_cycle.py:124-176 | a row stopped and unlatched in paper or shadow, with a clear order check, is aligned at most; any other is latched in its real-money mode, live if it names none, unless it is so already, before the cancel |
| `RuntimeDowngrade.CleanedInOrder` | backend/src/polybot/personal_cycle.py:109-265 | a successful clean-up over an unsettled or real-money row, or over unresolved orders, has cancelled, seen no open order, validated the lease, found no unresolved order, acknowledged, validated the lease, disarmed into the new mode and validated the lease, in that order |
| `ModeGate.StepKeepsInv` | backend/src/polybot/worker.py:689-766 | every step of watcher, aligner and lease keeps the lock, memory, limits and ready invariants |
| `ModeGate.ReadyMeansPassedForThisMode` | backend/src/polybot/worker.py:984-1038 | in every interleaving, while the ready flag is set the last successful control pass was for the mode now in force |
| `ModeGate.SubmissionIsAligned` | backend/src/polybot/worker.py:593-606 | where the guard flags allow a submission, mode, limits and control pass agree and no mode or policy change is in its clean-up or cancellation; one still queued for the lock may wait |
| `ModeGate.LeavingRealMoneyNeedsCleanup` | backend/src/polybot/worker.py:720-748 | the mode leaves canary or live only at the end of a clean-up that returned true inside one unbroken lock hold, and mode and limits change together |
| `ModeGate.EveryDepartureCleaned` | backend/src/polybot/worker.py:727-741 | every recorded departure from real money was cleaned in its own lock hold |
| `ModeGate.ChangesAreRecorded` | backend/src/polybot/worker.py:720-757 | the recorded history is exactly the changes of mode, each with the hold and the clean-up of its moment |
| `ModeGate.FailureCloses` | backend/src/polybot/worker.py:593-606 | after a failed lease, a stop, a pending or failed control pass, a failed clean-up, an unreadable configuration or a transition that had to clean up, nothing may be submitted |
| `ModeGate.PassDecides` | backend/src/polybot/worker.py:984-1038 | in every reachable state a control pass sets the ready flag exactly when it verified everything, and frees the lock |
| `ModeGate.AligningExactly` | backend/src/polybot/worker.py:689-766 | with the lock free, a fetched target is in force at once if it changes nothing or leaves no real money, otherwise exactly when the clean-up or cancellation succeeds; a failure leaves mode and limits alone and the gate closed |
| `ModeGate.GateCanOpen` | backend/src/polybot/worker.py:689-1082 | no deadlock: from every reachable state of a personal deployment that was not stopped, some continuation puts any given mode and policy in force and lets the guard flags permit submission |
| `WalletRepository.Repository.StoreAi` | backend/src/polybot/credentials.py:706-747 | the key rotation in place: the state after it |
| `WalletRepository.Repository.ImportWallet` | backend/src/polybot/credentials.py:795-893 | the idempotency and duplicate scans, and both new rows |
| `WalletRepository.Repository.RequestWalletRevoke` | backend/src/polybot/credentials.py:895-924 | both linked rows move together |
| `WalletRepository.Repository.FirstEligible` | backend/src/polybot/credentials.py:956-975 | the stably first of the sorted eligible rows |
| `WalletRepository.Repository.ClaimWalletLifecycle` | backend/src/polybot/credentials.py:951-983 | a claim is handed out exactly when a row is eligible; it carries the next token and passes the fence |
| `WalletRepository.Repository.HeartbeatWalletLifecycle` | backend/src/polybot/credentials.py:1067-1086 | extends the lease exactly for the holder |
| `WalletRepository.Repository.CompleteWalletVerification` | backend/src/polybot/credentials.py:1088-1131 | activates both rows, refuses a stale fence, raises for a bad chain or collateral |
| `WalletRepository.Repository.FailWalletVerification` | backend/src/polybot/credentials.py:1133-1162 | terminal after the fifth attempt or a permanent error, with the credential revoked |
| `WalletRepository.Repository.CompleteWalletRevocation` | backend/src/polybot/credentials.py:1164-1190 | revokes both rows for the holder only |
| `WalletRuns.StepKeeps` | backend/src/polybot/credentials.py:706-1208 | every operation keeps the linked-table invariant, and no row loses its identity, token or rank |
| `WalletRuns.ImportIsNew` | backend/src/polybot/credentials.py:807-848 | a row is created only when no wallet has the key and no live wallet has the signer |
| `WalletRuns.RevokeAiKeeps` | backend/src/polybot/credentials.py:749-762 | no active key of that provider remains |
| `WalletEffects.LeaseIsExclusive` | backend/src/polybot/credentials.py:985-1003 | a lease lasts exactly until it expires, for one fence, and keeps everyone else from claiming |
| `WalletEffects.ClaimableExactly` | backend/src/polybot/credentials.py:956-1003 | a wallet can be claimed exactly while it is pending with attempts to spare and no fence holds it |
| `WalletEffects.ClaimTakesTheFirst` | backend/src/polybot/credentials.py:951-983 | a claim takes a revocation before any verification and the oldest of its kind, touches that wallet alone, and is held by the claimant for exactly the time asked for; without an eligible wallet nothing happens |
| `WalletEffects.HeartbeatExtends` | backend/src/polybot/credentials.py:1067-1086 | a heartbeat of the holder moves the end of the lease to that many seconds from now, and changes nothing else |
| `WalletEffects.EnvelopeExactly` | backend/src/polybot/credentials.py:1020-1050 | the signer credential is handed to the holder of a pending wallet and to nobody else |
| `WalletEffects.VerificationActivates` | backend/src/polybot/credentials.py:1088-1131 | a valid verification by the holder activates wallet and credential, records what was verified with the collateral in lower case, and frees the lease |
| `WalletEffects.VerificationRefused` | backend/src/polybot/credentials.py:1088-1131 | when a verification is refused, when it raises, and that both change nothing |
| `WalletEffects.FailureEnds` | backend/src/polybot/credentials.py:1133-1162 | a permanent failure or the fifth one ends wallet and credential; any earlier one leaves both pending and claimable at once |
| `WalletEffects.RequestRevokes` | backend/src/polybot/credentials.py:895-924 | an active wallet waits for its revocation, any other is revoked with its credential on the spot; another account changes nothing |
| `WalletEffects.RevocationRevokes` | backend/src/polybot/credentials.py:1164-1190 | a revocation completed by the holder leaves wallet and credential revoked and the lease free, and touches nothing else |
| `WalletEffects.CompletedRevocationIsFinal` | backend/src/polybot/credentials.py:951-1190 | in every continuation of a run a wallet whose revocation was completed stays revoked with its credential, and is never claimed again |
| `WalletEffects.OverForever` | backend/src/polybot/credentials.py:951-1190 | a revoked or failed wallet is never claimed again in any continuation, and a revoked one keeps its revoked credential |
| `WalletEffects.ImportAdds` | backend/src/polybot/credentials.py:795-893 | a creating import adds one pending, claimable wallet and its pending credential, with the enrolled data, and changes no other row |
| `WalletEffects.ImportRepeats` | backend/src/polybot/credentials.py:807-848 | an import that meets its own key, or with a new key a live wallet of the signer, answers that wallet exactly when the input is the same, and conflicts otherwise |
| `WalletEffects.ImportTwice` | backend/src/polybot/credentials.py:795-893 | repeating the import that created a wallet answers that wallet |
| `WalletEffects.OneOfEach` | backend/src/polybot/credentials.py:706-893 | over all runs, on the rows: one wallet per account and idempotency key, one per account and signer among those not over, one active AI key per account and provider |
| `WalletEffects.StoreAiRotates` | backend/src/polybot/credentials.py:706-747 | the new key is the one active key of its provider with the next version, the former one is revoked, all others stay |
| `WalletEffects.RevokeAiTouchesOne` | backend/src/polybot/credentials.py:749-762 | revoking a key changes that row alone |
| `WalletFencing.LinkedAlways` | backend/src/polybot/credentials.py:706-1208 | over all runs: matching states of wallet and credential, one live wallet per account and fingerprint, one per idempotency key, one active AI key per provider |
| `WalletFencing.AdvancesOverRun` | backend/src/polybot/credentials.py:895-1190 | over all runs tokens never fall and statuses never go back |
| `WalletFencing.TokensIncrease` | backend/src/polybot/credentials.py:976-983 | two claims of a wallet hand out strictly increasing tokens |
| `WalletFencing.FencesAgree` | backend/src/polybot/credentials.py:985-1003 | at most one owner and token pass the fence of a wallet at any time |
| `WalletFencing.StaleForever` | backend/src/polybot/credentials.py:985-1190 | once a wallet is claimed again, every later call with an earlier token is refused and leaves the whole repository unchanged |
| `WalletFencing.HolderMadeLatestClaim` | backend/src/polybot/credentials.py:985-1003 | whoever passes the fence made the latest claim of that wallet |
| `WalletFencing.AtMostFiveVerificationClaims` | backend/src/polybot/credentials.py:958-983 | in every run a wallet is claimed for verification at most five times |
| `WalletFencing.RevocationClaimableExactly` | backend/src/polybot/credentials.py:956-966 | an unheld pending revocation can still be picked up if and only if fewer than five attempts were spent |
| `WalletFencing.StuckForever` | backend/src/polybot/credentials.py:956-966 | a revocation with five spent attempts is never claimed in any continuation |
| `WalletFencing.StuckIsReachable` | backend/src/polybot/credentials.py:951-1162 | a concrete run that ends in such a revocation |
| `Performance.ResolvedForecastsFromRows` | backend/src/polybot/performance.py:76-97 | exactly the usable rows, in order, all in range |
| `Performance.ResolvedRowByRow` | backend/src/polybot/performance.py:76-97 | row by row and in order, which rows are usable and what each becomes |
| `Performance.CalibrationBins` | backend/src/polybot/performance.py:100-132 | the ten bins with their counts, means and frequencies |
| `Performance.SelectedExactly` | backend/src/polybot/performance.py:103-111 | a decile selects each point as often as the ledger lists it, if it lies there, the last decile including 1 |
| `Performance.BinFigures` | backend/src/polybot/performance.py:112-131 | bounds and sample count of a decile, its mean forecast and its frequency of YES |
| `Performance.DecilesPartition` | backend/src/polybot/performance.py:103-111 | every valid point is counted in exactly one decile |
| `Performance.MeansIncrease` | backend/src/polybot/performance.py:112-131 | the means of non-empty deciles strictly increase |
| `Calibration.BuildCurve` | backend/src/polybot/ai/calibration.py:89-136 | the isotonic, sorted and deduplicated curve |
| `Calibration.CollectExactly` | backend/src/polybot/ai/calibration.py:101-125 | every usable bin, in order, becomes an anchor with its mean, its samples and the largest frequency so far |
| `Calibration.SortExactly` | backend/src/polybot/ai/calibration.py:126-126 | on any anchors: sorted by forecast, all of them kept, equal forecasts in their order |
| `Calibration.DedupExactly` | backend/src/polybot/ai/calibration.py:127-133 | on any sorted anchors: of each forecast exactly one is kept, the last of those with the most samples |
| `Calibration.ActiveExactly` | backend/src/polybot/ai/calibration.py:95-125 | a curve is in use exactly when calibration is enabled, the ledger is large enough and some bin is usable |
| `Calibration.LedgerCurveIsSound` | backend/src/polybot/ai/calibration.py:89-136 | for any ledger the anchors strictly increase with non-decreasing frequencies, and sorting and deduplication change nothing |
| `Correction.ReadCurve` | backend/src/polybot/ai/calibration.py:69-86 | the bracketing loop is the piecewise-linear reading |
| `Correction.InterpolateExactly` | backend/src/polybot/ai/calibration.py:69-86 | between two neighbouring anchors of a sound curve the reading lies on the straight line through them |
| `Correction.InterpolateMonotone` | backend/src/polybot/ai/calibration.py:69-86 | a sound curve is read monotonically within its observed range |
| `Correction.ApplyIsBoundedAndMonotone` | backend/src/polybot/ai/calibration.py:189-202 | the correction is monotone, stays in [0,1] and moves a value by at most `max_absolute_shift` plus half a quantum |
| `Correction.ApplyMovesExactly` | backend/src/polybot/ai/calibration.py:189-202 | the correction moves a value towards the reading by the share of the samples among samples and shrinkage, at most by the maximum shift, and to the nearest millionth |
| `Correction.ThinLedgerIsIdentity` | backend/src/polybot/ai/calibration.py:96-119 | a thin ledger or a disabled configuration changes nothing |
| `Correction.Calibrator.Apply` | backend/src/polybot/ai/calibration.py:189-202 | the imperative correction is that function |
| `Correction.Calibrator.RefreshAndApply` | backend/src/polybot/ai/calibration.py:181-224 | from raw ledger rows to corrected forecasts: the results are the values corrected by the curve of exactly these rows, with order, range and shift bounds |
| `Ensemble.AggregateIsSound` | backend/src/polybot/ai/graph.py:68-107 | the combined forecast always validates, its interval holds both input intervals, confidence is never inflated and the shift is bounded |
| `Ensemble.AggregateExactly` | backend/src/polybot/ai/graph.py:68-107 | the calibrated mean, the narrowest interval that holds it and both inputs, and the lesser confidence less its share of the disagreement |
| `Ensemble.DisagreementDominates` | backend/src/polybot/ai/graph.py:71-75 | confidence vanishes exactly at total disagreement or zero input confidence |
| `Limiter.HeadIsExpired` | backend/src/polybot/api_models.py:178-182 | on windows sorted by start, dropping the expired head removes every expired window and nothing else |
| `Limiter.RequestRateLimiter.EvictExpired` | backend/src/polybot/api_models.py:178-182 | the eviction loop keeps exactly the running windows |
| `Limiter.RequestRateLimiter.Allow` | backend/src/polybot/api_models.py:174-191 | every answer equals that of a per-key counter that never evicts, full-cache refusals change nothing, and the size never exceeds the capacity |
| `Limiter.StoreAgrees` | backend/src/polybot/api_models.py:185-189 | a counted call keeps the store in agreement with the naive counter |
| `Limiter.WindowExactly` | backend/src/polybot/api_models.py:185-189 | the naive counter: a window opens at zero or with a call of its key, covers every call of the key so far, and its hits are the calls since it opened |
| `Limiter.WindowsApart` | backend/src/polybot/api_models.py:185-187 | two windows of one key start at least a window apart |
| `Limiter.QuietKeyAdmitted` | backend/src/polybot/api_models.py:174-191 | no false refusal: a call is within the limit if its key made no more than that many within the last window length |
| `Limiter.RunningExactly` | backend/src/polybot/api_models.py:178-182 | eviction leaves exactly the entries whose window is younger than its length |
| `Limiter.RetryAfterExactly` | backend/src/polybot/api_models.py:190-190 | the wait leads into the last second of the window and is never less than a second |
| `Limiter.AtMostTwiceTheLimit` | backend/src/polybot/api_models.py:174-191 | any half-open interval of one window admits at most twice the limit per key |
| `Limiter.TwiceIsReached` | backend/src/polybot/api_models.py:174-191 | and twice is reached |
| `Registry.PersonalCycleRequestRegistry.AcceptRequest` | backend/src/polybot/api_models.py:64-96 | the accept path in place: repeat, conflict, full, or eviction of the first request that is over |
| `Registry.AcceptExactly` | backend/src/polybot/api_models.py:80-96 | a new request is refused exactly when the registry is full of active ones, and otherwise queued last; without room exactly the first request that is over leaves |
| `Registry.RepeatExactly` | backend/src/polybot/api_models.py:71-79 | a repeat is answered by the identifier of the retained request or conflicts in another mode, and the request moves to the end |
| `Registry.ObservationExactly` | backend/src/polybot/api_models.py:98-112 | a running cycle takes up the requests queued for its mode and ends those queued for another; its end is the end of those it took up; nothing else changes |
| `Registry.ExpiryExactly` | backend/src/polybot/api_models.py:137-151 | what has waited or run too long ends, marked unknown exactly if it ran; everything else stays |
| `Registry.OutcomeHasItsCycle` | backend/src/polybot/api_models.py:98-151 | over all call sequences: a request that started was taken up by a cycle seen running in its own mode, and an outcome came later from the end of that very cycle |
| `Registry.ApplyKeeps` | backend/src/polybot/api_models.py:64-162 | every operation keeps the size bound, the names and each request's life cycle; after accept or get nothing is past its timeout |
| `Registry.RegistryIsSound` | backend/src/polybot/api_models.py:64-162 | the same over all call sequences; a failed outcome is marked unknown exactly when it had started |
| `Registry.RetainedUntilOver` | backend/src/polybot/api_models.py:79-92 | a request is followed, never backwards, until it is over and evicted: queued and running ones are never evicted |
| `Registry.RepeatAnswersSameId` | backend/src/polybot/api_models.py:71-79 | repeating a retained request with its mode answers its identifier, with another mode conflicts |
| `Backtest.RunBacktest` | backend/src/polybot/backtest.py:80-171 | the whole report over the simulated trades: final bankroll is the initial one plus the listed profits and losses, with wins, win rate, return, running-peak drawdown and Brier figure |
| `Backtest.SkippedExactly` | backend/src/polybot/backtest.py:95-126 | which rows trade: confident ones whose better side clears the edge below a price of one, with something to stake |
| `Backtest.TradeExactly` | backend/src/polybot/backtest.py:98-137 | a trade is on the better side, YES on a tie, wins if that side happened, and profit, stake and fee add up to one per share won and nothing otherwise |
| `Backtest.StakeExactly` | backend/src/polybot/backtest.py:119-125 | the stake is the largest amount within order cap, risk fraction, depth and the fraction Kelly's rule allows |
| `Backtest.RunRowByRow` | backend/src/polybot/backtest.py:88-154 | every processed row is judged at the bankroll its predecessors left, and adds exactly what that judgement says |
| `Backtest.StopsAtFirstBreach` | backend/src/polybot/backtest.py:153-154 | every bankroll before the last trade is above the stop level |
| `Backtest.RunningIsMaximum` | backend/src/polybot/backtest.py:138-140 | the single pass equals the maximum over all pairs while no bankroll is negative |
| `Backtest.ReportedDrawdownExactly` | backend/src/polybot/backtest.py:137-154 | over any rows the reported drawdown is the true maximum if and only if the final bankroll is not negative or every earlier one equals the initial |
| `Backtest.OneTradeRuinsExactly` | backend/src/polybot/backtest.py:128-137 | when a trade takes a bankroll below zero, exactly, by its stake, price and fee |
| `Backtest.GuardedTradeIsSolvent` | backend/src/polybot/backtest.py:119-137 | a trade on a row whose price covers the risked fraction of price and fee leaves a positive bankroll non-negative |
| `Backtest.UnguardedLossRuinsExactly` | backend/src/polybot/backtest.py:120-137 | where the risk fraction binds, a lost trade goes below zero exactly when that guard fails |
| `Backtest.GuardedDrawdownIsTrue` | backend/src/polybot/backtest.py:119-154 | if every tradeable row passes the guard, the reported drawdown is the true maximum |
| `Backtest.RuinHappens` | backend/src/polybot/backtest.py:120-137 | a concrete run whose last trade takes the bankroll below zero |
| `Backtest.RuinUnderstatesDrawdown` | backend/src/polybot/backtest.py:128-154 | a concrete run of two trades, bankrolls 1, 1.5 and -0.75, that reports a drawdown of 1.5 although it fell by 1.75 of its start |
| `Backtest.BrierExactly` | backend/src/polybot/backtest.py:89-168 | the reported Brier score is never too high, and right if and only if every row behind the stop was forecast without error |
| `Backtest.EarlyStopUnderstatesBrier` | backend/src/polybot/backtest.py:153-168 | a concrete stopping run whose reported Brier score is too low |
| `ReconcileTrades.ClassifyTrade` | backend/src/polybot/reconcile.py:572-672 | the classification of one trade |
| `ReconcileTrades.AttributedExactly` | backend/src/polybot/reconcile.py:563-591 | a trade is attributed exactly when a leg of the side the exchange names is one of the bot's orders, with exactly those legs, unless the side is unsaid and both sides are the bot's |
| `ReconcileTrades.DroppedOnlyIfForeign` | backend/src/polybot/reconcile.py:592-603 | on the legs of the side the exchange names: a trade with an identified leg there is discarded or quarantined only if no such leg is one of the bot's orders and every identified token there is outside the footprint; what is quarantined is exactly that side |
| `ReconcileTrades.FailsClosedExactly` | backend/src/polybot/reconcile.py:592-608 | a trade without an own leg on its side fails closed exactly when it touches a token of the bot there, or when neither the baseline nor the quarantine covers it; blank token identifiers included |
| `ReconcileTrades.OwnTradesNeverDropped` | backend/src/polybot/reconcile.py:572-591 | a trade with an own leg on its side is attributed with that leg or fails closed, and when the exchange names the side it is attributed |
| `ReconcileTrades.EmptyTradeDiscardedVacuously` | backend/src/polybot/reconcile.py:592-601 | a trade without any perspective is discarded before the baseline even on a token of the bot's |
| `ReconcilePositions.ParsePositions` | backend/src/polybot/reconcile.py:318-332 | one incomplete or negative row refuses the whole listing |
| `ReconcilePositions.CheckPositions` | backend/src/polybot/reconcile.py:373-406 | succeeds exactly when every token off by more than 0.000001 may be quarantined; every footprint token and every saved position then agrees with the ledger |
| `ReconcilePositions.AgreesExactly` | backend/src/polybot/reconcile.py:373-390 | a token listed once agrees exactly when what is held, unredeemed, is within a millionth of the filled quantity |
| `ReconcilePositions.KeepExactly` | backend/src/polybot/reconcile.py:400-406 | the positions saved are those not set aside, each as often as listed |
| `Reconcile.OrderReconciler.SetBaseline` | backend/src/polybot/reconcile.py:111-125 | a new baseline replays from the start |
| `Reconcile.OrderReconciler.ReconcileRestOnce` | backend/src/polybot/reconcile.py:218-412 | a pass succeeds exactly when every call answers, both the listing and the pending trades were read to the end and classified, the activities stayed below their limit, and every token that disagrees may be quarantined; only then the cursors move, by the overlap rule, and the saved positions are sound |
| `Reconcile.CursorExactly` | backend/src/polybot/reconcile.py:245-289 | the next cursor lies 60 seconds behind the newest listed trade, or behind the old cursor if that is later, and never below zero |
| `Reconcile.BelowCursorIsClassified` | backend/src/polybot/reconcile.py:245-289 | whatever is ever visible at or below the cursor has been classified |
| `Reconcile.SuccessfulPassIsComplete` | backend/src/polybot/reconcile.py:245-289 | over any mix of passes, after each successful one every trade visible to it has been classified |
| `IntentLog.SubmittedAtMostOnce` | backend/src/polybot/engine.py:630-648 | no intent is ever submitted twice, by one party or by two |
| `IntentLog.IntentStore.ReserveIntent` | backend/src/polybot/stores/memory.py:103-108 | atomic insert-if-absent among other parties |
| `Engine.TradingEngine.ExecuteCandidate` | backend/src/polybot/engine.py:609-648 | the store is asked exactly when the decision was saved, the candidate approved and the guard open; a submission exactly when the store inserted its intent; an insertion is this call's own reservation, a duplicate a key another act had reserved, and no answer a call that raised; and when the call raises |
| `Engine.TradingEngine.PortfolioCheckpoint` | backend/src/polybot/engine.py:99-118 | real money stops on a missing or broken portfolio |
| `CyclePlan.BreachedMarketAsksExactly` | backend/src/polybot/engine.py:498-509 | a market whose own first portfolio is in a hard breach still reaches the AI budget if and only if it is not real money and neither side can be sold off |
| `CyclePlan.OrderReachesItsOwnBook` | backend/src/polybot/engine.py:609-618 | whatever a visit executes reaches the gate with the book of its own token, out of the books it was sized on and with that portfolio, and the gate on that book agrees with it |
| `CyclePlan.ReachExactly` | backend/src/polybot/engine.py:469-525 | in terms of the replies: when a visit stops real money, when it sells off, and when it gets as far as the AI budget |
| `CyclePlan.FateExactly` | backend/src/polybot/engine.py:526-607 | in terms of the replies: when a market that reserved stops real money, when it raises outside the count, and when it has something to execute |
| `CyclePlan.KeySeparates` | backend/src/polybot/models.py:257-284 | two intents share a key exactly when account, mode, market, token, outcome, side, price and size text, strategy, forecast and decision key agree |
| `CyclePlan.NarrowExactly` | backend/src/polybot/engine.py:279-302 | the visited markets are exactly the allowed and the held ones, under a hard breach the held ones, in order |
| `CyclePlan.BrokenPaperMarketAsks` | backend/src/polybot/engine.py:498-509 | a concrete broken paper portfolio whose market does |
| `CyclePlan.CapHoldsExactly` | backend/src/polybot/engine.py:313-345 | the cap on AI markets holds if and only if not both: more reservations wanted than the cap, and one of the first as many failing outside its count |
| `CyclePlan.CourseIsCappedDemand` | backend/src/polybot/engine.py:313-345 | a cycle free to use AI makes the reservations its replies would lead to without a cap, as many as the cap lets through |
| `CyclePlan.StoppedStays` | backend/src/polybot/engine.py:327-341 | once stopped, no later market adds a reservation or a submission |
| `CyclePlan.RefusedStays` | backend/src/polybot/engine.py:432-467 | once the AI budget was refused, no later market of the cycle reserves |
| `CyclePlan.CapIsOverrun` | backend/src/polybot/engine.py:313-345 | a cycle over two failing markets reserves twice under a cap of one |
| `Engine.TradingEngine.ProcessMarket` | backend/src/polybot/engine.py:469-607 | AI budget is reserved exactly when permitted, the screens pass and the budget allows; the order executed is the risk exit or what was chosen after the forecast, submitted exactly when the store inserted it; without AI only sells; a breach at the first checkpoint stops real money or sells off; a BUY needs an unbroken second portfolio; a stop comes before any submission |
| `Engine.TradingEngine.RunCycle` | backend/src/polybot/engine.py:203-347 | the replies and the store's answers determine the cycle: its AI reservations, its submissions in order, and its real-money stop, which comes if and only if a checkpoint calls for one and ends the cycle; a cycle that starts in a hard breach cancels first, visits markets only past a verified cancel and a refreshed portfolio, and yields neither AI nor BUY; AI and BUYs only on allowed markets that pass the screens; the cap exactly; the call raises exactly when a started stop was not persisted |
| `Engine.TradingEngine.OpeningExactly` | backend/src/polybot/engine.py:203-278 | before the first market: a stop exactly where the portfolio is unsafe for real money, a cancel exactly where it is broken otherwise, and when the cycle gets as far as its markets |
| `Engine.TradingEngine.RunCycles` | backend/src/polybot/engine.py:203-347 | over any number of cycles among other parties every submitted intent is distinct |

## Left out

- HTTP routes, FastAPI wiring, the web application, scripts and the command line: plumbing.
- Cryptography, key handling, JWT and geoblock checks: they rest on libraries that are not part of this model.
- AI providers, evidence collection, prompts, notifications, metrics and logging: a forecast is any value its validator accepts, and evidence and citation checks are flags.
- The Polymarket SDK, brokers, Supabase stores and SQL migrations: only the contract each caller relies on, as listed under Assumptions. That the exchange really holds no order at the moment of an acknowledgement is not claimed: the cancel and the order check are two separate calls.
- Decimal context precision, float time and real scheduling; the log-loss figures, which use floating-point logarithms.
- Timestamps kept for display (`updated_at`, `verified_at`, `revoked_at`, `rotated_at`), labels and last-four digits of the credential rows.
- The worker's lease heartbeat beyond its flags, the readiness warnings, and the other loops of `run_worker`.
- `wallet_worker.py`: as a client it only issues the fenced calls whose refusal `StaleForever` settles.
- The order in which a cycle visits its markets, and the discovery of held markets omitted from the listing: the visited list is an input with a flag for held and one for allowed.
- An engine without an execution guard: the worker always installs one.
- Orders, activities' contents and the fill callback of reconciliation: their success is a flag, the activity cursor is modelled.
- A rate-limiter window that differs between calls: every caller uses the default.
- Cycle snapshots with a state the worker never publishes (anything but running, succeeded or failed).
- RunBacktest: does not model the log-loss figure, because it is a floating-point logarithm.
- ReconcileRestOnce: the durable order set and footprint are read once per pass, although the source re-reads the durable orders for each trade.
- Pair coordination, order management, crypto direction and tenant execution: other components that these parts do not depend on.
