# Verified models of the firm's coordination protocols

Between this firm's services and what they talk to (Redis streams and keys, Postgres tables, brokers, a vector
collection, a quota meter) sit small protocols whose promises are written in docstrings. Each module here models one
of them in Dafny and proves what it keeps over every run. The outside systems are plain state; a command may fail,
take effect without its reply arriving, or be the last thing a process does; and what clocks, brokers, language
models and market data answer is an argument.

Where the Python updates something, the model does too: a pure specification function says what one operation does, a
class or a loop is proved to do exactly that (`StrategyRegistry`, `GroupEventSubscriber`, `ExecutionAgent`,
`StatusLoop`, `LibrarianService`, `LedgerStore`, `CorpusIndexer`, `BudgetGuard`, `DailyBarStore`, `RedisRateLimiter`,
`LineagePage`, `DecisionPayload`, and the loops of `ChunkText`, `RunBar`, `BuildSchedule`, `PlanWindows`), and the
theorems quantify over all runs of the specification. Beside them, each operation has a law on its inputs and answers that
does not mention its specification (`AttemptExactly`, `MovesExactly`, `GrantedExactly`, `IntervalExactly` and their
like): when exactly it acts, and what it then leaves. Every lemma carries `{:induction false}`: its body is its proof.

| file | what it models |
|---|---|
| `ConsumerGroup.dfy` | one service's consumer group: pending first, acknowledge, break on a systemic failure |
| `OrderSpine.dfy` | account agents sharing the stream of approved risk events, and the brokers' order books |
| `PaperOrder.dfy`, `DecimalText.dfy` | routing, the paper order, and the printed decimal quantity |
| `StatusWatch.dfy` | the first status check of each order and the in-memory watch set |
| `PreTrade.dfy`, `RateLimit.dfy`, `IntentRetry.dfy` | the gates before an approval, the Redis rate limiter, and an intent handled twice |
| `Registry.dfy`, `Lineage.dfy`, `Librarian.dfy` | the strategy table and its log, `render_lineage`, the verdict consumer |
| `ShadowLedger.dfy` | write-once decisions settled later |
| `Chunker.dfy`, `CorpusIndex.dfy` | overlapping windows; paging, point ids and crash-safe resume |
| `QuotaGuard.dfy`, `BarRunner.dfy` | the shared-quota guard; the scoring loop and the rows it keeps |
| `MarketPhase.dfy` | the phase schedule and how it is read |
| `Sweep.dfy` | the incremental daily-bar sweep |
| `Spearman.dfy`, `LiveBenchmark.dfy`, `Rotation.dfy` | rank correlation; buy-and-hold and the excess over it; greedy slot rotation |
| `Text.dfy`, `RealSums.dfy`, `Wrappers.dfy` | string operations, sums, options and results |

## Where the code does less than its documentation says

- `src/shrap/trading_floor/execution_agent.py:422-424` says a restart re-observes the watch set from the submitted
  stream. Acknowledged events are not handed out again: an order can be heard of again exactly when it is watched or
  its event is still to come (`HeardOfExactly`), so after a life without faults a restart loses every watched order
  (`RestartLoses`); `RestartLosesAFill` is one whose fill is never published.
- An order's published statuses can repeat: after a publish whose reply was lost, after an acknowledgement that
  failed, and when two replies carry no status (the first check remembers `"None"`, the re-poll compares with `""`).
  `LostPublishRepeats`, `FailedAckRepeats` and `MissingStatusRepeats` exhibit the three. These are all there is: a
  state's future without such faults is safe exactly when the watch set is in step with what was published
  (`SafeExactlyInStep`), and every moment of a life is safe exactly when none of them strikes (`WatchContract`). That
  the broker's terminal statuses are absorbing is not needed.
- A quantity that is NaN passes every comparison of `build_paper_order`; where fractions are accepted the order says
  `"NaN"`, which is no decimal string (`OrderWithinApproval`, `NaNIsNotPlain`). The pre-trade gate refuses such intents.
- A failed `is_fractionable` lookup answers "whole shares only", which turns a sub-share order into a permanent skip
  (`FlagMattersBelowOneShare` says exactly when).
- `row["lineage_root_id"] or row["strategy_id"]` reads an empty root as missing. Roots are the ends of the parent
  chains exactly when no strategy descends, at two generations or more, from one registered under the empty id
  (`RootsAreOrigins`, `EmptyIdResetsTheCount`). `attempts` counts the whole tree for every strategy exactly when none
  descends from the empty id at all (`AttemptsCountEveryTree`): a child of the empty id is no member of the lineage it
  starts, so for a first one `attempts` is 0 (`ChildOfEmptyCountsNothing`). And every lineage is printed whole exactly
  when nothing descends three or more generations from the empty id (`EveryPageIsWhole`, `GrandchildIsLeftOut`).
- `hypothesis`, `kill-review`, `live-paper` is a legal path: the promotion ladder is climbed rung by rung only by a
  strategy that was never under review (`LivePaperIsEarned`, `ReviewSkipsTheLadder`).
- The Librarian's idempotence does not rest on `expected_from` alone: a verdict without a from-stage is rejected on
  redelivery because no status may follow itself (`RedeliveryIsRefused`). A verdict can be announced exactly when it
  already is or it has not been applied (`SilenceIsFinal`); over any life every move gets its lifecycle event exactly
  when no handling commits and then loses its reply or its publish (`EveryMoveIsAnnounced`);
  `PromotionIsNeverAnnounced` is a promotion that did.
- The phase schedule is in order, but strictly so exactly when every session of the window closes before the extended
  end (`ScheduleIsOrdered`).
- A sweep cut between two rows can leave a gap: from a gap-free store it leaves none wherever it is cut exactly when
  its window reaches at most one session below the ticker's oldest stored day (`GapFreeWhereverCut`). What every run
  keeps is that gaps lie inside the restate window, which the next sweep re-reads (`SweepContract`).
  Runs with a gap exist exactly for restate windows of two days or more, whatever the bootstrap span
  (`GapsNeedTwoDays`, `CutSweepsLeaveAGap`).
- `render_lineage` lists a member whose parent is missing, but nothing that descends from it (`HiddenBelowOrphans`).
  In a registry only lineages below the empty id have such members (`PrintsEachMemberOnce`).
- A rate slot is not always consumed by an order: if the decision's publish fails after `acquire`, the redelivered
  intent meets its own claim and is vetoed while the key lives, for a slotted intent all day
  (`AbandonedClaimVetoes`, `SlotOutlivesTheDay`; exactly then, by `RetriedExactly`; `AnIntentIsNeverSent` is one).
- Documents that arrive at or below the cursor are never indexed (`LateArrivalsAreSkipped`): after any run that ends
  with an uninterrupted pass, the indexed documents are exactly those that lay above the cursor when they came
  (`IndexedExactly`). `InsertedBelowIsLate` gives the runs in which one did not.
- Where the guard has no observed cost (no earlier reading, or usage that did not rise) it waits 100 items, and no
  bound on usage holds (`UnobservedIsUnbounded`); `GuardHolds` and `BarStaysUnderCeiling` speak of the readings where a
  cost was observed.

## Model

| member | source | states |
|---|---|---|
| `ConsumerGroup.GroupContract` | src/shrap/events/groups.py:111-189 | in every run, with failures, lost replies, crashes, restarts and trims anywhere: every entry the group is past was trimmed or is exactly one of acknowledged and pending, at most one batch is pending, acknowledged readable entries are a prefix of the readable delivered ones, and every acknowledged readable entry had an attempt that ended processed or poison; attempts come in stream order |
| `ConsumerGroup.NewOnlyWhenDrained` | src/shrap/events/groups.py:121-130 | a read delivers something new only when no readable entry is pending on any stream |
| `ConsumerGroup.OffersNext` | src/shrap/events/groups.py:121-130 | what a read of new entries is offered is the next ones still there, skipping none: as many as it asked for, or all there are |
| `ConsumerGroup.RedeliversFirst` | src/shrap/events/groups.py:137-189 | after a failure, the next read that succeeds hands over exactly the readable pending entries, each stream's in order |
| `ConsumerGroup.CleanCycleDrains` | src/shrap/trading_floor/order_store_agent.py:73-126 | a whole cycle, from ensuring the groups to the last acknowledgement, in which no command and no event fails leaves nothing readable pending |
| `ConsumerGroup.PollKeeps` | src/shrap/trading_floor/order_store_agent.py:73-126 | one cycle keeps the contract wherever it fails or crashes |
| `ConsumerGroup.SystemicStops` | src/shrap/trading_floor/order_store_agent.py:91-126 | after a poll, the entry whose processing failed systemically is still pending, nothing behind it in the batch was attempted or acknowledged, and what lies before it was attempted once each, with its own outcome |
| `ConsumerGroup.ReadKeeps` | src/shrap/events/groups.py:111-189 | a read keeps the contract and hands over a batch whose acknowledgement in order is safe |
| `ConsumerGroup.SiftBatch` | src/shrap/events/groups.py:164-189 | malformed entries of a reply are acknowledged on the spot; exactly the readable ones stay pending and are returned |
| `ConsumerGroup.GroupEventSubscriber.EnsureGroups` | src/shrap/events/groups.py:88-109 | groups are created once per process; an existing group is success |
| `ConsumerGroup.GroupEventSubscriber.Collect` | src/shrap/events/groups.py:164-189 | the loop over a reply does what the specification says, acknowledgements included |
| `ConsumerGroup.GroupEventSubscriber.Read` | src/shrap/events/groups.py:111-130 | pending entries first, new ones only when that yields nothing; None when a command raised |
| `ConsumerGroup.GroupEventSubscriber.PollOnce` | src/shrap/trading_floor/order_store_agent.py:73-126 | read, process, acknowledge what is done or poison, stop at the first systemic failure |
| `OrderSpine.AtMostOneOrder` | src/shrap/trading_floor/execution_agent.py:236-261 | over all agents, interleavings, crashes, lost replies and redeliveries: one risk event has at most one broker order over all accounts, on the account its intent names, and at most one submitted event, about that order |
| `OrderSpine.AckedMeansOrderedOrRejected` | src/shrap/trading_floor/execution_agent.py:485-580 | an event its owning agent acknowledged has its order at the broker, or `build_paper_order` rejected it under that attempt's fractionable flag |
| `OrderSpine.OrdersWithinApproval` | src/shrap/trading_floor/execution_agent.py:290-338 | every order in every book is for no more than its risk event approved, unless that was NaN |
| `OrderSpine.BuildsUnderTheAnswer` | src/shrap/trading_floor/execution_agent.py:459-482 | an attempt at an own event that names a symbol builds its order, or rejects it, under what the venue answered in that attempt |
| `OrderSpine.AttemptExactly` | src/shrap/trading_floor/execution_agent.py:459-580 | one attempt at an own event whose order is built, reply by reply: when the order is booked, when it is announced, when the event is acknowledged and as what, when the batch is left for the next cycle, and that nothing else changes |
| `OrderSpine.CalmCycleOrders` | src/shrap/trading_floor/execution_agent.py:485-580 | from any reachable world, a cycle in which every reply arrives acknowledges every event of the batch it reads; another account's is left alone, and an own one is rejected or ordered as it builds under the answer given to it, an order the broker did not have ending in the book and in the submitted stream |
| `OrderSpine.TradeableIsOrdered` | src/shrap/trading_floor/execution_agent.py:485-580 | so an own tradeable event for a positive quantity that fits and that the venue takes ends in the book, and is acknowledged as executed and announced unless the broker had it before |
| `OrderSpine.BatchIsNext` | src/shrap/events/groups.py:121-130 | what a cycle reads: the pending events, in order and at most a batch of them; with none pending, the next stretch of the stream, which becomes pending |
| `OrderSpine.CountsAnnounced` | src/shrap/trading_floor/execution_agent.py:485-580 | a cycle's count is what it announced, save that its last announcement may go uncounted |
| `OrderSpine.RunKeeps` | src/shrap/trading_floor/execution_agent.py:459-580 | the protocol invariant survives every step: reads, submissions, announcements, acknowledgements, crashes |
| `OrderSpine.ExecutionAgent.PollOnce` | src/shrap/trading_floor/execution_agent.py:485-580 | the loop with its except clauses is exactly the agent's protocol steps; it returns how many orders were placed, announced and acknowledged, every reply having come back |
| `OrderSpine.ExecutionAgent.ProcessEvent` | src/shrap/trading_floor/execution_agent.py:459-482 | one event: route, build, submit, announce, acknowledge; ValueError and a duplicate order acknowledge, anything else abandons the batch |
| `OrderSpine.Bus.SubmitToBroker` | src/shrap/trading_floor/execution_agent.py:146-166 | the broker refuses a known client_order_id as a duplicate and books any other |
| `PaperOrder.OrderWithinApproval` | src/shrap/trading_floor/execution_agent.py:290-338 | an accepted order is a plain decimal string that never exceeds the approved quantity and falls short by less than 1e-9 share, or by less than one share when fractions are refused; the one exception is NaN, sent as it is |
| `PaperOrder.FlagMattersBelowOneShare` | src/shrap/trading_floor/execution_agent.py:317-335 | the fractionable flag changes acceptance exactly for NaN and for a valid sub-share order |
| `PaperOrder.OneAgentRoutes` | src/shrap/trading_floor/execution_agent.py:236-261 | no event is two agents' own, and one that names nobody is unroutable for every agent |
| `PaperOrder.RefusedForGoodExactly` | src/shrap/trading_floor/execution_agent.py:290-338 | an event is refused for good exactly when it is not an approved paper intent with a symbol and a side, its quantity is unreadable or not positive, or it is NaN or below one share where only whole shares are taken; what is accepted carries the event's own id, symbol and side |
| `PaperOrder.AcceptedExactly` | src/shrap/trading_floor/execution_agent.py:290-338 | an order is built exactly for a tradeable event whose quantity is positive, fits the decimal context, and is not below one share where only whole shares are taken; or is NaN where fractions are |
| `DecimalText.PlainText` | src/shrap/trading_floor/execution_agent.py:264-287 | the printed quantity has no exponent and no trailing fraction zeros |
| `DecimalText.ReadsBackTruncated` | src/shrap/trading_floor/execution_agent.py:264-287 | read back, it denotes exactly the quantity truncated at nine places |
| `DecimalText.TruncationBounds` | src/shrap/trading_floor/execution_agent.py:264-287 | truncation never exceeds the quantity and loses less than one billionth |
| `DecimalText.NinePlacesExact` | src/shrap/trading_floor/execution_agent.py:264-287 | the text sent reads back as the quantity itself exactly when the quantity has nothing beyond its ninth place, however many zeros follow |
| `DecimalText.WholeShareBounds` | src/shrap/trading_floor/execution_agent.py:317-335 | the whole-share floor never exceeds the quantity and loses less than one share |
| `StatusWatch.WatchContract` | src/shrap/trading_floor/execution_agent.py:583-772 | over any lives of the process, restarts included: every moment is in step, and safe for every faultless future, exactly when no first check is published whose event will be handed over again and no re-check publishes a change with a lost reply or without a status; then statuses of one order never repeat in a row, nothing follows a terminal one, at most one filled event is published, and the watch set is exactly the published orders that are not terminal and were not let go |
| `StatusWatch.SafeExactlyInStep` | src/shrap/trading_floor/execution_agent.py:610-772 | after any life, faults included: no faultless continuation can disorder a history exactly when all are orderly, no published order is still to come in the stream, and each watched order is remembered as last published and not terminal |
| `StatusWatch.StepKeepsExactly` | src/shrap/trading_floor/execution_agent.py:610-772 | from a state in step, one event, one re-check or a restart keeps it in step exactly when it is not one of those faults |
| `StatusWatch.RecheckIsSafeExactly` | src/shrap/trading_floor/execution_agent.py:651-673 | a due re-check keeps the history orderly for every status the broker may answer exactly when the watch set remembers the last published status and it is not terminal |
| `StatusWatch.TooSoonIsUnacknowledged` | src/shrap/trading_floor/execution_agent.py:704-772 | where every order has one event, a first check is published too soon exactly when its acknowledgement does not happen |
| `StatusWatch.LetGoIsSilent` | src/shrap/trading_floor/execution_agent.py:413-430 | an order neither watched nor still to come is never published again, whatever happens |
| `StatusWatch.HeardOfExactly` | src/shrap/trading_floor/execution_agent.py:413-430 | something more can be published for an order exactly when it is watched or its event is still to come, and then without any fault |
| `StatusWatch.RestartLoses` | src/shrap/trading_floor/execution_agent.py:413-430 | after any life a restart loses a watched order for good exactly when its event is past in the stream; after a life without faults, every watched order |
| `StatusWatch.RestartLosesAFill` | src/shrap/trading_floor/execution_agent.py:413-430 | a life after which the next check publishes a fill, and after a restart nothing ever does |
| `StatusWatch.PollIsSteps` | src/shrap/trading_floor/execution_agent.py:676-772 | a poll is a run of those steps, one for each event it handles before it breaks |
| `StatusWatch.AcknowledgedExactly` | src/shrap/trading_floor/execution_agent.py:704-772 | an event is acknowledged without a published status exactly when it names no order of this account, or was answered 404, a garbled body or a refused publish, and its acknowledgement took effect; with one exactly when the order was found, its status went out, and the acknowledgement took effect; otherwise it stays where it was and the loop ends |
| `StatusWatch.NothingIsLost` | src/shrap/trading_floor/execution_agent.py:676-772 | over any lives, every order of this account whose event is acknowledged has a published status, or the handling that acknowledged it met a 404, a garbled body or a refused publish |
| `StatusWatch.RecheckedExactly` | src/shrap/trading_floor/execution_agent.py:610-673 | a watched order leaves the watch set exactly on a 404 or a terminal status that was no change or went out; a status goes out exactly when it is due, changed, and the publish took effect |
| `StatusWatch.RepollIsSteps` | src/shrap/trading_floor/execution_agent.py:610-673 | a re-poll pass is a run of those steps, one for each order it checks before a publish raises |
| `StatusWatch.LostPublishRepeats` | src/shrap/trading_floor/execution_agent.py:651-673 | a status published with a lost reply is published again by the next re-poll |
| `StatusWatch.FailedAckRepeats` | src/shrap/trading_floor/execution_agent.py:704-772 | a published first check whose acknowledgement failed is published again |
| `StatusWatch.MissingStatusRepeats` | src/shrap/trading_floor/execution_agent.py:583-673 | two replies without a status publish twice |
| `StatusWatch.StatusLoop.PollOrderStatusOnce` | src/shrap/trading_floor/execution_agent.py:676-772 | the batch loop does what the specification says, event by event, breaks included |
| `StatusWatch.StatusLoop.RepollPendingOnce` | src/shrap/trading_floor/execution_agent.py:610-673 | the re-poll loop does what the specification says, order by order |
| `StatusWatch.StatusLoop.TrackIfPending` | src/shrap/trading_floor/execution_agent.py:583-607 | a terminal status leaves the watch set, any other enters it with its next check |
| `PreTrade.GatesOnlyTighten` | src/shrap/risk_compliance/pre_trade_checker_agent.py:139-177 | whatever the gates answer, an approval carries the intent itself at exactly the reported quantity, at most the requested one and the cap; a veto carries nothing; no veto becomes an approval |
| `PreTrade.ApprovedExactly` | src/shrap/risk_compliance/pre_trade_checker_agent.py:214-285 | an intent is approved exactly when the policy approves it and no configured gate vetoes it |
| `PreTrade.DecidedExactly` | src/shrap/risk_compliance/pre_trade.py:103-171 | the whole decision on the inputs: approved exactly when the policy permits the intent and no gate vetoes it, for the least of the requested quantity, the cap and the officer's size; a veto carries the reason of the first that refuses, in the order policy, Tier 3, officer, limiter |
| `PreTrade.ObjectionsInOrder` | src/shrap/risk_compliance/pre_trade.py:103-171 | the policy names its first objection: not a number, the mode, the kill switch, the universe, the size |
| `Text.CasesFold` | src/shrap/risk_compliance/pre_trade.py:104 | upper and lower case turn the letters of the alphabet into each other and leave everything else |
| `PreTrade.SlotsGoToOrders` | src/shrap/risk_compliance/pre_trade_checker_agent.py:224-275 | the limiter is asked exactly when nothing but the limiter can still refuse the order |
| `PreTrade.ProcessIntent` | src/shrap/risk_compliance/pre_trade_checker_agent.py:214-332 | the gates, rewriting the payload in place, reach that decision |
| `IntentRetry.AbandonedClaimVetoes` | src/shrap/risk_compliance/pre_trade_checker_agent.py:224-285 | an intent handled a second time, with any other traffic between, is vetoed as long as the key its first handling claimed is alive |
| `IntentRetry.SlotOutlivesTheDay` | src/shrap/risk_compliance/rate_limit.py:105-126 | the key of a slotted intent is alive, and the same, for the rest of its day |
| `IntentRetry.RetriedExactly` | src/shrap/risk_compliance/pre_trade_checker_agent.py:224-285 | with no other claim between, the second handling is granted exactly when its key is another one or the first has expired, and then decides as all other gates do |
| `IntentRetry.AnIntentIsNeverSent` | src/shrap/risk_compliance/pre_trade_checker_agent.py:224-285 | two calls for one intent: the first is granted, and the second, made when its decision was not published, is refused |
| `RateLimit.CapHolds` | src/shrap/risk_compliance/rate_limit.py:128-152 | in any interleaving of commands, expiries, lost replies and deaths: approvals of one account counted on one UTC day never exceed the cap |
| `RateLimit.CooldownsHold` | src/shrap/risk_compliance/rate_limit.py:111-152 | at most one approval per day, account, symbol and slot; approvals without a slot for one account and symbol are at least the cooldown apart |
| `RateLimit.GrantedExactly` | src/shrap/risk_compliance/rate_limit.py:111-152 | a call is granted exactly when its account's counter of the day is below the cap and nobody holds the key of its day, symbol and slot, or of its symbol where it has no slot; the counter rises either way, the key is taken exactly with the grant, and nothing else changes |
| `RateLimit.NormalisedExactly` | src/shrap/risk_compliance/rate_limit.py:139-140 | every request counts for an account: its own, blanks at its ends aside, or the one kept for requests that name none |
| `RateLimit.AccountsAreIndependent` | src/shrap/risk_compliance/rate_limit.py:128-152 | removing every other account's commands leaves an account's keys, calls and approvals as they were |
| `RateLimit.KeysAreInjective` | src/shrap/risk_compliance/rate_limit.py:111-148 | different keys are different texts when day, account and symbol hold no colon, although slots may |
| `RateLimit.RedisRateLimiter.Acquire` | src/shrap/risk_compliance/rate_limit.py:128-152 | an uninterrupted `acquire` is the three commands of one call, and its answer says which one refused |
| `Registry.RegistryContract` | src/shrap/research/strategy_registry.py:806-873 | in every reachable registry the log is a legal path of each strategy and replaying it gives its status, no two strategies hold one account, and parents were registered first |
| `Registry.SpecsAreUnique` | src/shrap/research/strategy_registry.py:648-724 | in every reachable registry no two strategies share a spec hash, or a name and version |
| `Registry.RegisteredExactly` | src/shrap/research/strategy_registry.py:648-724 | a proposal is inserted exactly when it starts as a hypothesis, states its lineage (none, or a registered other parent and a reason that is not blank), and shares no id, spec, or name and version; it writes its own row and one entry, and otherwise nothing |
| `Registry.MovedExactly` | src/shrap/research/strategy_registry.py:806-873 | a move is made exactly from the expected status, when one is named, by a legal move; it changes that status and adds one entry |
| `Registry.AllowedExactly` | src/shrap/research/strategy_registry.py:41-75 | the legal moves, from the ladder: one rung up, into review or out; from review back to any rung, up the reviews or killed; from a terminal status nowhere |
| `Registry.AssignedExactly` | src/shrap/research/strategy_registry.py:743-765 | an account is assigned exactly to a registered strategy when no other holds the same text, blanks at its ends aside; blank text clears and is never refused |
| `Registry.NothingLeavesTheGrave` | src/shrap/research/strategy_registry.py:62-75 | once killed or retired, a strategy has no later entry and no later status |
| `Registry.LivePaperIsEarned` | src/shrap/research/strategy_registry.py:45-75 | a strategy is at live-paper and was never under review exactly when its path is the whole ladder, each rung once and in order |
| `Registry.ReviewSkipsTheLadder` | src/shrap/research/strategy_registry.py:71-72 | through a kill-review, live-paper is two moves from hypothesis |
| `Registry.RootsAreOrigins` | src/shrap/research/strategy_registry.py:671-686 | the recorded root is the end of every parent chain exactly when no strategy descends, at two generations or more, from the empty id |
| `Registry.EmptyIdResetsTheCount` | src/shrap/research/strategy_registry.py:671-686 | under the empty id, any third generation starts a lineage of its own |
| `Registry.AttemptsCountTheTree` | src/shrap/research/strategy_registry.py:614-646 | `attempts` counts only members of the strategy's own tree, and all of them exactly when the tree does not end at the empty id, or the strategy is the empty id and nothing descends from its children |
| `Registry.AttemptsCountEveryTree` | src/shrap/research/strategy_registry.py:614-646 | `attempts` is the size of the whole tree for every strategy exactly when no strategy descends from the empty id |
| `Registry.LineageMembers` | src/shrap/research/strategy_registry.py:614-629 | the members of any lineage: the whole tree; or, under the empty id, it and its children, or what descends from one child |
| `Registry.ChildOfEmptyCountsNothing` | src/shrap/research/strategy_registry.py:614-646 | two accepted registrations after which `attempts` is 0 |
| `Registry.RevisionBurnsAnAttempt` | src/shrap/research/strategy_registry.py:648-724 | a revision takes its root from its parent's row alone and adds one to that lineage's count, asked from the parent always, and from itself exactly when the parent is not an original under the empty id |
| `Registry.RepeatedMoveIsRefused` | src/shrap/research/strategy_registry.py:435-447 | a move just made is refused when repeated, as already at its target |
| `Registry.StrategyRegistry.Register` | src/shrap/research/strategy_registry.py:648-724 | validation, parent lookup, idempotent re-delivery, unique indexes, row and first log entry, in the source's order |
| `Registry.StrategyRegistry.Transition` | src/shrap/research/strategy_registry.py:806-873 | unknown target, missing row, stale expectation, illegal move, or row and log entry together |
| `Registry.StrategyRegistry.AssignAccount` | src/shrap/research/strategy_registry.py:743-765 | blank clears; a held account violates the unique index |
| `Lineage.PrintsEachMemberOnce` | src/shrap/research/strategy_stage_cli.py:151-181 | for the lineage of any strategy of a reachable registry, in any order: the walk ends and prints every member exactly once and nothing else, save members three or more generations below the empty id, which it leaves out; unless the strategy descends from the empty id, members are indented by generation and none is an orphan |
| `Lineage.EveryPageIsWhole` | src/shrap/research/strategy_stage_cli.py:127-181 | every lineage is printed whole exactly when nothing descends three or more generations from the empty id |
| `Lineage.GrandchildIsLeftOut` | src/shrap/research/strategy_stage_cli.py:127-181 | four accepted registrations and a page of their registry that leaves a member out |
| `Lineage.HiddenBelowOrphans` | src/shrap/research/strategy_stage_cli.py:151-181 | whatever records are handed over, a member is printed once if its chain of parents stays among them up to a root or its own parent is missing, and otherwise not at all |
| `Lineage.OneChildLeadsTo` | src/shrap/research/strategy_stage_cli.py:155-170 | among the children of a parent, exactly the one on a member's chain leads to it |
| `Lineage.RenderLineage` | src/shrap/research/strategy_stage_cli.py:127-181 | the grouping dictionary, the recursive walk and the loop over missing parents print those lines in that order |
| `Lineage.LineagePage.WalkFrom` | src/shrap/research/strategy_stage_cli.py:155-170 | the recursive walk appends exactly the subtree, in order |
| `Lineage.LineagePage.AddOrphans` | src/shrap/research/strategy_stage_cli.py:177-180 | orphans follow, grouped by missing parent in the order those were first met |
| `Librarian.Converges` | src/shrap/research/librarian_service.py:157-258 | in any run with crashes, lost replies and redeliveries, the registry holds what the acknowledged verdicts, each once in stream order, leave (or that plus the one in hand); lifecycle events come in verdict order, at most one per verdict, each telling the move its verdict made |
| `Librarian.RedeliveryIsRefused` | src/shrap/research/librarian_service.py:119-154 | a verdict that moved its strategy is rejected when applied again, with from and to equal (already_at_target), changing nothing |
| `Librarian.MovesExactly` | src/shrap/research/librarian_service.py:119-154 | a verdict moves its strategy exactly when it is inline, its id, verdict and to-stage are not blank, it is none of the three that change nothing, its from-stage is blank or names the current status, and the move is legal; the new status is the one the to-stage names, and nothing else changes but one log entry |
| `Librarian.PublishesTheMove` | src/shrap/research/librarian_service.py:157-258 | what a handling publishes is its own verdict's move, on the stream of its target: killed, retired, demoted for the reviews, promoted for the rungs |
| `Librarian.AcknowledgedExactly` | src/shrap/research/librarian_service.py:157-258 | a verdict is acknowledged exactly when its acknowledgement takes effect and neither the registry failed to answer nor its move's publish raised |
| `Librarian.AnswersExactly` | src/shrap/research/librarian_service.py:105-138 | no change is a well-formed verdict of the three that ask for none; whatever else asks for no move is skipped |
| `Librarian.PollCountsPublished` | src/shrap/research/librarian_service.py:157-258 | a poll's count is what it published, save that its last publication may go uncounted |
| `Librarian.SilenceIsFinal` | src/shrap/research/librarian_service.py:176-205 | from any reachable desk, a verdict's move can be announced exactly when it already is, or it moves its strategy and has not been applied yet |
| `Librarian.EveryMoveIsAnnounced` | src/shrap/research/librarian_service.py:157-258 | over any life: every move is announced or can still be exactly when no handling commits one and then loses its reply or its publish; once all verdicts are acknowledged, every move has its event exactly then |
| `Librarian.PromotionIsNeverAnnounced` | src/shrap/research/librarian_service.py:176-205 | a promotion whose commit lost its reply is applied and never announced, whatever follows |
| `Librarian.CalmPollDrains` | src/shrap/research/librarian_service.py:157-258 | a poll that meets no fault acknowledges its whole batch, whatever was left behind |
| `Librarian.LibrarianService.ApplyVerdictEvent` | src/shrap/research/librarian_service.py:105-154 | malformed, no-op, refused or moved, with the database's fate |
| `Librarian.LibrarianService.PollOnce` | src/shrap/research/librarian_service.py:157-258 | the four exception branches and the count of transitions applied |
| `ShadowLedger.LedgerContract` | src/shrap/research/shadow_ledger.py:285-347 | after any run of passes, cut anywhere, on a panel that only grows at its end: every row's weights are the strategy's decision on the bars up to its session, and a settled row holds the period's true settlement |
| `ShadowLedger.DelayDoesNotMatter` | src/shrap/research/shadow_ledger.py:313-338 | however two runs were scheduled, what both settled for a session is the same, as long as both recorded the session before it or neither did |
| `ShadowLedger.StoredRowsNeverChange` | src/shrap/research/shadow_ledger.py:94-114 | later passes, even on revised panels, change no stored decision or settlement |
| `ShadowLedger.SecondPassIsIdle` | src/shrap/research/shadow_ledger.py:285-347 | after an uninterrupted pass another on the same panel writes nothing |
| `ShadowLedger.ZerosDoNotMatter` | src/shrap/research/shadow_ledger.py:360-363 | leaving zero weights out of storage changes nothing a settlement computes |
| `ShadowLedger.LaterBarsDoNotMatter` | src/shrap/research/strategy_evaluator/engine.py:433-454 | bars appended later change no earlier period, the trailing dollar volume included |
| `ShadowLedger.GrossIsGrowth` | src/shrap/research/shadow_ledger.py:161-198 | what the held weights are worth at the second close is what they were worth at the first plus the gross return |
| `ShadowLedger.UntradedEarnsNothing` | src/shrap/research/shadow_ledger.py:161-198 | a name that is not live at both closes earns nothing, whatever its weight |
| `ShadowLedger.CostOfOneName` | src/shrap/research/shadow_ledger.py:161-198 | one name costs its trade, from what it held through the period before to what it holds through this one, unless that is no change, and its borrow once |
| `ShadowLedger.EarnedAdds` | src/shrap/research/shadow_ledger.py:161-198 | gross and cost of a list of names are the sums over any split of it |
| `ShadowLedger.HoldingOnTradesNothing` | src/shrap/research/shadow_ledger.py:161-198 | an unchanged holding pays borrow and no trade |
| `ShadowLedger.AdvIsMean` | src/shrap/research/strategy_evaluator/engine.py:433-454 | the dollar volume a trade is measured against is that of the live bars of the trailing window where they agree, and zero where there is none |
| `ShadowLedger.DecidesExactly` | src/shrap/research/shadow_ledger.py:152-158 | a decision exists exactly from the warm-up on, and gives each ticker the signal's weight, zero by default |
| `ShadowLedger.PassCompletes` | src/shrap/research/shadow_ledger.py:285-347 | an uninterrupted pass settles every stored session with a close after it, and records the latest session exactly from the warm-up on |
| `ShadowLedger.SettlePeriod` | src/shrap/research/shadow_ledger.py:161-198 | the accumulating loop computes gross, cost and their difference |
| `ShadowLedger.RunStrategy` | src/shrap/research/shadow_ledger.py:285-347 | one pass, stopped after any number of writes, leaves exactly those writes |
| `Chunker.ChunkContract` | src/shrap/intelligence/corpus_index/chunker.py:42-81 | chunks fit the window; at least one for text that is not blank, none for blank; every stretch of the stripped text of 50 to overlap + 1 characters with non-space ends lies whole inside a chunk |
| `Chunker.ChunksFit` | src/shrap/intelligence/corpus_index/chunker.py:66-81 | only the first chunk may be shorter than 50 characters, and none is empty |
| `Chunker.ChunkText` | src/shrap/intelligence/corpus_index/chunker.py:42-81 | the loop ends and computes the windows; the three inadmissible settings are refused |
| `Chunker.ChunksAreInOrder` | src/shrap/intelligence/corpus_index/chunker.py:66-81 | each chunk is the stripped window of an increasing window number, in the text's order |
| `Chunker.ChunksAreOfTheText` | src/shrap/intelligence/corpus_index/chunker.py:42-81 | every chunk is a piece of the text |
| `CorpusIndex.IndexContract` | src/shrap/intelligence/corpus_index/indexer.py:134-222 | at every moment of every run, on a table that may grow between passes: the stored points are points of the table's documents; the documents at or below the cursor that came in time are exactly those the cursor moved over, in order, fully stored, and its counters count exactly them |
| `CorpusIndex.BodiesAreFindable` | src/shrap/intelligence/corpus_index/indexer.py:134-222 | at every moment of every run, of each document the cursor moved over: every stretch of its body of 50 to overlap + 1 characters with non-space ends lies whole inside a stored point of that document, and a body that is not blank has a point |
| `CorpusIndex.PointsQuoteTheTable` | src/shrap/intelligence/corpus_index/indexer.py:180-222 | at every moment of every run, a stored point holds a piece of the body of a document of the table, at most a window long, under the name made of the source, that document and its number |
| `CorpusIndex.ResumingReachesTheSameIndex` | src/shrap/intelligence/corpus_index/indexer.py:134-222 | whatever crashed before and however the table grew, one uninterrupted pass ends with the points and counters of a single uninterrupted pass exactly when every document came in time; so always on an unchanged table |
| `CorpusIndex.BatchesAdvanceTheCursor` | src/shrap/intelligence/corpus_index/store.py:69-108 | on any table a completed batch strictly advances the cursor; one that died leaves it |
| `CorpusIndex.DeadBatchStoresAPrefix` | src/shrap/intelligence/corpus_index/indexer.py:180-222 | a batch that dies leaves the cursor and has stored its points in order up to some one of them, at most those a completed batch stores |
| `CorpusIndex.PassStopsAtTheLimit` | src/shrap/intelligence/corpus_index/indexer.py:134-178 | a pass moves the cursor over no more documents than its limit, and over exactly that many, or all there are, when every batch completes |
| `CorpusIndex.BeforeIsLexicographic` | src/shrap/intelligence/corpus_index/store.py:88-99 | the row comparison goes by instant, then by reference, and orders any two rows |
| `CorpusIndex.LateArrivalsAreSkipped` | src/shrap/intelligence/corpus_index/store.py:88-99 | a document at or below the cursor when it arrives is never indexed: at every later moment of every run nothing of it is stored |
| `CorpusIndex.IndexedExactly` | src/shrap/intelligence/corpus_index/indexer.py:134-178 | after any run that ends with an uninterrupted pass, a document is indexed exactly when it came in time or has no chunks |
| `CorpusIndex.PassIndexesExactly` | src/shrap/intelligence/corpus_index/indexer.py:134-178 | an uninterrupted pass on a table that may have grown adds exactly the documents above the cursor and leaves the others as they were |
| `CorpusIndex.InsertedBelowIsLate` | src/shrap/intelligence/corpus_index/store.py:88-99 | after an uninterrupted pass, whatever is inserted before some document of the table comes too late |
| `CorpusIndex.PointNamesAreInjective` | src/shrap/intelligence/corpus_index/indexer.py:59-62 | `source:ref:index` is injective for a source without colons, though references may hold them |
| `CorpusIndex.FetchIsNext` | src/shrap/intelligence/corpus_index/store.py:88-136 | wherever the cursor stands, the row comparison pages exactly the documents after it |
| `CorpusIndex.CorpusIndexer.IndexOneBatch` | src/shrap/intelligence/corpus_index/indexer.py:180-222 | chunk, name, upsert a prefix or all, and only then move the cursor |
| `CorpusIndex.CorpusIndexer.IndexSource` | src/shrap/intelligence/corpus_index/indexer.py:134-178 | the loop is that sequence of batches, up to the document limit |
| `QuotaGuard.GuardHolds` | src/shrap/research/bar_experiment_cli.py:555-588 | if no item before the next check costs more than twice the observed average: usage after each of them is at most 1 - reserve where the implied interval is at least 10, and otherwise at most 20 averages above this reading |
| `QuotaGuard.UnobservedIsUnbounded` | src/shrap/research/bar_experiment_cli.py:576-588 | where no cost was observed the guard waits 100 items, after which usage may exceed any bound |
| `QuotaGuard.NextCheckIsNear` | src/shrap/research/bar_experiment_cli.py:566-588 | the guard asks again within 10 to 100 items, after exactly 10 when the meter is unreadable |
| `QuotaGuard.IntervalExactly` | src/shrap/research/bar_experiment_cli.py:566-588 | the interval is 100 items where no rise since the remembered reading is seen, and otherwise, between 10 and 100, the most items that fit the room outside the reserve at twice the average cost since then |
| `QuotaGuard.PacingRemembers` | src/shrap/research/bar_experiment_cli.py:544-588 | the guard remembers the last readable meter it let the loop go on from, or the preflight's, with the items scored then; an unreadable one, a stop and an ignored quota leave that as it is |
| `QuotaGuard.StopsExactly` | src/shrap/llm/ollama_usage.py:190-220 | it stops exactly when a readable meter shows no room outside the reserve |
| `QuotaGuard.Binding` | src/shrap/llm/ollama_usage.py:91-99 | the binding window is the fuller of those reported |
| `QuotaGuard.BudgetGuard.StillWithinBudget` | src/shrap/research/bar_experiment_cli.py:555-588 | the closure and the dictionary it updates compute that decision and pacing state |
| `BarRunner.BarContract` | src/shrap/research/bar_experiment.py:469-570 | calls are made for a prefix of the items; the loop stops at the fifth consecutive error and no earlier; the first check is at item 10, successive checks 10 to 100 apart, each from the state the one before left, and at most 100 calls follow the last |
| `BarRunner.BarStaysUnderCeiling` | src/shrap/research/bar_experiment.py:507-570 | over a whole bar and an honest meter: if every check that let it go on saw a cost that no following item doubles, usage after each item past the first check is under the ceiling of the check before it, which was made below 1 - reserve |
| `BarRunner.RunBar` | src/shrap/research/bar_experiment.py:507-570 | the loop returns exactly those calls, each with its item and outcome |
| `BarRunner.VerdictsAreFinal` | src/shrap/research/bar_experiment_cli.py:215-240 | over any sequence of passes a recorded verdict never changes and none is dropped |
| `BarRunner.ReplayResumesTheRest` | src/shrap/research/bar_experiment_cli.py:272-325 | replay with resume selects exactly the target items, still in the corpus, without a verdict, each once; it is refused exactly when none is outstanding |
| `BarRunner.LoadSelects` | src/shrap/research/bar_experiment_cli.py:250-335 | whatever the selectors, the items loaded are exactly the corpus items they ask for, each once |
| `BarRunner.RefusesExactly` | src/shrap/research/bar_experiment_cli.py:250-335 | each refusal exactly: an empty run to replay; a run without an error to resume, and nothing to replay; a replay wholly judged already; a source that none of the items asked for comes from |
| `BarRunner.CleanPassFinishes` | src/shrap/research/bar_experiment_cli.py:272-369 | a combined pass whose calls succeed and whose quota lasts leaves no target item of the corpus without a verdict |
| `BarRunner.PersistResults` | src/shrap/research/bar_experiment_cli.py:343-369 | one transaction of heal-only upserts |
| `MarketPhase.ScheduleIsOrdered` | src/shrap/operations/market_phase.py:138-202 | a schedule exists exactly when a listed session lies after the window; it is in order and the sort moved nothing; strictly in order exactly when every session closes before the extended end |
| `MarketPhase.OpenIsRegularHours` | src/shrap/operations/market_phase.py:92-102 | from the first transition on, the current phase is open exactly during regular hours |
| `MarketPhase.PollsMissNothing` | src/shrap/operations/market_phase.py:104-106 | for nondecreasing poll times, the concatenated `due` results are those of the whole span |
| `MarketPhase.DueIsAStretch` | src/shrap/operations/market_phase.py:104-106 | a span's transitions are one stretch of the schedule, each once and in order |
| `MarketPhase.NextFollowsCurrent` | src/shrap/operations/market_phase.py:108-112 | `next_after(now)` is the transition right after the current one |
| `MarketPhase.BuildSchedule` | src/shrap/operations/market_phase.py:180-202 | the day loop and the stable sort compute the schedule, or raise |
| `MarketPhase.Current` | src/shrap/operations/market_phase.py:92-102 | the scan returns the last transition of the leading run entered by now |
| `Sweep.SweepContract` | src/shrap/market_data/trigger_service.py:180-278 | over any run of sweeps cut after any row: stored days are sessions of the feed, gaps lie inside the restate window, and a sweep that filled a ticker's window leaves no gap, every session from its oldest stored day to the sweep's, and every session of the bootstrap span, new ticker or not |
| `Sweep.GapFreeWhereverCut` | src/shrap/market_data/trigger_service.py:95-134 | from a gap-free store a sweep leaves no gap wherever it is cut exactly when its window reaches at most one session below the oldest stored day |
| `Sweep.RunIsGapFreeWhereverCut` | src/shrap/market_data/trigger_service.py:180-278 | over any run: the cut sweeps leave no gap wherever they are cut exactly when that condition holds at each of them, and then no state of the run has a gap |
| `Sweep.CutSweepsLeaveAGap` | src/shrap/market_data/trigger_service.py:180-278 | for any bootstrap span and any restate window of two days or more: two cut sweeps of a new ticker on one day that leave a session missing between two stored ones |
| `Sweep.GapsNeedTwoDays` | src/shrap/market_data/trigger_service.py:95-134 | runs that leave a gap exist exactly when the restate window is two days or more |
| `Sweep.BootstrapIsGapFree` | src/shrap/market_data/backfill.py:169-187 | a bootstrap leaves no gap wherever it is cut |
| `Sweep.RefetchAddsNoDay` | src/shrap/market_data/trigger_service.py:247-271 | re-reading a restated ticker's history after a completed sweep adds no day |
| `Sweep.PlanWindows` | src/shrap/market_data/trigger_service.py:95-134 | windows have strictly increasing starts, each with exactly the tickers that share it, in the caller's order |
| `Sweep.OneWindowEach` | src/shrap/market_data/trigger_service.py:95-134 | every ticker lies in exactly one window, which starts where its own gap needs it |
| `Sweep.DailyBarStore.UpsertBars` | src/shrap/market_data/store.py:418-443 | rows land one at a time and leave every other ticker alone |
| `Sweep.DailyBarStore.BackfillTickers` | src/shrap/market_data/backfill.py:150-193 | tickers are filled one after another; at most one is cut |
| `Sweep.DailyBarStore.RunSweep` | src/shrap/market_data/trigger_service.py:180-278 | each ticker undergoes one of the changes the run theorem allows, and a completed sweep fills every window |
| `Spearman.RankIsCount` | src/shrap/research/rank_persistence.py:74-77 | every value, ties included, gets the rank "how many are at most it, less one" |
| `Spearman.CorrelationContract` | src/shrap/research/rank_persistence.py:63-84 | undefined exactly for short, unequal-length or constant input; otherwise both spreads are positive and num^2 is at most their product |
| `Spearman.SameOrderIsPerfect` | src/shrap/research/rank_persistence.py:63-84 | inputs in the same order, ties included, have rho one: numerator and both spreads agree |
| `Spearman.OppositeOrderIsPerfect` | src/shrap/research/rank_persistence.py:63-84 | inputs in opposite order without ties have rho minus one |
| `Spearman.TiesSpoilTheMirror` | src/shrap/research/rank_persistence.py:74-84 | four values with a tie whose opposite order has rho above minus one |
| `Spearman.ScaleDoesNotMatter` | src/shrap/research/rank_persistence.py:74-84 | any strictly increasing map of either input changes nothing |
| `Spearman.Symmetric` | src/shrap/research/rank_persistence.py:63-84 | swapping the inputs swaps the spreads and keeps the numerator |
| `LiveBenchmark.BuyAndHold` | src/shrap/research/live_benchmark.py:245-294 | with positive prices throughout, compounding the per-transition returns gives the mean of final over base close |
| `LiveBenchmark.EqualWeightReturns` | src/shrap/research/live_benchmark.py:271-294 | the loop computes one return per transition over the names priced at the base and both ends |
| `LiveBenchmark.MoveExactly` | src/shrap/research/live_benchmark.py:271-294 | whatever is priced when, a transition holds exactly the names with a positive base price and a price at both ends, and returns what they grew by together |
| `LiveBenchmark.ExcessInDollars` | src/shrap/research/live_benchmark.py:195-209 | a session's excess, in dollars, is what the account gained beyond the benchmark's move on what it had invested the session before |
| `LiveBenchmark.AccountCompounds` | src/shrap/research/live_benchmark.py:195-213 | the account's moves compound to its equity, wherever they are cut |
| `LiveBenchmark.CompareToBenchmark` | src/shrap/research/live_benchmark.py:169-220 | refused exactly for too few points, a length mismatch or worthless equity; otherwise excess plus entitled is the sum of the account's moves |
| `Rotation.Recommend` | src/shrap/research/rotation.py:128-185 | one recommendation per slot, in order: the strongest challenger, first on ties, that clears the threshold against the holder and is neither a holder nor taken before; none exactly when there is none |
| `Rotation.EachChallengerOnce` | src/shrap/research/rotation.py:128-185 | a challenger is used for at most one slot, holds none already, and clears the threshold where it is used |
| `Rotation.PicksExactly` | src/shrap/research/rotation.py:128-185 | a slot keeps its holder exactly when no candidate that is free has enough sessions, alone and shared with the holder, and a z-score at the threshold; otherwise the strongest of those takes it |
| `Rotation.BestFor` | src/shrap/research/rotation.py:146-158 | the inner loop finds that strongest challenger |

## Left out

- StatusWatch.WatchContract: the submitted stream is one fixed list whose acknowledged events are a prefix, which is
  what `ConsumerGroup.GroupContract` gives; malformed entries and trimming are modelled there. An acknowledgement
  that itself raises ValueError is not modelled.
- OrderSpine.AtMostOneOrder: the broker never forgets a client_order_id, and envelope ids are fresh; a broker that
  loses an order is not modelled.
- ConsumerGroup.GroupContract: one consumer, one batch size; the reply of several streams is flattened into one list,
  and XAUTOCLAIM and NOGROUP recovery are not part of the source's reader.
- Registry.RegistryContract: rows are written by these three operations only; the regime gate and the descriptive
  columns never reach them.
- Librarian.Converges: the Librarian is the only writer and no strategy is registered meanwhile, which is the setting
  the promise is made for.
- ShadowLedger.LedgerContract: one strategy and one pass at a time; the benchmark signal and the cost model are
  arbitrary functions, and NaN prices are not modelled.
- CorpusIndex.IndexContract: one source, over a table whose rows are never changed or removed; embedding vectors are
  functions of the chunk's text, and UUIDv5 (section 5.5 of RFC 9562) is taken to be injective.
- RateLimit.CapHolds: each command reads the clock once, for its key and for Redis alike; ISO dates name days
  injectively and hold no colon.
- QuotaGuard.GuardHolds: within one bar; the pacing dictionary is not reset between bars, so the first check of a
  second bar measures from the first bar's last reading.
- BarRunner.ReplayResumesTheRest: one bar per run id, since the scored-items query ignores the bar.
- Sweep.SweepContract: a row is its session day; prices, `restated_tickers` and the evidence lost by a crash before
  the re-read are not modelled, and the feed's list of sessions does not change.
- MarketPhase.OpenIsRegularHours: the calendar, its holidays and daylight saving are inputs that satisfy the stated
  ordering; the published payload (`payload_for`) only reads the schedule.
- Spearman.CorrelationContract: the square root and the averages over snapshots (`rank_persistence`) are left in
  squared form or out; `realised_volatility` and `month_end_snapshots` only prepare inputs.
- Strings are sequences of characters; upper and lower case fold ASCII letters only.
- Floating-point rounding, NaN and infinities, except as the quantity of an order or of a pre-trade intent, where they
  are input cases.
- `stratified_limit`, `paired_edge` and the fundamentals look-ups: the first and last are selections read off one
  body, the second needs a square root, so `Rotation` takes its answer as an input.
- JSON and pydantic validation, logging, signal handling, retries' sleeps, argument parsing, HTML and Markdown
  rendering, prompts and language-model calls: only the state change each call makes is modelled.
