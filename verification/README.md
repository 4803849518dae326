# Sorokeep verification

A Dafny model of the state machines, concurrency protocols and exact arithmetic of the Sorokeep
daemon: it watches the TTLs of Soroban contract entries, pays for extending them from shared
budgets, delivers alerts with retries, and backs its database up. Verify it with
`dafny verify dfyconfig.toml`.

| file | what it models |
|---|---|
| `ChannelPool.dfy` | the round-robin pool of channel accounts with its queue of waiting callers |
| `SharedBudget.dfy` | the four statements on a shared budget pool's row, and one group submitted with them |
| `Engine.dfy` | one run of the auto-extension engine: contract tasks, the account pool, the budget rows, as a step system |
| `EngineSlots.dfy`, `EngineProgress.dfy`, `EngineBudget.dfy`, `EngineTheorems.dfy`, `EngineFees.dfy` | what every step keeps about accounts, groups and money; theorems over whole runs; which fees the pools account for |
| `Predictive.dfy` | the least-squares decay rate and the projected threshold crossing |
| `Selection.dfy` | which entries a cycle extends: thresholds, cooldown, hourly limit, grouping by target |
| `SimulationCache.dfy` | the fee-simulation cache with single flight, tokens and invalidation |
| `CachedEstimates.dfy` | what the engine makes of a cached simulation that failed |
| `AlertMonitor.dfy` | firing and resolving alerts |
| `Dispatcher.dfy` | draining the alert queue: retries, caps, quiet hours |
| `TokenFormat.dfy` | printing token balances, and reading them back |
| `RateLimiter.dfy` | the fixed-window limiter of the MCP server |
| `Rent.dfy` | rent projection with nested ceilings |
| `StateDiff.dfy` | snapshots and changes of entry values |
| `BackupSchema.dfy`, `Backup.dfy`, `BackupTheorems.dfy`, `BackupRoundTrip.dfy`, `BackupMerge.dfy`, `BackupImport.dfy` | export, replace-import and merge-import |

## How to read the model

- Node runs one piece of code at a time and better-sqlite3 is synchronous, so the code between two
  awaits is one atomic step. Steps of different contract tasks interleave in every order.
- Whatever the network, the RPC, key resolution or a clock answers is a parameter or a free choice
  of the step. Clocks and billing cycles do not go back. RPC calls return.
- Money is in stroops (integers). Where the source computes with doubles the model uses exact
  integers or reals. JavaScript's `Math.ceil` and `Math.round` are modelled exactly on reals.
- One SQL statement, and one `db.transaction`, is one step. SHA-256 is injective. Shared pools
  keep their limits during a run and are never deleted; between runs pools may be added and limits changed,
  though not below what is spent (the source itself only inserts pools, src/commands/budget.ts:46). One dispatcher and one monitoring cycle run at a time.
- Classes mirror the source's mutable objects; each method is proved equal to a function of the old
  state, and the theorems are about that function over all histories.

## What the proofs found

The source is modelled as it is. Where it falls short of what its documentation says, the model has
the exact condition.

- **Accounts can be lost.** A throw between `acquire()` and the `try` that releases (from
  the database reads or the building of the low-balance alert, src/core/extension.ts:538-604) keeps the account for ever. A run gets stuck exactly when all
  unfinished tasks are queued, and then every account was lost this way (`StuckIff`,
  `LostAccountsStrandWaiters`, `CrashStrandsAWaiter`). Otherwise every maximal run finishes with each
  account given back exactly once, and every task has submitted all of its groups unless one of its own steps
  stopped it (`MaximalRunsFinish`, `AllGroupsAreSubmitted`).
- **Releasing somebody else's account** breaks exclusive use, and nothing in the pool prevents it; the
  engine never does it (`ReleaseKeepsLedgerIff`, `ExclusiveAccounts`).
- **Fees can be lost.** A shared pool's total is right in every state of a run exactly when every submission
  of its current cycle ended with an honest answer and, if it cost anything, with something reserved for it
  (`AlwaysAccountedIff`, and `FeeIsRecordedIff` for one answer). It goes wrong in four ways:
  - A zero estimate reserves nothing, and its fee is never added (`ZeroEstimateSubmitsUnreserved`,
    `UnreservedFeeIsLost`).
  - `pollTransaction` reports failure when it gives up on a transaction that lands later, and for one that failed
    in a ledger (src/rpc/client.ts:1242-1259); both may be charged, but the whole reservation goes back
    (`FeeOfARefusalIsLost`).
  - After a successful submission, `getEntryTTLs` or `updateDb()` may throw (src/core/extension.ts:310-349); the
    total then keeps the estimate instead of the fee (`ThrowKeepsTheEstimate`).
  - A success that reports no fee is recorded at its estimate.

  With positive estimates and honest answers every fee is accounted for (`PositiveEstimatesAccountForAll`),
  from a given state exactly when no task is already submitting with nothing reserved (`FeesAccountedIff`).
  A fee that settles after its pool has gone on to another cycle is in nobody's total (`OldCycleTasksAreInert`).
- **A failed simulation is cached, as a fee of 0.** The client resolves on a simulation error
  (src/rpc/client.ts:821-827) and nobody looks at its `success`. Failures are never cached exactly when they
  reject (`FailuresAreNeverCachedIff`). Until the TTL has passed, each caller is handed the failure
  (`FailedSimulationIsHit`), reserves nothing (`HitSubmitsUnreservedIff`) and, if its submission then
  succeeds, has its whole fee missing from the total (`CachedFailureLosesTheFee`).
- **For samples that never fall, the predictive path selects nothing.** The comment on `computeDecayRate`
  expects samples that fall by about one per ledger (src/core/predictive.ts:18-21), but the monitor stores
  absolute live-until ledgers (src/core/monitor.ts:239-241). As long as only extensions move an entry's
  live-until ledger, its samples never fall (`MonitoredEntriesAreReactive`). An entry that its contract deletes
  and creates again can be sampled lower; above the threshold the path can fire if and only if the pairs of
  samples fall on balance (`PredictivePathCanFireIff`), and its projection is then late
  (`AbsoluteSamplesProjectLate`).
- **The hourly limit of five transactions** counts history rows, one per entry, and is checked only
  before a cycle. It holds for all runs exactly when cycles write at most one row
  (`HourlyLimitKeptIff`, `SixInOneHour`).
- **`invalidate()` does not reach a running simulation**, whose result still lands in the cache
  (`InvalidateIsEffectiveIff`).
- **The cache can answer wrongly.** A caller with newer tokens joins a running simulation of the same
  footprint (`NewTokensJoinTheOldSimulation`), and neither the target TTL nor
  the source account is part of the key (`OtherRequestHitsTheOldResult`). A joined answer is right for every simulator that fits the history exactly
  when the running simulation is of the caller's own query, or both queries have already been simulated
  with one result (`JoinedAnswerIsRightIff`); a hit exactly when it was simulated for the caller's target
  and source account, or likewise (`HitIsRightIff`).
- **Resolving an alert multiplies its notifications**: one that fired to f targets and is resolved with t
  targets sends f * t (`NotificationsPerResolution`).
- **A channel type that does not exist uses an alert's retries up without a single send**
  (`MissingChannelUsesUpRetries`). Sends are as many as retries and delivery together exactly when the channel
  existed at every failed attempt (`QueueSendsAreBounded`).
- **An exhausted alert is never counted as abandoned** when its channel's cap is 0 or above the global
  five (`ExhaustedIsCountedIff`, `QueueAbandonment`). The log line prints the global cap whatever the channel's is.
- **The limiter lets through up to 2 * limit - 1 calls in 60 seconds** across a window edge; no more, and
  the bound is reached for every limit (`AnyMinute`, `BoundIsTight`).
- **State changes observed at an older ledger are logged again and again** because the latest snapshot is
  chosen by ledger (`ObservationIsLatestIff`, `OlderLedgerRepeatsTheChange`).
- **A restored backup loses the columns that `TABLE_COLUMNS` does not list**: the fee ceiling and predictive
  cycles of policies, the poll interval of groups, the channel of fired alerts
  (`RestoredUnchangedIff`, `PolicySettingsAreReset`). Restoring also empties the tables that hang off
  the exported ones and are not exported: per-type policies, additional alert targets, TTL samples,
  pool membership, policy history (`RoundTrip`).
- **Merging a backup twice duplicates rows** exactly when some row carries no complete unique key
  (`MergeTwiceIff`); exports never contain such rows.

## Model

| member | source | states |
|---|---|---|
| ChannelPool.ScanIsComplete | src/core/channels.ts:164-175 | the scan from the cursor finds no account exactly when all are in use |
| ChannelPool.StepKeepsValid | src/core/channels.ts:91-118 | acquire and release keep: in-use keys are registered, a non-empty queue means every account is in use (no lost wake-up, stray releases included) |
| ChannelPool.ReleaseHandsOver | src/core/channels.ts:108-118 | with somebody waiting, a release gives exactly the released account to the oldest waiter; releasing an unused account wakes nobody |
| ChannelPool.RunKeepsValid | src/core/channels.ts:91-118 | the pool invariant over every history of calls |
| ChannelPool.ServedInOrder | src/core/channels.ts:91-118 | callers served, followed by callers waiting, are the callers in the order they asked: first in first out, each resolved at most once |
| ChannelPool.AcquireKeepsLedger | src/core/channels.ts:91-102 | acquiring keeps "in use = accounts of open grants, no account twice" |
| ChannelPool.OwnReleaseKeepsLedger | src/core/channels.ts:108-118 | so does releasing an account one holds, or one that nobody holds |
| ChannelPool.ReleaseKeepsLedgerIff | src/core/channels.ts:108-118 | a release keeps exclusive use if and only if the releaser holds the account or nobody does |
| ChannelPool.ExclusiveUse | src/core/channels.ts:91-118 | over every history of callers that release only what they hold, no account is held twice and `inUse` is exactly the granted keys |
| ChannelPool.GrantMovesCloser | src/core/channels.ts:164-175 | granting another account moves the cursor strictly closer to a free one |
| ChannelPool.FreeAccountIsReached | src/core/channels.ts:164-175 | over any history that passes an account by, grants plus remaining distance never exceed the initial distance |
| ChannelPool.FreeAccountIsGrantedWithinN | src/core/channels.ts:164-175 | a free account is granted within n grants |
| ChannelPool.RoundRobinOrder | src/core/channels.ts:164-175 | from an idle pool, m callers get the next m accounts in turn, and the cursor ends m further |
| ChannelPool.IdlePoolGivesDistinctAccounts | src/core/channels.ts:164-175 | n acquires of an idle n-account pool return n different accounts |
| ChannelPool.ChannelAccountPool.constructor | src/core/channels.ts:76-80 | a new pool is idle, with nobody waiting |
| ChannelPool.ChannelAccountPool.NextFreeSlot | src/core/channels.ts:164-175 | the scanning loop returns the first free account from the cursor and moves the cursor past it |
| ChannelPool.ChannelAccountPool.Acquire | src/core/channels.ts:91-102 | an immediate grant, or a place at the end of the queue; keeps the pool invariant |
| ChannelPool.ChannelAccountPool.Release | src/core/channels.ts:108-118 | frees the account and resolves the oldest waiter with a free one; keeps the pool invariant |
| SharedBudget.SharedBudgetPools.RollOverIfStale | src/core/extension.ts:621-644 | a row of an older cycle starts the new cycle at 0; the returned row is the stored one |
| SharedBudget.SharedBudgetPools.ReserveIfUnderLimit | src/core/extension.ts:676-681 | reserves, with one changed row, exactly when the cycle is current and the limit is kept |
| SharedBudget.SharedBudgetPools.TrueUp | src/core/extension.ts:741-748 | corrects a reservation to the actual fee in its own cycle only |
| SharedBudget.SharedBudgetPools.GiveBack | src/core/extension.ts:769-776 | gives a reservation back, clamped at 0, in its own cycle only |
| SharedBudget.SharedBudgetPools.SubmitGroup | src/core/extension.ts:621-777 | with nothing in between, the four statements leave the cycle's total at what it was plus the actual fee (the estimate if the answer has none, nothing on a refusal or a zero estimate), refuse exactly when the limit would be passed, and touch no other pool |
| EngineSlots.StartSatisfiesSlotInv | src/core/extension.ts:395-397 | a fresh pool with no task begun satisfies the account invariant |
| EngineSlots.SlotInvPreserved | src/core/extension.ts:514-590 | every step keeps: held accounts are exactly the accounts in use, by one task each; queued tasks are exactly the pool's waiters; each task's acquires and releases balance |
| EngineSlots.SlotInvAlways | src/core/extension.ts:514-787 | the account invariant in every reachable state |
| EngineSlots.ExclusiveAccounts | src/core/extension.ts:514-587 | no two contract tasks ever hold the same channel account |
| EngineSlots.MeasureFalls | src/core/extension.ts:454-792 | a well-founded measure falls on every step of every contract task |
| EngineSlots.RunsAreBounded | src/core/extension.ts:454-792 | in any interleaving the contract tasks take boundedly many steps |
| EngineSlots.VacateHandsOver | src/core/extension.ts:518-521 | giving an account back with somebody queued hands it to the first in the queue and keeps the invariant |
| EngineProgress.AllGroupsAreSubmitted | src/core/extension.ts:597-786 | over every run: before its groups a task has submitted none; in between, what it has submitted and what is left make all its groups; once finished, it has submitted all if and only if none of its own steps stopped it early (not proceeding, low balance, no key, a throw, a failed simulation, no room in the pool) |
| EngineProgress.SubmissionsBalance | src/core/extension.ts:597-786 | the same from any state: a task that is not stopped submits exactly what it has remaining, one that is stopped less |
| EngineProgress.EveryGroupIsChecked | src/core/extension.ts:607-705 | over every run: a group of a shared pool, or of a contract with a budget or fee ceiling, is submitted only after its own simulation, with its own estimate reserved in its own pool; any other with nothing, unsimulated |
| EngineBudget.RollOverMove | src/core/extension.ts:621-644 | rolling a row over keeps conservation and the cap |
| EngineBudget.ReserveMove | src/core/extension.ts:676-705 | so does a reservation, for this pool and every other |
| EngineBudget.SettledBooks | src/core/extension.ts:738-777 | so do true-up, refund and a throw, with the books gaining exactly what the row gained |
| EngineBudget.BudgetInvPreserved | src/core/extension.ts:621-777 | every step keeps conservation and the cap for every shared pool, across cycle changes |
| EngineTheorems.InvAlways | src/core/extension.ts:454-792 | both invariants in every reachable state |
| EngineTheorems.FirstRun | src/core/extension.ts:621-644 | they hold at the start of the first run |
| EngineTheorems.NextRun | src/core/extension.ts:395-397 | and carry over from a settled run to the next one, with pools added and limits changed in between, though not below what is spent |
| EngineTheorems.Conservation | src/core/extension.ts:621-777 | over every interleaving and roll-over, `spent` is what successes recorded in its cycle plus reservations in flight for it plus those left by tasks that threw after reserving |
| EngineTheorems.CapHolds | src/core/extension.ts:676-748 | `0 <= spent <= limit +` the sum of `max(0, recorded - estimate)` over the cycle's successes |
| EngineTheorems.CapNeverPassed | src/core/extension.ts:676-748 | with estimates that are upper bounds, concurrent tasks never pass the limit |
| EngineTheorems.RefundsAreExact | src/core/extension.ts:769-776 | in every reachable state a refund gives back the whole reservation: the clamp never takes effect |
| EngineTheorems.OldCycleTasksAreInert | src/core/extension.ts:676-777 | a task begun in an older cycle changes no row when it settles and reserves nothing when it has simulated |
| EngineTheorems.FeeIsRecordedIff | src/core/extension.ts:738-777 | settling an answer, success, failure or throw, puts the fee paid in the place of the reservation if and only if the answer is honest about the fee and something was reserved if there was one |
| EngineTheorems.RunnableMoves | src/core/extension.ts:514-787 | every contract task that is neither finished nor queued has a step |
| EngineTheorems.StuckIff | src/core/extension.ts:514-606 | no step is left exactly when nobody is runnable; if work is left then, every account was kept by a task that threw before its `try` |
| EngineTheorems.NoTaskCrashed | src/core/extension.ts:514-606 | without such throws no task ever keeps an account |
| EngineTheorems.MaximalRunsFinish | src/core/extension.ts:514-787 | every maximal run without such throws ends with all tasks done, each acquired account released exactly once, nothing in use, nobody waiting, and all groups of every task submitted if and only if none of its own steps stopped it |
| EngineTheorems.FinalPool | src/core/extension.ts:784-786 | when all tasks have finished the pool is idle if and only if none kept its account |
| EngineTheorems.LostAccountsStrandWaiters | src/core/extension.ts:514-606 | once all accounts are lost, a queued task waits for ever |
| EngineTheorems.CrashStrandsAWaiter | src/core/extension.ts:514-606 | a concrete run that gets there |
| EngineFees.AheadMoves | src/core/extension.ts:621-777 | `spent` less the fees paid and the reservations in flight changes by exactly what a step's answer gains less what was paid for it, and starts from 0 in a new cycle |
| EngineFees.AlwaysAccountedIff | src/core/extension.ts:676-777 | `spent` is the fees paid and the reservations in flight in every state of a run if and only if every answer in the pool's current cycle was honest and, if it cost anything, reserved for |
| EngineFees.PaidFeesAreCapped | src/core/extension.ts:676-748 | in such runs the fees really paid pass the limit by no more than they came out above their estimates |
| EngineFees.FeesAccountedIff | src/core/extension.ts:676-777 | from a state where `spent` is right, it is right after every continuation with positive estimates and honest answers if and only if no task is submitting there with nothing reserved |
| EngineFees.PositiveEstimatesAccountForAll | src/core/extension.ts:676-777 | a run with positive estimates and honest answers on a pool accounts for every fee at every point |
| EngineFees.ZeroEstimateSubmitsUnreserved | src/core/extension.ts:676-705 | a reservation on an estimate of 0 leads to a task submitting with nothing reserved, from any reachable state where the simulated pool has room |
| EngineFees.UnreservedFeeIsLost | src/core/extension.ts:741-748 | whatever such a task is charged is left out of `spent` |
| EngineFees.FeeOfARefusalIsLost | src/core/extension.ts:769-777 | a run of one contract whose transaction lands after polling gave up, or fails in a ledger: the whole fee is missing from `spent` |
| EngineFees.ThrowKeepsTheEstimate | src/core/extension.ts:310-349 | a run of one contract that throws after it was charged: `spent` keeps the estimate instead of the fee |
| CachedEstimates.HitSubmitsUnreservedIff | src/core/extension.ts:196-224 | a task that hits the cache and finds room in its pool submits with nothing reserved if and only if the cached simulation failed or cost 0 |
| CachedEstimates.CachedFailureLosesTheFee | src/core/extension.ts:196-224 | end to end: a simulation error is cached, a later call hits it, reserves nothing and is charged; the whole fee is missing from `spent` |
| Predictive.ComputeDecayRate | src/core/predictive.ts:28-51 | the accumulating loop computes the rate of the four sums |
| Predictive.DenomIsPairSquares | src/core/predictive.ts:31-41 | `n*sumXX - sumX^2` is the sum over all pairs of `(xi - xj)^2` |
| Predictive.NumerIsPairProducts | src/core/predictive.ts:31-46 | `n*sumXY - sumX*sumY` is the sum over all pairs of `(xi - xj)(yi - yj)` |
| Predictive.RateExistsIff | src/core/predictive.ts:28-45 | the rate is null exactly for fewer than two samples or a single sampled ledger |
| Predictive.SlopeIsBetweenPairwiseSlopes | src/core/predictive.ts:41-48 | the slope lies between any bounds of the pairwise slopes |
| Predictive.ShiftKeepsRate | src/core/predictive.ts:28-51 | shifting all ledgers changes nothing |
| Predictive.FallingLineRate | src/core/predictive.ts:28-51 | samples on a line of slope -r give exactly r |
| Predictive.ProjectionHitsCrossing | src/core/predictive.ts:63-77 | the projection is then within half a ledger of the true crossing, clamped at 0 |
| Predictive.NonFallingSamplesGiveNoProjection | src/core/predictive.ts:41-76 | samples whose live-until never falls as the ledger grows give rate 0 or null, and a null projection |
| Predictive.ProjectionExistsIff | src/core/predictive.ts:41-76 | a projection exists if and only if the pair products are negative on balance |
| Predictive.AbsoluteSamplesProjectLate | src/core/predictive.ts:28-77 | with absolute samples on a line of slope -r, the projection from the remaining TTL comes `gap / (r (1 + r))` ledgers after the true crossing, to within half a ledger, clamped at 0 |
| Predictive.RecordedSamplesNeverFall | src/core/monitor.ts:239-241 | samples taken from readings that only extensions moved never fall, whichever are kept and in whatever order |
| Selection.PredictivePathNeverFires | src/core/extension.ts:408-447 | with samples that never fall, the filter selects exactly the entries below their threshold |
| Selection.MonitoredEntriesAreReactive | src/core/extension.ts:408-447 | so it does for every entry whose readings only extensions have moved |
| Selection.PredictivePathCanFireIff | src/core/extension.ts:408-447 | above the threshold, some options make the filter select the entry if and only if the pairs of its samples fall on balance |
| Selection.OverriddenEntry | src/db/repositories.ts:406-431 | an entry whose type is overridden is selected alike under all policies that agree on that override; the reactive path uses the override's threshold |
| Selection.OtherEntry | src/db/repositories.ts:406-431 | an entry of any other type depends on the contract's own parameters alone |
| Selection.NotLookingAhead | src/core/extension.ts:426-427 | with no cycles to look ahead, by the options or else by the policy, exactly the entries below their threshold are selected |
| Selection.PredictivePathSelects | src/core/extension.ts:426-447 | with remaining TTLs on a falling line, an entry above its threshold is selected if the line crosses it within the cycles looked ahead, of 60 ledgers by default, and not if later, to within half a ledger |
| Selection.GroupByTarget | src/core/extension.ts:597-604 | each occurring target gets one group, which holds exactly its entries in their order |
| Selection.SubmittedOnce | src/core/extension.ts:597-608 | every eligible entry is submitted in exactly one group |
| Selection.GroupsAreOfOwnTarget | src/core/extension.ts:597-604 | an entry is in the group of its type's override's target if there is one, else in that of the contract's target, and in no other |
| Selection.LastExtendedAt | src/core/extension.ts:478-490 | the loop keeps the latest stamp of each entry of the last day |
| Selection.CooldownEligible | src/core/extension.ts:492-504 | exactly the entries whose last extension is at least the cooldown ago, or unknown, in their order |
| Selection.Plan | src/core/extension.ts:464-512 | nothing when rate-limited, else the cooled-down entries in their order |
| Selection.PlannedCycle | src/core/extension.ts:464-512 | whatever a plan allows to be recorded is a cycle of the runs below |
| Selection.CooldownKept | src/core/extension.ts:492-504 | over every run, two recorded extensions of one entry are 300 s apart on their stamps and more than 299 s in real time |
| Selection.HourlyBound | src/core/extension.ts:88-95 | any hour of any run holds at most `HOURLY_RATE_LIMIT - 1` rows plus one batch |
| Selection.HourlyLimitKeptIff | src/core/extension.ts:88-95 | the limit holds for all runs if and only if no cycle writes more than one row |
| Selection.SixInOneHour | src/core/extension.ts:464-474 | a run with six rows in an hour |
| SimulationCache.AlwaysSingleFlight | src/core/simulation_cache.ts:94-119 | pending promises and running simulations correspond one to one, by footprint |
| SimulationCache.AtMostOneFlightPerFootprint | src/core/simulation_cache.ts:94-119 | at most one simulation runs per footprint |
| SimulationCache.RpcCallsBalance | src/core/simulation_cache.ts:100-116 | `rpcCallCount` is simulations resolved plus rejected plus running |
| SimulationCache.EveryEntryHasASource | src/core/simulation_cache.ts:101-116 | every cached value is what a simulation for its footprint and tokens resolved with, not invalidated since; rejections leave nothing behind |
| SimulationCache.HitsAreFresh | src/core/simulation_cache.ts:76-87 | a hit is what a simulation for the caller's own footprint and tokens resolved with, cached less than the TTL ago |
| SimulationCache.EntryIff | src/core/simulation_cache.ts:76-132 | what is cached for a footprint is exactly the result of the flight that resolved for it and that nothing has disturbed since (a removal, a later flight of it, a call for it after its TTL), whatever happened to other footprints |
| SimulationCache.HitIff | src/core/simulation_cache.ts:76-87 | a call is a hit with a result if and only if a flight of its footprint and tokens resolved with it less than the TTL ago and has been kept since, whether or not another is running |
| SimulationCache.RefinesSimulateEveryTime | src/core/simulation_cache.ts:70-120 | the cache answers as simulating every time, if the running simulation has the caller's tokens and the target TTL and source account of a footprint do not change |
| SimulationCache.JoinedAnswerIsRightIff | src/core/simulation_cache.ts:94-97 | a joined answer is right for every simulator that fits the history if and only if the running simulation is of the caller's query, or both queries have been simulated with one result |
| SimulationCache.HitIsRightIff | src/core/simulation_cache.ts:76-87 | a hit is right for every such simulator if and only if it was simulated for the caller's target and source account, or both queries have been simulated with one result |
| SimulationCache.NewTokensJoinTheOldSimulation | src/core/simulation_cache.ts:94-97 | a run whose joined answer is that of the old tokens |
| SimulationCache.OtherRequestHitsTheOldResult | src/core/simulation_cache.ts:76-87 | a run whose hit is that of another target or source account |
| SimulationCache.FailureIsCachedIff | src/core/simulation_cache.ts:101-116 | over every history, what is cached for a footprint is a failed simulation if and only if the flight it comes from resolved with one |
| SimulationCache.FailuresAreNeverCachedIff | src/core/simulation_cache.ts:101-116 | a failed simulation is never cached, at any point of a history, if and only if failed simulations reject |
| SimulationCache.FailedSimulationIsHit | src/rpc/client.ts:821-827 | a run in which a failed simulation resolves and every later caller with the same tokens within the TTL is handed it, with a fee of 0 |
| SimulationCache.NoFlightNoStaleEntry | src/core/simulation_cache.ts:130-132 | after an invalidation with nothing running, later entries were simulated later |
| SimulationCache.InvalidateIsEffectiveIff | src/core/simulation_cache.ts:130-132 | that guarantee holds for all continuations if and only if no simulation of the footprint is running |
| SimulationCache.SimulationCacheManager.GetSimulation | src/core/simulation_cache.ts:70-120 | hit, join or new call, with the stale entry removed and the call counted |
| SimulationCache.SimulationCacheManager.OnResolved | src/core/simulation_cache.ts:102-112 | caches the result under the tokens of the caller that started it |
| SimulationCache.SimulationCacheManager.OnRejected | src/core/simulation_cache.ts:113-116 | forgets the promise and caches nothing |
| SimulationCache.SimulationCacheManager.InvalidateFootprint | src/core/simulation_cache.ts:130-132 | removes the entry and leaves running simulations alone |
| SimulationCache.SimulationCacheManager.Clear | src/core/simulation_cache.ts:140-142 | removes all entries |
| AlertMonitor.AlertStore.HasUnresolvedAlert | src/db/repositories.ts:576-583 | whether an unresolved row exists for the config and entry |
| AlertMonitor.AlertStore.ResolveAlerts | src/db/repositories.ts:585-601 | resolves exactly the open rows of the pair and returns one config id for each |
| AlertMonitor.AlertStore.Notify | src/core/monitor.ts:313-345 | one notification to the primary and to each additional target for each resolved row |
| AlertMonitor.AlertStore.ObserveConfig | src/core/monitor.ts:270-307 | fires if below the threshold and not open, resolves if not below and open, else nothing; disabled configs do nothing; returns the notifications sent |
| AlertMonitor.AlertStore.ObserveEntry | src/core/monitor.ts:270-307 | all configs of one entry in turn |
| AlertMonitor.AlertStore.ProcessContract | src/core/monitor.ts:214-307 | all entries of one contract; entries the RPC does not return are skipped |
| AlertMonitor.ObserveEffect | src/core/monitor.ts:270-307 | an observation changes its own pair only: firing adds an open row for the primary and each additional target, resolving closes them all |
| AlertMonitor.ObservedRows | src/core/monitor.ts:270-307 | firing appends one open row for the primary target, then one for each additional target in order, with its ledger and TTL; resolving sets the flag of exactly the pair's open rows; nothing else changes |
| AlertMonitor.TableIsALog | src/core/monitor.ts:214-307 | over every run, later cycles never remove, reopen or rewrite a row |
| AlertMonitor.CycleEffect | src/core/monitor.ts:214-307 | a whole cycle changes a pair as its one observation would, or not at all if unseen |
| AlertMonitor.CycleWrites | src/core/monitor.ts:214-307 | a cycle writes only rows with its own ledger and the TTLs the RPC returned, for targets of enabled configs that the TTL is below |
| AlertMonitor.CountersAreChanges | src/core/monitor.ts:214-307 | the counters of a cycle are the entries the RPC returned, the alerts open after it and not before, and those open before and not after |
| AlertMonitor.OpenIffLastBelow | src/core/monitor.ts:270-307 | over every run, an alert is open if and only if the last TTL seen while its config was enabled was below its threshold |
| AlertMonitor.QueueHoldsTheFirings | src/core/monitor.ts:278-293 | the queue holds, for each firing, one row for the primary and one for each additional target, and nothing else |
| AlertMonitor.FiringsAlternate | src/core/monitor.ts:275-307 | firings and resolutions alternate, starting with a firing |
| AlertMonitor.LowerOpenImpliesHigherOpen | src/core/monitor.ts:273-307 | of two configs that watch together, an open lower threshold implies an open higher one |
| AlertMonitor.NotificationsPerResolution | src/core/monitor.ts:303-345 | over every run, a cycle that resolves an alert sends its present primary and additional targets one notification each per target of the firing that opened it, which is one each if and only if there was one; all other cycles send none |
| Dispatcher.QuietHoursAreAnArc | src/alerts/dispatcher.ts:62-78 | both branches are one condition on the clock face; equal ends give an empty window |
| Dispatcher.QuietHoursComplement | src/alerts/dispatcher.ts:62-78 | a window and its complement cover the day exactly once |
| Dispatcher.MinutesAreTimes | src/alerts/dispatcher.ts:51-78 | minutes order valid times by hour, then minute, with 60 to the hour, from 00:00 to 23:59, and tell them apart |
| Dispatcher.AlertQueue.GetUndeliveredAlerts | src/db/repositories.ts:1161-1198 | exactly the network's undelivered rows below the global cap, each once, in the order of `fired_at` |
| Dispatcher.AlertQueue.DeliverOne | src/alerts/dispatcher.ts:106-187 | one fetched row: skipped, deferred, delivered, failed in the send or for want of a channel, with its counters |
| Dispatcher.AlertQueue.DeliverPendingAlerts | src/alerts/dispatcher.ts:88-194 | a cycle gives every row its outcome once and leaves the others untouched; its result counts the outcomes |
| Dispatcher.AttemptsAreAccounted | src/alerts/dispatcher.ts:116-187 | attempted = delivered + failed + deferred; abandoned at most failed |
| Dispatcher.SendsAreBounded | src/alerts/dispatcher.ts:106-187 | calls of `send` never exceed retry count plus delivery, nor that either cap; they are as many if and only if the channel existed at every failed attempt |
| Dispatcher.MissingChannelUsesUpRetries | src/alerts/dispatcher.ts:153-169 | n cycles without the alert's channel cost n retries and send nothing |
| Dispatcher.DeliveredIff | src/alerts/dispatcher.ts:106-187 | an alert is delivered if and only if some moment finds it awake, with an attempt left, and its send succeeds; its retries are the failed attempts before that |
| Dispatcher.DeliveredInTimeIff | src/alerts/dispatcher.ts:106-187 | with a constant cap: if and only if a send succeeds before as many awake attempts have failed as the smaller cap |
| Dispatcher.NothingAfterDelivery | src/alerts/dispatcher.ts:153-160 | nothing is sent after success |
| Dispatcher.AbandonmentIsCounted | src/alerts/dispatcher.ts:170-174 | abandonment is counted once when the channel's cap is reached, if that cap is from 1 to the global one, and never otherwise |
| Dispatcher.ExhaustedIsCountedIff | src/alerts/dispatcher.ts:106-174 | an exhausted alert has been counted if and only if its channel's cap is from 1 to the global one |
| Dispatcher.AttemptsFall | src/alerts/dispatcher.ts:106-187 | remaining attempts fall on every cycle of the alert's network that is not deferred; other cycles change nothing |
| Dispatcher.EventuallySettled | src/alerts/dispatcher.ts:106-187 | after as many awake cycles as attempts, an alert is delivered or exhausted |
| Dispatcher.RowIsItsLife | src/alerts/dispatcher.ts:88-194 | over every run of cycles, with rows fired in between, each row has the life of its own moments, whatever else is in the queue |
| Dispatcher.CycledRow | src/alerts/dispatcher.ts:106-187 | a row of the network, undelivered, below both caps and outside its quiet hours is delivered if its channel exists and the send succeeds, else has one retry more; nothing else changes |
| Dispatcher.CountersAreRows | src/alerts/dispatcher.ts:88-194 | the counters of a cycle are the numbers of rows it delivered, failed, exhausted, and deferred |
| Dispatcher.QueueDeliveredIff | src/alerts/dispatcher.ts:88-194 | over every run, a row is delivered if and only if some cycle tried it and its send succeeded, at most once, and has one retry for each cycle that tried and did not |
| Dispatcher.QueueSendsAreBounded | src/alerts/dispatcher.ts:88-194 | the bound on sends, and when it is met, for every row of every run |
| Dispatcher.QueueAbandonment | src/alerts/dispatcher.ts:106-174 | in every run in which its channel keeps its cap, a row is counted as abandoned exactly once if the cap is from 1 to the global one and was reached, else never |
| Dispatcher.QueueEventuallySettled | src/alerts/dispatcher.ts:106-187 | in every such run, as many awake cycles as attempts leave the row delivered or exhausted |
| Dispatcher.QueueLeavesDelivered | src/alerts/dispatcher.ts:153-160 | a delivered row is never touched or sent again, however the run goes on |
| Dispatcher.TotalsMatchTheRows | src/alerts/dispatcher.ts:88-194 | over every run, the deliveries counted are the rows delivered, and the failures counted are the retries of all rows |
| TokenFormat.FormatRoundTrips | src/core/inspect.ts:52-69 | a decimal reader recovers the amount, for every sign, size and number of decimals |
| TokenFormat.FormatIsCanonical | src/core/inspect.ts:52-69 | no superfluous zeros, no bare point, no "-0" |
| TokenFormat.FormatIsInjective | src/core/inspect.ts:52-69 | different amounts print differently |
| TokenFormat.CanonicalIsPrinted | src/core/inspect.ts:52-69 | every canonical string is the print of the amount it denotes: printing and reading are inverse |
| TokenFormat.UnsignedParts | src/core/inspect.ts:56-67 | the part before the point is the quotient, the fraction is worth exactly the remainder |
| RateLimiter.ToolRateLimiter.constructor | src/mcp/rateLimiter.ts:18-20 | a new limiter has the given limit and no windows |
| RateLimiter.ToolRateLimiter.TryConsume | src/mcp/rateLimiter.ts:27-42 | answers and counts in the tool's current window, opening a new one after 60 s |
| RateLimiter.ToolRateLimiter.Reset | src/mcp/rateLimiter.ts:44-46 | forgets all windows |
| RateLimiter.ToolsAreIndependent | src/mcp/rateLimiter.ts:27-42 | over every run, each tool's state and answers are those it would see alone |
| RateLimiter.GrantedIff | src/mcp/rateLimiter.ts:36-41 | a call is refused if and only if its own window already holds the limit |
| RateLimiter.WindowsAreApart | src/mcp/rateLimiter.ts:31-34 | window starts are at least 60 s apart, and each call lies in its window |
| RateLimiter.WindowHoldsLimit | src/mcp/rateLimiter.ts:27-42 | every window holds at most the limit |
| RateLimiter.AnyMinute | src/mcp/rateLimiter.ts:27-42 | every half-open 60 s interval holds at most `2 * limit - 1` grants |
| RateLimiter.AnyMinuteOfARun | src/mcp/rateLimiter.ts:27-42 | the same in a run in which other tools are called as well |
| RateLimiter.BoundIsTight | src/mcp/rateLimiter.ts:27-42 | for every positive limit some run reaches the bound |
| Rent.CeilOfCeil | src/core/rent_projection.ts:193-203 | rounding up twice is rounding up once: `ceil(ceil(x) / 3) = ceil(x / 3)` |
| Rent.FeeIsRoundedOnce | src/core/rent_projection.ts:186-203 | the fee is one rounding of the exact rational cost |
| Rent.FeeIsLeast | src/core/rent_projection.ts:161-213 | fee and ledger count are the least integers that cover the exact cost and the days, 0 on the fast paths; XLM is stroops over ten million |
| Rent.FreeIff | src/core/rent_projection.ts:176-203 | the fast paths cost nothing; every other fee is at least 1 stroop if and only if the denominator is positive, and never positive under a negative one |
| Rent.PersistentIsCheaper | src/core/rent_projection.ts:170-174 | without a denominator given, a persistent entry never costs more than the same temporary one |
| Rent.DefaultFees | src/core/rent_projection.ts:170-203 | a kilobyte for 25 ledgers at the defaults: 12 stroops if persistent, 25 if temporary, 4 and 9 for code entries; a day is 15710 ledgers |
| Rent.CodeEntryPaysAThird | src/core/rent_projection.ts:198-203 | a code entry pays a third of the full fee, rounded up |
| Rent.FeeIsMonotone | src/core/rent_projection.ts:161-213 | larger entries, higher rates, longer periods and smaller denominators never cost less under positive denominators, and never more under negative ones |
| Rent.MonotoneInDaysIff | src/core/rent_projection.ts:161-213 | longer periods never cost less if and only if the denominator is positive or nothing is ever due |
| Rent.MonotoneInSizeIff | src/core/rent_projection.ts:161-213 | larger entries never cost less if and only if the denominator is positive or nothing is ever due |
| Rent.MonotoneInRateIff | src/core/rent_projection.ts:161-213 | nor do higher rates, under the same condition |
| Rent.FeeOfSplitPeriod | src/core/rent_projection.ts:161-213 | the fee is subadditive in days, and splitting a period costs at most one ledger's rent and one stroop more; under a negative denominator the same turned round, to within a stroop |
| Rent.WindowsAgree | src/core/rent_projection.ts:224-241 | the 90-day window is at most the 30-day plus the 60-day one, within the same bound, and windows grow with days; under a negative denominator they fall with days and the sums turn round, to within a stroop |
| StateDiff.DiffMeaning | src/core/state_diff.ts:49-89 | a difference exists if and only if the values differ; it records both and each one's own hash, and its kind says which of them exist |
| StateDiff.StateStore.ProcessStateDiff | src/core/state_diff.ts:107-159 | one call against the tables: no writes if unchanged, else one snapshot and one change |
| StateDiff.StateStore.InsertStateSnapshot | src/db/repositories.ts:1414-1425 | appends a snapshot under a new id |
| StateDiff.LatestIsGreatest | src/db/repositories.ts:1427-1434 | the latest snapshot is the entry's greatest by ledger, then id |
| StateDiff.ObservationIsLatestIff | src/core/state_diff.ts:107-159 | after a call the observed value is the latest if and only if it was already, or the observation is not older than the latest snapshot |
| StateDiff.SnapshotsAreKept | src/core/state_diff.ts:113-134 | over every run with non-decreasing ledgers, an entry's snapshots are its observations without immediate repetitions, and consecutive ones differ |
| StateDiff.ChangesAreChained | src/core/state_diff.ts:136-152 | each change starts from the snapshot and value the previous one ended with; the first is "created", later ones "updated" |
| StateDiff.ReplayRebuildsLatest | src/core/state_diff.ts:136-152 | replaying the changes rebuilds the value observed last |
| StateDiff.SnapshotCount | src/core/state_diff.ts:120-152 | one snapshot and one change for the first observation and each change of value |
| StateDiff.EntriesAreIndependent | src/core/state_diff.ts:107-159 | runs that observe an entry alike log it alike, whatever other entries do |
| StateDiff.OlderLedgerRepeatsTheChange | src/core/state_diff.ts:107-159 | with a decreasing ledger the same change is logged twice and consecutive snapshots agree |
| BackupSchema.OrdersAreOpposite | src/db/backup.ts:9-48 | each table is exported once and cleared once, in opposite orders |
| BackupSchema.ParentsComeFirst | src/db/backup.ts:9-48 | a row's parents are inserted before it and cleared after it |
| BackupSchema.NotNullIsCovered | src/db/backup.ts:50-235 | every NOT NULL column is exported or has a default that is not null |
| BackupSchema.KeysAreListed | src/db/backup.ts:50-235 | every column of a primary or unique key is exported |
| BackupSchema.BackupCarriesTheSchema | src/db/backup.ts:50-235 | a backup carries every column of its tables' schema but the five unlisted ones |
| Backup.SelectTable | src/db/backup.ts:328-342 | reading in pages of 1000 returns the whole table, for every row count |
| Backup.NormalizeRow | src/db/backup.ts:356-362 | the listed columns, null for the missing ones, nothing else |
| Backup.DatabaseHandle.ExportDatabase | src/db/backup.ts:267-273 | the version and all rows of all exported tables |
| Backup.DatabaseHandle.ImportDatabase | src/db/backup.ts:287-326 | the transaction's result replaces the database, or nothing changes |
| Backup.LoadAll | src/db/backup.ts:305-322 | the loop over the tables stops at the first statement that fails |
| Backup.LoadTable | src/db/backup.ts:305-322 | the loop over the rows of one table |
| BackupTheorems.InsertKeepsIntegrity | src/db/backup.ts:319-321 | every insert keeps foreign keys satisfied |
| BackupTheorems.ClearingStep | src/db/backup.ts:300-302 | after i deletions the last i tables are empty and no other exported table lost or changed a row |
| BackupTheorems.ClearingKeepsIntegrity | src/db/backup.ts:29-48 | foreign keys hold after each deletion |
| BackupTheorems.ChildrenAreGoneFirst | src/db/backup.ts:29-48 | when a table is cleared, no exported table refers to it any more |
| BackupTheorems.MergeKeepsRows | src/db/backup.ts:299-321 | merging never alters or removes a row, whatever the backup |
| BackupTheorems.ImportKeepsIntegrity | src/db/backup.ts:287-326 | every import of any backup, in both modes, keeps foreign keys satisfied |
| BackupTheorems.FailureChangesNothing | src/db/backup.ts:287-326 | a failed import changes nothing; a backup is refused unread if and only if a table is missing or its version is not the database's, and the error names the first missing table, else the absent version, else the different one |
| BackupRoundTrip.RestoredUnchangedIff | src/db/backup.ts:356-362 | a row comes back unchanged if and only if its unlisted columns hold their defaults |
| BackupRoundTrip.PolicySettingsAreReset | src/db/backup.ts:91-100 | a policy's fee ceiling and predictive cycles do not survive |
| BackupRoundTrip.RestoreTable | src/db/backup.ts:305-322 | restoring a table accepts every exported row and keeps their order |
| BackupRoundTrip.RoundTrip | src/db/backup.ts:267-326 | replace-import of an export always succeeds; export then returns the same rows in the same order, with defaults in the unlisted columns; the tables outside the export are empty |
| BackupRoundTrip.RestoredTwice | src/db/backup.ts:356-362 | a second trip changes nothing more |
| BackupMerge.MergeTwiceIff | src/db/backup.ts:314-321 | merging a backup twice is merging it once if and only if each of its rows has a complete unique key or is malformed |
| BackupMerge.MergeOfOwnExport | src/db/backup.ts:314-321 | merging an export into its own database changes nothing |
| BackupMerge.ExportMergesOnce | src/db/backup.ts:314-321 | merging an export into another database twice is merging it once |
| BackupMerge.GroupWithoutIdIsNotSettled | src/db/backup.ts:356-362 | a row that a second merge duplicates |
| BackupImport.ImportIsLawful | src/db/backup.ts:287-326 | every import of any backup, in both modes, keeps every constraint: NOT NULL, CHECK, primary and unique keys, foreign keys, numeric ids, rowid order |
| BackupImport.ReplaceLoadsEveryRow | src/db/backup.ts:287-326 | a replace import that succeeds leaves exactly the backup's rows, as many as there are: one that violates a constraint fails it |
| BackupImport.MergeAccountsForEveryRow | src/db/backup.ts:314-321 | after a merge each row of the backup is there, unless it is malformed or one that shares a key with it is; no row is there that was not and is not the backup's |
| BackupImport.AttachedBackupMerges | src/db/backup.ts:314-321 | a merge passes over malformed and conflicting rows: it succeeds whenever the rows refer to rows that are there |
| BackupImport.IdsAreNotUsedAgain | src/db/backup.ts:300-321 | no import, in either mode, lets a table hand out an id it has had before |
| BackupImport.DeleteFollowsReferences | src/db/backup.ts:300-302 | deleting a table's rows takes along exactly the rows that a cascade reaches, clears the references that are set to null, and leaves the others as they are |

## Left out

- Alert channels (Slack, Discord, Teams, email, Telegram, PagerDuty, Opsgenie, SNS): sending is a step that succeeds or fails.
- Stellar RPC, XDR, footprint discovery, key resolution, Vault: their answers are free choices of a step.
- CLI, MCP transport, metrics, logging, Pulumi, presets, digests: user interface and plumbing.
- The daemon's timer and re-entrance flag: the model takes one monitoring cycle and one dispatcher at a time.
- Live schema migrations: SQL text manipulation.
- Engine: the interleaved run is a step system on values, since the source's concurrency lies in the awaits; the pool it uses is also modelled as a class, and the budget statements as methods on a table.
- Engine: tasks run on a fixed list of eligible contracts; the fee ceiling and a contract's own budget are outcomes of the simulation step, and the contract's own `budgets` row is not tracked.
- Engine: the low-balance and budget alerts sent on the way do not touch the modelled state.
- `extendEntries` beyond its outcome and the fee finally paid (submission, receipts, anomaly detection); manual extension, which the rate limit does not cover.
- Selection: stored timestamps are whole seconds of the clock; their text format and parsing are not modelled, nor is a day boundary inside the cooldown.
- Selection: pruning of TTL samples to ten; the theorems hold for every list of samples.
- Floating-point rounding, in all arithmetic.
- Rent: the inputs repeated in the result of `projectRentWindows`.
- Rent: a rent-rate denominator of 0, for which the source's division gives Infinity.
- TokenFormat: a negative number of decimals, which BigInt's power rejects.
- Dispatcher: quiet-hours strings that are not `HH:MM`; the time zone conversion that yields the current `HH:MM`; a database error after a successful send; rows that go with a deleted contract, config or entry between two cycles.
- StateDiff: the JSON text of a change; the model keeps the fields it is made of.
- Backup: SQLite's type conversions; the counter of AUTOINCREMENT after an ignored insert.
- Backup: a delete's effect on the five tables outside the export is that their rows go with their parents; their columns are not modelled.
- Backup.DatabaseHandle.ImportDatabase: does not model better-sqlite3's refusal to bind values that are not SQL values.
