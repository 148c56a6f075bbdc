# Verified models of the platform's stateful cores

This project models the parts of the repository whose correctness depends on state that many calls
share: the dashboard's log pipeline, the hosted (Railway) watchdog, the URL shortener's redirect
cache, its two abuse controls, and three smaller loops (the Compose watchdog, the load-test runner
and the process-environment reader).  Main results are statements over every input, every run or
every interleaving; `dafny verify dfyconfig.toml` checks all of them.

How the models are built:

- Code that mutates an object is a class with the same fields, and each method is proved equal to a
  step function on values.  Those functions are then the alphabet of runs, and the results are about
  runs.  A locked section or an atomic server-side operation is one step; where the source awaits or
  releases a lock in the middle of an operation, the operation is several steps and other steps may
  come in between (`HeartbeatLifecycle`, `OverlappingTicks`, `FlushProtocol`, `RedirectStaleness`, `LoadTest`).
- What the step functions themselves are worth is settled by laws that do not use them: they tell the state from
  the history of calls and answers, or an answer from its inputs, in the source's own numbers (`LifecycleHistory`,
  `RecordHistory`, `MissesUnderOverlap`, `AutoHistory`, `ReportMeaning`, `FilterMeaning`, `UrlEffects`, `LinkHistory`,
  and the lemmas named `...Means`, `...IsHistory` and `...Iff` elsewhere).
- Everything the environment decides is an input of the step: the answer of a deploy call or ping,
  whether Redis or the database answers, clock readings, random short codes.
- Settings read from the environment are fixed for a run.  Time is an integer (microseconds,
  milliseconds or seconds, as in the source), or a real in `LoadTest`; rates are exact.

The modules, core by core:

| core | modules |
|---|---|
| log cache, flush, merge | `LogEntries`, `LogCache`, `FlushProtocol`, `FlushOrder`, `NewestFirst`, `FirstOccurrences`, `MergeLogs` |
| log filters, in Python and in SQL | `AsciiText`, `LogFilters`, `FilterMeaning`, `SqlFilters` |
| per-minute error buckets, from memory and from the database | `MinuteBuckets`, `BucketOrder`, `ErrorBuckets`, `DbBuckets`, `ReportMeaning`, `DayWindow`, `DbInsights` |
| hosted watchdog | `HeartbeatLifecycle`, `LifecycleHistory`, `RailwayStatus`, `WatchdogTick`, `RecordHistory`, `WatchdogDiscipline`, `ExitedDeployment`, `OverlappingTicks`, `WatchdogRuns`, `ExitedUnderOverlap`, `MissesUnderOverlap`, `AutoPacing`, `AutoHistory`, `RecoveryPacing`, `RecoveryAccounts`, `RecoveryBudget`, `BudgetSafety`, `OverlapFailures` |
| redirect cache | `UrlTable`, `RedirectCache`, `UrlEffects`, `LinkHistory`, `RedirectStaleness` |
| abuse control | `IpBan`, `RateLimit` |
| smaller loops | `ComposeWatchdog`, `Percentile`, `LoadTest`, `EnvBlock` |
| shared | `Wrappers`, `Products`, `MapSums`, `Counting` |

## Where the code differs from what is said about it

- The escalation announced at the top of `url-shortener/app/ip_ban.py` (lines 4-9) is not what the
  code does: strikes are reset after every hour ban, so bans alternate with warnings and the permanent
  ban is the eighth counted violation.  `IpBan.DocumentedProgressionIff` says where the two coincide,
  `IpBan.ThirdViolationOnlyWarns` is the first departure.
- "Status-code counts sum to the request count" is false once one entry's status cannot be read as an
  integer: `_update_stats` counts the request before `int()` raises.  `LogCache.StatusCodesSumToRequests`
  gives the exact condition, `LogCache.UnreadableStatusHasNoCode` the input.
- With a window of 1440 minutes, the longest the API accepts, the first and last minute share a bucket
  key.  The two paths give the same answer if and only if the first minute has no HTTP entry and the last
  has one (`DayWindow.PathsAgreeIff`): with entries in both, memory adds them and the database path keeps
  the later row; with none in the last, the database path's list is memory's rotated by one place, so
  even the empty log is answered differently (`DayWindow.EmptyLogDiffers`) and the current rate can be 100
  from one and 0 from the other (`DayWindow.CurrentRateDiffers`).
- A search text with `%`, `_` or a backslash, or a level padded with something other than blanks,
  selects different entries in SQL and in memory: `SqlFilters.FiltersAgreeIffPortable`.
- Two overlapping flushes (the timer and the forced one) can store entries out of ingestion order
  (`FlushProtocol.OverlappingFlushesReorder`); nothing is lost or duplicated.  Order is kept while the
  batches under way commute (`FlushOrder.CommutingFlightsKeepOrder`) and can be lost as soon as two do
  not (`FlushOrder.NonCommutingFlightsCanReorder`).
- The recovery cooldowns and the recovery budget assume that ticks do not overlap.  The worker ensures
  that (`watchdog-service/src/server.ts`, lines 31-51); the dashboard runs a tick on shared state for
  every request (`dashboard/src/lib/railway-watchdog.ts`, lines 26-28).  A redeploy still keeps its
  distance from every accepted one that was answered when it began; two accepted ones are a cooldown
  apart if and only if neither was accepted while the other was already awaited
  (`RecoveryPacing.RecoveriesSpacedIff`, `AutoPacing.AutoSpacedIff`).  The budget of a deployment holds whatever
  the answers if and only if each redeploy began while those booked and those awaited left room for it
  (`BudgetSafety.BudgetSafeIff`); the code looks at the bookings of one record alone.  `OverlapFailures` has the
  two runs that break both.  The bound on exit redeploys holds for every overlap.
- One lost Redis deletion can make the cache visible: a client can tell the server from one without a cache
  exactly if a lost deletion was of a live entry whose row then shows something else
  (`RedirectCache.UndetectedIff`; `RedirectCache.LostDeleteIsSeen` is such a run), and a slow reader alone makes it
  stale (`RedirectStaleness.StalenessBoundIsSharp`).
- While Redis is unreachable the rate limiter ignores the stored configuration, even a disabled one,
  and answers the first default tier (`RateLimit.Limiter.GetCurrentRateLimit`).
- An exited service is shown as online again whenever its probe is skipped or inconclusive
  (`HeartbeatLifecycle.ShownExitedIff`), although the lifecycle still holds it exited.
- The exit-redeploy flag is read before the deployment id is synchronised
  (`dashboard/src/lib/watchdog-core/railway-watchdog-tick.ts`, lines 277-286 and 445), so a redeploy can be
  issued for another deployment than the one that exited (`ExitedDeployment.RedeployMissesExited`).  It is
  for the one that exited if and only if the row shows the deployment id last synchronised
  (`ExitedDeployment.RedeployHitsExitedIff`).  When ticks overlap that fails for a flag which a refused call
  put back after another deployment had been synchronised, and for no other
  (`ExitedUnderOverlap.PendingIsAtExitedIff`; `ExitedUnderOverlap.OverlapMissesExited` is such a run).
- A variable named `__proto__` is lost from the environment block: assigning a string to that name on a
  plain object stores nothing (`EnvBlock.EnvironRoundTrip`, `EnvBlock.ProtoIsLost`).

## Model

| member | source | states |
|---|---|---|
| HeartbeatLifecycle.HeartbeatExitState.SyncDeploymentId | dashboard/src/lib/watchdog-core/heartbeat-lifecycle.ts:47-59 | A new deployment id forgets the failures, the exited mark and the pending redeploy of the service; the same id changes nothing. |
| HeartbeatLifecycle.HeartbeatExitState.EffectiveStatusAfterProbe | dashboard/src/lib/watchdog-core/heartbeat-lifecycle.ts:65-110 | The whole new state and the status shown after a probe: not online, skipped or inconclusive, passed, failed below and at the threshold. |
| HeartbeatLifecycle.HeartbeatExitState.PeekRedeem | dashboard/src/lib/watchdog-core/heartbeat-lifecycle.ts:113-118 | Tells whether a redeploy is pending and changes nothing. |
| HeartbeatLifecycle.HeartbeatExitState.ClearRedeemFlag | dashboard/src/lib/watchdog-core/heartbeat-lifecycle.ts:120-125 | Drops the pending redeploy of one service and nothing else. |
| HeartbeatLifecycle.HeartbeatExitState.ClearForService | dashboard/src/lib/watchdog-core/heartbeat-lifecycle.ts:128-135 | Forgets everything about a service but its deployment id. |
| HeartbeatLifecycle.HeartbeatExitState.RequeueRedeem | dashboard/src/lib/watchdog-core/heartbeat-lifecycle.ts:138-143 | Puts the pending redeploy back after a failed deploy call. |
| HeartbeatLifecycle.ProbeElsewhere | dashboard/src/lib/watchdog-core/heartbeat-lifecycle.ts:65-110 | A probe of one service leaves failures, exited mark and pending flag of every other service alone. |
| HeartbeatLifecycle.ExitedIffThreshold | dashboard/src/lib/watchdog-core/heartbeat-lifecycle.ts:82-107 | In every run a service is exited exactly while its consecutive failures are at or above the threshold. |
| HeartbeatLifecycle.ShownExitedIff | dashboard/src/lib/watchdog-core/heartbeat-lifecycle.ts:65-110 | After any run a probe is shown as exited exactly when the service is then exited and the probe itself failed; an exited service is online for the platform and has not just answered. |
| HeartbeatLifecycle.ExitsArePaidFor | dashboard/src/lib/watchdog-core/heartbeat-lifecycle.ts:47-110 | Potential argument over every run: threshold times the scheduled exits, plus the failures saved up, is at most the failed probes fed in, whatever resets come between. |
| HeartbeatLifecycle.RedeploysWereScheduled | dashboard/src/lib/watchdog-core/heartbeat-lifecycle.ts:97-143 | Accepted, unanswered and pending redeploys together never exceed the scheduled first exits, through failed deploys and requeues and with other calls between a deploy call and its answer. |
| HeartbeatLifecycle.ExitRedeployBound | dashboard/src/lib/watchdog-core/heartbeat-lifecycle.ts:47-143 | Amortised bound: threshold times (accepted + unanswered + pending redeploys) of a service is at most its failed probes. |
| HeartbeatLifecycle.BoundIsSharp | dashboard/src/lib/watchdog-core/heartbeat-lifecycle.ts:47-143 | For every threshold and every k there is a run with k accepted redeploys for exactly threshold times k failed probes. |
| LifecycleHistory.LifecycleIsHistory | dashboard/src/lib/watchdog-core/heartbeat-lifecycle.ts:47-143 | In every run, told from the calls alone: the stored failures are the failed probes since the last call that resets them, the service is exited exactly while they reach the threshold, and a redeploy is pending exactly if one was scheduled or put back since the last taking of the flag, accepted deploy, new deployment id or answered probe; so none is pending right after an answered probe. |
| LifecycleHistory.ShownIsHistory | dashboard/src/lib/watchdog-core/heartbeat-lifecycle.ts:65-110 | After any run a probe is shown as exited exactly if it failed and with it the failed probes in a row reach the threshold; otherwise the platform's label is shown. |
| WatchdogTick.Watchdog.ExitRedeploy | dashboard/src/lib/watchdog-core/railway-watchdog-tick.ts:277-319 | When the pending exit redeploy is attempted, what an accepted and what a refused call leave behind. |
| WatchdogTick.Watchdog.HandleMiss | dashboard/src/lib/watchdog-core/railway-watchdog-tick.ts:354-434 | A failed ping's effect on the miss counter, the budget, the two log-once marks and the recovery time, and whether it redeploys. |
| WatchdogTick.Watchdog.ProbeHeartbeat | dashboard/src/lib/watchdog-core/railway-watchdog-tick.ts:321-474 | The heartbeat phase of a row, including the record shared with the map and the records of unprobed services. |
| WatchdogTick.Watchdog.AutoRecover | dashboard/src/lib/watchdog-core/railway-watchdog-tick.ts:476-520 | A healthy row clears the cooldown; a crashed one is redeployed unless the last accepted redeploy is less than 50 000 ms old. |
| WatchdogTick.Watchdog.ProcessRow | dashboard/src/lib/watchdog-core/railway-watchdog-tick.ts:269-596 | The three phases in order, then the row is remembered. |
| WatchdogTick.Watchdog.RunTick | dashboard/src/lib/watchdog-core/railway-watchdog-tick.ts:223-607 | A tick is its rows in order followed by pruning; a failed listing changes nothing. |
| WatchdogTick.Pruned | dashboard/src/lib/watchdog-core/railway-watchdog-tick.ts:598-607 | Deleting unlisted keys one by one leaves exactly the listed entries, unchanged. |
| RecordHistory.RecordIsHistory | dashboard/src/lib/watchdog-core/railway-watchdog-tick.ts:321-434 | After any ticks, told from their rows alone: for which deployment a service has a heartbeat record, its failed pings since the last answered ping, accepted recovery, unhealthy miss or new record, and its recoveries. |
| RecordHistory.TimesAreHistory | dashboard/src/lib/watchdog-core/railway-watchdog-tick.ts:598-607 | After any ticks the recovery times and the remembered rows are those of the history since the service was last missing from the listing. |
| RecordHistory.MarksAreHistory | dashboard/src/lib/watchdog-core/railway-watchdog-tick.ts:371-434 | After any ticks the two log-once marks of a record say whether a due redeploy has waited for the cooldown, or found the budget used up, since they were last cleared. |
| RecordHistory.HeartbeatRedeployIff | dashboard/src/lib/watchdog-core/railway-watchdog-tick.ts:354-390 | After any ticks the next row makes a heartbeat redeploy if and only if its ping fails in the open recovery path, with it the misses counted from the history reach the threshold, fewer recoveries than the maximum are counted, and the last is a cooldown old. |
| WatchdogRuns.TicksRefineLifecycle | dashboard/src/lib/watchdog-core/railway-watchdog-tick.ts:223-607 | Every run of ticks, however their rows overlap at the awaited calls, is a run of the lifecycle's step system with the same state, the same open deploy calls, accepted redeploys and failed probes. |
| WatchdogRuns.WatchdogExitBound | dashboard/src/lib/watchdog-core/railway-watchdog-tick.ts:277-319 | The amortised bound for every run, overlapping or not: threshold times (accepted + awaited + pending exit redeploys) is at most the failed pings of the service while labelled online. |
| LifecycleHistory.ExitRedeployIff | dashboard/src/lib/watchdog-core/railway-watchdog-tick.ts:277-319 | After any run of ticks, however they overlap, a row issues an exit redeploy if and only if the switches are on, its deployment is healthy and has an id, and by the calls made so far a redeploy is pending. |
| OverlappingTicks.RowFinishesView | dashboard/src/lib/watchdog-core/railway-watchdog-tick.ts:269-596 | The pieces of a row between its awaits, run without interruption, reach the state and have the effects of the sequential row, although records are shared objects. |
| OverlappingTicks.TicksAreInterleavings | watchdog-service/src/server.ts:31-51 | Every state that ticks run one after the other reach is reached, with the same effects in the same order, by an interleaving in which a row is entered only while no tick is inside one. |
| MissesUnderOverlap.RecordCounts | dashboard/src/lib/watchdog-core/railway-watchdog-tick.ts:321-434 | Over every run of ticks, however they overlap, each record object holds the failed pings since its last reset and its accepted recoveries, as counted from the moves. |
| MissesUnderOverlap.RecoveryBeginsIff | dashboard/src/lib/watchdog-core/railway-watchdog-tick.ts:354-390 | After any such run a row whose ping is answered begins a heartbeat redeploy if and only if the ping failed in the open path, those counts reach the threshold and leave budget, and the cooldown since the last accepted one is over. |
| AutoPacing.AutoRecoverPacing | dashboard/src/lib/watchdog-core/railway-watchdog-tick.ts:476-520 | Whatever ticks overlap, in any part of any run, an auto-recover redeploy begins at least 50 000 ms after every accepted one that was answered by then and since when the service was not seen healthy. |
| AutoPacing.AutoSpacedIff | dashboard/src/lib/watchdog-core/railway-watchdog-tick.ts:476-520 | With a clock that does not go back, accepted auto-recover redeploys with no healthy sighting in between begin 50 000 ms after one another if and only if none was accepted while a later accepted one was already awaited. |
| AutoHistory.EnteredAutoIff | dashboard/src/lib/watchdog-core/railway-watchdog-tick.ts:476-520 | After any run of ticks, however they overlap, a row entered begins an auto-recover redeploy if and only if it gets that far, auto-recovery is on, the status is CRASHED or FAILED, and the last accepted one since the last healthy sighting, if any, is 50 000 ms old. |
| AutoHistory.ResumedAutoIff | dashboard/src/lib/watchdog-core/railway-watchdog-tick.ts:476-520 | The same for a row that goes on after an await. |
| RecoveryPacing.HeartbeatBeginsCooledDown | dashboard/src/lib/watchdog-core/railway-watchdog-tick.ts:366-390 | Whatever ticks overlap, in any part of a run that lists the service throughout, a heartbeat redeploy begins at least the cooldown after the last accepted one that was answered by then. |
| RecoveryPacing.RecoveriesSpacedIff | dashboard/src/lib/watchdog-core/railway-watchdog-tick.ts:366-390 | In any such part, with a clock that does not go back and a positive cooldown, accepted heartbeat redeploys are a cooldown apart if and only if none was accepted while a later accepted one was already awaited. |
| RecoveryPacing.PacingOfPart | dashboard/src/lib/watchdog-core/railway-watchdog-tick.ts:366-390 | The same equivalence for what any later part of a run from the start of the process adds to the log, whatever happened before. |
| RecoveryPacing.HeartbeatRecoveryPacing | dashboard/src/lib/watchdog-core/railway-watchdog-tick.ts:366-390 | In a part of a run that lists the service throughout and accepts no heartbeat redeploy of it while a later accepted one is awaited, k accepted ones span at least (k - 1) cooldowns. |
| RecoveryAccounts.RecoveriesAreBooked | dashboard/src/lib/watchdog-core/railway-watchdog-tick.ts:321-386 | For every overlap, in any part of any run: what is booked on the record objects of a service, or of one of its deployments, grows by exactly the heartbeat redeploys accepted. |
| RecoveryBudget.HeartbeatRecoveryBudget | dashboard/src/lib/watchdog-core/railway-watchdog-tick.ts:321-386 | In any part of a run in which the service's rows show one deployment id, are probed and listed, and are entered by one tick at a time: accepted heartbeat redeploys and those booked on the record before are together at most the maximum, or none is accepted. |
| RecoveryBudget.BudgetOfPart | dashboard/src/lib/watchdog-core/railway-watchdog-tick.ts:321-386 | The same for what a later part of a run from the start of the process adds. |
| RecoveryBudget.EveryRecordHasItsBudget | dashboard/src/lib/watchdog-core/railway-watchdog-tick.ts:321-386 | Over a whole run with the row entered by one tick at a time, whatever ids it shows and however it is listed or probed: no record has more than the maximum booked, so accepted heartbeat redeploys are at most the maximum times the records made. |
| RecoveryBudget.SequentialTicksQualify | watchdog-service/src/server.ts:31-51 | Ticks that run one after the other enter every row one at a time and accept no redeploy while another is awaited. |
| BudgetSafety.SafeIff | dashboard/src/lib/watchdog-core/railway-watchdog-tick.ts:366-386 | At any moment of any run: a deployment's budget holds whatever the answers to the redeploys awaited if and only if booked plus awaited is at most the maximum. |
| BudgetSafety.BudgetSafeIff | dashboard/src/lib/watchdog-core/railway-watchdog-tick.ts:366-386 | For every run, however ticks overlap: a deployment's budget is safe throughout, whatever the answers, if and only if each of its redeploys began while booked plus awaited was below the maximum; then at most the maximum is accepted. |
| OverlapFailures.OverlapDefeatsAutoCooldown | dashboard/src/lib/railway-watchdog.ts:26-28 | Two overlapping ticks on a crashed service: two auto-recover redeploys that began at the same moment are both accepted. |
| OverlapFailures.OverlapDefeatsRecoveryLimits | dashboard/src/lib/railway-watchdog.ts:26-28 | Two overlapping ticks on a silent service: two heartbeat redeploys that began at the same moment are both accepted, whatever the cooldown and with a budget of one. |
| ExitedDeployment.RedeployHitsExitedIff | dashboard/src/lib/watchdog-core/railway-watchdog-tick.ts:277-286 | After any run of ticks, an exit redeploy the next row issues is for the deployment that exited if and only if the row shows the deployment id last synchronised. |
| ExitedDeployment.RedeployMissesExited | dashboard/src/lib/watchdog-core/railway-watchdog-tick.ts:277-319 | A run in which one deployment exits and the redeploy is issued and accepted for a row that shows another. |
| ExitedUnderOverlap.PendingIsAtExitedIff | dashboard/src/lib/watchdog-core/heartbeat-lifecycle.ts:47-143 | In every run of the lifecycle's calls, while a redeploy is pending the id synchronised last is that of the deployment that exited, unless a refused call put the flag back when it was not and nothing was scheduled since; then it is not. |
| ExitedUnderOverlap.RedeployHitsExitedIff | dashboard/src/lib/watchdog-core/railway-watchdog-tick.ts:277-319 | After any run of overlapping ticks, an exit redeploy about to be issued is for the deployment that exited if and only if the row shows the id synchronised last, except for a flag put back astray, with which a row that shows that id is of another deployment. |
| ExitedUnderOverlap.OverlapMissesExited | dashboard/src/lib/watchdog-core/railway-watchdog-tick.ts:277-319 | A run of three overlapping ticks after which a row shows the id synchronised last, has an exit redeploy due, and is not of the deployment that exited. |
| WatchdogDiscipline.RowDeploysOnce | dashboard/src/lib/watchdog-core/railway-watchdog-tick.ts:277-520 | Across the three redeploy paths one row makes at most one deploy call, and only in a healthy or crashed state. |
| RailwayStatus.LabelsAgreeWithWatchdog | dashboard/src/lib/watchdog-core/railway-watchdog-tick.ts:130-149 | Labels against the watchdog's own predicates: online is a healthy active deployment, failed one that auto-recover redeploys, and what the watchdog counts as deploying is labelled so. |
| RailwayStatus.LabelsStandFor | dashboard/src/lib/watchdog-core/railway-visibility.ts:130-167 | Exactly which statuses get which label; deploying covers three more than the watchdog counts. |
| WatchdogDiscipline.RedeploysFitLabels | dashboard/src/lib/watchdog-core/railway-visibility.ts:130-167 | A row filled in by the listing is redeployed by the exit and heartbeat paths only while labelled online and by auto-recover only while labelled failed, and its ping schedules an exit redeploy only for a healthy status. |
| WatchdogDiscipline.TickDiscipline | dashboard/src/lib/watchdog-core/railway-watchdog-tick.ts:269-607 | Per tick over distinct services: at most one deploy attempt each, only when healthy or crashed, an exit redeploy only if it was pending before the tick; afterwards the remembered rows are exactly the listed services. |
| SqlFilters.BuildConditions | dashboard/backend/db.py:627-645 | The emitted conditions, joined by AND and evaluated in three-valued logic, select exactly the rows each given filter selects. |
| SqlFilters.WhereIsTrueIff | dashboard/backend/db.py:645-645 | The three-valued conjunction is true exactly when no condition is false or unknown. |
| SqlFilters.StatusFiltersAgree | dashboard/backend/log_filters.py:47-98 | For every filter text and every integer or NULL status the SQL condition accepts a row exactly when the Python predicate accepts the entry, and both exist for the same texts. |
| SqlFilters.LikeSearchAgreesIffPlain | dashboard/backend/db.py:635-640 | A LIKE pattern made from a search text means "contains it" on every string if and only if the text has no `%`, `_` or backslash. |
| SqlFilters.FiltersAgree | dashboard/backend/log_filters.py:18-44 | For portable filters the whole WHERE clause and `entry_matches_filters` accept the same comparable entries. |
| SqlFilters.UnportableFiltersDiffer | dashboard/backend/db.py:627-645 | For every filter that is not portable, an entry on which the two paths disagree. |
| SqlFilters.FiltersAgreeIffPortable | dashboard/backend/log_filters.py:18-98 | The two paths agree on all comparable entries if and only if the filter is portable. |
| FilterMeaning.FiltersMean | dashboard/backend/log_filters.py:18-44 | An entry passes exactly if its level equals the stripped filter but for case, its instance is the one named, the stripped search text occurs in message, logger or path but for case, and its status is accepted; an absent or empty filter accepts all. |
| FilterMeaning.StatusFilterMeans | dashboard/backend/log_filters.py:47-79 | The classes are 200-299 to 500-599, a comma list accepts any of its numerals, a numeral its decimal value, and a text that is none of these, or a list without numerals, accepts everything. |
| FilterMeaning.CaseMeans | dashboard/backend/log_filters.py:26-51 | Two texts are equal in lower, or in upper, case exactly if they have the same letters. |
| FilterMeaning.CaseIs | dashboard/backend/log_filters.py:26-51 | Lower case keeps the letters and has no capitals, upper case keeps them and has no small ones. |
| FilterMeaning.StripMeans | dashboard/backend/log_filters.py:34-51 | Stripping gives the text that stands between whitespace. |
| FilterMeaning.SplitMeans | dashboard/backend/log_filters.py:61-64 | Splitting at commas gives back the pieces that were joined. |
| FilterMeaning.ToIntMeans | dashboard/backend/log_filters.py:62-73 | A numeral is read as the sum of its digits weighted by powers of ten. |
| LogCache.Cache.Add | dashboard/backend/cache.py:75-81 | One ingested entry: ring buffer, queue, total and counters, also when its status or duration cannot be read. |
| LogCache.Cache.UpdateStats | dashboard/backend/cache.py:83-100 | The counters after one entry, with the partial update that a raising status or a raising duration leaves. |
| LogCache.Cache.GetLogs | dashboard/backend/cache.py:102-128 | Going back from the newest entry, those that match the filters, at most `limit`. |
| LogCache.Cache.Clear | dashboard/backend/cache.py:385-391 | Everything is empty again. |
| LogCache.Cache.GrabPending | dashboard/backend/cache.py:154-157 | Takes the whole queue and leaves it empty. |
| LogCache.Cache.RestorePending | dashboard/backend/cache.py:161-164 | Puts a batch back in front of what arrived meanwhile. |
| LogCache.CacheIsFunctionOfHistory | dashboard/backend/cache.py:75-100 | After any operations the buffer is the last `max_entries` entries since the last clear, the total is their number, and every counter of every instance is the count of the entries it describes: requests with a status field, statuses of 400 and above, each code, each level, and the durations beside a readable status. |
| LogCache.StatusCodesSumToRequests | dashboard/backend/cache.py:83-100 | Status-code counts plus unreadable statuses equal the request count, so they sum to it iff there were none; errors never exceed requests; level counts are the entries of the instance. |
| LogCache.UnreadableStatusHasNoCode | dashboard/backend/cache.py:83-100 | One entry with an unreadable status: one request, and status-code counts that sum to 0. |
| LogCache.LevelsSumToIngested | dashboard/backend/cache.py:75-91 | Level counts over all instances sum to everything ingested since the last clear. |
| FlushProtocol.LogTable.FlushLogs | dashboard/backend/db.py:310-353 | All rows are inserted or none, and the count says which. |
| FlushProtocol.FlushToDb | dashboard/backend/cache.py:149-164 | A flush with nothing else running moves the queue to the table or leaves both as they were. |
| FlushProtocol.FlushConserves | dashboard/backend/cache.py:149-164 | Under any interleaving of ingestion, clears and any number of flushes: ingested = stored + in flight + pending + cleared, as multisets. |
| FlushProtocol.OneFlusherKeepsOrder | dashboard/backend/cache.py:149-164 | With one flusher at a time and no clear, table, batch and queue concatenate to the ingestion order, retries included. |
| FlushOrder.CommutingFlightsKeepOrder | dashboard/backend/cache.py:149-164 | While the batches under way commute, the stored rows are ingested rows in ingestion order through clears and retries, and without clears a prefix of everything ingested. |
| FlushOrder.NonCommutingFlightsCanReorder | dashboard/backend/cache.py:149-164 | From any reachable state with two batches under way that do not commute, failed or not, some continuation without clears stores rows that are not a prefix of what was ingested. |
| FlushProtocol.OverlappingFlushesReorder | dashboard/backend/cache.py:149-164 | Two overlapping flushes can store entries in reverse order. |
| MergeLogs.MergeLogs | dashboard/backend/main.py:78-99 | The loop returns the first `limit` distinct-key entries of the stable newest-first order of memory followed by database rows, which is a merge in the sense of `MergeMeans`. |
| MergeLogs.MergeSpecification | dashboard/backend/main.py:78-99 | Returned entries come from the sources, keys are unique, times do not increase, the limit holds (never below one). |
| MergeLogs.MemoryWins | dashboard/backend/main.py:78-99 | An entry with a memory copy of the same key and time is returned as the first such memory copy. |
| MergeLogs.OmittedAreOlder | dashboard/backend/main.py:78-99 | An omitted entry has its key in the result, or the result is full of entries at least as new. |
| MergeLogs.MergeMeans | dashboard/backend/main.py:68-99 | In terms of the fields: no two entries agree in time, message, instance and logger; none is newer than the one before it; at most `limit` (never below one); all come from the sources, from memory where it has a copy as new; and every entry left out has a copy that is as new, or the list is full of entries as new. |
| FirstOccurrences.SurvivorIsFirst | dashboard/backend/main.py:90-96 | What deduplication keeps is the first element of its key, and that key was not seen before. |
| FirstOccurrences.FirstSurvives | dashboard/backend/main.py:90-96 | Deduplication keeps the first element of every new key. |
| NewestFirst.SortIsStable | dashboard/backend/main.py:87-88 | Entries with equal sort keys keep their relative order. |
| NewestFirst.AtMostIsDictionary | dashboard/backend/main.py:87-88 | The order of the sort keys is the dictionary order: a prefix, or smaller at the first difference. |
| MinuteBuckets.BreakdownSums | dashboard/backend/cache.py:254-260 | A bucket's errors are what its status breakdown adds up to. |
| MinuteBuckets.BreakdownCounts | dashboard/backend/cache.py:254-260 | The breakdown has exactly the error codes that occurred, each with its number of entries. |
| MinuteBuckets.BucketsConserve | dashboard/backend/cache.py:212-279 | For every window and any entries, bucket totals sum to the eligible entries whose minute of day is covered, bucket errors to the error entries among them. |
| MinuteBuckets.WindowConserves | dashboard/backend/cache.py:212-279 | With no entry dated after now, every HTTP entry of the window is counted in exactly one bucket. |
| MinuteBuckets.SlotHoldsItsMinute | dashboard/backend/cache.py:218-252 | For windows below a day an entry lands in slot i exactly when minute i is its own minute. |
| BucketOrder.SortByTimestamp | dashboard/backend/cache.py:266 | The sorted list holds exactly the map's buckets, strictly by time. |
| BucketOrder.SortingIsUnique | dashboard/backend/cache.py:266 | Two strictly sorted lists with the same elements are equal, so the two paths may be compared element by element. |
| ErrorBuckets.EmptyBuckets | dashboard/backend/cache.py:219-230 | The empty map has the key of every slot, a repeated key holding its latest slot. |
| ErrorBuckets.FillBuckets | dashboard/backend/cache.py:234-260 | One pass gives every slot its counts and breakdown and collects the error entries in order; it raises exactly when a counted entry's status is not a number. |
| ErrorBuckets.WindowBuckets | dashboard/backend/cache.py:322-361 | The rated and sorted map is the list of the window's slots, oldest first: min(window + 1, 1440) of them. |
| ErrorBuckets.GetErrorBuckets | dashboard/backend/cache.py:202-290 | The whole in-memory answer as a function of the log, and when there is none; its summary has the sums of the buckets, the largest error count of one bucket and the percentage over the last five, and its log the newest error entries. |
| ErrorBuckets.GetLogInsights | dashboard/backend/cache.py:292-383 | The filtered variant: buckets over the matching entries, the newest of these, and a summary as above. |
| ErrorBuckets.ReportAddsUp | dashboard/backend/cache.py:262-290 | Total errors are the length of the error log before the limit, total requests the covered (with no future dates: all eligible) entries, and each bucket's errors its breakdown's sum. |
| ReportMeaning.ErrorAnswerMeans | dashboard/backend/cache.py:202-290 | In plain counts, for every log and window: no answer exactly if a status in the window is no number; otherwise one bucket a minute up to now, each with the requests, failures, percentage and codes of its minute of day; the log shows failed requests of the window; and with no future dates the totals are the requests and failures since it began. |
| ReportMeaning.ErrorLogMeans | dashboard/backend/cache.py:254-264 | The error log holds each failed request of the window as often as it was logged. |
| ReportMeaning.InsightsAnswerMeans | dashboard/backend/cache.py:292-383 | The same of the filtered report and the entries the filters accept. |
| DbBuckets.QueryErrorBuckets | dashboard/backend/db.py:356-415 | The rows of the two queries folded into a map, later rows replacing earlier ones of the same key, every bucket's time belonging to its key. |
| DbBuckets.GetErrors | dashboard/backend/main.py:390-446 | Gap filling, sorting and summary of the queried map; the summary has the sums of the buckets, the largest error count of one bucket and the percentage over the last five. |
| DbBuckets.DbBucketsAreSlots | dashboard/backend/main.py:404-423 | Sorting the mixed whole-minute and offset times yields the window's slots in order, below a day and, from the slot the shared key falls to, over a whole day; a minute with requests is dated at its beginning, one without at its slot's moment. |
| DbBuckets.DatabaseAgreesWithMemory | dashboard/backend/main.py:404-434 | For every window below a day and every log without future dates that a table can hold, the in-memory path does not raise, and the two paths give the same minutes, totals, errors, rates and breakdowns in the same order, and the same summary. |
| DayWindow.PathsAgreeIff | dashboard/backend/main.py:390-446 | For every window the API accepts and entries that a table can hold, the in-memory path answers with the same buckets and summary if and only if the window is below a day, or its first minute has no HTTP entry and its last has one. |
| DayWindow.ListIsRotated | dashboard/backend/main.py:410-423 | With no entry in the last minute of a day-long window the database path's list is memory's with its last bucket first, which is not the same list. |
| DayWindow.BothMinutesDiffer | dashboard/backend/db.py:382-394 | With entries in both minutes the bucket of the shared key has different totals. |
| DayWindow.EmptyLogDiffers | dashboard/backend/main.py:407-423 | The empty log is answered differently over a day. |
| DayWindow.CurrentRateDiffers | dashboard/backend/main.py:429-434 | One error in the sixth minute from the end of a day: current rate 100 from the database, 0 from memory. |
| DbInsights.InsightsAgreeIff | dashboard/backend/db.py:440-530 | For portable filters and comparable entries, the filtered buckets and summary of the two paths agree under the same condition on the selected entries. |
| UrlTable.CodesStayUnique | url-shortener/app/routes/urls.py:84-98 | No request gives two rows the same short code. |
| RedirectCache.Server.GenerateShortCode | url-shortener/app/routes/urls.py:39-44 | The first drawn code that no row uses. |
| RedirectCache.Server.CreateShortUrl | url-shortener/app/routes/urls.py:49-107 | Every check in order, the stored row, its event and its cache entry. |
| RedirectCache.Server.UpdateUrl | url-shortener/app/routes/urls.py:162-209 | The changed row, its event and the invalidation, with the error cases; field by field in `UrlEffects.UpdateMeans`. |
| RedirectCache.Server.DeleteUrl | url-shortener/app/routes/urls.py:212-238 | Deactivation, its event and the invalidation. |
| RedirectCache.Server.RedirectToUrl | url-shortener/app/routes/urls.py:267-302 | The cached and the uncached branch, their answers, click events and what is cached. |
| RedirectCache.RequestIsInvisible | url-shortener/app/routes/urls.py:84-302 | While live cache entries show what their rows show, each request gives the answer and tables of the server without a cache, and they still do afterwards if and only if it loses no DEL of a live entry whose row then shows something else. |
| RedirectCache.CacheIsInvisible | url-shortener/app/cache.py:47-78 | Over every run in time order, with entries expiring and GET and SETEX failing at will, responses and tables (so click events) equal those of the server without a cache, provided each lost DEL is of an expired entry or of a row that still shows the same. |
| RedirectCache.UndetectedIff | url-shortener/app/cache.py:47-78 | Over every run in time order, no client following any link at any moment of it could tell the server from the one without a cache if and only if each lost DEL was of that harmless kind. |
| RedirectCache.LostInvalidationVisibleIff | url-shortener/app/cache.py:71-78 | After an update or a delete whose DEL was lost, a redirect then or later is answered differently from the uncached server if and only if the code's entry is still live and the change altered the active flag or an active row's address. |
| RedirectCache.LostDeleteIsSeen | url-shortener/app/routes/urls.py:234-236 | A run of three requests in which a lost DEL lets a deactivated link redirect. |
| UrlEffects.UpdateMeans | url-shortener/app/routes/urls.py:162-209 | A stored update gives every field the body names its value, in the answer and in the table, and leaves every other field and row; with the event, and each refusal in order. |
| UrlEffects.DeleteMeans | url-shortener/app/routes/urls.py:212-238 | A stored delete makes the row inactive and leaves everything else of it and every other row. |
| UrlEffects.CreateMeans | url-shortener/app/routes/urls.py:49-107 | The refusals in order; else a new active row at the end with the fields given and the code asked for, or the first drawn code no row has. |
| UrlEffects.RedirectMeans | url-shortener/app/routes/urls.py:267-302 | A redirect answers from a live entry if GET succeeds, else from the first row with the code; the click logged, and the row cached for 300 s on a miss. |
| UrlEffects.CacheMeans | url-shortener/app/routes/urls.py:100-238 | A stored create caches its row for 300 s, a stored update or delete drops the entry, and nothing else touches the cache. |
| LinkHistory.FollowedLink | url-shortener/app/routes/urls.py:84-302 | Over every run in which lost DELs are harmless: the events are those of the requests answered, and whoever follows a link gets what the last stored create, update or delete of it left. |
| LinkHistory.UpdateTakesEffect | url-shortener/app/routes/urls.py:162-302 | After a stored update whose DEL is not lost, a redirect then or later answers Gone if the body made the link inactive, and goes to the new address if it gave one and the link is active. |
| RedirectStaleness.RunKeepsInv | url-shortener/app/routes/urls.py:84-302 | Through any interleaving, crash and Redis failure, every cache entry is a value its row had when it was read, at most a handler's duration before it was cached. |
| RedirectStaleness.StalenessIsBounded | url-shortener/app/cache.py:23-78 | Every live cache entry is what the row said within the last 300 + D - 1 seconds, D bounding a handler's duration. |
| RedirectStaleness.StalenessHasACause | url-shortener/app/routes/urls.py:84-302 | If no DEL is lost or skipped by a crash and no value is cached after its row changed, every entry shows its row as it is, except while the handler that changed the row has yet to delete it. |
| RedirectStaleness.StalenessBoundIsSharp | url-shortener/app/routes/urls.py:285-292 | For every D some run, with no Redis failure after the update, reaches that bound. |
| IpBan.IpBans.RecordViolation | url-shortener/app/ip_ban.py:128-198 | The new keys and the verdict of a violation in every branch. |
| IpBan.IpBans.GetIpStatus | url-shortener/app/ip_ban.py:48-125 | The reported status from the three keys, expiry included. |
| IpBan.IpBans.IsBanned | url-shortener/app/ip_ban.py:201-209 | Banned exactly when the feature is on and the status says so. |
| IpBan.IpBans.UnbanIp | url-shortener/app/ip_ban.py:212-225 | Removes all three keys of the IP and no other. |
| IpBan.StateTracksStreak | url-shortener/app/ip_ban.py:128-198 | In every run over any IPs, with unbans and toggles, the keys of an IP are determined by its streak of counted violations. |
| IpBan.EscalationClosedForm | url-shortener/app/ip_ban.py:128-198 | A violation is refused exactly while the streak bans, with the seconds left; otherwise the n-th of a streak is a warning for odd n, hour ban n/2 of 3600 s for 2, 4, 6 and permanent for 8. |
| IpBan.DocumentedProgressionIff | url-shortener/app/ip_ban.py:4-9 | The announced progression is met exactly at the 1st, 2nd, 4th and 8th counted violation. |
| IpBan.ThirdViolationOnlyWarns | url-shortener/app/ip_ban.py:4-9 | A run whose third counted violation is a warning where an hour ban is announced. |
| IpBan.BanStatusFollowsStreak | url-shortener/app/ip_ban.py:48-125 | The reported status in full is that of the streak: banned, permanent, strikes, hour bans, seconds left and warned, forgotten after a day without a counted violation; the strike record outlives the ban. |
| IpBan.PermanentUntilUnban | url-shortener/app/ip_ban.py:212-225 | Once stored, the permanent key stays through any further operations without an unban of that IP, whatever the clock does. |
| IpBan.EscalationTable | url-shortener/app/ip_ban.py:128-198 | Without unbans and with counted violations less than 24 h apart, there are at most eight and the i-th brings the closed form's action. |
| RateLimit.Limiter.RecordRequest | url-shortener/app/dynamic_rate_limit.py:82-99 | Both sets after a request; nothing without Redis. |
| RateLimit.Limiter.GetConfig | url-shortener/app/dynamic_rate_limit.py:52-65 | The stored configuration, or the defaults when none is stored or Redis is silent. |
| RateLimit.Limiter.SetConfig | url-shortener/app/dynamic_rate_limit.py:68-79 | Replaces the stored configuration, or reports failure and changes nothing. |
| RateLimit.Limiter.GetActiveUserCount | url-shortener/app/dynamic_rate_limit.py:102-131 | Prunes both sets and counts what remains: one user per full hundred requests, or the number of IPs if larger. |
| RateLimit.Limiter.GetCurrentRateLimit | url-shortener/app/dynamic_rate_limit.py:134-180 | The limit for the users counted, and 5000 for everyone while Redis is silent. |
| RateLimit.CountReadsTheWindow | url-shortener/app/dynamic_rate_limit.py:82-131 | After any run of recordings and prunings a count sees exactly the IPs whose last request is newer than 60 s and exactly the distinct (IP, time) pairs of that minute. |
| RateLimit.FirstTierIs | url-shortener/app/dynamic_rate_limit.py:160-170 | The search stops at the first tier whose threshold is not exceeded. |
| RateLimit.LimitForMeans | url-shortener/app/dynamic_rate_limit.py:145-180 | The base limit if switched off; 200 without tiers; else the limit and index of the first tier that takes the users, or of the last. |
| RateLimit.DefaultsGive | url-shortener/app/dynamic_rate_limit.py:30-65 | Unconfigured or without Redis the limit is 5000 up to 50 users, 2000 up to 200, 500 up to 500, else 200; a stored configuration is used. |
| RateLimit.LimitNeverRises | url-shortener/app/dynamic_rate_limit.py:158-180 | With non-increasing limits the chosen limit never rises as users rise. |
| RateLimit.LimitMonotoneIff | url-shortener/app/dynamic_rate_limit.py:158-180 | For tiers sorted by threshold that holds if and only if the limits are non-increasing. |
| ComposeWatchdog.Watchdog.Handle | compose-watchdog/watchdog.py:190-222 | One container: start, restart, count, reset or leave alone. |
| ComposeWatchdog.Watchdog.Tick | compose-watchdog/watchdog.py:159-226 | Containers in order up to the first that fails to reload; the clean-up only if none does. |
| ComposeWatchdog.StreakAccounting | compose-watchdog/watchdog.py:173-226 | In every run a streak is the number of unhealthy observations since the last reset and below the threshold; a restart comes only at the threshold; threshold times attempts is at most the unhealthy observations. |
| ComposeWatchdog.ObservationLeadsTo | compose-watchdog/watchdog.py:173-222 | After any run, what one more container leads to: an exited one is started if its policy revives it (under the switch only "always"), a running one is restarted exactly at the threshold-th unhealthy observation in a row, and an unwatched one is left alone. |
| ComposeWatchdog.TickLooksAt | compose-watchdog/watchdog.py:168-226 | A tick looks at the containers before the first that fails to reload, in order, and cleans up if there is none. |
| Percentile.RankOfSorted | dashboard/backend/k6_runner.py:255-258 | The k-th element of the sorted list has at most k elements below it and more than k at or below it. |
| LoadTest.Runner.AppendSeriesSample | dashboard/backend/k6_runner.py:184-203 | When a sample is taken, its content, and the cap on the series. |
| LoadTest.Runner.GetStatus | dashboard/backend/k6_runner.py:205-217 | A poll closes a run whose process ended, or samples a running one. |
| LoadTest.Runner.ReadLine | dashboard/backend/k6_runner.py:242-260 | The statistics after one metric line. |
| LoadTest.Runner.ReaderEnds | dashboard/backend/k6_runner.py:269-274 | The reader closes the run unless a poll already did. |
| LoadTest.StopsExactlyOnce | dashboard/backend/k6_runner.py:205-274 | However polls and reader interleave, a run whose end was noticed was closed exactly once with exactly one final sample, and otherwise is running with none. |
| LoadTest.SeriesIsFinal | dashboard/backend/k6_runner.py:184-217 | After the end nothing is sampled any more. |
| LoadTest.FinalSampleIsLast | dashboard/backend/k6_runner.py:205-274 | The closing sample ends the series with the values of that moment. |
| LoadTest.StatisticsAreHistory | dashboard/backend/k6_runner.py:241-260 | Whatever polls come between, requests, errors and average are those of the lines read, and the error rate is errors per request as they stood at the last error line read after a request, at most 1. |
| LoadTest.SeriesIsHistory | dashboard/backend/k6_runner.py:184-217 | The series is the last 2500 of the samples the steps call for: one per poll at least 0.75 s after the sample before it and one at the end, each with the users and the average of its moment. |
| LoadTest.P95IsARank | dashboard/backend/k6_runner.py:250-258 | From the 20th measurement on, p95 is a measured value with at most floor(0.95 n) strictly below it and more at or below it; before that it is 0. |
| EnvBlock.EnvReader.ParseLinuxEnviron | dashboard/src/lib/watchdog-core/server-runtime-env.ts:14-42 | The first call reads or fails; every later call repeats that answer. |
| EnvBlock.ParseBlock | dashboard/src/lib/watchdog-core/server-runtime-env.ts:24-37 | The index loop gives the meaning of the block: its segments in order, later ones winning. |
| EnvBlock.EnvironRoundTrip | dashboard/src/lib/watchdog-core/server-runtime-env.ts:19-37 | Parsing the block of any list of representable variables, with or without a final NUL, gives the last value of every key but `__proto__`; so it gives all of them if and only if no variable has that name. |
| EnvBlock.ProtoIsLost | dashboard/src/lib/watchdog-core/server-runtime-env.ts:22-31 | A block that defines only `__proto__` parses to nothing. |
| EnvBlock.LastWinsLooksUp | dashboard/src/lib/watchdog-core/server-runtime-env.ts:28-31 | In the last-wins map a variable is defined exactly if it occurs and has its last value. |
| EnvBlock.UnusableSegmentIgnored | dashboard/src/lib/watchdog-core/server-runtime-env.ts:29-35 | A segment with no '=' or an empty key contributes nothing, wherever it stands. |

## Left out

- React components, the Next.js, FastAPI and Flask plumbing, SSE, Kafka clients, probes, Docker and the Railway API: each call is an input that succeeds or fails.
- An insert that commits while the client sees an error: the transaction is taken as atomic and its answer as true.
- Statistics snapshots (`flush_stats`), first and last seen times, and the averages and rates derived from the counters: they follow from the modelled counters or from a clock.
- Rounding and floating-point error in rates, averages, sample times and the p95 index.
- Parsing of timestamps and JSON: an entry carries its parsed time, status and duration, and times are those of valid timestamps.
- Unicode: case folding, stripping and digits are those of ASCII.
- Integer overflow and column widths of the database.
- DbBuckets.DatabaseAgreesWithMemory: does not cover entries dated after the present moment, which the two paths treat differently, or the two paths reading the clock at different moments.
- DbBuckets.QueryErrorBuckets: leaves out the third query, the recent error rows.
- DbBuckets.GetErrors: does not return the error log, whose order among equal times SQL leaves open.
- DbInsights.InsightsAgreeIff: speaks of buckets and summary; the log rows beside them come from a merge limited on both sides.
- DayWindow.PathsAgreeIff: windows above 1440 minutes, which the API refuses, are covered for memory only.
- SqlFilters.FiltersAgree: speaks of entries with a level, an instance id and no JSON null in the searched fields; null and missing fields read differently in the two paths by design of `str()` and SQL NULL.
- RedirectCache.CacheIsInvisible: handlers run one at a time and time does not run backwards; interleaved handlers are the subject of `RedirectStaleness`.
- RedirectStaleness.StalenessIsBounded: an update is one arbitrary new value of the row; concurrent updates are ordered by their commits.
- A database outage during a redirect, gaps in row ids after a rolled-back insert, the URL list cache (whose key ignores filters), and the list and event endpoints.
- UrlTable.CodesStayUnique: two creates that race between check and insert rely on the table's own unique constraint, which is not modelled.
- IpBan.IpBans.GetIpStatus: does not return the absolute expiry time, and remaining seconds are exact.
- Redis failing half-way through one call of `record_violation`, `unban_ip`, `record_request` or `get_current_rate_limit`; racing calls for one IP; and Redis expiry to whole seconds.
- Malformed tiers in a stored rate-limit configuration.
- ExitedDeployment.RedeployHitsExitedIff: for ticks one after the other; overlapping ones are the subject of `ExitedUnderOverlap`.
- WatchdogDiscipline.TickDiscipline: for one tick on its own; rows of an overlapping tick may be remembered in between.
- In `OverlappingTicks` a row that raises between two awaits, and clock readings of one piece that differ, are not modelled apart from the inputs given.
- The watchdogs' log tails, activity lists and event payloads, including the events derived from the previous row and the cap of 30 events.
- RecoveryPacing.HeartbeatRecoveryPacing: a service that drops off the listing loses its last recovery time, so nothing is promised across a gap; each part between gaps is covered.
- RecoveryBudget.EveryRecordHasItsBudget: a service that is dropped from the listing or not probed gets a new record for the same deployment, so the budget of one deployment across such a gap is one maximum per record.
- Load-test start and stop, the stdout summary, and overlapping runs.
- `runtimeEnv`, `normalizeEnvValue` and reading a file in an encoding other than single characters.
- The circuit breaker, Discord alerts, retry decorators, seeding, migrations, setup scripts, nginx, Kubernetes and Compose files: easy members only.
