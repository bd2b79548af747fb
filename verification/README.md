# Fluxen's closed loop, modelled and proved

Fluxen is an LLM gateway that records every request, replays the record to
estimate what a change would save, applies the change as a versioned policy,
measures what it really did, and can revert it. This project models that loop
in Dafny and proves what each part promises. `dafny verify dfyconfig.toml`
checks all of it.

The model takes the form of the code. Loops that update counters are methods
proved against a definition that mentions none of their data structures; tables
and in-memory objects are classes whose methods state the whole new state; each
SQL statement, transaction or Redis script is one atomic step; and what several
clients do at once is a state machine whose every interleaving is covered.

| files | what they model |
|---|---|
| `Caching`, `CacheGrowth`, `CacheSavings`, `RepeatedRequest` | the exact-match cache replay, why more room or time never costs hits in total, when it never costs savings or single hits, and the detector that sweeps TTLs through it |
| `Calendar`, `Budget`, `BudgetGuard` | spending limits: the replay, the live counter, and their agreement |
| `ModelMix` | rerouting a share of one model's traffic with a fractional accumulator |
| `PolicyDocuments`, `PolicyStore` | documents, field diffs, compare-and-set versions and history |
| `OpportunityStore`, `MeasurementStore` | the two lifecycles as guarded table updates |
| `Measure`, `MeasureRunner` | savings arithmetic, verdicts and the scheduler's checks |
| `ApplyRevert`, `PolicyEditor` | Apply, Revert and the editing endpoints as one caller runs them |
| `ControlPlane`, `ControlPlaneSafety`, `ControlPlaneRuns`, `ScheduledChecks` | the same, interleaved between any two store calls with editors, detectors, reviews and checks |
| `Snapshot` | the gateway's policy cache, with fills in flight |
| `RollupTables`, `Rollup`, `RollupRuns` | hourly and daily rollups by delete and reinsert, and runs of inserts and ticks |
| `Ingest` | the bounded queue and the batching writer under every schedule |
| `Framing`, `StreamReaders` | lines, server-sent events and the three providers' stream readers |
| `Paging` | keyset pagination of the Requests screen |
| `RobustStats`, `AnomalyRuns`, `TrafficAnomaly` | median and MAD, runs of hot hours, and the traffic-anomaly detector |
| `Canonical` | the request parser and printer |

## What turned out different from the comments

The model follows the code. Where a comment says more, the project proves what
the code does and when the comment holds.

- `SimulateModelMix` reroutes floor(weight x n) of n matching requests, not
  round; the two agree exactly if the fractional part of the share is below one
  half (`ModelMix.RoundIsReachedIff`). The breakdown rows add up to the totals
  exactly when the two models differ or there is nothing to add up
  (`ModelMix.RowsSumToTotals`).
- `Snapshot.Invalidate` holds exactly if no older fill is between its store read
  and its cache write (`Snapshot.InvalidateHoldsIff`); such a fill is then served
  for the whole TTL (`Snapshot.OldFillLingers`), as it is in a run from the empty
  store (`Snapshot.StaleRun`).
- Parsing and printing a request are inverse exactly when `stop` is not an empty
  array (`Canonical.RoundTripIff`); the body itself is normalised field by field
  (`Canonical.PrintedIsNormalised`), not reproduced.
- The hit count of the cache replay grows with TTL and capacity, but single hits
  and savings need not. For given keys and costs, whatever the times: no hit is
  ever lost to a roomier cache exactly if no key is used three times
  (`CacheSavings.HitsKeptIff`), and savings never fall exactly if no key gets
  dearer from its second use on (`CacheSavings.SavingsNeverFallIff`). Keys whose
  requests all cost the same are the common case. On one trace at one set of times
  savings may rise by luck without the condition; there it is only sufficient
  (`CacheSavings.SavingsGrow`).
- The put endpoint diffs against its own read but saves against the version the
  client names. The stored diff is right exactly if that read was the document
  the save replaces; and the read was the current row exactly if the named version
  is not newer than the one read, which the handler does not check
  (`ControlPlaneRuns.PutIsRightIff`, with `ControlPlaneRuns.GuessedVersionMisleads`
  as the example).
- A verdict does depend on the schedule if rows for the window arrive after the
  first due tick: two schedules agree exactly if no later request falls inside
  the window and no later change newly confounds it
  (`MeasureRunner.LateRowsSplitIff`).
- RecordInterim and RecordFinal do not look at the status they overwrite, so a
  check that read a row before its revert brings the row back to life
  (`ControlPlaneRuns.WithdrawnForGoodIff` says exactly when, and
  `ScheduledChecks.RevivedByLateCheck` is a run from the start that does it).
- Reverting a measurement discards every edit made since its apply
  (`ControlPlaneRuns.ApplyThenRevert`).
- A request stored after its hour left the hourly window is never rolled up
  (`RollupRuns.LateRequestNeverCounted`); a day is right exactly if every hour was
  recomputed after its last insert and the day after that
  (`RollupRuns.DayExactIffClean`).
- A refund can bring a period's full cost under the limit while the replay
  still refuses (`Budget.RefundsStayClosed`); with non-negative costs refusal is
  exactly exhaustion (`Budget.RefusedIffFullCost`).
- The anomaly detector scores the error rate too, although its comment names
  three metrics.

## Model

| member | source | states |
|---|---|---|
| `Caching.SimulateCaching` | internal/sim/caching.go:48-88 | the map-and-list replay counts exactly the hits of a definition with no cache in it (last fill younger than the TTL, fewer than MaxEntries other keys used since), and actual cost is simulated cost plus the cost of the hits |
| `Caching.ServeKeyed` | internal/sim/caching.go:68-82 | one keyed request keeps the map equal to the most recently used keys with their last fill's expiry, and hits exactly when the definition says |
| `Caching.TouchLRU` | internal/sim/caching.go:91-99 | cuts the first occurrence out of the list and appends the key |
| `Caching.RecencyMeaning` | internal/sim/caching.go:57-82 | the recency list holds each used key once and the keys after a key are those used since it |
| `Caching.LatestIsResident` | internal/sim/caching.go:77-82 | a key survives eviction exactly if fewer than MaxEntries other keys were used since, non-positive meaning unbounded |
| `Caching.EntryLifetime` | internal/sim/caching.go:68-77 | an entry lasts for the TTL from the request that stored it, not from a hit, and not at the last instant itself |
| `CacheGrowth.HitsGrow` | internal/sim/caching.go:48-88 | the hit count never falls when the TTL, the size bound or both grow, for every chronological trace, and for any order at all if the TTL is not negative |
| `CacheGrowth.WideStaysAhead` | internal/sim/caching.go:68-77 | per key the roomier run never filled more often, and when level its last fill is the later |
| `CacheSavings.HitsKeptIff` | internal/sim/caching.go:68-77 | for given keys, at whatever times: every hit is kept by every roomier cache exactly if no key is used three times |
| `CacheGrowth.SingleHitCanBeLost` | internal/sim/caching.go:68-77 | the smallest example: a trace whose last request hits with the shorter TTL and misses with the longer |
| `CacheSavings.SavingsNeverFallIff` | internal/sim/caching.go:48-88 | for given non-negative costs, at whatever times: a roomier cache never saves less exactly if no key gets dearer from its second use on |
| `CacheSavings.SavingsGrow` | internal/sim/caching.go:48-88 | under that condition savings grow on the trace at hand, in any order if the TTL is not negative; one way only, since a single trace may rise by luck |
| `CacheSavings.SavingsCanFall` | internal/sim/caching.go:48-88 | the smallest example: three requests on which the longer TTL saves less |
| `RepeatedRequest.DetectRepeatedRequest` | internal/detect/repeated.go:108-191 | a candidate exists exactly if the duplicate rate reaches the floor and some TTL saves; its sweep rows are the replays, its choice is the largest saving at its shortest TTL, and its two ratios are those of what it counted |
| `RepeatedRequest.CountDuplicates` | internal/detect/repeated.go:120-132 | counts the facts whose key came up before |
| `RepeatedRequest.KnownCostMeaning` | internal/detect/repeated.go:108-118 | the facts it looks at are those of known cost, each where it was |
| `RepeatedRequest.RepeatsMeaning` | internal/detect/repeated.go:120-132 | its duplicates are the facts of which an earlier one has the same key |
| `RepeatedRequest.SweepRises` | internal/detect/repeated.go:135-153 | duplicate hits never fall along the TTL sweep and never exceed the counted duplicates |
| `RepeatedRequest.SweepSavingsRise` | internal/detect/repeated.go:134-159 | and if no key gets dearer from its second use on, the savings rise along the sweep too |
| `RepeatedRequest.SavingsWithinCost` | internal/detect/repeated.go:134-159 | with non-negative costs no row promises more than the monthly cost |
| `Budget.TTLOutlastsBucket` | internal/guard/budget.go:84-96 | a counter written anywhere in a day or month is alive everywhere else in it |
| `Budget.SameBucketIff` | internal/guard/budget.go:84-89 | two instants share a bucket exactly if their Gregorian dates share the month for a monthly budget, and the day for any other |
| `Budget.SimulateBudget` | internal/sim/budget.go:43-76 | blocked count, share and first and last blocked day are those of the requests refused by a definition over the admitted spend |
| `Budget.RefusedIffFullCost` | internal/sim/budget.go:50-64 | with non-negative costs a request is refused exactly if the full cost of all earlier requests of its bucket reaches the limit |
| `Budget.RefusalIsFinal` | internal/sim/budget.go:50-64 | once a bucket refuses it refuses everything later, so the admitted requests of a bucket are a prefix |
| `Budget.RefundsStayClosed` | internal/sim/budget.go:50-64 | with a negative cost the full cost can be under the limit while the bucket refuses |
| `BudgetGuard.Guard.Blocked` | internal/guard/budget.go:41-51 | blocks exactly if Redis answers and the live counter has reached an enabled hard limit; otherwise fails open |
| `BudgetGuard.Guard.RecordSpend` | internal/guard/budget.go:59-70 | adds a positive cost to the current bucket's counter and renews its expiry, and nothing else |
| `BudgetGuard.ReplayThroughGuard` | internal/guard/budget.go:41-78 | run one request at a time, each finishing in the bucket it started in, the live guard refuses exactly the requests the replay refuses |
| `BudgetGuard.Handle` | internal/guard/budget.go:41-78 | one check or record against the live guard admits and counts as the model's step does, whatever the expiries |
| `BudgetGuard.TrafficThroughGuard` | internal/guard/budget.go:41-78 | so over any interleaving of checks, records and passing time as many requests are in flight as in the model, and the live counter of the current bucket is the model's spend |
| `BudgetGuard.OverspendBounded` | internal/guard/budget.go:41-70 | with at most C requests between check and record, each costing at most m, no bucket ever reaches limit + C*m |
| `BudgetGuard.OverspendReached` | internal/guard/budget.go:41-70 | an interleaving that reaches the bound |
| `ModelMix.SimulateModelMix` | internal/sim/modelmix.go:64-117 | affected is floor(w*n) of the matching requests, priced by the catalog's truncating integer arithmetic, totals split into kept and moved cost, and the breakdown rows are each model's own figures |
| `ModelMix.MatchingMeaning` | internal/sim/modelmix.go:70-73 | the matching requests are the successful ones for the current model whose cost is known |
| `ModelMix.PriceMeaning` | pkg/pricing/catalog.go:131-141 | input and output tokens times their prices per million, each cut off towards zero; an unknown model costs nothing and has no known cost |
| `ModelMix.RowsMeaning` | internal/sim/modelmix.go:101-114 | of two different models the current one has a row once anything matches and the candidate one once anything moves |
| `ModelMix.AccumulatorStep` | internal/sim/modelmix.go:74-99 | the fractional accumulator overflows exactly where floor(w*n) steps, weights outside [0, 1] included |
| `ModelMix.WindowDiscrepancy` | internal/sim/modelmix.go:74-99 | any m consecutive matches send floor or ceiling of w*m |
| `ModelMix.RowsSumToTotals` | internal/sim/modelmix.go:101-114 | the breakdown rows add up to the reported totals exactly if the models differ or both totals are 0 |
| `ModelMix.RoundIsReachedIff` | internal/sim/modelmix.go:53-58 | the commented round(w*n) is what moves exactly if the fractional part of the share is below one half; otherwise one request fewer moves |
| `ModelMix.RoundIsNotReached` | internal/sim/modelmix.go:53-58 | the example: half of three requests is one, not two |
| `PolicyDocuments.Diff` | internal/policy/diff.go:27-47 | holds exactly the fields that differ, with both values; a missing document is the empty one |
| `PolicyDocuments.DiffMeaning` | internal/policy/diff.go:27-47 | control by control: a name is in the diff exactly if that control differs, with its own values before and after |
| `PolicyDocuments.InvalidIff` | pkg/policy/document.go:93-125 | a document is refused exactly for a malformed control, or for enabled routing without two different models or with a weight outside [0, 1] |
| `PolicyDocuments.DiffCarries` | internal/policy/diff.go:27-47 | a diff carries the old document to the new and back |
| `PolicyDocuments.DiffFromElsewhere` | internal/policy/diff.go:27-47 | it carries another document to the same result exactly if that one agrees on the fields the diff does not name |
| `PolicyStore.Store.Get` | internal/policy/store.go:63-80 | the current row, or version 0 of the empty document |
| `PolicyStore.Store.Save` | internal/policy/store.go:88-142 | lands exactly if the expected version is current, and then appends exactly one history row equal to the new current row; otherwise nothing changes |
| `PolicyStore.Store.AtVersion` | internal/policy/store.go:177-193 | the document of that history row, if there is one |
| `PolicyStore.Store.ChangedSince` | internal/policy/store.go:201-213 | whether a later version was written before the given moment |
| `PolicyStore.SaveConfoundsIff` | internal/policy/store.go:201-213 | a save confounds exactly the windows that end after it of what an earlier version applied |
| `PolicyStore.SaveKeepsDiffs` | internal/policy/store.go:88-142 | a save keeps every earlier diff linked, so that all are exactly if its own leads from the document it replaces |
| `PolicyStore.ReadThenSaveKeepsDiffs` | internal/api/handler_policy.go:72-94 | a caller that diffs its own read keeps the diffs linked exactly if it had read the document that its save replaces |
| `PolicyStore.AtVersionFinds` | internal/policy/store.go:177-193 | in a sound log precisely versions 1 to the current one are found |
| `PolicyStore.DiffsRebuild` | internal/policy/store.go:127-132 | folding the stored diffs over the empty document rebuilds every version |
| `PolicyStore.ChangedIsFinal` | internal/policy/store.go:201-213 | the confound answer about a moment that has passed never changes |
| `OpportunityStore.Opportunities.UpsertOpen` | internal/store/opportunities.go:98-137 | refreshes the one live row of (app, fingerprint) without touching its status, or opens a new one, and keeps live rows unique |
| `OpportunityStore.Opportunities.MarkReviewed` | internal/store/opportunities.go:185-203 | moves open to reviewed and returns any other row as it is |
| `OpportunityStore.Opportunities.MarkDismissed` | internal/store/opportunities.go:214-237 | dismisses live rows only, and tells a missing row from one in the wrong state |
| `OpportunityStore.Opportunities.MarkApplied` | internal/store/opportunities.go:252-271 | applies live rows only |
| `OpportunityStore.Opportunities.MarkReverted` | internal/store/opportunities.go:277-296 | reverts applied rows only |
| `OpportunityStore.UpsertMoves` | internal/store/opportunities.go:98-137 | an upsert never makes a row live again, keeps every status, and keeps live rows unique |
| `OpportunityStore.GuardedUpdatesMove` | internal/store/opportunities.go:185-296 | no guarded update makes a row live again or moves applied anywhere but to reverted |
| `Measure.SavingsError` | internal/measure/compare.go:7-52 | reported savings differ from baselineCost*n/baselineRequests - observedCost by at most n/1000 + 1/2 |
| `Measure.SameDirection` | internal/measure/compare.go:35-45 | savings and percentage never have opposite signs |
| `Measure.VerdictMatchesSavings` | internal/measure/verdict.go:43-63 | savings are not negative on successful or partial and not positive on regressed |
| `Measure.VerdictTable` | internal/measure/verdict.go:43-63 | which of the seven verdicts and reasons two rounded rates get, each as an if and only if in whole numbers: 30% of the volume, a rise above 2%, less than 2% either way, a fall of 2% and the share of the estimate |
| `Measure.VerdictMeaning` | internal/measure/compare.go:7-52 | the same through Compare for the exact costs, each verdict in both directions up to the rounding: regressed is a rise of 2%, no effect is within 2%, successful a fall by 70% of the estimate and by 2%, partial one by 20%, inconclusive the rest |
| `MeasurementStore.Measurements.Create` | internal/store/measurements.go:91-112 | starts a collecting row with nothing observed unless the opportunity has a live one |
| `MeasurementStore.Measurements.PendingIDs` | internal/store/measurements.go:166-190 | exactly the collecting and interim rows applied by now, oldest first, each once |
| `MeasurementStore.Measurements.RecordInterim` | internal/store/measurements.go:195-211 | overwrites the observed columns and the status of the row whatever its status was |
| `MeasurementStore.Measurements.RecordFinal` | internal/store/measurements.go:215-231 | likewise, stamping finalized_at |
| `MeasurementStore.Measurements.MarkReverted` | internal/store/measurements.go:236-248 | withdraws the org's own row only |
| `MeasurementStore.Measurements.RealizedSavings` | internal/store/measurements.go:255-266 | the sum of the savings of the org's successful and partial rows, in any order |
| `MeasureRunner.Runner.Check` | internal/measure/runner.go:105-128 | the observation of the fixed window: stats, comparison, confound, verdict |
| `MeasureRunner.PeriodMeaning` | internal/store/requests.go:200-210 | a period counts and costs the successful requests of the application from its start up to but not at its end |
| `MeasureRunner.Runner.Run` | internal/measure/runner.go:57-87 | advances every row by exactly one tick, one late tick doing interim and final |
| `MeasureRunner.TickTimes` | internal/measure/runner.go:57-103 | in seconds: nothing before 7 days, from then the interim check of those 7 days, from 14 days the final one of the 14 |
| `MeasureRunner.ScheduleOutcome` | internal/measure/runner.go:57-128 | after any schedule a row is final exactly if the deadline was reached, and then holds the fixed window's observation |
| `MeasureRunner.VerdictIndependentOfSchedule` | internal/measure/runner.go:89-128 | two schedules that reach +14 days end in the same record but for finalized_at |
| `MeasureRunner.FirstDueDecides` | internal/measure/runner.go:57-128 | the first tick at or past +14 days makes the record final with what it finds, and no tick before or after matters |
| `MeasureRunner.SchedulesAgreeIff` | internal/measure/runner.go:57-128 | two schedules that reach +14 days end in the same record exactly if their first due ticks find the same |
| `MeasureRunner.WindowSettlesIff` | internal/measure/runner.go:105-118 | more rows leave the window as it was exactly if no request among them falls inside it and no change newly confounds it |
| `MeasureRunner.LateRowsSplitIff` | internal/measure/runner.go:105-118 | so a prompt and a late schedule agree exactly if no row written in between does either |
| `MeasureRunner.WindowSettles` | internal/measure/runner.go:99-118 | in particular rows and versions dated at or past the deadline never matter |
| `MeasureRunner.TickMovesForward` | internal/measure/runner.go:57-87 | a tick only moves collecting, interim, final, and leaves final and reverted rows alone |
| `MeasureRunner.LateRowSplitsSchedules` | internal/measure/runner.go:105-118 | the example: one row stored after the deadline for a time inside the window |
| `ApplyRevert.Applier.Apply` | internal/policy/apply.go:86-155 | which obstacle stops it with nothing changed, and otherwise the whole new state of policy, opportunity and measurement, the partial failures included; the new version routes as asked, switched on, and keeps the other four controls |
| `ApplyRevert.InvalidTargetIff` | internal/policy/apply.go:108-116 | once the opportunity and its simulation are found, Apply refuses exactly for missing or equal models, a weight outside [0, 1], or another control that was malformed already |
| `ApplyRevert.Applier.Freeze` | internal/measure/freezer.go:27-48 | the 14 days before become the new row's baseline unless the opportunity is measured already |
| `ApplyRevert.FrozenMeaning` | internal/measure/baseline.go:21-30 | the baseline is the count and cost of the 1209600 seconds before the apply, the expectation the finding's, and the row starts collecting |
| `ApplyRevert.Reverter.Revert` | internal/policy/revert.go:27-80 | restores the version before the apply as a new one, and moves opportunity and measurement only if the opportunity is applied |
| `ApplyRevert.ApplyAlone` | internal/policy/apply.go:86-155 | an undisturbed Apply client of the interleaved model leaves exactly the tables the method leaves |
| `ApplyRevert.RevertAlone` | internal/policy/revert.go:27-80 | the same for Revert |
| `ControlPlaneRuns.AlwaysGood` | internal/policy/apply.go:86-155 | every state any clients can reach by interleaving store calls, and giving up between them, is good |
| `ControlPlaneRuns.HistoryIsFaithful` | internal/api/handler_policy.go:72-94 | in every reachable state the history is versions 1 to v, the last one current, all valid, and the stored diffs alone rebuild each, given that clients name versions they fetched |
| `ControlPlaneRuns.NothingIsRewritten` | internal/policy/store.go:88-142 | no history row ever changes or goes |
| `ControlPlaneRuns.SingleCalls` | internal/store/opportunities.go:185-237 | the interleaved review, dismissal, simulation and policy fetch change exactly the columns their endpoints change |
| `ControlPlaneRuns.LifecyclesAgree` | internal/store/measurements.go:91-112 | one live opportunity per (app, fingerprint), one measurement per opportunity, every measurement's opportunity applied or reverted and its version in history under that opportunity, a withdrawn measurement's opportunity reverted |
| `ControlPlaneRuns.ApplyOnlyTouchesRouting` | internal/policy/apply.go:103-128 | in every reachable state a version written by Apply differs from the one before in its routing alone |
| `ControlPlaneRuns.ApplySavesAsAsked` | internal/policy/apply.go:108-131 | when an interleaved apply's save lands, the next version routes from, to, by weight and stickiness as asked, switched on, and keeps the other four controls |
| `ControlPlaneRuns.PriorAlwaysLoads` | internal/policy/revert.go:34-44 | the version before a measurement's apply can be loaded in every reachable state |
| `ControlPlaneRuns.RevertRestores` | internal/policy/revert.go:34-67 | a revert whose save lands makes the document before the apply current as the next version |
| `ControlPlaneRuns.ApplyThenRevert` | internal/policy/revert.go:34-67 | whatever runs between Apply's save and the revert's, the document Apply read is current again |
| `ControlPlaneRuns.RealizedSavingsNotNegative` | internal/store/measurements.go:255-266 | realized savings are not negative in any reachable state |
| `ControlPlaneRuns.WithdrawnStays` | internal/store/measurements.go:195-231 | a withdrawn measurement stays withdrawn through a step exactly if the step does not record a check begun earlier |
| `ControlPlaneRuns.WithdrawnForGoodIff` | internal/store/measurements.go:195-231 | over whole runs: a withdrawn measurement stays withdrawn whatever anyone does next exactly if no client has a check of it under way |
| `ScheduledChecks.RevivedByLateCheck` | internal/store/measurements.go:195-211 | a run from the start in which a check read before a whole revert makes the withdrawn measurement interim again while its opportunity stays reverted |
| `ScheduledChecks.TickAlone` | internal/measure/runner.go:57-87 | undisturbed, the interleaved check client does to a row exactly what the runner's tick does |
| `PolicyEditor.Editor.Put` | internal/api/handler_policy.go:55-110 | refuses an invalid document, saves against the named version with the diff from the current document, or conflicts with nothing changed |
| `PolicyEditor.Editor.Restore` | internal/api/handler_policy.go:157-214 | makes an old version current as the next one, or says that there is none |
| `PolicyEditor.PutAlone` | internal/api/handler_policy.go:55-110 | undisturbed, the interleaved put client leaves the log the method leaves |
| `PolicyEditor.RestoreVersionAlone` | internal/api/handler_policy.go:157-214 | and the restore client likewise |
| `ControlPlaneRuns.PutIsRightIff` | internal/api/handler_policy.go:72-94 | a put stores a right diff exactly if its read was the current document, and its read was the current row exactly if the named version is not newer than the one read |
| `ControlPlaneRuns.GuessedVersionMisleads` | internal/api/handler_policy.go:72-94 | the example: naming a version one has not read stores a diff from the wrong document |
| `Snapshot.SnapshotCache.Get` | internal/policy/snapshot.go:53-80 | a fresh entry is returned and nothing changes; otherwise the store's answer is returned and kept for the TTL |
| `Snapshot.ExpiryMeaning` | internal/policy/snapshot.go:66-74 | an entry is served up to and including the instant it expires, and no longer |
| `Snapshot.GetAlone` | internal/policy/snapshot.go:53-80 | the interleaved steps of an undisturbed Get are the method's |
| `Snapshot.ServedIsReal` | internal/policy/snapshot.go:53-64 | every document and version served are a pair of the store's history |
| `Snapshot.HitIsRecent` | internal/policy/snapshot.go:66-80 | a hit's record was current when its filler read the store, and was cached at most the TTL before the hit |
| `Snapshot.InvalidateHoldsIff` | internal/policy/snapshot.go:82-89 | after Invalidate no Get that starts later hits an older version than was current, exactly if no older fill was in flight; and exactly then no Get at all returns one |
| `Snapshot.OldFillLingers` | internal/policy/snapshot.go:76-89 | an older fill in flight is served stale to other readers for up to the TTL |
| `Snapshot.StaleRun` | internal/policy/snapshot.go:53-89 | a run from the empty store in which version 0 is served from the cache after version 1 was saved and invalidated |
| `Rollup.WindowsAligned` | internal/rollup/window.go:19-37 | both windows are aligned to what they rebuild and contain now |
| `Rollup.WindowsAre` | internal/rollup/window.go:11-37 | in seconds: from two hours before the current hour to its end, and from the day before the current day to its end |
| `Rollup.Warehouse.ComputeHourly` | internal/rollup/hourly.go:15-49 | replaces the window by the grouped requests, or changes nothing |
| `Rollup.Warehouse.ComputeDaily` | internal/rollup/daily.go:17-73 | replaces both daily windows, or changes neither |
| `Rollup.HourlyRecompute` | internal/rollup/hourly.go:22-43 | on an aligned window the job succeeds, the window holds exactly the grouped requests, nothing outside moves, and doing it again changes nothing |
| `Rollup.DailyRecompute` | internal/rollup/daily.go:24-67 | the same for the two daily tables |
| `Rollup.HourlyRowsAreDirect` | internal/rollup/hourly.go:28-43 | every hourly row of the window is the count and the sums over the requests of its application, dimension and hour |
| `Rollup.DailyRowsAreDirect` | internal/rollup/daily.go:30-43 | after both jobs every daily row of the window is the count and the sums over the requests of its application, dimension and day |
| `Rollup.ApplicationRowsAreDirect` | internal/rollup/daily.go:51-67 | and every row of application_daily is that of its application and day, its errors the requests whose status is not ok |
| `Rollup.RequestHasItsRow` | internal/rollup/daily.go:51-67 | every request of the window has its row there |
| `Rollup.TwoLevelsAreDirect` | internal/rollup/daily.go:24-67 | so hourly then daily equals aggregating the requests of each day directly, column by column |
| `RollupTables.SumGroup` | internal/rollup/hourly.go:28-43 | grouping keeps every column's sum |
| `RollupTables.SumCollapse` | internal/rollup/daily.go:54-67 | collapsing provider, model and status keeps every sum, errors counted from the status |
| `RollupRuns.DayExactIffClean` | internal/rollup/daily.go:24-67 | after any run of inserts and ticks a day's totals are right exactly if each of its hours was recomputed after its last insert and the day after that |
| `RollupRuns.DayRowExact` | internal/rollup/daily.go:54-67 | the same said of the one row application_daily holds for the day |
| `RollupRuns.Replay` | internal/rollup/hourly.go:15-49 | a warehouse driven through any operations holds the tables the run theorems speak of |
| `RollupRuns.LateRequestNeverCounted` | internal/rollup/window.go:11-23 | a request stored after its hour left the window keeps the hour's and the day's request counts below the truth, however often the jobs run |
| `RollupRuns.LateRequestStaysOut` | internal/rollup/window.go:11-23 | because neither is ever clean again |
| `RollupRuns.ApplicationRows` | internal/rollup/daily.go:54-67 | there is never more than one row per application and day |
| `Ingest.Queue.Enqueue` | internal/ingest/queue.go:55-63 | accepts exactly if there is room, and counts every drop |
| `Ingest.Writer.Run` | internal/ingest/writer.go:53-114 | the select loop under any schedule is the step function's run |
| `Ingest.AlwaysConserved` | internal/ingest/writer.go:53-114 | in every interleaving flushed batches, buffer and channel together are the accepted records in order, accepted plus dropped is offered, and batches hold 1 to batchSize records |
| `Ingest.RunFresh` | internal/ingest/writer.go:53-114 | a new writer on a new queue under any schedule is the run those theorems speak of |
| `Ingest.DrainEnds` | internal/ingest/writer.go:80-99 | after cancellation with quiet producers one receive more than the channel holds ends the run |
| `Ingest.ShutdownHandsOverEverything` | internal/ingest/writer.go:80-99 | and then every accepted record has been handed to the store exactly once, in order |
| `Ingest.CloseHandsOverEverything` | internal/ingest/writer.go:62-79 | the same after closing the queue without a cancel |
| `Ingest.ShortBatchesAreTicks` | internal/ingest/writer.go:59-112 | a batch is short only because a tick or the end cut it |
| `Framing.JoinLines` | pkg/providers/openai/stream.go:75-81 | splitting a stream into lines loses nothing |
| `Framing.EventsConserve` | pkg/providers/openai/stream.go:69-107 | the events hold the stream's bytes in order but for blank lines that follow a blank line or open the stream |
| `Framing.EventsAreMessages` | pkg/providers/openai/stream.go:69-96 | round trip: any list of events, each a run of worded lines and a blank line, ended by LF or CR LF, with any blank lines between, is split into exactly those events |
| `Framing.LastEvent` | pkg/providers/gemini/stream.go:98-117 | how a stream ends: unclosed lines are an event, a piece of a line is one at the end of the body and lost on a failed read |
| `StreamReaders.OpenAIReader.Next` | pkg/providers/openai/stream.go:69-107 | returns the next of the events up to the one that says done, then EOF; a torn event is returned at the end of the body and lost when the read fails |
| `StreamReaders.DoneMeaning` | pkg/providers/openai/stream.go:102-105 | the reader is done once "data: [DONE]" stands anywhere in an event |
| `StreamReaders.OpenAIConserves` | pkg/providers/openai/stream.go:69-107 | what the client is sent, then the events after the one that says done, are the upstream bytes minus those blank lines |
| `StreamReaders.GeminiReader.Next` | pkg/providers/gemini/stream.go:68-93 | the translated chunks, exactly one [DONE] if the upstream ended, then EOF forever; the read error forever if it broke off |
| `StreamReaders.GeminiReader.ReadUpstreamEvent` | pkg/providers/gemini/stream.go:98-117 | one event, an unterminated last one included, or how the body ended |
| `StreamReaders.OllamaReader.Next` | pkg/providers/ollama/stream.go:66-98 | the chunks of the lines up to the final one, exactly one [DONE], then EOF forever |
| `StreamReaders.TrimMeaning` | pkg/providers/ollama/stream.go:66-70 | a line is trimmed of exactly the white space at both its ends |
| `Paging.DecodeInvertsEncode` | internal/store/requests_query.go:93-115 | a cursor decodes to the key it encodes, bars in the id text included |
| `Paging.Requests.List` | internal/store/requests_query.go:119-167 | the rows at or above the next cursor, in order and none left out, or all of them and no cursor; bad cursors are refused |
| `Paging.AnswerMeaning` | internal/store/requests_query.go:129-166 | an answer lists rows of the organisation that pass every filter, newest first, below the cursor, at most the limit; what it leaves out is below its last row and there is a next cursor |
| `Paging.CursorMeaning` | internal/store/requests_query.go:84-115 | no cursor starts at 1 January 9999; a text splits at its first bar, is invalid without a bar or a readable time, and fails the query without a readable id |
| `Paging.SessionIsWalk` | internal/store/requests_query.go:119-167 | a chain of List answers, each given the cursor text of the one before, is a walk by keys, so all below holds of it |
| `Paging.WalkDescends` | internal/store/requests_query.go:129-143 | following the cursor under any changes to the table never repeats a key or turns the order |
| `Paging.WalkReturns` | internal/store/requests_query.go:129-166 | a row is returned exactly if it was in the table when the page covering its key was fetched |
| `Paging.StayingRowsReturned` | internal/store/requests_query.go:129-166 | a matching row present throughout is returned |
| `Paging.FirstPageSeesAll` | internal/store/requests_query.go:84-101 | an empty cursor starts above every matching row exactly if none is dated at or past the maximal cursor |
| `Paging.StillWalk` | internal/store/requests_query.go:119-167 | on a table that stands still the walk lists every matching row once in PagesFor(n) pages, and does end |
| `Paging.PagesForIsCeiling` | internal/store/requests_query.go:161-165 | PagesFor(n) is ceil(n / limit), and 1 for nothing |
| `RobustStats.MedianOfMajority` | internal/detect/anomaly.go:303-312 | the median lies between any bounds that hold a strict majority of the samples |
| `RobustStats.MADOfMajority` | internal/detect/anomaly.go:290-301 | so the MAD is bounded by the spread of any strict majority |
| `RobustStats.MedianHalves` | internal/detect/anomaly.go:303-312 | no range on one side of the median holds more than half of the samples |
| `RobustStats.MedianIgnoresOrder` | internal/detect/anomaly.go:303-312 | the median depends on the samples as a multiset |
| `RobustStats.MedianMeaning` | internal/detect/anomaly.go:303-312 | the middle of any sorted rearrangement, or halfway between its middle two |
| `RobustStats.MADMeaning` | internal/detect/anomaly.go:290-301 | 1.4826 times the median of the distances from the median |
| `RobustStats.ZMeaning` | internal/detect/anomaly.go:318-329 | the score passes the threshold exactly if the deviation exceeds 3.5 MADs, a zero MAD included, and has the deviation's sign |
| `AnomalyRuns.Extract` | internal/detect/anomaly.go:201-271 | terminates with one candidate for each maximal run of two or more hot hours, in order and disjoint |
| `AnomalyRuns.Describe` | internal/detect/anomaly.go:217-261 | a candidate names its run's first strongest hour, its greatest error spike and its requests, and is severe exactly if one of its hours is |
| `AnomalyRuns.WindowsCoverHotPairs` | internal/detect/anomaly.go:203-215 | an hour lies in exactly one window if it is hot with a hot neighbour, and in none otherwise |
| `TrafficAnomaly.DetectTrafficAnomaly` | internal/detect/anomaly.go:92-273 | nothing without 14 days of history; otherwise the runs of the 48 scored hours |
| `TrafficAnomaly.BuildBaselines` | internal/detect/anomaly.go:116-158 | a baseline for exactly the slots with three samples, made of those samples' medians and MADs |
| `TrafficAnomaly.HotMeaning` | internal/detect/anomaly.go:171-199 | an hour is hot exactly if its slot has three samples and one of four metrics deviates from them by more than 3.5 MADs |
| `TrafficAnomaly.SlotRowsMeaning` | internal/detect/anomaly.go:116-127 | an hour's past is the rows of the 28 days before now, less the last 48 hours, that lie whole weeks from it |
| `TrafficAnomaly.ScoreMeaning` | internal/detect/anomaly.go:160-199 | an hour with three samples is given the strongest of its four metrics, first of equals, each with its own value and median, the score of its cost and its error rate above the median's; with fewer, nothing |
| `TrafficAnomaly.BaselinesIgnoreEvaluatedHours` | internal/detect/anomaly.go:116-127 | no baseline depends on the 48 evaluated hours |
| `TrafficAnomaly.HotDependsOnOwnRow` | internal/detect/anomaly.go:171-199 | of the 48 hours only its own row decides whether an hour is hot |
| `Canonical.ParseCanonicalRequest` | pkg/types/canonical.go:62-146 | accepts exactly the bodies whose known fields are readable and whose model is not empty, and fills every field accordingly |
| `Canonical.AcceptedIff` | pkg/types/canonical.go:62-138 | acceptance in JSON shapes: a model text, lists, numbers, int64 literals, a stop that is a text or a list of texts and nulls, a boolean stream; all but the model may be absent or null |
| `Canonical.ParsedMeaning` | pkg/types/canonical.go:62-143 | what each accepted shape parses to |
| `Canonical.PrintRequest` | pkg/types/canonical.go:153-215 | prints exactly the fields that are set, over the extra ones |
| `Canonical.ExtraIsApart` | pkg/types/canonical.go:140-143 | Extra holds exactly the unmodelled fields |
| `Canonical.PrintedIsNormalised` | pkg/types/canonical.go:153-215 | parsing then printing is field-by-field normalisation; tool_choice, response_format and unmodelled fields are untouched |
| `Canonical.RoundTripIff` | pkg/types/canonical.go:148-215 | the printed request parses, and to the same request exactly if `stop` was not an empty array |
| `Canonical.EmptyStopIsLost` | pkg/types/canonical.go:148-215 | the example: a body of a model and an empty `stop` is accepted, and comes back without one |
| `Canonical.PrintSettles` | pkg/types/canonical.go:153-215 | a second round prints the same body |

## Left out

- HTTP routing, sessions, the dashboard, provider network calls and the translation of provider JSON: plumbing; translation is a parameter of the Gemini and Ollama readers, and usage extraction is dropped.
- IEEE-754 rounding: floats are exact reals, so a result at a rounding boundary is not modelled; integers are unbounded except where the request parser checks the int64 range.
- Postgres, Redis and pgx internals, and their failures, except that the guard fails open: each statement, transaction or script is one atomic step, in the UTC session time zone the date casts assume.
- Calendar dates are UTC; AddDate by 7 or 14 days is 7 or 14 times 86400 seconds.
- Retention and deletions of any kind: every table only gains or updates rows, but for the rollup windows.
- Names, keys, ids, fingerprints and JSON leaves are numbers of which only equality matters; cursor time and uuid texts are a codec assumed lossless, and base64 is left out because it is a bijection.
- Cap, ProjectMonthly for other detectors, confidence tiers, titles, summaries, evidence JSON, duplicate shapes and fingerprints: formatting or clamping around the modelled results.
- MeasureRunner.Runner.Run: reports of failing checks are left out; each store call succeeds.
- ControlPlaneRuns.AlwaysGood: a check's two reads of requests and history are one step, so are the clock reading, the period statistics and the Create of an apply's freeze, and Snapshot invalidation after a save is modelled in its own module.
- ControlPlaneRuns.NothingIsRewritten: deletions are left out. Retention deletes dismissed and stale opportunities after 180 days (internal/store/retention.go), and the foreign keys then clear opportunity_id and simulation_id of their history rows (db/migrations/00007_policies.sql); an apply whose opportunity was dismissed between its save and its transition loses that column in the end.
- ControlPlaneRuns.HistoryIsFaithful: assumes clients name versions they have fetched, because the put endpoint does not check it; GuessedVersionMisleads shows what happens otherwise.
- Ingest.Writer.Run: a failed InsertBatch loses its batch in the original after logging; here `batches` is what the store was handed. A queue of capacity 0 would be unbuffered in the original and is not modelled.
- Rollup.Warehouse.ComputeHourly: the org id in the grouping keys is left out, an application belonging to one org.
- StreamReaders.OllamaReader.Next: TrimSpace strips the ASCII spaces only; the Unicode ones are left out.
- Canonical.ParseCanonicalRequest: number texts are a value and whether they are plain integers; a float out of range cannot occur, and duplicate keys are resolved before the model.
- TrafficAnomaly.DetectTrafficAnomaly: the evidence series is left out; rows of one bucket given twice are kept in input order.
- Rate limiter, login limiter, scoring, model-cost and token-efficiency detectors, credentials, retention, slugs and the scheduler: one-branch facts or the same TTL cache again.
