# Orbit kernel: a verified model

This project models the stateful core of the Orbit kernel in Dafny 4.11 and proves what its
code guarantees. `dafny verify dfyconfig.toml` checks everything.

| area | files |
|---|---|
| exact arithmetic, text, JSON, sorting, selection, spacing of events | `common`, `exact`, `text`, `json`, `sorting`, `selection`, `spacing` |
| digital twin and forecast | `replay`, `replay_theorems`, `forecast`, `cross_layer` |
| ledger, anomaly rule, health score, default account | `ledger`, `account_races` |
| Blueprint validation and versioning | `blueprint`, `versions`, `version_theorems` |
| Blueprint handlers, automations, loader cache | `handlers`, `handler_theorems`, `handler_races`, `blueprint_status`, `loader_races` |
| JSON mapper | `mapping`, `picker`, `mapping_rules` |
| intelligence: scheduler, notifications, bus and manager, reasoning | `scheduler`, `scheduler_theorems`, `notifications`, `intelligence`, `intelligence_theorems`, `cycle_races`, `reasoning`, `recommendations` |
| provider catalog, subscriptions and company resolution | `catalog`, `tenancy` |

How the model reads the code:

- A Postgres table is a sequence or map held in a class field, and one statement or transaction
  is one step; deleting a definition deletes its logged runs, as the schema says. Methods are
  proved equal to functions on the whole state; the theorems are about those functions.
- What an operation promises is also stated apart from the functions it is computed with: which
  definitions run, which pairs start, which findings are stored or kept, which payloads are
  accepted, each written out over the records themselves.
- A method is a whole handler. `HandlerRaces` cuts the publish and restore handlers at their
  awaits and lets the handlers of all companies interleave and fail;
  `HandlerRaces.UninterruptedIsWhole` says that the pieces of one handler in a row are the
  method. `LoaderRaces` does the same for the cache, `AccountRaces` for the default account and
  `CycleRaces` for the intelligence cycle. Everything else is one step a call.
- Money is a whole number of cents. Averages, ratios and projected balances are exact
  rationals, so rounding to two decimals is rounding to a whole cent, ties to even.
- Time is an integer number of microseconds. Where a call reads the clock several times the
  readings are those of one clock that never runs backwards.
- `float` on text, Python's `==`, `str(...).lower()` containment, the rendered alert message and
  the end of a calendar month are parameters; every theorem holds whatever they are.
- A failing job, a failing cycle and a failing check are inputs, so every theorem covers every
  combination of failures.

Where the code and its comments differ, the model follows the code:

- Day 0 of a simulation applies no scenario, so a scenario due on day 0 (the default
  `day_offset`) is applied once less often than the comments say:
  `ReplayTheorems.AppliedAsAnnouncedIffNotDueOnDayZero` gives the exact condition.
- `compare` ignores the two governance fields: `VersionTheorems.IdenticalMeansSameIff`,
  `VersionTheorems.IdenticalButDifferent`.
- Signup publishes a Blueprint without syncing its automation:
  `HandlerTheorems.SignupInSyncIff`, and with the Kenya default that matters:
  `HandlerTheorems.KenyaSignupIsNotAlerted`.
- `_sync_blueprint_automations` calls itself idempotent: always the old automation goes first.
  Two handlers of one company that overlap can leave two alerts (`HandlerRaces.TwoAlerts`) or
  the alert of a Blueprint already replaced (`HandlerRaces.FirstSyncsLast`);
  `HandlerRaces.InStepIff` says exactly when the company is in step, and handlers that do not
  overlap keep it so (`HandlerRaces.OrderlyRunsKeepSync`). Each sync also erases what the alert
  has logged (`HandlerTheorems.LoggedAlertIsLost`).
- After a restore the engine's status keeps an older version:
  `BlueprintStatus.UpToDateIffPublished`, `BlueprintStatus.RestoreLeavesStatusBehind`; so it does
  when two publishes are heard out of order: `BlueprintStatus.HeardOutOfOrder`.
- Getting the default account is called safe from duplicates; two calls that overlap make two:
  `AccountRaces.DuplicatesIffOverlap`, `AccountRaces.TwoAccounts`.
- The engine does nothing for a company that is off; a cycle past its gate goes on all the same:
  `CycleRaces.GoesOnWhileOffIff`, `CycleRaces.WritesWhileOff`.
- A load can leave a stale cache entry behind: `LoaderRaces.StaleIffLastWriteLate` says exactly
  when, `LoaderRaces.LateWriteHappens` gives the interleaving.
- A disabled `forecast` capability can still lead to a recommendation:
  `Reasoning.DisabledNeverRecommendedIff`, `Reasoning.DisabledForecastIsRecommended`.
- Notification dedup is by kind, whatever the severity, so an "info" row can silence a critical
  finding: `Notifications.SilencedIffKindIsRecent`, `Notifications.InfoSilencesCritical`.
- The mapper promises that one flattening logic backs both the picker and `apply_mapping`. It
  does exactly for payloads without dotted keys and without an object under an empty top-level
  key (`Picker.FaithfulIffClean`, `Picker.DottedKeyIsLost`, `Picker.EmptyTopIsLost`), and the rule validator then strips the chosen path, which the
  picker does not: a picked path finds its own leaf exactly when its first key does not begin
  with whitespace and its last does not end with it (`MappingRules.PickedRule`).

## Model

| member | source | states |
|---|---|---|
| `Replay.Simulate` | replay/simulator.py:38-96 | straight from the scenarios as sent: day 0 is the ledger's balance, every later day adds a thirtieth of the month's net and the amounts due that day, and the report describes those days up to the clamped horizon; the call fails exactly when some scenario has another kind or no amount, and says what is wrong with the first; the report is also that of the closed form start + d * net / 30 + sum of amount * firings |
| `Replay.ParseAllOkIff` | replay/simulator.py:78-88 | the scenarios parse, each to its own, exactly when each one does |
| `Replay.FirstFailureDecides` | replay/simulator.py:78-88 | otherwise the first that does not parse decides the error |
| `Replay.Walk` | replay/simulator.py:46-74 | for any course of balances that obeys the daily step, the loop reports its first minimum, first negative day, rounded end and sampled series |
| `Replay.ApplyDay` | replay/simulator.py:54-55 | the inner loop adds the day's scenario amounts, no more |
| `Replay.ClampHorizon` | replay/simulator.py:39 | the horizon is always 1 to 365, a horizon already there is kept and any other moved to the nearer end |
| `Replay.FiresStep` | replay/simulator.py:90-96 | the floor-division firing count grows by one exactly on the days the day-by-day rule fires, negative offsets included |
| `Replay.BalanceStep` | replay/simulator.py:51-55 | the closed form advances by the daily net plus the day's firings |
| `ReplayTheorems.ReorderingChangesNoDay` | replay/simulator.py:54-55 | permuting the scenarios changes no day's balance and no report |
| `ReplayTheorems.AppliedAsAnnouncedIffNotDueOnDayZero` | replay/simulator.py:30-31 | a scenario is applied as often as its comment announces exactly when it is not due on day 0 |
| `ReplayTheorems.NegativeIffMinimumNegative` | replay/simulator.py:57-61 | a negative day is reported exactly when the minimum is negative, and then no later than the minimum |
| `ReplayTheorems.ReportUnique` | replay/simulator.py:66-76 | the specification of a report has one solution, series included |
| `ReplayTheorems.SeriesShape` | replay/simulator.py:63-64 | the series runs from day 0 to the horizon in 2 to 60 points |
| `ReplayTheorems.SampledIff` | replay/simulator.py:63-64 | the days shown are the last and the multiples of a thirtieth of the horizon, rounded down, or of one |
| `Exact.RoundIsNearest` | financial_graph/graph.py:191-196 | rounding gives the nearest whole cent, the even one of two, and nothing else is that |
| `Forecasting.ProjectionsAreWhole` | kernel/intelligence_engine/forecasting_engine.py:19-23 | the projections are balance + net and balance + 3 * net exactly: nothing is rounded |
| `Forecasting.ReplayEndsOnForecast` | kernel/intelligence_engine/forecasting_engine.py:19-28 | without scenarios the 30 and 90 day replays end on the two projections |
| `Forecasting.NegativeIffForecastCritical` | kernel/intelligence_engine/forecasting_engine.py:30-41 | over every summary, replay goes negative exactly when the finding is critical, except exactly when the account is overdrawn and recovers within the month |
| `Forecasting.OverdrawnRecovery` | replay/simulator.py:60-61 | such an account |
| `CrossLayer.InflowLowersNoProjectedDay` | replay/simulator.py:42-55 | recording an inflow lowers no day of any simulation and neither projection |
| `Ledger.FinancialGraph.RecordTransaction` | financial_graph/graph.py:83-141 | refused for its direction, else for its amount, changing nothing; otherwise one row of just what was asked for at the given instant or now, flagged when it is an outflow and amount * count > 3 * total over the outflows of its company in the last thirty days |
| `Ledger.FinancialGraph.EnsureDefaultAccount` | financial_graph/graph.py:58-81 | without interruption, returns the oldest account of the company, creating one only when there is none |
| `AccountRaces.UninterruptedIsEnsure` | financial_graph/graph.py:63-81 | the SELECT and the INSERT of one call in a row are that method |
| `AccountRaces.DuplicatesIffOverlap` | financial_graph/graph.py:58-81 | over every interleaving a company without an account ends with more than one exactly when a call that had found none inserts after another has |
| `AccountRaces.TwoAccounts` | financial_graph/graph.py:63-81 | look, look, insert, insert |
| `Ledger.FinancialGraph.HealthScore` | financial_graph/graph.py:200-241 | the nearest whole number, ties to even, to 34, 17 or 0 points for the month, 33 sixths of a point for each month of runway up to six, and 33 points less one for each percent of anomalies; strong from 70, watch from 40 |
| `Ledger.FlaggedIff` | kernel/rule_engine/engine.py:53-60 | a row is flagged exactly when it is an outflow, the window holds outflows, and amount * count > 3 * total |
| `Ledger.PartsStayInRange` | financial_graph/graph.py:213-238 | the parts stay within 34, 33 and 33 points, so the final clamp never binds |
| `Ledger.FullMarksIff` | financial_graph/graph.py:213-231 | a hundred points exactly for a positive month, six months of runway and no anomaly |
| `Ledger.NoPointsIff` | financial_graph/graph.py:213-231 | no points exactly for a losing month, nothing left against a burn, and 33 anomalies to every 100 transactions |
| `Ledger.SummaryOfNothing` | financial_graph/graph.py:160-198 | an empty ledger has nothing in any figure |
| `Ledger.SummaryOfAppend` | financial_graph/graph.py:160-198 | what one more row does to each of the six figures of any company's summary |
| `Ledger.InflowNeverLowersHealth` | financial_graph/graph.py:200-241 | for every ledger, recording an inflow never lowers the score or label at that instant and leaves other companies' summaries alone |
| `Ledger.OutflowInTheRedNeverLowersHealth` | financial_graph/graph.py:223-232 | with balance and month in the red an unflagged outflow never lowers the score either |
| `Blueprint.ValidateMeans` | kernel/company_blueprint/validator.py:77-133 | exactly which payloads are accepted and as exactly which Blueprint, field by field over the JSON sent |
| `Blueprint.RefusalIsFirst` | kernel/company_blueprint/validator.py:77-133 | a refusal speaks of the first field that cannot be read |
| `Blueprint.ValidateIsWellFormed` | kernel/company_blueprint/validator.py:77-133 | whatever is accepted has stripped known words, a threshold that is not negative, capabilities, and no empty category list |
| `Blueprint.SnapshotValidates` | kernel/company_blueprint/version_manager.py:42-53 | every well-formed Blueprint, read back from its snapshot, validates to itself |
| `Blueprint.ValidateIdempotent` | kernel/company_blueprint/validator.py:77-133 | validating the output again gives the same output |
| `Blueprint.OrbitIsSensible` | kernel/company_blueprint/validator.py:16-70 | the shipped vocabulary meets what the theorems ask of one |
| `Versions.CommitKeepsValid` | kernel/company_blueprint/version_manager.py:97-141 | the publish transaction keeps every company's history at versions 1..n with the active row equal to snapshot n |
| `Versions.VersionManager.PublishBlueprint` | kernel/company_blueprint/version_manager.py:91-143 | validates, upserts and appends as one step, or changes nothing; old history is a prefix |
| `Versions.VersionManager.RestoreVersion` | kernel/company_blueprint/version_manager.py:194-219 | republishes the stored snapshot, with the two error cases, and keeps the invariant |
| `Versions.VersionManager.CompareVersions` | kernel/company_blueprint/version_manager.py:221-245 | each of five fields is listed, in their order, exactly when its values in the two versions differ, with the older version's value first, or nothing is when a version is missing |
| `VersionTheorems.RunKeepsHistory` | kernel/company_blueprint/version_manager.py:91-143 | over every run the invariant holds and each earlier history is a prefix of each later one |
| `VersionTheorems.VersionNeverChanges` | kernel/company_blueprint/version_manager.py:176-192 | a version once readable reads the same after any run |
| `VersionTheorems.ActiveIsNewestSnapshot` | kernel/company_blueprint/version_manager.py:97-141 | in every run the active row is the newest snapshot, and exists exactly when there is a history |
| `VersionTheorems.RestoreRoundTrip` | kernel/company_blueprint/version_manager.py:194-219 | restoring a written snapshot gives version n+1 with the same seven fields |
| `VersionTheorems.RestoreSucceedsExactly` | kernel/company_blueprint/version_manager.py:194-219 | in every run restore succeeds exactly on versions 1..n, otherwise refuses and changes nothing |
| `VersionTheorems.LegacyRestore` | kernel/company_blueprint/version_manager.py:211-218 | a snapshot without governance keys restores with every capability and no category limit |
| `VersionTheorems.RestoreMeans` | kernel/company_blueprint/version_manager.py:194-219 | restoring any snapshot at all: refused without the version, a crash without one of the five keys, otherwise what the validator makes of it |
| `VersionTheorems.IdenticalMeansSameIff` | kernel/company_blueprint/version_manager.py:227-245 | versions called identical are the same exactly when their governance fields agree too |
| `VersionTheorems.IdenticalButDifferent` | kernel/company_blueprint/version_manager.py:227-245 | two publishes from the empty store whose versions compare as identical but allow different capabilities |
| `Handlers.WorkflowEngine.BlueprintPublish` | kernel/workflow_engine/engine.py:205-223 | owner check, publish, invalidate, sync, event, in one equation on the whole state, logged runs included |
| `Handlers.WorkflowEngine.BlueprintRestore` | kernel/workflow_engine/engine.py:229-250 | the same for restore, with its own error answers |
| `Handlers.WorkflowEngine.SyncBlueprintAutomations` | kernel/workflow_engine/engine.py:264-290 | drops the reserved definitions of the company with the runs they logged and adds the wanted one |
| `Handlers.WorkflowEngine.EvaluateAndRun` | kernel/workflow_engine/automation.py:86-151 | the rows logged are, newest first, one for each definition of the company that is enabled, has the trigger, and has no condition or one of the seven comparisons that holds |
| `Handlers.WorkflowEngine.GraphCreate` | kernel/workflow_engine/engine.py:818-824 | a manual transaction emits its event and adds just those rows to the log |
| `HandlerTheorems.RecordEvaluates` | kernel/workflow_engine/automation.py:86-151 | recording adds those rows and changes nothing else; none is another company's |
| `HandlerTheorems.OthersAutomationsDoNotRun` | kernel/workflow_engine/automation.py:86-99 | kernels with the same definitions of the company log the same, whatever other companies have defined |
| `HandlerTheorems.CreatedRunsFirst` | kernel/workflow_engine/automation.py:67-86 | a new automation leads what the next transaction logs exactly when it applies, and changes nothing else of it |
| `Handlers.WorkflowEngine.WorkflowsCreate` | kernel/workflow_engine/engine.py:1398-1409 | adds the definition and emits its event |
| `Handlers.WorkflowEngine.Signup` | kernel/kernel_api/auth_routes.py:112-118 | publishes the default Blueprint and does nothing else |
| `Handlers.WorkflowEngine.Load` | kernel/company_blueprint/loader.py:27-40 | answers from the cache, else from the row, which it caches; a missing row is not cached |
| `HandlerTheorems.SyncSyncs` | kernel/workflow_engine/engine.py:264-290 | after a sync there is exactly the wanted alert under the reserved name, and every other definition is untouched |
| `HandlerTheorems.AlertRunsIff` | kernel/workflow_engine/automation.py:125-162 | in step, a transaction logs one alert run exactly when amount >= threshold, and none otherwise |
| `HandlerTheorems.SignupAnswer` | kernel/kernel_api/auth_routes.py:112-118 | what signing up leaves: the default as the next version in row and history, and everything else untouched |
| `HandlerTheorems.SignupInSyncIff` | kernel/kernel_api/auth_routes.py:112-118 | a new company starts in step exactly when its first Blueprint asks for no alert |
| `HandlerTheorems.KenyaSignupIsNotAlerted` | country_packages/kenya/defaults/__init__.py:17-23 | whoever signs up with the Kenya default starts out of step: a threshold of 100000 and no alert whatever is recorded |
| `HandlerTheorems.DeleteLosesTheAlertsRuns` | migrations/003_workflows.sql:22-30 | the DELETE loses exactly the runs logged for the reserved name of the company; the others stay in order |
| `HandlerTheorems.LoggedAlertIsLost` | kernel/workflow_engine/engine.py:274-279 | publish, record at or above the threshold, publish: the run just logged is gone |
| `HandlerTheorems.PublishAnswer` | kernel/workflow_engine/engine.py:205-223 | refused and unchanged, or version n+1 of the validated content, one event, no cache entry, and a logged run survives exactly when it was not the old alert's |
| `HandlerTheorems.RestoreAnswer` | kernel/workflow_engine/engine.py:229-250 | the same for a restore, everything decided by owner, version and n |
| `HandlerTheorems.LoadReturnsActive` | kernel/company_blueprint/loader.py:27-44 | with handlers run one at a time, every load after every run returns the active row |
| `HandlerTheorems.LoadCaches` | kernel/company_blueprint/loader.py:27-40 | a load caches just what it returns, so the next returns it again |
| `HandlerRaces.UninterruptedIsWhole` | kernel/workflow_engine/engine.py:205-250 | commit, invalidate, DELETE, INSERT and event of one handler in a row are the whole handler |
| `HandlerRaces.InStepIff` | kernel/workflow_engine/engine.py:205-290 | under every interleaving and failure, a company is in step exactly when the alerts inserted since its last DELETE are those its last commit asks for |
| `HandlerRaces.OrderlyRunsKeepSync` | kernel/workflow_engine/engine.py:205-290 | if the handlers of one company neither overlap nor fail, whatever the others do, it is in step whenever none is half-way, once it has been or has committed |
| `HandlerRaces.AlertFollowsBlueprint` | kernel/workflow_engine/automation.py:125-162 | and a transaction recorded then logs the alert exactly when it reaches the threshold of the Blueprint then active |
| `HandlerRaces.TwoAlerts` | kernel/workflow_engine/engine.py:274-290 | two publishes that both DELETE before either INSERTs leave two alerts |
| `HandlerRaces.FirstSyncsLast` | kernel/workflow_engine/engine.py:208-216 | a publish that syncs after a later one has finished leaves its own threshold with the other's Blueprint, in step only if they are equal |
| `HandlerRaces.RunKeepsTables` | migrations/003_workflows.sql:11-30 | under every interleaving definition ids stay unique and every logged run has its definition |
| `BlueprintStatus.UpToDateIffPublished` | kernel/intelligence_engine/manager.py:164-171 | over every run in which its handlers do not overlap, a company's intelligence status holds the active version exactly when that was committed by a publish, not by a restore or signup |
| `BlueprintStatus.BelievesLastHeard` | kernel/intelligence_engine/manager.py:164-171 | however handlers overlap and fail, it holds the version of the last publish event, so it is up to date exactly when that is the current version |
| `BlueprintStatus.EmittedAreTheEvents` | kernel/workflow_engine/engine.py:218-222 | what the engine hears is what the handlers append to the event log |
| `BlueprintStatus.RestoreLeavesStatusBehind` | kernel/workflow_engine/engine.py:229-250 | publish, then restore version 1: version 2 is active and the status says 1 |
| `BlueprintStatus.HeardOutOfOrder` | kernel/workflow_engine/engine.py:205-223 | two publishes committed in one order and heard in the other leave the older version |
| `LoaderRaces.UninterruptedIsWhole` | kernel/company_blueprint/loader.py:27-44 | the steps of one load, or of one handler, in a row are the whole of it |
| `LoaderRaces.EveryRunOnlyCommitted` | kernel/company_blueprint/loader.py:27-44 | under every interleaving of loads, publishes, restores and signups each cached or held Blueprint is a committed version of that company |
| `LoaderRaces.LateIff` | kernel/company_blueprint/loader.py:31-40 | a write caches a replaced row with no invalidation to come exactly when a commit fell between its read and the write and every handler had invalidated |
| `LoaderRaces.StaleIffLastWriteLate` | kernel/company_blueprint/loader.py:27-44 | under every interleaving, for companies there from the start or signed up since, once every handler of a company has invalidated its entry is stale exactly when the last write not dropped since was late |
| `LoaderRaces.LateWriteHappens` | kernel/company_blueprint/loader.py:31-40 | the five steps after which an old row stays cached |
| `LoaderRaces.LateWriteRepaired` | kernel/company_blueprint/loader.py:31-40 | a load that read the new row and writes after the late one puts the entry right |
| `Mapping.GetNested` | kernel/company_blueprint/mapping_engine.py:52-62 | a value is found exactly when the parts of the path lead to it, object by object, found kept apart from null |
| `Mapping.FlattenPrintsTheLeaves` | kernel/company_blueprint/mapping_engine.py:65-77 | flatten_keys prints exactly the leaves of the tree, one path each, in order |
| `Mapping.LeavesAreSound` | kernel/company_blueprint/mapping_engine.py:65-77 | every listed place resolves to its leaf |
| `Mapping.LeavesAreComplete` | kernel/company_blueprint/mapping_engine.py:65-77 | every place that resolves to a leaf is listed |
| `Mapping.LeavesAreDistinct` | kernel/company_blueprint/mapping_engine.py:65-77 | no place is listed twice |
| `Picker.FaithfulIffClean` | kernel/company_blueprint/mapping_engine.py:52-77 | the printed paths are distinct and each leads back to its own leaf exactly when no key has a dot and no object sits under an empty top-level key |
| `Picker.DottedKeyIsLost` | kernel/company_blueprint/mapping_engine.py:52-77 | the key "a.b" is listed under a path that finds nothing |
| `Picker.EmptyTopIsLost` | kernel/company_blueprint/mapping_engine.py:71-76 | so is a key inside an object under an empty top-level key |
| `Text.StripStrips` | kernel/company_blueprint/mapping_engine.py:87-88 | stripping cuts whitespace off both ends and leaves none there |
| `MappingRules.CleanRuleIs` | kernel/company_blueprint/mapping_engine.py:86-94 | exactly which rules are accepted, as what, and what is said of the others |
| `MappingRules.ValidateFieldRules` | kernel/company_blueprint/mapping_engine.py:80-99 | accepts exactly lists whose rules are clean with distinct targets, else reports the first failure |
| `MappingRules.ApplyMapping` | kernel/company_blueprint/mapping_engine.py:102-111 | later rules win; missing sources are warned about in order |
| `MappingRules.LastFoundDecides` | kernel/company_blueprint/mapping_engine.py:102-111 | a field holds what the last rule for it that finds anything found |
| `MappingRules.MissingInOrder` | kernel/company_blueprint/mapping_engine.py:102-111 | the warnings are one for each rule whose source is not found, in rule order |
| `MappingRules.NoWarningIff` | kernel/company_blueprint/mapping_engine.py:102-111 | no warning exactly when every source resolves |
| `MappingRules.OneFieldOrWarningEach` | kernel/company_blueprint/mapping_engine.py:102-111 | with distinct targets, fields plus warnings count the rules |
| `MappingRules.PickedRule` | kernel/company_blueprint/mapping_engine.py:65-99 | on clean keys a validated picked rule looks for its leaf's keys with the two ends stripped: its own leaf exactly when neither end has whitespace to lose |
| `MappingRules.PickedRulesMap` | kernel/company_blueprint/mapping_engine.py:65-111 | validated picked rules each yield what their stripped path finds or a warning, and none warns exactly when all find something |
| `MappingRules.CleanPicksMap` | kernel/company_blueprint/mapping_engine.py:65-111 | with clean ends, one canonical field a rule, each holding its own leaf, and no warning |
| `MappingRules.StrippedPathIsLost` | kernel/company_blueprint/mapping_engine.py:87-88 | a payload whose one key begins with a space: the picked rule warns |
| `MappingRules.StrippedPathMisleads` | kernel/company_blueprint/mapping_engine.py:87-88 | two keys that differ by a leading space: the rule picked for the first reads the second |
| `Spacing.WindowBound` | kernel/intelligence_engine/scheduler.py:20-22 | events a gap apart: at most length / gap + 1 in any window |
| `Scheduler.IntelligenceScheduler.IsDue` | kernel/intelligence_engine/scheduler.py:86-95 | due when never stamped or the stamp is at least the interval old, at one clock reading |
| `Scheduler.IntelligenceScheduler.RunDueJob` | kernel/intelligence_engine/scheduler.py:97-112 | stamps the pair whether or not the job raises |
| `Scheduler.IntelligenceScheduler.RunTick` | kernel/intelligence_engine/scheduler.py:74-84 | every reading, start and stamp of the tick: pair by pair in the order of the grid, each started if it has lapsed at its own check, to the end or to the first whose job raises |
| `Scheduler.IntelligenceScheduler.Loop` | kernel/intelligence_engine/scheduler.py:66-72 | a tick that aborts does not end the loop |
| `SchedulerTheorems.StartsInWindow` | kernel/intelligence_engine/scheduler.py:86-112 | over every run of ticks starts of one job for one company are its interval apart, bounding any window |
| `SchedulerTheorems.TickStartsLapsed` | kernel/intelligence_engine/scheduler.py:74-95 | after any run the next tick starts a pair, once, exactly when it gets that far and the pair has no stamp or one at least its interval older than the reading at its check |
| `SchedulerTheorems.FirstTickStartsAll` | kernel/intelligence_engine/scheduler.py:74-95 | from an empty table a tick without failure starts every job of every active company once |
| `SchedulerTheorems.LapsesAfter` | kernel/intelligence_engine/scheduler.py:35-41 | how long after its stamp each of the five jobs lapses |
| `SchedulerTheorems.SweepProgress` | kernel/intelligence_engine/scheduler.py:74-84 | a tick attempts every due pair or aborts having attempted at least one |
| `SchedulerTheorems.AllDueAttempted` | kernel/intelligence_engine/scheduler.py:66-112 | from D due pairs, none becoming due, D ticks attempt them all whatever fails |
| `Notifications.NotificationEngine.Notify` | kernel/intelligence_engine/notification_engine.py:30-85 | the loop over findings, or a refusal when the stored minimum has no rank |
| `Notifications.MinimumIs` | kernel/intelligence_engine/notification_engine.py:79-85 | which minimum a company has, and which of them are refused |
| `Notifications.StoredIffNotHeldBack` | kernel/intelligence_engine/notification_engine.py:34-77 | after any run a finding of the next call is stored, with all it says, exactly when it is severe enough and the table has no row of its company, its kind and the last six hours |
| `Notifications.OthersRowsDoNotMatter` | kernel/intelligence_engine/notification_engine.py:40-52 | a call stores the same whatever rows other companies have |
| `Notifications.OthersAreSpared` | kernel/intelligence_engine/notification_engine.py:54-77 | and adds no row of theirs |
| `Notifications.StoredInWindow` | kernel/intelligence_engine/notification_engine.py:40-52 | over every run rows of one company and kind are more than six hours apart, bounding any window |
| `Notifications.StoresExactlyAccepted` | kernel/intelligence_engine/notification_engine.py:34-77 | a call of any length stores exactly the findings at or above the threshold whose own check finds no recent row, from before or of the call, in order, each with its row |
| `Notifications.ShortCallStoresFirstFree` | kernel/intelligence_engine/notification_engine.py:34-77 | a call no longer than six hours stores exactly the first finding of each kind whose own check finds no earlier row |
| `Notifications.SilencedIffKindIsRecent` | kernel/intelligence_engine/notification_engine.py:40-52 | over every run a finding at or above the threshold, critical or not, gets no row exactly when the table holds one of its kind inside the window at its check |
| `Notifications.InfoSilencesCritical` | kernel/intelligence_engine/notification_engine.py:40-52 | a run in which an info row keeps a critical finding out |
| `Intelligence.Kernel.SubscribeObserver` | kernel/intelligence_engine/observer.py:59-83 | every observed event gets exactly one handler and no other event any |
| `Intelligence.Kernel.PublishEvent` | kernel/event_bus/bus.py:35-49 | the re-entrant publish equals a flat description without recursion, and nests at most two deep |
| `Intelligence.Kernel.Handle` | kernel/intelligence_engine/observer.py:62-78 | a failing cycle goes no further than the handler |
| `Intelligence.Kernel.RunCycle` | kernel/intelligence_engine/manager.py:122-162 | gate, stages up to the failure, stamp, one event; raises exactly when an active company's cycle fails |
| `Intelligence.Kernel.ActivateCompany` | kernel/intelligence_engine/manager.py:50-74 | the upsert that keeps the first activation instant |
| `Intelligence.Kernel.DeactivateCompany` | kernel/intelligence_engine/manager.py:76-86 | switches off an existing row, otherwise nothing |
| `IntelligenceTheorems.ObservedIsSound` | kernel/intelligence_engine/observer.py:28-56 | the observed names are distinct and do not include the cycle's own event |
| `IntelligenceTheorems.ObservedEvent` | kernel/intelligence_engine/manager.py:122-171 | corollary of `Intelligence.Kernel.PublishEvent`: an observed event of an active company adds two rows in order and one full cycle, of an inactive one a single row and nothing else |
| `IntelligenceTheorems.StampsTellLastCycles` | kernel/intelligence_engine/manager.py:144-162 | over every run the two stamps are the instants of the last completed cycle, and of the last one not scheduled, while the company was on |
| `IntelligenceTheorems.StatusTellsSwitches` | kernel/intelligence_engine/manager.py:50-86 | over every run there is a row and preferences exactly for who was ever switched on, telling when first, with which version last, and since when off |
| `IntelligenceTheorems.ActiveIffLastSwitchedOn` | kernel/intelligence_engine/manager.py:88-93 | over every run a company is active exactly when its last switch was an activation |
| `IntelligenceTheorems.WritesOnlyWhileActive` | kernel/intelligence_engine/manager.py:122-124 | with each cycle in one piece, nothing is written for a company that was not active just before |
| `CycleRaces.UninterruptedIsCycle` | kernel/intelligence_engine/manager.py:122-162 | gate, stages, stamp and event in a row, as far as they get, are the cycle |
| `CycleRaces.GoesOnWhileOffIff` | kernel/intelligence_engine/manager.py:122-162 | under every interleaving a cycle goes on for a company that is off exactly when it was switched off after the cycle's gate and not on again |
| `CycleRaces.WritesWhileOff` | kernel/intelligence_engine/manager.py:122-135 | gate, deactivation, and a write for a company that is off |
| `IntelligenceTheorems.TenantsDoNotInterfere` | kernel/intelligence_engine/manager.py:50-171 | after any run a company's events, status and writes are those of its own operations alone |
| `IntelligenceTheorems.ActivatedAtIsKept` | kernel/intelligence_engine/manager.py:59 | the first activation instant survives every run |
| `Sorting.StableSortUnique` | kernel/intelligence_engine/reasoning_engine.py:80 | a stable sort by a total preorder has one result |
| `Sorting.StableSortPermutes` | kernel/intelligence_engine/reasoning_engine.py:80 | a stable sort loses and adds nothing |
| `Sorting.StableSortIsStable` | kernel/intelligence_engine/reasoning_engine.py:80 | insertion sort is a stable sort |
| `Reasoning.RelevantInsightIds` | kernel/company_blueprint/recommendations.py:101-105 | the loop collects exactly the ids some priority lists, never the headline |
| `Reasoning.RelevantIff` | kernel/company_blueprint/recommendations.py:16-22 | which priorities each insight is relevant to |
| `Reasoning.AnyStableSortPrioritizes` | kernel/intelligence_engine/reasoning_engine.py:71-80 | any stable sort by the code's key gives headline, relevant, rest, each in old order, as a permutation |
| `Reasoning.RunReasoning` | kernel/intelligence_engine/reasoning_engine.py:37-80 | each gathered finding of an enabled kind is kept as often as it was gathered and no other is, in the gathered order without priorities and in that of the priorities otherwise |
| `Reasoning.AiInsights` | kernel/workflow_engine/engine.py:1651-1662 | the same ordering of the insight list |
| `Reasoning.DisabledNeverRecommendedIff` | kernel/intelligence_engine/recommendation_engine.py:58-96 | of any order of the gated findings and any summary, no recommendation speaks for a disabled capability exactly when forecast is enabled or balance + net is not negative |
| `Reasoning.Recommend` | kernel/intelligence_engine/recommendation_engine.py:58-96 | the same of what a cycle derives, which includes the shortfall exactly when balance + net is negative |
| `Recommendations.RecommendationEngine.GenerateAndStore` | kernel/intelligence_engine/recommendation_engine.py:25-56 | the loop over the derived ones, each skipped while one of its kind stands |
| `Recommendations.NextCallStores` | kernel/intelligence_engine/recommendation_engine.py:29-42 | after every run, a derived recommendation is stored exactly when the table holds none of its kind within a day of its check |
| `Recommendations.OthersDoNotMatter` | kernel/intelligence_engine/recommendation_engine.py:29-42 | a call stores the same whatever other companies have been recommended |
| `Recommendations.RunKeepsSpaced` | kernel/intelligence_engine/recommendation_engine.py:29-54 | over every run no kind is repeated to a company within a day |
| `Reasoning.DisabledForecastIsRecommended` | kernel/intelligence_engine/recommendation_engine.py:85-95 | an input with forecast disabled and the shortfall recommended |
| `Catalog.MergeKeeps` | kernel/provider_manager/catalog.py:60-81 | each merge step keeps one entry a provider, described by its first listing, with each listing country once |
| `Catalog.BuildCatalog` | kernel/provider_manager/catalog.py:49-97 | one entry a provider for exactly the listed ones, a custom entry for every active country, by category and then provider in the order of characters |
| `Catalog.OfferedIffListed` | kernel/provider_manager/catalog.py:109-112 | a country is offered a provider exactly when its active package lists it, and custom exactly when it has an active package |
| `Catalog.OfferedAnywhereIff` | kernel/provider_manager/catalog.py:109-112 | without a country every listed provider is offered, and custom |
| `Catalog.ForCountryInOrder` | kernel/provider_manager/catalog.py:109-112 | what is offered keeps the order of the catalog, and is all of it without a country |
| `Catalog.UpperIs` | kernel/provider_manager/catalog.py:112 | only the ASCII small letters of a country code change, each to its capital |
| `Tenancy.SubscriptionManager.GrantMonth` | kernel/admin/subscriptions.py:42-72 | appends a period for an active company, refuses the others |
| `Tenancy.SubscriptionManager.Cancel` | kernel/admin/subscriptions.py:74-90 | flags the latest period, if any |
| `Tenancy.StatusCopiesAgree` | kernel/admin/usage_tracker.py:105-112 | the three copies of the status rule say the same of every table, company and instant |
| `Tenancy.TableRefinesRecord` | kernel/admin/subscriptions.py:42-108 | over every history the latest row of the table is the company's single current period |
| `Tenancy.CompanyResolver.ResolveRequest` | kernel/company_resolver/resolver.py:45-147 | the decision, and exactly the alerts that go with its refusals, or none if storing them fails |
| `Tenancy.OmittedIffOnlyActive` | kernel/company_resolver/resolver.py:57-111 | leaving the company out resolves to c exactly when c is the only active membership and naming c resolves to c |
| `Tenancy.AlertsMatchRefusals` | kernel/company_resolver/resolver.py:134-147 | one alert is sent with every refusal of something switched off or lapsed, about the user and the company concerned, none otherwise; `ResolveRequest` says that a failure to store it changes nothing else |
| `Tenancy.NamedAnswer` | kernel/company_resolver/resolver.py:45-132 | which answer a request that names a company gets, with that company's name and country when it is let in |
| `Tenancy.UnnamedAnswer` | kernel/company_resolver/resolver.py:82-111 | which answer one that names none gets: no membership, none active, several active, or the one |
| `Tenancy.NamedResolvesIff` | kernel/company_resolver/resolver.py:45-132 | after every history of grants and cancels, a named company resolves exactly when user, membership, company and the one period left allow it |
| `Tenancy.GrantUnblocks` | kernel/admin/subscriptions.py:42-72 | after any history a grant lets members in from its instant to a month later and no longer |
| `Tenancy.CancelBlocks` | kernel/admin/subscriptions.py:74-90 | after any history a cancel shuts everyone out at every instant, unless there was no period to cancel |

## Left out

- Floating-point rounding: amounts are exact, so accumulated float error in the replay loop is not part of the claims; NaN and infinite thresholds are not values of the model.
- SQL isolation: each statement or transaction is one atomic step, and ties between equal timestamps are not modelled.
- Replay.Simulate: the label, kind and numbers of a scenario arrive with their types; text that `int` or `float` would have to read is not part of this model.
- Ledger.FinancialGraph.RecordTransaction: currency, counterparty, description and source are left out, and the category arrives already chosen, so the keyword table of the rule engine is not part of this model.
- Ledger timeline paging and the signal texts of the health score: display only.
- Versions.VersionManager.PublishBlueprint: publication instants and the version number inside a snapshot are left out; nothing reads them back.
- Handlers.WorkflowEngine.GraphCreate: the ledger append and the observer's reaction to the event are modelled in their own modules; here a transaction is its dictionary.
- Handlers.WorkflowEngine.EvaluateAndRun: definitions arrive as records, so stored conditions that are not dictionaries, or whose field is not text, are not part of this model; one evaluation is one step, and a DELETE between its list and its inserts would fail an insert.
- HandlerRaces.UninterruptedIsWhole: requests other than publish and restore are one move each; loads and their awaits are in `LoaderRaces`.
- Intelligence.Kernel.ActivateCompany: taken to succeed; a database failure there is swallowed by the observer like that of a cycle.
- Recommendations.RecommendationEngine.GenerateAndStore: calls run one at a time, and titles, messages and data are left out; no code sets `dismissed_at`, so rows are never dismissed here.
- IntelligenceTheorems.WritesOnlyWhileActive: one operation is one step; `CycleRaces.GoesOnWhileOffIff` says what remains when a cycle is cut.
- CSV import and provider synchronisation: they call the same two operations in a loop.
- Scheduler.IntelligenceScheduler.RunDueJob: the stamp and the due check are taken to succeed; a database failure there would leave a pair unstamped.
- Scheduler task handling (`start`, `stop`, sleeping): one loop runs, as `start` ensures.
- Notifications.NotificationEngine.Notify: calls run one at a time; two calls interleaved between check and insert could store two rows.
- Intelligence.Kernel.RunCycle: each stage is one write named after it; what metrics, knowledge graph and reports contain is not part of this model.
- Intelligence dashboards, reports and the cache in front of them: reads.
- Catalog.OfferedIffListed: `upper` is modelled on ASCII letters.
- Country package contents, connector generation and testing, SDK templates, PDF rendering, authentication, encryption and routes: input/output or text for other programs.
- Event-schema versioning: deleting and re-creating a schema restarts its numbering, so the uniqueness proved for Blueprints does not hold there.
