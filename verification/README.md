# Verification model of the zero-datafabric control plane

This project models the stateful parts of the control plane and proves what they keep over every input and every run.
`dafny verify dfyconfig.toml` checks all of it. Each file follows one component.

| file | component |
|---|---|
| `Identifiers.dfy` | tenant schema names, LIKE escaping, the id overlap rule, identifier quoting |
| `SearchPath.dfy` | the `search_path` text of a tenant, and a reader for it |
| `TenantSession.dfy` | the session protocol of `queryWithContext` on one client and over a pool of clients |
| `Purge.dfy` | `purgeTenant`: tolerant steps over tables, foreign keys and schemas |
| `Cache.dfy` | the read-through cache with prefix invalidation, split into its awaited steps |
| `JobQueue.dfy` | the `FOR UPDATE SKIP LOCKED` claim protocol of the replication engine |
| `PlanCatalogue.dfy`, `TrialPlan.dfy` | plan catalogue transitions; plan selection with the use-once trial |
| `RateLimit.dfy` | the 30-per-minute sliding window |
| `Cleanup.dfy` | the hourly clean-up gate and the predicted next reset |
| `GroupAgg.dfy`, `RunCases.dfy` | grouped aggregation, the worker pool and the report of the bulk oracle |
| `MaskUri.dfy`, `Redact.dfy` | URI credential masking and configuration redaction |
| `Wrappers.dfy` | Option and Result |

Code that updates fields step by step is a class whose methods are proved against step functions; whole runs and
interleavings are then sequences of those steps, and the theorems are about every such sequence.

## What turned out not to hold

Each of these has a lemma with an input, next to the exact condition under which the property does hold.

- Masking a URI twice can differ from masking it once (`a://?pwd=/&:c@`): blanking a parameter value can bring a user
  and a password together that the first pass did not see as credentials. `MaskUri.MaskStableIff` reads the condition
  off the input, and a run after `://` without `?`, `&`, `;` up to the first `/`, `@` or `:` is enough.
- A password with an `@` in it is masked only up to that `@` (`a://u:p@q@h`); `MaskUri.PasswordIsHiddenIff` has the
  exact condition.
- An accepted rename of a plan in use leaves workspaces naming no plan
  (`PlanCatalogue.UpdateKeepsReferencesIff`, and over runs `ReferencesSurviveRunsIff`).
- The predicted weekly reset is the scheduler's next Sunday slot only before the hour or on a Sunday, and never for
  hour 24 (`ResetTime.GetNextDataResetTime`, with inputs in `WeeklyMissesSunday` and `HourTwentyFourMissesSunday`).
- Two ticks in one clean-up hour both clean when the second starts before the first purge is recorded, as after a
  restart (`CleanupSchedule.BothCleanIff`); an hour apart they never do (`CleanupSchedule.OncePerDate`).
- A purge that is recorded after midnight, before the next day's slot, makes that day be skipped
  (`CleanupSchedule.DayIsCleanedIff`, with a run in `OvernightPurgeSkipsADay`).
- A clean-up hour that the date formatter never prints, such as hour 0 where midnight prints as 24, never fires
  (`CleanupSchedule.CleansAtAllIff`, `HourZeroNeverCleans`).
- A slow fill can store a value older than an invalidation, and an invalidation on a process that lost Redis removes
  nothing; `Cache.TransparentIff` says exactly which steps do harm,
  and `Cache.TransparentIffNoChangeInside` reads it off the history of the fills.
- The limiter keeps its limit exactly when the clock is never set back (`RateLimit.LimitHoldsIff`).
- `purgeTenant` spares another tenant's schemas exactly when the ids do not overlap (`Purge.SparesIffNoOverlap`); the
  creation rule prevents overlapping ids (`Identifiers.CreationKeepsNamespacesDisjoint`).
- `tenantSearchPath` strips characters where `assertTenantIdSafe` rejects them, so the ids `a-b` and `ab` read the same
  schemas; the path is the id's own exactly when nothing is stripped (`SearchPath.PathIsOwnIff`).
- A reported path does not always name one place: a key with a dot reads like two keys (`Redact.DottedKeyIsAmbiguous`);
  with plain keys it does (`Redact.ReportNamesPlace`).
- Averages alone do not merge (`GroupAgg.AveragesAloneDoNotMerge`); with a sum and a count beside them they do.
- The header of `replication-engine/src/index.ts` says that jobs orphaned by a dead worker are reclaimed. No statement
  of that file does so; the model follows the code (`JobQueue.CanCompleteIff`, `CrashOrphansForGood`).

## Assumptions

- Sessions: ROLLBACK and RESET ROLE fail only when the connection is lost, a lost connection stays lost, and the
  caller's statement neither ends the transaction nor changes session settings outside it.
- Plan catalogue: each handler of `backend/src/routes/systemRoutes.ts` is one atomic step; the seeded catalogue has one
  active default plan.
- Clean-up: a zone is a fixed offset, time is in whole seconds, a tick reads the row when it starts and reaches the
  subscription in question. Purges may take any time, overlap later ticks, or never be recorded.
- Cache: a process connects at most once (its client does not retry), and an error disables it for good.
- Aggregation: exact real numbers, group keys are text, and every aggregated column holds a number.
- Objects of a configuration hold each key once, as JavaScript objects do.

## Model

| member | source | states |
|---|---|---|
| Identifiers.EscapedLikeIsPrefix | backend/src/utils/identifiers.ts:38-41 | LIKE on the escaped text followed by `%` is exactly a prefix test, whatever wildcards the text holds |
| Identifiers.SchemaQueryIsBelongs | backend/src/config/database.ts:53-60 | the SQL filter and `belongsToTenant` select the same schema names |
| Identifiers.OwnedNames | backend/src/utils/identifiers.ts:43-47 | a tenant's schemas are `tenant_<id>` and `tenant_<id>_` followed by anything |
| Identifiers.EscapeLeavesPlainText | backend/src/utils/identifiers.ts:38-41 | a text without wildcards is not changed |
| Identifiers.UnescapedMatchesMore | backend/src/utils/identifiers.ts:38-41 | without the escape a `_` in the pattern matches any character |
| Identifiers.PercentMatchesAny | backend/src/config/database.ts:56-58 | `%` in a LIKE pattern matches any run of characters |
| Identifiers.SafeIdIff | backend/src/utils/tenantScope.ts:34-46 | the run-time check passes 1 to 56 letters, digits and underscores, and nothing else |
| Identifiers.LowerFolds | backend/src/utils/tenantScope.ts:113-121 | lower case folds the 26 ASCII letters and nothing else |
| Identifiers.CreateTenantIff | backend/src/utils/tenantScope.ts:125-137 | when a creation is accepted: 2 to 41 such characters, a letter first, no duplicate, no overlap in any case |
| Identifiers.ShareIffOverlap | backend/src/utils/identifiers.ts:43-47 | two different ids own a common schema name iff one followed by `_` starts the other |
| Identifiers.SharedSchemaMeansOverlap | backend/src/utils/identifiers.ts:43-47 | any schema owned by both ids makes the shorter one with `_` a prefix of the longer |
| Identifiers.CreationKeepsNamespacesDisjoint | backend/src/utils/tenantScope.ts:109-137 | any sequence of creation attempts leaves every schema name with at most one owner, in lower case too unless ids differ in case only |
| SearchPath.PathSchemas | backend/src/config/database.ts:60-61 | the path is never empty and names only schemas of the cleaned tenant id |
| SearchPath.PathNamesOwnedRows | backend/src/config/database.ts:50-63 | for any rows the path reads as exactly the tenant's rows in their order, or else `tenant_<id>`, and then `public` |
| SearchPath.PathNamesQueryRows | backend/src/config/database.ts:53-62 | all rows of the schema query are named in the query's order |
| SearchPath.CleanConcat | backend/src/config/database.ts:51-51 | stripping works character by character |
| SearchPath.CleanChar | backend/src/config/database.ts:51-51 | letters, digits and `_` stay, any other character goes |
| SearchPath.RenderReadsBack | backend/src/config/database.ts:60-62 | reading the rendered path under doubled-quote rules returns the names in order, then `public` |
| SearchPath.RenderIsInjective | backend/src/config/database.ts:60-62 | different name lists never render to the same text |
| SearchPath.TenantPathReadsOwnedOnly | backend/src/config/database.ts:50-63 | for any raw id and any rows the path reads as that tenant's schemas and `public`, nothing else |
| SearchPath.FilterKeepsQueryRows | backend/src/config/database.ts:53-60 | the JavaScript re-check drops no row that the query returned |
| SearchPath.PathIsOwnIff | backend/src/config/database.ts:51-61 | whatever the rows, the path of a raw id names only schemas of exactly that id iff the id holds letters, digits and underscores only |
| SearchPath.SamePathsIff | backend/src/config/database.ts:51-62 | two raw ids get the same path on all rows iff they are equal once stripped |
| SearchPath.StrippingAliasesIds | backend/src/utils/tenantScope.ts:34-46 | `a-b` and `ab` are such a pair although their namespaces do not overlap, and the path of `a-b` is not its own |
| SearchPath.QuotedIdentReadsBack | backend/src/utils/identifiers.ts:27-31 | a quoted identifier reads back as itself; exactly the empty, NUL-holding and over-long ones are refused |
| TenantSession.ServerEffects | backend/src/config/database.ts:82-114 | what BEGIN, COMMIT, ROLLBACK and RESET ROLE leave on a live session |
| TenantSession.QueryWithContext | backend/src/config/database.ts:79-117 | the try/catch/finally code ends in the session and the outcome of the statement script, for every choice of failures |
| TenantSession.OpenTransaction | backend/src/config/database.ts:82-87 | BEGIN, role and optional timeout lead to the identity statements, or at the first error to the rollback |
| TenantSession.InjectIdentity | backend/src/config/database.ts:90-100 | the four `set_config` calls lead to the path statements, or at the first error to the rollback |
| TenantSession.SetPath | backend/src/config/database.ts:103-103 | schema query and search path lead to the caller's statement, or to the rollback |
| TenantSession.RunStatement | backend/src/config/database.ts:105-107 | statement and COMMIT lead to the reset, or to the rollback |
| TenantSession.CleanUp | backend/src/config/database.ts:109-116 | rollback and reset finish the script: returned, threw, or leaked with the connection |
| TenantSession.StepKeepsFit | backend/src/config/database.ts:79-117 | at each program point the session is exactly what the script has set up so far, whatever the statement does |
| TenantSession.DriveFits | backend/src/config/database.ts:79-117 | a call always finishes; the client is leaked iff its connection died and otherwise comes back clean |
| TenantSession.InvOverRun | backend/src/config/database.ts:79-117 | every interleaving of calls over the pool keeps the client, log and commit invariants |
| TenantSession.StatementsRunIsolated | backend/src/config/database.ts:79-117 | every caller's statement ran at most once, as `fabric_user`, in a transaction, with its own tenant, user, region, policy timeout and claims (tenant, user, role or USER), on a path of exactly the rows its schema query returned, which are its own when nothing is stripped |
| TenantSession.PoolStaysClean | backend/src/config/database.ts:109-116 | a pooled client has no transaction, role or setting left; a client is missing only while in use or with its connection lost |
| TenantSession.ClientsAreExclusive | backend/src/config/database.ts:80-80 | no two running calls share a client |
| TenantSession.ReturnMeansCommitted | backend/src/config/database.ts:105-111 | a call that returned committed its statement; one that threw and released its client did not |
| Purge.TenantStore.DeleteRows | backend/src/services/cleanup.service.ts:119-127 | one tolerant DELETE removes this tenant's rows of one table or fails and changes nothing |
| Purge.TenantStore.DeleteMetadata | backend/src/services/cleanup.service.ts:117-117 | metadata of the tenant's sources goes, or the step fails and changes nothing |
| Purge.TenantStore.DeleteCatalog | backend/src/services/cleanup.service.ts:118-118 | catalog schemas of the tenant's sources go, or the step fails and changes nothing |
| Purge.TenantStore.DeleteSources | backend/src/services/cleanup.service.ts:120-120 | sources go with their catalog schemas unless metadata still references one of them |
| Purge.TenantStore.PurgeSchemas | backend/src/services/cleanup.service.ts:129-151 | drops exactly the tenant's schemas whose drop does not fail, then re-creates the primary one |
| Purge.TenantStore.PurgeTenant | backend/src/services/cleanup.service.ts:107-153 | leaves exactly `Purged` and returns exactly the failing steps in order, whichever steps fail |
| Purge.StepsLeavePurged | backend/src/services/cleanup.service.ts:116-151 | the steps one after another amount to the closed-form result |
| Purge.OtherRowsKept | backend/src/services/cleanup.service.ts:116-127 | whatever fails, every row and catalog entry of another tenant stays |
| Purge.OtherSchemasKept | backend/src/services/cleanup.service.ts:129-151 | whatever fails, no schema outside the tenant goes or comes, so non-overlapping tenants keep theirs |
| Purge.SparesIffNoOverlap | backend/src/services/cleanup.service.ts:129-151 | a purge leaves another tenant's schemas alone on every database and whatever fails iff the two ids do not overlap |
| Purge.OverlapBreaksTheFrame | backend/src/services/cleanup.service.ts:129-144 | `t_ac` and `t_ac_foo` can drop each other's schemas |
| Purge.NoFailureMeansPurged | backend/src/services/cleanup.service.ts:101-153 | an empty failure list means the old schemas minus the tenant's plus a fresh primary one, and no row left |
| Purge.RetryConverges | backend/src/services/cleanup.service.ts:101-153 | after any partly failed purge, one undisturbed purge reaches the state a first one would have |
| Purge.ReportedIffFailed | backend/src/services/cleanup.service.ts:107-153 | a step is reported iff it was attempted and rejected, for every step and schema |
| Purge.ReportsInOrder | backend/src/services/cleanup.service.ts:107-153 | reports come in the order in which the steps ran |
| Cache.PatternIsTenantKeys | backend/src/config/cache.ts:182-184 | the KEYS pattern selects exactly the tenant's keys |
| Cache.KeysOfTenant | backend/src/controllers/metadataController.ts:269-269 | a tenant's keys are `meta:<id>:` followed by anything |
| Cache.GlobWildcards | backend/src/config/cache.ts:143-152 | `?` matches one character and `*` any run |
| Cache.TenantKeysDisjoint | backend/src/config/cache.ts:182-184 | no key belongs to two tenants |
| Cache.RedisCache.CacheGet | backend/src/config/cache.ts:115-123 | a live entry on an enabled cache, and null for a miss, an expired entry, an error or a disabled cache |
| Cache.RedisCache.CacheSet | backend/src/config/cache.ts:134-141 | stores with the TTL, or changes nothing when disabled or failing |
| Cache.RedisCache.InvalidateTenant | backend/src/config/cache.ts:149-184 | removes exactly the tenant's keys and none of any other tenant |
| Cache.RedisCache.Cached | backend/src/config/cache.ts:168-174 | a hit is returned and stores nothing; a miss returns and stores the producer's value |
| Cache.InvalidationImmediatelyAfter | backend/src/config/cache.ts:149-157 | the combined event is a mutation followed at once by KEYS and DEL |
| Cache.PendingHasProducer | backend/src/config/cache.ts:171-172 | every value waiting to be set was produced by the same call for the same key |
| Cache.EntryHasFill | backend/src/config/cache.ts:168-174 | every stored entry comes from a fill, with that fill's value and expiry |
| Cache.ReturnedValueIsFresh | backend/src/config/cache.ts:115-174 | in every interleaving a returned value was the true answer at an instant no older than the TTL plus the fill's delay |
| Cache.UpMeansConnected | backend/src/config/cache.ts:65-95 | a process that is up was connecting from the start until one connect, and up ever since |
| Cache.LostStaysLost | backend/src/config/cache.ts:59-65 | after an error `enabled` stays false |
| Cache.NoStoredEntryAfterLoss | backend/src/config/cache.ts:65-69 | after an error a process answers only what its own producer read |
| Cache.DownAnswersFresh | backend/src/config/cache.ts:105-116 | the same wherever `enabled` is false, so also while connecting |
| Cache.StepTransparentIff | backend/src/config/cache.ts:134-184 | from a transparent state one step keeps it transparent iff it is harmless: a set stores the current answer, and a mutation without a working invalidation contradicts no live entry |
| Cache.TransparentIff | backend/src/config/cache.ts:134-184 | in every run, with invalidations anywhere or nowhere and processes up or down: transparent in every state iff every step is harmless |
| Cache.TransparentIffNoChangeInside | backend/src/config/cache.ts:168-184 | with immediate invalidation on a connected process: transparent in every state iff no answer changes between the produce and the effective set of one call |
| Cache.QuietFillsAreTransparent | backend/src/controllers/metadataController.ts:269-270 | with no mutation inside a fill every live entry equals the current truth in every reachable state |
| Cache.SlowFillStoresStale | backend/src/config/cache.ts:168-174 | for every tenant, key and pair of values, a run from start-up with immediate invalidations in which a slow fill makes a call return the outdated value |
| Cache.DisabledPodLeavesStale | backend/src/config/cache.ts:149-150 | a run from start-up in which a mutation on a process without Redis makes another process return the outdated value |
| JobQueue.JobTable.SelectOldest | replication-engine/src/index.ts:39-45 | picks an oldest unlocked queued job, and none only when there is none |
| JobQueue.JobTable.Poll | replication-engine/src/index.ts:32-66 | one poll is a legal run: empty, aborted claim, completed, or dropped after the claim |
| JobQueue.InvOverRun | replication-engine/src/index.ts:32-72 | in every run of overlapping polls each poll has its own job in the matching status |
| JobQueue.ClaimedAtMostOnce | replication-engine/src/index.ts:36-47 | the number of committed claims of a job is its move out of the queue: never more than one |
| JobQueue.StatusMovesForward | replication-engine/src/index.ts:36-59 | status only moves QUEUED to RUNNING to COMPLETED and jobs keep their creation time |
| JobQueue.HeldByOneWorker | replication-engine/src/index.ts:32-66 | no job is ever in the hands of two polls |
| JobQueue.OneOrphanPerDrop | replication-engine/src/index.ts:56-65 | exactly one orphan per crash or failed completion |
| JobQueue.JobsAreConserved | replication-engine/src/index.ts:32-66 | all jobs are queued, in flight, orphaned (one per drop) or completed |
| JobQueue.OrphansStayOrphans | replication-engine/src/index.ts:1-11 | an orphaned job stays RUNNING in every continuation |
| JobQueue.CanCompleteIff | replication-engine/src/index.ts:56-65 | a RUNNING job can still be completed in some continuation iff a poll is working on it |
| JobQueue.CrashOrphansForGood | replication-engine/src/index.ts:36-65 | claim, then crash: the job is RUNNING and no continuation completes it |
| JobQueue.PotentialFalls | replication-engine/src/index.ts:36-59 | 2·queued + running falls by one on each claim and each completion |
| JobQueue.WorkIsPaid | replication-engine/src/index.ts:36-59 | over a run that potential pays for every claim and completion |
| JobQueue.OvertakingIsBounded | replication-engine/src/index.ts:39-45 | every older queued job is locked by another claim in flight, so at most that many are overtaken; alone, claiming is first-in-first-out |
| PlanCatalogue.PlanStore.PostPlan | backend/src/routes/systemRoutes.ts:85-103 | create as specified, with the whole table restored on a name conflict |
| PlanCatalogue.PlanStore.PutPlan | backend/src/routes/systemRoutes.ts:104-125 | update as specified, including every refusal |
| PlanCatalogue.PlanStore.RemovePlan | backend/src/routes/systemRoutes.ts:126-138 | delete as specified, refusing default, built-in and used plans |
| PlanCatalogue.PlanStore.PutWorkspacePlan | backend/src/routes/systemRoutes.ts:178-198 | assignment of an existing plan to an existing workspace |
| PlanCatalogue.ValidateBody | backend/src/routes/systemRoutes.ts:54-82 | the checks in source order decide as the specification |
| PlanCatalogue.CleanPlanIff | backend/src/routes/systemRoutes.ts:54-82 | the allowed names, limits and trial days, and which fields a create must name |
| PlanCatalogue.CreateIff | backend/src/routes/systemRoutes.ts:85-103 | exactly when a create is accepted, and every field of the row it inserts |
| PlanCatalogue.UpdateIff | backend/src/routes/systemRoutes.ts:104-125 | exactly when an update is accepted |
| PlanCatalogue.UpdateChanges | backend/src/routes/systemRoutes.ts:109-119 | an accepted update changes exactly the fields the body names |
| PlanCatalogue.OthersKeepFields | backend/src/routes/systemRoutes.ts:92-119 | other plans are left alone, but for a default that is handed over |
| PlanCatalogue.StepKeepsCatalogue | backend/src/routes/systemRoutes.ts:54-138 | every create, update, delete or assignment keeps names unique and one active, non-custom default |
| PlanCatalogue.AlwaysOneDefault | backend/src/routes/systemRoutes.ts:54-138 | the same over every run |
| PlanCatalogue.UpdateKeepsReferencesIff | backend/src/routes/systemRoutes.ts:104-125 | an accepted update keeps all plan references valid iff it does not rename a plan in use |
| PlanCatalogue.OtherStepsKeepReferences | backend/src/routes/systemRoutes.ts:126-198 | create, delete and assignment never break a reference |
| PlanCatalogue.ReferencesSurviveRunsIff | backend/src/routes/systemRoutes.ts:85-198 | references stay valid throughout a run iff it accepts no rename of a plan in use |
| PlanCatalogue.RenameLeavesDanglingName | backend/src/routes/systemRoutes.ts:109-119 | one accepted rename that leaves a workspace naming no plan |
| TrialPlan.ProblemsListExceeded | backend/src/routes/workspaceRoutes.ts:197-199 | a counter is listed iff it exceeds its limit |
| TrialPlan.CollectProblems | backend/src/routes/workspaceRoutes.ts:197-199 | the loop collects exactly the exceeded counters in order |
| TrialPlan.WorkspaceRow.PutPlan | backend/src/routes/workspaceRoutes.ts:186-206 | refusals in order of the checks; an accepted selection rewrites the row and keeps the first trial time |
| TrialPlan.SelectionRules | backend/src/routes/workspaceRoutes.ts:186-206 | exactly what a workspace may select without admin rights; selecting clears expiry and overrides and keeps the first trial time |
| TrialPlan.TrialTimeIsWrittenOnce | backend/src/routes/workspaceRoutes.ts:201-202 | `trial_used_at` never changes once written |
| TrialPlan.TrialTimeMeansTrialAccepted | backend/src/routes/workspaceRoutes.ts:193-202 | a run writes it iff it accepts a trial plan |
| TrialPlan.NoTrialAfterLeaving | backend/src/routes/workspaceRoutes.ts:193-195 | after leaving the trial no trial plan is ever accepted again |
| TrialPlan.OnTrialRun | backend/src/routes/workspaceRoutes.ts:193-202 | from a trial plan on, accepted selections are a block of that plan and then non-trial plans only |
| TrialPlan.TrialIsOneBlock | backend/src/routes/workspaceRoutes.ts:186-206 | all accepted trial selections of a run name one plan and form one contiguous block |
| RateLimit.Limiter.MutationLimit | backend/src/routes/workerRoutes.ts:21-29 | admits iff the caller's key lists fewer than 30 recent times; a refusal changes nothing |
| RateLimit.AtMostThirtyPerWindow | backend/src/routes/workerRoutes.ts:20-29 | every half-open 60-second window holds at most 30 admissions of a key |
| RateLimit.ThirtyPerMinute | backend/src/routes/workerRoutes.ts:20-29 | counted over the admissions themselves, at most 30 of a key lie in any half-open 60000 milliseconds |
| RateLimit.AdmitsByCount | backend/src/routes/workerRoutes.ts:25-27 | a request is admitted iff fewer than 30 were admitted for its key in the last 60000 milliseconds |
| RateLimit.DecidesAsFullHistory | backend/src/routes/workerRoutes.ts:25-27 | the pruned list decides as counting the whole admission history would |
| RateLimit.PrunedDecidesAsHistory | backend/src/routes/workerRoutes.ts:25-27 | pruned list and history agree on what is recent, now and at any later time |
| RateLimit.KeysAreIndependent | backend/src/routes/workerRoutes.ts:23-27 | a key's admissions are those of the run restricted to that key |
| RateLimit.ClockSetBackBreaksTheLimit | backend/src/routes/workerRoutes.ts:24-27 | for every set-back of at least one millisecond, a run from the empty limiter that puts 31 admissions into one minute |
| RateLimit.LimitHoldsIff | backend/src/routes/workerRoutes.ts:20-29 | the limit holds on every run iff the clock is never set back |
| CleanupSchedule.SubscriptionTable.RunCleanupChecks | backend/src/services/cleanup.service.ts:42-80 | one tick cleans exactly the subscriptions that are due under their snapshot's limits, or without a snapshot their plan's (hour 2 by default, never without a frequency), and records their finish time |
| CleanupSchedule.GateReadsLimits | backend/src/services/cleanup.service.ts:43-70 | the gate of a row, spelled out on the limits that decide it |
| CleanupSchedule.FiredIff | backend/src/services/cleanup.service.ts:53-79 | over every run, however long purges take and overlap: a tick cleans iff it is on schedule and no clean-up is yet recorded on its local date |
| CleanupSchedule.OncePerDate | backend/src/services/cleanup.service.ts:60-70 | ticks an hour apart whatever the purges take, or ticks that wait: at most one clean-up per local date, at its hour; weekly ones on Sundays at least seven days apart |
| CleanupSchedule.BothCleanIff | backend/src/services/cleanup.service.ts:12-24 | two ticks in one clean-up hour both clean iff the second starts before the first is recorded |
| CleanupSchedule.OverlapCleansTwice | backend/src/services/cleanup.service.ts:12-24 | ticks at 02:10 and 02:40 with a purge until 02:50 clean twice |
| CleanupSchedule.DayIsCleanedIff | backend/src/services/cleanup.service.ts:42-80 | hourly ticks, purges of any length, daily and weekly rules: a covered day that is due is cleaned by its slot's tick only, and iff no clean-up of an earlier day is recorded on it before that tick |
| CleanupSchedule.EveryFullDayIsCleanedOnce | backend/src/services/cleanup.service.ts:42-80 | with hourly ticks, an hour that occurs and purges that end on the day they started, every covered day that is due gets exactly one clean-up |
| CleanupSchedule.SundayIsCleaned | backend/src/services/cleanup.service.ts:42-80 | a run on which these hypotheses hold: daily and weekly rules are cleaned on one Sunday |
| CleanupSchedule.CleansAtAllIff | backend/src/services/cleanup.service.ts:170-178 | a rule is cleaned in some run iff it has a frequency and an hour the formatter prints |
| CleanupSchedule.HourZeroNeverCleans | backend/src/services/cleanup.service.ts:170-178 | hour 0 never cleans where midnight prints as 24, nor hour 24 where it prints as 0 |
| CleanupSchedule.OvernightPurgeSkipsADay | backend/src/services/cleanup.service.ts:70-77 | clean-up hour 23, hourly ticks from 23:30, 40-minute purges: the next day is covered by ticks and not cleaned |
| ResetTime.GetNextDataResetTime | backend/src/routes/subscriptionRoutes.ts:6-36 | for hours 0 to 24, daily: the least instant after now at the hour; weekly: the next Sunday slot iff the hour is not 24 and it is before the hour or Sunday, otherwise the same weekday a week later, or a Monday for hour 24; for any hour, when the daily answer is the next one |
| ResetTime.FirstDaily | backend/src/routes/subscriptionRoutes.ts:14-19 | an instant at the hour is the next one iff it lies within a day of now |
| ResetTime.FirstSunday | backend/src/routes/subscriptionRoutes.ts:20-27 | an instant at the hour within a week of now is the next Sunday slot iff its day is a Sunday |
| ResetTime.WeeklyMissesSunday | backend/src/routes/subscriptionRoutes.ts:17-22 | Thursday 10:00, hour 2: the answer is the next Thursday and not the Sunday slot |
| ResetTime.HourTwentyFourMissesSunday | backend/src/routes/subscriptionRoutes.ts:15-28 | Saturday noon, hour 24: the answer is Monday midnight and not the Sunday slot |
| ResetTime.SlotIsOnSchedule | backend/src/services/cleanup.service.ts:57-70 | the predicted instants are instants at which the scheduler's gate is open |
| GroupAgg.Compute | bulk-test/oracle.js:48-63 | one row per key, each showing its aggregates over exactly the rows of that key, in ascending order by the first differing character |
| GroupAgg.AggregateOne | bulk-test/oracle.js:55-58 | the reductions of one aggregate over one bucket |
| TextOrder.BelowIsPrecedes | bulk-test/oracle.js:62-62 | the order of the sort is the one by the first differing character |
| TextOrder.FirstDifference | bulk-test/oracle.js:62-62 | a smaller character at the first difference comes first, and a text before its extensions |
| GroupAgg.Bucket | bulk-test/oracle.js:49-50 | the Map holds for each key exactly its rows in order, and lists each key once |
| GroupAgg.BuildRows | bulk-test/oracle.js:51-61 | one row per key of the Map, showing the aggregates of its bucket |
| GroupAgg.AggregateAll | bulk-test/oracle.js:53-59 | each alias shows the last aggregate that names it |
| GroupAgg.GroupingIsUnique | bulk-test/oracle.js:48-63 | the specification determines the result |
| GroupAgg.ExtremesBound | bulk-test/oracle.js:57-57 | MIN and MAX are values of the group with none below or above them |
| GroupAgg.AggregateAppend | bulk-test/oracle.js:55-58 | COUNT and SUM add, MIN and MAX combine over a concatenation |
| GroupAgg.GroupingDistributes | bulk-test/oracle.js:48-63 | grouping a concatenation is the key-wise merge of the two groupings, for every list of aggregates: same keys, same values in every column that can be recovered, and the same result when all can |
| GroupAgg.AveragesFromMerge | bulk-test/oracle.js:56-58 | any average column of the concatenation is the quotient of the merged sums and counts, row by row |
| GroupAgg.AveragesAloneDoNotMerge | bulk-test/oracle.js:58-58 | no rule computes the average of two groups from their averages alone |
| GroupAgg.GroupsAddUp | bulk-test/oracle.js:48-63 | a COUNT column of the returned rows adds up to the number of input rows, a SUM column to the sum over all of them |
| GroupAgg.SortSorts | bulk-test/oracle.js:62-62 | sorting rows with distinct keys gives strictly ascending keys by the first differing character |
| RunCases.Runner.Resume | bulk-test/oracle.js:79-91 | one worker turn, from one await to the next, on the shared variables |
| RunCases.JudgeRules | bulk-test/oracle.js:83-89 | when a case passes, and which strategy is counted |
| RunCases.InvOverRun | bulk-test/oracle.js:75-94 | every interleaving keeps index, slots, strategy counts and waiting workers consistent |
| RunCases.EveryScheduleEnds | bulk-test/oracle.js:79-92 | no schedule is longer than two turns per case and one per worker, and an unfinished one can go on |
| RunCases.RunIsComplete | bulk-test/oracle.js:75-94 | when all workers returned, each case was called once and in order, every slot holds the verdict on the answer to its own call, and the strategy counts sum to the number of cases |
| RunCases.Report | bulk-test/oracle.js:96-109 | every tally is the count it names and each breakdown adds up to the number of verdicts |
| RunCases.ReportCoversCases | bulk-test/oracle.js:96-109 | the report of a complete run: passes and failures add up to the cases, per category and per same or cross source |
| RunCases.NoWorkerNoResult | bulk-test/oracle.js:92-93 | with concurrency 0 nothing runs and every slot stays empty |
| MaskUri.AuthorityIsMasked | backend/src/utils/redact.ts:14-14 | masking the authority replaces exactly the password and leaves texts without credentials alone |
| MaskUri.UriLikeIff | backend/src/utils/redact.ts:9-13 | masking applies exactly to `scheme://rest` without white space |
| MaskUri.SpaceCodes | backend/src/utils/redact.ts:9-14 | the code points that count as white space |
| MaskUri.SecretParamNames | backend/src/utils/redact.ts:15-15 | which parameter names are masked, in any letter case |
| MaskUri.ParamStartsIff | backend/src/utils/redact.ts:15-15 | a secret parameter starts at `?`, `&` or `;` and runs to the first `=` |
| MaskUri.NamedParamIsMasked | backend/src/utils/redact.ts:15-15 | the first secret parameter loses its value up to the next `&` or `;`, and nothing before it changes |
| MaskUri.NoSecretNoChange | backend/src/utils/redact.ts:15-15 | a text without secret parameters is not changed |
| MaskUri.PasswordWithoutAtIsHidden | backend/src/utils/redact.ts:12-17 | the masked URI is the same for any two passwords without `@`, whatever the user and the rest |
| MaskUri.PasswordIsHiddenIff | backend/src/utils/redact.ts:14-14 | for a user and a host head without secret parameters, a password is hidden iff it holds no `@` |
| MaskUri.AtIsSeen | backend/src/utils/redact.ts:14-15 | the text between two `@` is never masked away when the host head holds no secret parameter |
| MaskUri.AtSignShowsPassword | backend/src/utils/redact.ts:14-14 | `a://u:p@q@h` becomes `a://u:***@q@h` |
| MaskUri.MaskedEverywhere | backend/src/utils/redact.ts:15-15 | at no position does a secret parameter of the masked text carry anything but the mask |
| MaskUri.MaskedIsStable | backend/src/utils/redact.ts:15-15 | a text with all secret parameters masked is left unchanged |
| MaskUri.ParamsIdempotent | backend/src/utils/redact.ts:15-15 | parameter masking alone is idempotent |
| MaskUri.MaskedUriShape | backend/src/utils/redact.ts:12-17 | a masked URI is a URI with the same scheme and no secret parameter value |
| MaskUri.RestStableIff | backend/src/utils/redact.ts:14-15 | a second pass changes the part after the scheme iff the first left credentials readable |
| MaskUri.ExposedIffHidden | backend/src/utils/redact.ts:14-15 | that happens iff, with parameter values skipped, the input starts with a user, a `:` and a password |
| MaskUri.MaskStableIff | backend/src/utils/redact.ts:12-17 | masking twice is masking once iff the input hides no credentials behind a parameter value |
| MaskUri.PlainHostIsStable | backend/src/utils/redact.ts:12-17 | a host run without `?`, `&`, `;` is enough for that |
| MaskUri.SecondPassChanges | backend/src/utils/redact.ts:12-17 | the family `scheme://?pwd=/…&:pass@`, on which a second pass changes the text |
| MaskUri.SecondPassExample | backend/src/utils/redact.ts:12-17 | `a://?pwd=/&:c@` is one of them |
| Redact.SecretParamIsSecretKey | backend/src/utils/redact.ts:8-15 | every parameter name masked in a URI is also dropped as a key, whatever surrounds it |
| Redact.SecretKeyIff | backend/src/utils/redact.ts:8-8 | a key is secret iff it holds one of the listed words on one line, in any case, or is `authorization` or `auth` |
| Redact.WordInside | backend/src/utils/redact.ts:8-8 | each listed word makes a key secret whatever surrounds it on its line |
| Redact.OneEntry | backend/src/utils/redact.ts:25-31 | an object of one entry: dropped and reported by its key when named secret with a value, kept otherwise |
| Redact.DecimalReads | backend/src/utils/redact.ts:24-24 | an index is written in decimal digits that read as it, without leading zeros |
| Redact.TextFromRoot | backend/src/utils/redact.ts:24-30 | a report reads `key`, then `.key` or `[i]` for each step further in |
| Redact.ReportNamesPlace | backend/src/utils/redact.ts:24-30 | with non-empty keys without `.` and `[` a reported text names one place only |
| Redact.DottedKeyIsAmbiguous | backend/src/utils/redact.ts:28-28 | a key with a dot in it is reported like two keys |
| Redact.Redactor.Walk | backend/src/utils/redact.ts:23-35 | the recursive walk returns the cleaned value and appends one entry per removal, in order, to the shared list |
| Redact.Redactor.WalkItems | backend/src/utils/redact.ts:24-24 | the same for the elements of an array, whose indices stay |
| Redact.Redactor.WalkFields | backend/src/utils/redact.ts:25-31 | the same for the entries of an object |
| Redact.RedactConfig | backend/src/utils/redact.ts:21-38 | cleaned configuration and report; `hasPassword` iff an entry named secret holds a value somewhere, no such entry left, and the answer on one-entry objects |
| Redact.KeptInPlace | backend/src/utils/redact.ts:23-35 | at every place: gone if hidden, otherwise the same value with its strings masked |
| Redact.ValuesInPlace | backend/src/utils/redact.ts:23-35 | a kept string is masked, a kept array keeps its length, every other kept value is unchanged |
| Redact.NoSecretSurvives | backend/src/utils/redact.ts:28-28 | no secret-named key with a non-empty value survives at any depth |
| Redact.RemovalsAreTopSpots | backend/src/utils/redact.ts:26-30 | the removed places are exactly the topmost secret spots |
| Redact.RemovalsInOrder | backend/src/utils/redact.ts:26-30 | they are reported from top to bottom |
| Redact.ReportedOnce | backend/src/utils/redact.ts:26-30 | no removed place is reported twice |
| Redact.HasPasswordIff | backend/src/utils/redact.ts:37-37 | the report is non-empty iff there is a secret spot |
| Redact.CleanIsDistinct | backend/src/utils/redact.ts:25-31 | a cleaned object holds each key once |
| Redact.SecondPassReportsNothing | backend/src/utils/redact.ts:21-38 | redacting a redacted value reports nothing |
| Redact.StableIff | backend/src/utils/redact.ts:21-38 | redacting twice is redacting once iff no kept string hides credentials behind a parameter value |
| Redact.PlainConfigIsStable | backend/src/utils/redact.ts:21-38 | plain host runs throughout are enough for that |

## Left out

- Query planner, federation executor, pushdown compiler, connectors, copy engine, trigger worker and licensing: their behaviour is not decided by the files modelled here.
- The plan editing of `backend/src/routes/planRoutes.ts`: a second path without the default-plan and in-use checks; the catalogue invariant is about the system routes only.
- Metadata rollback and migrate as cache steps: neither handler invalidates, so they lie outside the transparency hypothesis.
- Concurrent plan edits under real database isolation: each handler is one step.
- Plan fields that no rule reads (description, price, contact data, tenant maximum, feature flags, expiry and overrides of an assignment), and their validation, which only adds refusals; `malformed` stands for the unknown fields and wrong JSON types.
- Row-level-security policies, migrations, Redis and Kafka clients, routing, tokens and single sign-on.
- Time-zone databases, daylight saving, sub-second times, the fallbacks for an invalid zone and non-numeric clean-up hours.
- PostgreSQL's 63-byte identifier truncation and case folding of non-ASCII letters in the tenant overlap query.
- Redis glob bracket classes and glob characters in tenant ids: tenant ids are letters, digits and underscores.
- Error texts: a purge failure is its step name, a usage problem is its counter name, a verdict has no reason text.
- `bulk-test/oracle.js` group keys that are not text (where two keys can print alike), floating-point rounding, and an aggregate whose alias is `key`.
- A `__proto__` entry of a configuration object (assignment sets the prototype instead of a field) and array holes.
- `verifyReplicationLimits`, `ssoTenantId`, `streamConfig`, role checks and dashboard permissions: settled by one branch or a short loop.
- RedisCache.InvalidateTenant: states the undisturbed call; KEYS and DEL as separate steps among other calls are the sweep events of the interleaved runs.
