# SignalHub: a verified model of its background workers and core algorithms

SignalHub is a status-page server. Its workers check monitors, deliver
notifications, purge organizations and keep an audit log, all by claiming rows
of shared database tables, working on a snapshot, and committing under a guard
on the row's lease owner. Around them stand a few self-contained algorithms:
uptime arithmetic, status reconciliation, time zones, an image cache, a rate
limiter, Base32 and one-time passwords, SCIM group patches, and the page grid.

Each file models one source file or component.

| file | models |
|---|---|
| `monitors.dfy`, `monitor_schedule.dfy` | monitor leases, the up/down threshold machine, every interleaving of workers and operators; when a row is due, and how long a lease keeps others out |
| `notify.dfy`, `notifications.dfy`, `notification_outcomes.dfy` | deduplication keys and job building; the notification queue with suspension, retry and retention; what one delivery, suspension or retry makes of a job |
| `cascade.dfy`, `platform_jobs.dfy`, `purge_protocol.dfy` | the purge scope; the organization purge job, its workers and operators; what the protocol guarantees and where it gets stuck |
| `lease_heartbeat.dfy` | the timer that renews leases |
| `status.dfy`, `component_status.dfy` | severities, daily uptime, weighted uptime; reconciliation and the interval log it writes |
| `audit_integrity.dfy`, `audit_log.dfy`, `audit_batches.dfy`, `audit_sinks.dfy` | canonical content, hash chain, verification; sealing, pruning and their runs; the backlog query and sealing in batches; what audit sinks are sent |
| `page_locale.dfy` | conversion between wall-clock times and instants |
| `asset_storage.dfy`, `deleted_images.dfy` | the in-process image cache; what a flush takes out and when a deleted image comes back |
| `rate_limit.dfy` | the fixed-window limiter |
| `totp.dfy`, `base32_law.dfy` | Base32, time steps, used steps; Base32 as a change of number base |
| `page_design.dfy`, `page_edits.dfy` | page-grid migration, placement edits, moves, templates; where each of them puts things |
| `scim_group_update.dfy` | SCIM group updates |
| `wrappers.dfy` | shared datatypes, stable sorting, sequences without repetition |

How the models are built. Every guarded `update ... where ... returning`, and
every transaction, is one atomic step. A table or module state the source
updates in place is a class whose methods state the whole new state; a protocol
is in addition a state machine `Apply` over all steps of all processes, and the
main results quantify over every run. The answer of a locking query with
skip-locked is a parameter that may be any row the query allows, in any order.
Clock readings are arbitrary in the lease protocols: safety comes from the
ownership guard alone. The notification queue and the purge assume that one
worker id has at most one live claim on a row: a worker id joins the process id
and the job runner's slot (worker/tasks.ts:33-35), and their drain loops await
one job after the other. Monitors get no such assumption. A sweep starts its
checks together (worker/monitors.ts:305), and one of them can reject outside its
`try` or in its `finally` (worker/monitors.ts:165, 298-299), which ends the sweep
while the others run on; after a "run now" has cleared the lease the next sweep
under the same worker id may claim such a row again. The monitor machine allows
all of that, and its results say for each claim what makes it safe. The digest
of the audit chain and the text of an instant are parameters, injective where a
lemma says so. Times are whole milliseconds, percentages exact reals.

## What the proofs found

- A monitor check that outlives its sweep and a later claim under the same worker
  id, made possible by "run now" or an edit, both pass the ownership guard. One
  failure count is lost (`Monitors.SharedWorkerIdLosesUpdate`), or thresholds
  edited meanwhile are ignored though all counters agree
  (`Monitors.EditBetweenLeasesIsIgnored`). A commit is safe if its claim has been
  alone under its worker id, or nothing happened to the row since its lease;
  `Monitors.StaleSnapshotIff` and `Monitors.StaleReportIff` say exactly which other
  snapshots, with their own thresholds, do no harm. If no worker id leases a row on
  which it still has a check in progress, nothing is lost
  (`Monitors.WithoutRivalsNothingIsLost`).
- A notification job that its worker blocked is never resumed by reactivation,
  which looks for the suspension's own error text; an active organization can
  hold such a job for good (`Notifications.BlockedResumesIff`,
  `Notifications.ActiveOrganizationCanHoldStuckJob`).
- DEAD_LETTER is absorbing only until an operator retries the job. The one-hour
  cap of the delivery backoff never acts.
- A purge worker that crashes on the last attempt leaves a job nobody can lease,
  retry or cancel (`PurgeProtocol.CrashOnLastAttemptAbandons`).
- An operator's retry resets a purge job's attempts but not its start time, so
  the cancellation policy is right to test both.
- The three chain column names are dropped at every depth of an audit entry, so
  nested values under these names are not protected by the chain, and an instant
  has the canonical form of the text that spells it. Key order, these names and
  the spelling of instants are all that canonical form forgets
  (`AuditIntegrity.CanonicalIff`).
- The size of the sealing batches is invisible in the chain. A row inserted
  between two batches leaves the rows, and under an injective hash the chain state,
  of an earlier insert exactly if it does not come before the last row sealed
  already (`AuditBatches.LateInsert`, `AuditBatches.ChainShowsLateInsert`).
- Pruning the audit log by date removes every entry sealed before the last
  expired one, also newer ones. Verification reads the chain state and the log
  in two statements; the exact condition under which a concurrent seal or prune
  makes it fail is `AuditLog.VerificationRace`. A verification that finds no state
  row yet accepts whatever is sealed meanwhile.
- The open event's maintenance flag is not rewritten while the status stays, so
  a maintenance on top of a degradation counts as downtime.
- Overlapping cache misses on one key count its bytes twice, and nothing but a
  full flush, which only tests call, takes that back: 65 simultaneous first reads
  of a 512 KiB image, or seven of one of 5 MiB, turn the cache off for that image
  and leave the process less than one such image of cache.
- A read that fetched an image before its row was deleted puts the bytes back into
  the cache when it goes on, and they stay until evicted: an image is held again
  exactly then (`DeletedImages.DeletedImageServedIff`), so only the serving route's
  own look at the asset row (lib/asset-storage.ts:53-56) keeps it from being shown.
- No interval as long as the limiter's window sees more than 2 * limit - 1
  admissions, and that many are possible. Retry-After is honoured only if other
  callers of the same counter have left room since the window expired.
- A wall time that a clock change skips moves by the size of the gap, forward or
  back depending on which side of the change it lies when read as UTC.
- A placement's new order puts it next to the place asked for, one short of it;
  asking for the neighbour's order changes nothing.
- The SCIM size check counts the stored list with its repetitions. The code is the
  set fold except for requests the fold accepts and whose first change of the
  members is a removal that leaves such a list too long
  (`ScimGroupUpdate.UpdateIsSetFold`).

## Model

| member | source | states |
|---|---|---|
| `Monitors.MonitorTable.LeaseDueMonitors` | worker/monitors.ts:50-86 | every candidate the locking query returned, and no other row, gets this worker as owner and a new expiry; the claimed rows are returned in order |
| `Monitors.MonitorTable.RenewMonitorLease` | worker/monitors.ts:18-27 | moves the expiry exactly if this worker owns the row, otherwise reports the lost lease and changes nothing |
| `Monitors.MonitorTable.ReleaseMonitorLease` | worker/monitors.ts:29-36 | frees the row exactly if this worker owns it |
| `Monitors.MonitorTable.CommitMonitorResult` | worker/monitors.ts:88-149 | inactive organization, lost lease and success are told apart; only success writes, the row and one check together, in the machine's commit step, of which the rows on schedules and counters say what it does |
| `Monitors.MonitorTable.UndoDown` | worker/monitors.ts:214-220 | takes back only the down flag, only for the owner |
| `Monitors.CountersAreRunLengths` | worker/monitors.ts:184-189 | after any results the two counters are the lengths of the final runs of failures and successes |
| `Monitors.LastCompletionIsGreatest` | worker/monitors.ts:186-189 | the position the next row speaks of is the greatest one completing a threshold |
| `Monitors.DownCharacterization` | worker/monitors.ts:184-191 | a monitor that starts up is down if and only if its failure threshold was completed later than its recovery threshold, for any results and thresholds |
| `Monitors.FlipNeedsFullRun` | worker/monitors.ts:186-191 | a change of the down flag ends a full run of matching results |
| `Monitors.FlipsAreFarApart` | worker/monitors.ts:186-191 | a flip back comes at least its threshold later |
| `Monitors.FlipsAlternate` | worker/monitors.ts:186-191 | between two downs lies an up and the reverse, so flips of one kind are at least both thresholds apart |
| `Monitors.RunKeepsInv` | worker/monitors.ts:50-149 | every run keeps: a claim that owns its row alone, or whose row nothing happened to, has a current snapshot; claims of one worker id on one row know of each other; every row that only safe claims wrote to replays from its own history |
| `Monitors.CommitIsSequential` | worker/monitors.ts:112-128 | in every interleaving a commit of a claim that has been alone under its worker id, or whose row nothing happened to since the lease, applies the threshold machine to the values the row holds just before it and reports a down transition exactly if that makes one |
| `Monitors.StaleSnapshotIff` | worker/monitors.ts:182-197 | for every claim that may commit the exact condition, per result: the run of equal results agrees, and snapshot and row, each under its own thresholds, end up down or not alike |
| `Monitors.StaleReportIff` | worker/monitors.ts:182-208 | the commit and its reported down transition are right for both results if and only if counters and down flag agree and the one threshold that matters decides alike |
| `Monitors.AtMostOneCommitter` | worker/monitors.ts:112-128 | of all workers that believe they hold a monitor, one whose claim is alone under its worker id and may commit is the only one that may |
| `Monitors.RunsRefineSequentialMachine` | worker/monitors.ts:164-220 | no lost update: every row to which only such claims committed, and its checks, equal a sequential replay of that row's events |
| `Monitors.WithoutRivalsNothingIsLost` | worker/monitors.ts:50-220 | in every run in which no worker id leases a row while it has a check of it in progress, every commit is in turn, at most one worker can commit to a row, and every row replays from its own history |
| `Monitors.DownFromCommittedChecks` | worker/monitors.ts:164-197 | for racing workers too, the down flag of such a row, never edited or rolled back, is decided by the committed checks alone |
| `Monitors.SharedWorkerIdLosesUpdate` | worker/monitors.ts:124-128 | a run with a "run now" between two leases, after which two claims under one worker id lose an update |
| `Monitors.EditBetweenLeasesIsIgnored` | worker/monitors.ts:186-191 | a run with an edit between two leases, after which the older claim judges by the old thresholds though all counters agree |
| `MonitorSchedule.NextCheckIsDue` | worker/monitors.ts:50-128 | in every run from a commit at `now` on, while no edit, switch, "run now" or later commit touches the row: it can be leased at t if and only if it is enabled, t is at least `now` plus its interval, and it is released or its lease has expired |
| `MonitorSchedule.NobodyLeasesEarly` | worker/monitors.ts:14-86 | in every run after a lease or renewal at `from`, while nobody takes it away, nobody can lease the row for thirty seconds or twice its timeout, whichever is longer |
| `MonitorSchedule.LeaseGivesClaim` | worker/monitors.ts:50-86 | picking a leasable row gives a claim that may commit; picking another changes nothing |
| `MonitorSchedule.ReleaseFrees` | worker/monitors.ts:29-36 | a released row has no owner and no expiry, and nobody can commit to it any more |
| `MonitorSchedule.CommitWritesIff` | worker/monitors.ts:100-149 | a result is written if and only if the organization is active and the row is the worker's; then one check is appended and no other row changes |
| `MonitorSchedule.CrashChangesNoRow` | worker/monitors.ts:50-86 | a worker that crashes leaves every row as it is and commits nothing any more |
| `MonitorSchedule.DeletionTakesChecks` | lib/cascade.ts:99-115 | a deleted monitor takes its own checks along and nothing else |
| `MonitorSchedule.OperatorsMakeDue` | app/admin/(protected)/monitors/actions.ts:144-190 | an edit, enabling or "run now" makes the row due at once unless its last check is not older |
| `MonitorSchedule.DisabledIsNeverDue` | app/admin/(protected)/monitors/actions.ts:149-154 | a disabled monitor is never leased |
| `MonitorSchedule.IncidentStays` | worker/monitors.ts:200-260 | a monitor's incident is the one its owner linked last; every other step leaves it |
| `Notify.CollectJobs` | lib/notify.ts:175-212 | the keys of all matching subscribers, endpoints and destinations, of the page and then of its hub |
| `Notify.KeysSeparateTargets` | lib/notify.ts:30-40 | two targets of one event never share a deduplication key |
| `Notify.KeysSeparatePages` | lib/notify.ts:30-40 | copies of an event for two pages never share a key, whatever subject and body contain |
| `Notify.DispatchKeysDistinct` | lib/notify.ts:72-212 | deduplication loses no target: as many distinct keys as matching rows, page and hub together |
| `Notify.DispatchKeysAreMatchingRows` | lib/notify.ts:72-212 | a key is dispatched if and only if some matching subscriber, endpoint or destination of the page, or of its hub for the hub's copy, has it |
| `Notify.SharedKeyIff` | lib/notify.ts:30-40 | two jobs share a key if and only if event id (or type), page, target and text are the same |
| `Notify.SubscriberSkippedIff` | lib/notify.ts:77-127 | the reasons for which a subscriber is not told, and no others |
| `Notify.DestinationSkippedIff` | lib/notify.ts:98-158 | the same for a destination |
| `Notify.EndpointSkippedIff` | lib/notify.ts:91-97 | the same for a webhook endpoint |
| `Notify.HubIsTold` | lib/notify.ts:187-207 | a hub hears of a product's event if and only if it is not for operators only, the product is public and the hub is its parent in the same organization; the copy names the product before subject and body and has no component filter |
| `Notifications.BackoffDoubles` | worker/notifications.ts:398 | delays double from 2 to 1024 seconds; the one-hour cap never acts |
| `Notifications.InsertAllAddsMissing` | lib/notify.ts:213-218 | inserting on conflict do nothing adds exactly the missing keys as fresh jobs and leaves the others alone |
| `Notifications.NotificationTable.LeaseNotificationJob` | worker/notifications.ts:229-260 | the chosen leasable job becomes this worker's; attempts are not counted yet |
| `Notifications.NotificationTable.RenewNotificationLease` | worker/notifications.ts:262-275 | moves the expiry exactly for the owner of a processing job |
| `Notifications.NotificationTable.BlockInactiveNotification` | worker/notifications.ts:292-305 | blocks the job exactly for its owner, with the worker's own error text |
| `Notifications.NotificationTable.CommitNotificationOutcome` | worker/notifications.ts:320-377 | commits exactly for the owner of a processing job of an active organization, one log row with it, and the subscriber quarantined on a hard bounce; otherwise nothing; `NotificationOutcomes.CommitOutcome` says which state the job ends in |
| `Notifications.NotificationTable.DispatchNotifications` | lib/notify.ts:175-222 | inserts the event's keys, existing ones untouched, and returns how many targets there were |
| `Notifications.RunKeepsInv` | worker/notifications.ts:229-428 | every run of workers, operators and retention keeps the books of all jobs and the snapshots of all owners |
| `Notifications.JobBooks` | worker/notifications.ts:320-377 | attempts within the limit and equal to the log rows written since the last manual retry (a dead letter may have fewer), processing if and only if leased, at most one row ever logged as sent |
| `Notifications.NeverUnleasable` | worker/notifications.ts:229-246 | a waiting or processing job can be leased at any late enough time, whoever crashed |
| `Notifications.SettledForever` | worker/notifications.ts:327-356 | SENT never changes again; DEAD_LETTER only by an operator's retry |
| `Notifications.WorkerBlockedForever` | worker/notifications.ts:292-305 | a job its worker blocked stays as it is in every future |
| `Notifications.BlockedResumesIff` | app/platform/(protected)/orgs/actions.ts:134-141 | a blocked job can ever leave that state if and only if the suspension itself blocked it |
| `Notifications.ActiveOrganizationCanHoldStuckJob` | app/platform/(protected)/orgs/actions.ts:116-142 | a run after which an active organization holds a job blocked for good |
| `Notifications.SuspensionRevokes` | app/platform/(protected)/orgs/actions.ts:96-103 | a delivery in progress at a suspension is never committed, not even after reactivation |
| `Notifications.RedispatchAddsNothing` | lib/notify.ts:213-218 | the same event dispatched to the same targets again, at any later point before retention, changes nothing |
| `NotificationOutcomes.CommitOutcome` | worker/notifications.ts:320-410 | in every reachable state a commit leaves the job SENT if and only if it was delivered, DEAD_LETTER if and only if the failure was permanent or took the last attempt, and else PENDING, leasable at t if and only if t is at least now + 2^attempt seconds (2^10 at most) + jitter |
| `NotificationOutcomes.CommitWritesIff` | worker/notifications.ts:325-356 | an outcome is written if and only if the organization is active and the job in delivery by this worker |
| `NotificationOutcomes.TransientFailuresGetAllAttempts` | worker/notifications.ts:384-410 | over any run a job that only fails transiently is delivered eight times before it is dead-lettered |
| `NotificationOutcomes.LeaseLastsThirtySeconds` | worker/notifications.ts:229-275 | a lease or renewal keeps everybody out for thirty seconds, and if its worker dies no longer |
| `NotificationOutcomes.NewJobsAreDue` | lib/notify.ts:108-123 | a key that is new is a job that can be leased at once, with eight attempts |
| `NotificationOutcomes.BlockingStops` | worker/notifications.ts:292-305 | a worker that finds the organization inactive takes its own job out of the queue and no other |
| `NotificationOutcomes.SuspensionStops` | app/platform/(protected)/orgs/actions.ts:96-103 | no job of a suspended organization can be leased |
| `NotificationOutcomes.SuspensionRoundTrip` | app/platform/(protected)/orgs/actions.ts:96-141 | suspension and reactivation at `now`: exactly the jobs that waited or were in delivery can be leased again, from `now` on, with the attempts they had; all others are as they were |
| `NotificationOutcomes.RetriedJobsAreDue` | app/platform/(protected)/operations/actions.ts:16-30 | a retried dead letter can be leased at once with all its attempts |
| `NotificationOutcomes.QuarantineIff` | worker/notifications.ts:357-362 | a subscriber is quarantined if and only if the job was for it, on its page, and the recipient was refused |
| `Cascade.ScopeRoundTrip` | lib/cascade.ts:21-33 | what one attempt recorded the next reads back unchanged |
| `Cascade.ScopeIsRead` | lib/cascade.ts:21-33 | of whatever is stored under the five names exactly the strings are read; anything but an object reads as nothing recorded |
| `Cascade.IdsOnMembers` | lib/cascade.ts:149-152 | the child query returns exactly the ids on the recorded pages |
| `Cascade.MergeIdsIsUnion` | lib/cascade.ts:35-37 | merging is set union without repetition and keeps what was recorded in place |
| `Cascade.ScopeOnlyGrows` | lib/cascade.ts:143-158 | no recorded id is lost and every row about to be deleted is recorded |
| `PlatformJobs.PurgeTables.LeasePlatformJob` | worker/platform-jobs.ts:18-47 | the chosen job becomes this worker's, its attempt counted and its start recorded |
| `PlatformJobs.PurgeTables.RenewPlatformJobLease` | worker/platform-jobs.ts:49-59 | moves the expiry exactly for the owner |
| `PlatformJobs.PurgeTables.DeleteRecordedAssets` | lib/cascade.ts:39-43 | removes exactly the listed blobs, without looking at the lease |
| `PlatformJobs.PurgeTables.FinalizePurge` | lib/cascade.ts:135-168 | organization gone, tombstone and success appear together, or nothing changes because the organization or the lease is gone |
| `PlatformJobs.PurgeTables.FailPurge` | worker/platform-jobs.ts:116-134 | the owner's failure requeues the job with a delay or, on the last attempt, parks it |
| `PlatformJobs.RunKeepsInv` | worker/platform-jobs.ts:18-147 | every run keeps the books of the jobs, the claims and the organization's state |
| `PurgeProtocol.PurgedTogether` | worker/platform-jobs.ts:78-100 | organization gone, tombstone present and one succeeded job are equivalent, and there is never a second success |
| `PurgeProtocol.PurgedForever` | worker/platform-jobs.ts:78-100 | nothing after a completed purge touches organization, tombstone or jobs |
| `PurgeProtocol.CancellableMeansUntouched` | lib/platform-job-policy.ts:8-22 | whenever the policy allows cancelling, no asset was ever deleted and no worker is at work |
| `PurgeProtocol.CancellableIffNeverStarted` | lib/platform-job-policy.ts:13-22 | among queued jobs the policy picks exactly those never leased |
| `PurgeProtocol.AttemptsWithinLimit` | worker/platform-jobs.ts:23-44 | attempts never exceed the maximum |
| `PurgeProtocol.StepGrowsScopes` | worker/platform-jobs.ts:66-76 | no step loses a recorded id; the tombstone covers all that was deleted |
| `PurgeProtocol.ScopesOnlyGrow` | worker/platform-jobs.ts:66-76 | over any run a job's recorded scope only grows and no job row is lost |
| `PurgeProtocol.LeasableUnlessExhausted` | worker/platform-jobs.ts:23-31 | a processing job can be leased again if and only if attempts are left |
| `PurgeProtocol.AbandonedForever` | worker/platform-jobs.ts:23-31 | an exhausted job without its worker stays as it is in every future and the organization stays deleting |
| `PurgeProtocol.CrashOnLastAttemptAbandons` | worker/platform-jobs.ts:18-47 | five crashing workers reach that state |
| `PurgeProtocol.RetriedJobIsNotCancellable` | app/platform/(protected)/operations/actions.ts:44-58 | a retried job is queued with zero attempts and still not cancellable |
| `PurgeProtocol.FailedAttempt` | worker/platform-jobs.ts:116-134 | a failed attempt at `now`: with attempts left the job can be leased at t if and only if t is at least now + 30 s * 2^attempts, an hour at most; after the last one never |
| `PurgeProtocol.LeaseLastsFiveMinutes` | worker/platform-jobs.ts:18-59 | a lease or renewal keeps everybody out for five minutes, and if its worker dies no longer |
| `PurgeProtocol.FinalizeOutcome` | lib/cascade.ts:135-168 | the owner's finalization removes the organization, leaves the first tombstone, completes the job and records what was found; anybody else's, or one without an organization, writes nothing and goes on to record a failure |
| `PurgeProtocol.OnlyOwnersFinalize` | worker/platform-jobs.ts:158-166 | the renewal before finalizing lets only the owner through |
| `PurgeProtocol.ErrorsAreRecorded` | worker/platform-jobs.ts:158-166 | an error at any point makes the worker record a failure next and changes no row |
| `PurgeProtocol.BlobGoesIff` | lib/cascade.ts:39-43 | a blob goes if and only if a worker that still deletes deletes its key; none comes back |
| `PurgeProtocol.RequestedJobIsDue` | app/platform/(protected)/orgs/actions.ts:155-194 | a requested purge can be leased and cancelled at once, has five attempts and starts from the organization's pages |
| `PurgeProtocol.CancelTakesBack` | app/platform/(protected)/orgs/actions.ts:209-242 | cancelling leaves the organization suspended with all its rows, and the job can never be leased |
| `PurgeProtocol.RetriedJobIsDue` | app/platform/(protected)/operations/actions.ts:42-58 | a retried purge can be leased at once with all its attempts |
| `LeaseHeartbeat.Heartbeat.StartLeaseHeartbeat` | worker/lease-heartbeat.ts:5-12 | refuses exactly the intervals that are not finite and positive, otherwise arms the first timer |
| `LeaseHeartbeat.Heartbeat.Schedule` | worker/lease-heartbeat.ts:18-20 | arms a timer unless stopped |
| `LeaseHeartbeat.Heartbeat.OnTimeout` | worker/lease-heartbeat.ts:20-23 | the timeout puts one renewal in flight unless stopped |
| `LeaseHeartbeat.Heartbeat.OnFinally` | worker/lease-heartbeat.ts:28-31 | the finished renewal is forgotten and the next timer armed |
| `LeaseHeartbeat.Heartbeat.Stop` | worker/lease-heartbeat.ts:37-42 | disarms the timer and waits for the renewal in flight at the call |
| `LeaseHeartbeat.OneThingPending` | worker/lease-heartbeat.ts:14-33 | in every schedule timers and renewals pending together are at most one, and exactly one before `stop` |
| `LeaseHeartbeat.HeartbeatGoesOn` | worker/lease-heartbeat.ts:25-31 | before `stop` another renewal can always start, also after a failed one |
| `LeaseHeartbeat.StopResolvesIff` | worker/lease-heartbeat.ts:37-42 | `stop()` resolves if and only if nothing is in flight |
| `LeaseHeartbeat.StopHaltsTheTimer` | worker/lease-heartbeat.ts:37-42 | after `stop` no timer fires and only an already queued renewal starts |
| `LeaseHeartbeat.StopIsFinal` | worker/lease-heartbeat.ts:37-42 | once any `stop()` resolved nothing runs and nothing starts, in every continuation |
| `Status.WorstStatusIsMaximum` | lib/status.ts:58-61 | the reduction returns the severity maximum of the list and OPERATIONAL, and nothing else does |
| `Status.WorstStatusOfPermutation` | lib/status.ts:58-61 | the order of the sources is irrelevant |
| `Status.SeverityOrder` | lib/status.ts:46-61 | the five severities by name: each is shown if and only if it occurs and no worse one does |
| `Status.DownMeans` | lib/status.ts:196-218 | down means that some event that is no maintenance and has a known status other than operational is in force |
| `Status.DaysAreCalendarDays` | lib/status.ts:171-176 | days are UTC calendar days, the last one the day of `now` |
| `Status.OverlapsMeans` | lib/status.ts:196-199 | an event counts for a stretch if and only if it is in force at some moment of it |
| `Status.DayStatusMeans` | lib/status.ts:194-218 | which statuses a day shows, in terms of the events in force during it |
| `Status.CountMsIsCardinality` | lib/status.ts:221-236 | the measure used below is the number of milliseconds in the set |
| `Status.MergedDowntime` | lib/status.ts:220-236 | sort and merge yield the measure of the union of the intervals, however they overlap |
| `Status.OutagesOfDay` | lib/status.ts:192-218 | the clipped intervals cover exactly the down milliseconds of the day, and the status is the worst one in force |
| `Status.UptimePct` | lib/status.ts:238 | the percentage lies in [0, 100] and the clamp never acts |
| `Status.DayBucket` | lib/status.ts:171-246 | one bucket says what the events alone say about its observed stretch |
| `Status.ComputeDailyUptime` | lib/status.ts:160-250 | one such bucket per day, oldest first, for any events in any order |
| `Status.BucketInRange` | lib/status.ts:179-238 | downtime never exceeds the observed time |
| `Status.BucketIgnoresEventOrder` | lib/status.ts:192-238 | permuting the events changes neither percentage nor status |
| `Status.PrefixSums` | lib/status.ts:252-260 | the first k days together lose nothing at the midnights between them |
| `Status.WeightedUptimeIsWindowUptime` | lib/status.ts:160-262 | the weighted average of the daily buckets is 100 times the share of the whole observed window that was not down |
| `ComponentHistory.ReconciledIsWorstInForce` | lib/component-status.ts:26-110 | the reconciled status is the worst one any manual, incident, maintenance or monitor row argues for, and only that one |
| `ComponentHistory.MaintenanceFlagIff` | lib/component-status.ts:26-41 | the new event is marked as maintenance if and only if one is in force, or the manual status says so and nothing worse is in force |
| `ComponentHistory.ReconciliationShows` | lib/component-status.ts:105-141 | from any rows: a deleted page or inactive organization writes nothing; otherwise status and open event come to show the worst status in force, and the history grows by one event, the open ones closed, exactly if one of them did not before |
| `ComponentHistory.SettingReconciles` | lib/component-status.ts:164-188 | setting a status by hand is recorded if and only if it is a status and the organization active, and is then a reconciliation |
| `ComponentHistory.ComponentRows.ReconcileInTransaction` | lib/component-status.ts:42-142 | closes all open events, opens one and sets the status together, exactly when status or open event disagree; a deleted page or the fence changes nothing |
| `ComponentHistory.ComponentRows.SetComponentStatus` | lib/component-status.ts:164-209 | rejects unknown texts, sets the manual status and reconciles with it in one transaction |
| `ComponentHistory.RetentionTiles` | lib/retention.ts:117-120 | retention keeps the history tiled and its last event |
| `ComponentHistory.RetentionForgets` | lib/retention.ts:117-120 | retention forgets exactly the events that ended before the cutoff |
| `ComponentHistory.HistoryTiles` | lib/component-status.ts:111-141 | in every run closed events end where the next one starts, one event is open and carries the component's status |
| `ComponentHistory.ReconcileSetsWorst` | lib/component-status.ts:105-140 | each reconciliation leaves the worst status in force, so one source recovering hides no other |
| `ComponentHistory.ExactlyOneEventInForce` | lib/component-status.ts:121-135 | from the first event on exactly one event is in force at every moment |
| `ComponentHistory.DowntimeOfHistory` | lib/status.ts:192-236 | for such a history the merged downtime is the plain sum of the clipped outages |
| `ComponentHistory.FlagRightIff` | lib/component-status.ts:111-135 | after a reconciliation the maintenance flag is right if and only if the event was rewritten or agreed before |
| `ComponentHistory.MaintenanceFlagGoesStale` | lib/component-status.ts:119 | a run whose maintenance is not marked and counts as downtime |
| `AuditIntegrity.CanonicalIdempotent` | lib/audit-integrity.ts:7-17 | canonical content is a normal form |
| `AuditIntegrity.CanonicalIsSorted` | lib/audit-integrity.ts:11-14 | the fields of a canonical object stand in the order of their keys, none of them a chain column |
| `AuditIntegrity.OnlyChainColumnsAreDropped` | lib/audit-integrity.ts:11-14 | a field of any name but those three stays, with the canonical content of its value |
| `AuditIntegrity.CanonicalIff` | lib/audit-integrity.ts:7-17 | two values with distinct keys have the same canonical form if and only if they are equal up to key order, values under the three chain names, and an instant for its text, at every depth |
| `AuditIntegrity.PlainCanonicalIff` | lib/audit-integrity.ts:7-17 | values without chain names and without instants have the same canonical form if and only if they differ only in key order |
| `AuditIntegrity.CanonicalIgnoresKeyOrder` | lib/audit-integrity.ts:11-14 | the order in which keys are enumerated does not matter, at any depth |
| `AuditIntegrity.ContentIgnoresChainColumns` | lib/audit-integrity.ts:12-22 | rows that agree on id, creation time and all other columns have the same hashed content: sealing an entry does not change what is hashed for it |
| `AuditIntegrity.ContentIff` | lib/audit-integrity.ts:19-22 | the hashed contents of two rows are equal if and only if id and creation time are, and the other columns up to canonical form |
| `AuditIntegrity.PlainContentIff` | lib/audit-integrity.ts:19-22 | rows whose other columns hold no chain name below the top level and no instant have equal hashed contents if and only if they differ only in key order and chain columns |
| `AuditIntegrity.NestedChainKeysAreUnprotected` | lib/audit-integrity.ts:12 | an instance: two entries that differ inside a nested chain key have the same canonical content |
| `AuditIntegrity.WalkChain` | lib/audit-integrity.ts:72-81 | the loop finds the longest front of the log that continues the chain, and the digest it ends with |
| `AuditIntegrity.VerifyAuditScope` | lib/audit-integrity.ts:69-86 | valid if and only if the log is one chain from the retained start to the state's hash and sequence; otherwise the first bad entry, or the tail, is named; the count of unsealed rows is reported unless an entry is bad |
| `AuditIntegrity.BadEntryRefutes` | lib/audit-integrity.ts:76-78 | stopping at the first bad entry is sound |
| `AuditIntegrity.AcceptedLogsAgree` | lib/audit-integrity.ts:69-86 | tamper evidence: two logs accepted under one chain state have the same length and agree, in order, in id, creation time, chain columns and, up to canonical form, every other column |
| `AuditLog.AuditTables.SealAuditEntries` | lib/audit-integrity.ts:31-67 | a batch is chained onto the state in its order; rows, state and the delivery jobs of all sinks change together |
| `AuditLog.AuditTables.PruneAuditBefore` | lib/audit-integrity.ts:88-100 | deletes up to the last expired sequence number and moves the retained start there; without one nothing is deleted |
| `AuditBatches.BacklogIsUnique` | lib/audit-integrity.ts:36-37 | creation time and id order the unsealed rows in one way only, so the query has one answer |
| `AuditBatches.BacklogExists` | lib/audit-integrity.ts:36-37 | and it always has that answer |
| `AuditBatches.OldestFirst` | lib/audit-integrity.ts:36-37 | with a row a batch holds, before it, every unsealed row that was created earlier, or at the same time with a smaller id |
| `AuditBatches.BatchingIsInvisible` | lib/audit-integrity.ts:31-67 | any series of sealing transactions, each over the first rows of its own query under its own limit, leaves the rows, chain and order of one transaction over as many rows |
| `AuditBatches.LateInsert` | lib/audit-integrity.ts:36-37 | a row inserted between two batches: in which order the log is sealed; the stored rows are those of an earlier insert if and only if the new row does not come before the last one sealed, and then so are chain and order |
| `AuditBatches.ChainShowsLateInsert` | lib/audit-integrity.ts:36-64 | under an injective hash the chain state alone is that of an earlier insert if and only if the same holds |
| `AuditSinks.SinksReceiveTheChain` | lib/audit-integrity.ts:39-61 | sealing queues for each sink exactly the entries of the batch it receives, as they are stored; jobs already queued stay |
| `AuditSinks.PayloadsAreLinks` | lib/audit-integrity.ts:51-59 | every payload queued for a new entry is a link of the chain: its digest is that of its content and previous digest |
| `AuditSinks.ReceivesIff` | lib/audit-integrity.ts:39-51 | a disabled sink receives nothing, one of the installation everything, one of an organization exactly that organization's entries |
| `AuditLog.RunKeepsInv` | lib/audit-integrity.ts:24-100 | every run of inserts, seals and prunes keeps the log chained to its state |
| `AuditLog.SealedAnswerIsOrder` | lib/audit-integrity.ts:71 | the verifier's query has one possible answer, the sealing order |
| `AuditLog.EveryRunVerifies` | lib/audit-integrity.ts:31-100 | after every run verification accepts and the retained sequence numbers are contiguous up to the state's, also when nothing is retained |
| `AuditLog.PruneRemovesExactly` | lib/audit-integrity.ts:91-95 | an entry is removed if and only if it or one sealed after it is older than the cutoff |
| `AuditLog.RunIsLater` | lib/audit-integrity.ts:31-100 | both ends of the chain only move forward, and stay only if the chain does |
| `AuditLog.VerificationRace` | lib/audit-integrity.ts:70-84 | a log read after other processes ran is accepted under the state row read before if and only if they neither sealed nor pruned, or there is no sealed entry on either side; with no state row yet, if and only if pruning removed nothing or nothing is sealed |
| `PageLocale.OffsetIsBounded` | lib/page-locale.ts:25-40 | the offset computed from the printed wall clock is the zone's offset |
| `PageLocale.OffsetInForce` | lib/page-locale.ts:25-40 | the offset is that of the latest change not after the instant, or the zone's first |
| `PageLocale.OffsetIsInSeconds` | lib/page-locale.ts:35-39 | read off a clock printed in whole seconds it is a number of seconds |
| `PageLocale.OneChangeAround` | lib/page-locale.ts:52-54 | with changes twice the largest offset apart, all instants the two passes look at know one change |
| `PageLocale.TwoPassesSuffice` | lib/page-locale.ts:46-56 | the conversion comes back to the wall time if and only if some clock ever shows it, repeated hours included |
| `PageLocale.SkippedTimeMovesByTheGap` | lib/page-locale.ts:52-55 | a skipped time moves by exactly the gap, forward or back by its side of the change |
| `PageLocale.RepeatedTimeChoice` | lib/page-locale.ts:52-55 | which of its two instants a repeated time means |
| `PageLocale.InstantComesBackIff` | lib/page-locale.ts:46-63 | exactly which instants survive the trip through their wall time |
| `PageLocale.PrintedRoundTrip` | lib/page-locale.ts:59-63 | the printed minute can hide a forward move of less than a minute and nothing else |
| `PageLocale.PrintsTheMinute` | lib/page-locale.ts:59-63 | the printed value is the instant plus the offset in force, to the minute |
| `PageLocale.PrintedRoundTripIffExists` | lib/page-locale.ts:46-63 | with whole-minute offsets the printed round trip fails exactly on skipped times |
| `PageLocale.SpacingIsNeeded` | lib/page-locale.ts:52-54 | a zone with closer changes for which two passes lose an existing time |
| `AssetStorage.ImageCache.FlushAssetCache` | lib/asset-storage.ts:61-71 | the machine's flush of one key, or of everything; `DeletedImages.FlushForgets` says what it takes out |
| `AssetStorage.ImageCache.BeforeAwait` | lib/asset-storage.ts:73-79 | a hit moves to the end and is returned, a miss changes nothing |
| `AssetStorage.ImageCache.AfterAwait` | lib/asset-storage.ts:80-91 | a small body is set and counted, then the front is evicted until the count fits; a large one is not kept |
| `AssetStorage.EvictedIsShortestFront` | lib/asset-storage.ts:84-88 | eviction removes the shortest front after which the count fits |
| `AssetStorage.CacheIsBounded` | lib/asset-storage.ts:57-91 | in every interleaving split at the await: cached bytes are at most the count, the count at most the cap, every cached value is the stored one |
| `AssetStorage.DriftIsOverlap` | lib/asset-storage.ts:81-83 | the count exceeds the cached bytes by exactly what overlapping misses counted twice since the last full flush |
| `AssetStorage.EvictionIsMinimal` | lib/asset-storage.ts:81-88 | a small miss evicts the fewest oldest entries that fit under the cap less the drift, and survives if and only if it fits there alone |
| `AssetStorage.ExactCountKeepsNewEntry` | lib/asset-storage.ts:81-88 | with an exact count every small miss is kept |
| `AssetStorage.LeastRecentlyUsedGoFirst` | lib/asset-storage.ts:73-88 | while no misses overlap, whatever is evicted was last used before all that stays |
| `AssetStorage.DriftIsLostCapacity` | lib/asset-storage.ts:57-91 | without a full flush the cache never again holds more than the cap less the drift |
| `AssetStorage.OverlapCanDisableTheCache` | lib/asset-storage.ts:80-88 | for an image of any size the cache takes, of b bytes: after cap / b + 1 overlapping first reads the cache is empty and never again holds more than cap % b bytes, so never that image |
| `DeletedImages.FlushForgets` | lib/asset-storage.ts:67-70 | after a flush of one key that key is not held, all other entries stay in their order, and the count falls by exactly the bytes freed |
| `DeletedImages.LargeBodiesAreNotKept` | lib/asset-storage.ts:81 | a body of more than eight mebibytes leaves the cache as it was |
| `DeletedImages.DeletedImageServedIff` | lib/asset-storage.ts:28-91 | in every run after an image was flushed and its row deleted it is held again if and only if a read that had fetched it before goes on afterwards and its bytes have survived since |
| `DeletedImages.DeletedImageCanReturnIff` | lib/asset-storage.ts:28-91 | some run without a full flush brings it back if and only if such a read is under way and its bytes are small enough and fit under the cap less the drift |
| `DeletedImages.DeletedImageStaysGone` | lib/asset-storage.ts:28-91 | with no such read under way it never comes back |
| `RateLimit.Counter.ConsumeRateLimit` | lib/rate-limit.ts:17-44 | counts in a live window or opens a new one; admitted if and only if the count is within the limit, otherwise told when to retry |
| `RateLimit.WindowIsSuffix` | lib/rate-limit.ts:26-35 | the live window is the last `count` calls and its first call opened it |
| `RateLimit.WindowAdmitsFirstCalls` | lib/rate-limit.ts:37-39 | a window admits exactly its first `limit` calls |
| `RateLimit.AtMostTwiceTheLimit` | lib/rate-limit.ts:26-43 | no half-open interval of a window's length sees more than 2 * limit - 1 admissions |
| `RateLimit.BoundIsReached` | lib/rate-limit.ts:26-43 | for every limit and window there is a run that sees that many |
| `RateLimit.RetryAfterBounds` | lib/rate-limit.ts:37-39 | Retry-After reaches the end of the window and overshoots by less than a second; its one-second floor never acts |
| `RateLimit.FirstRetryAdmittedIff` | lib/rate-limit.ts:26-39 | the first call from then on is admitted if and only if the calls since the expiry left room or their window is over too |
| `RateLimit.LoneRetryIsAdmitted` | lib/rate-limit.ts:26-39 | alone with the counter it is always admitted and opens a window |
| `Totp.EncodeBase32` | lib/totp.ts:9-17 | the loop spells the input's bits in groups of five, the last padded with zeros; `Base32Law.EncodingIsChangeOfBase` says which text that is |
| `Totp.DecodeBase32` | lib/totp.ts:19-32 | the loops rebuild whole octets from the cleaned text, and the error is never raised; `Base32Law.DecodingIsChangeOfBase` says which bytes they are |
| `Totp.Base32RoundTrip` | lib/totp.ts:9-32 | decoding gives back every byte string, whose text has ceil(8n / 5) letters of the alphabet |
| `Totp.DecodingIgnoresLayout` | lib/totp.ts:20 | so does any text that differs in case or in characters outside the alphabet |
| `Base32Law.EncodingIsChangeOfBase` | lib/totp.ts:9-17 | the text of n bytes has ceil(8n / 5) letters and, read as a big-endian base-32 number, is the input read as a big-endian base-256 number times 2^(5 * ceil(8n / 5) - 8n) |
| `Base32Law.DecodingIsChangeOfBase` | lib/totp.ts:19-32 | for any text of k letters the result has floor(5k / 8) bytes and is the text's base-32 number divided by 2^(5k - 8 * floor(5k / 8)), rounded down |
| `Base32Law.LettersOfText` | lib/totp.ts:20 | the letters of a text are those its characters stand for in either case, in their order |
| `Totp.TotpStep` | lib/totp.ts:53-62 | the earliest of the three steps around now whose code it is; none if malformed or no match |
| `Totp.SpacesDoNotMatter` | lib/totp.ts:54 | white space anywhere in a typed code does not matter, everything else does |
| `Totp.Device.ConsumeDeviceStep` | lib/totp.ts:72-79 | accepts and records exactly a step later than the recorded one |
| `Totp.LastStepIsMaximum` | lib/totp.ts:72-79 | the row holds the greatest step ever tried |
| `Totp.AcceptedIffRecord` | lib/totp.ts:72-79 | an attempt is accepted if and only if its step is later than all tried before |
| `Totp.NoStepTwice` | lib/totp.ts:68-79 | accepted steps strictly increase over any run |
| `PageDesign.DerivedFits` | lib/page-design.ts:448-457 | a fitting desktop placement scaled down and rounded fits its columns |
| `PageDesign.MigrationIsGood` | lib/page-design.ts:291-303 | a legacy design with distinct, non-empty ids migrates to a good grid at all breakpoints |
| `PageDesign.UpdatePageGridPlacement` | lib/page-design.ts:460-484 | clamps column and span, sorts stably by order, renumbers; an unknown block changes nothing |
| `PageDesign.UpdatedIsGood` | lib/page-design.ts:460-484 | an update keeps a good grid at all breakpoints |
| `PageDesign.UpdateLandsNextTo` | lib/page-design.ts:472-481 | exactly where the updated placement lands, all others unchanged in their order |
| `PageDesign.MovePageDesignBlock` | lib/page-design.ts:496-518 | finds source and target by id or zone and splices the block over; null exactly for unknown ids and for a block dropped on itself, while a zone's last block dropped on its own zone gives an unchanged design |
| `PageDesign.MovedPermutes` | lib/page-design.ts:496-518 | a move rearranges the surface's blocks and touches no placement |
| `PageDesign.CarriedLands` | lib/page-design.ts:514-517 | the block stands where its target stood, or last in the zone; all others keep their order |
| `PageDesign.ApplyPageTemplateLayout` | lib/page-design.ts:942-965 | rebuilds the desktop grid in template order and drops the other two |
| `PageDesign.TemplatedIsArranged` | lib/page-design.ts:945-962 | blocks stand in the template's order, each in its kind's slot or, lacking one, at full width |
| `PageDesign.TemplatedIsGood` | lib/page-design.ts:942-965 | a template change keeps the blocks and gives a good grid |
| `PageDesign.EditsKeepGoodGrids` | lib/page-design.ts:291-518 | from a migrated legacy design any series of moves, updates, resets and templates keeps the blocks and, at all three breakpoints, one placement per block with orders 0, 1, ... inside the columns |
| `PageEdits.PatchIsClamped` | lib/page-design.ts:474-477 | a patch sets the order as asked, the column as near to the one asked for as the grid allows, the span as near as the room from there |
| `PageEdits.DerivedIsScaled` | lib/page-design.ts:448-457 | a derived placement has its offset and span scaled, rounded to the nearest column and cut at the grid's end |
| `PageEdits.UnconfiguredFollowsDesktop` | lib/page-design.ts:441-458 | the grids are 12, 8 and 4 columns wide, and one that is not configured follows the desktop |
| `PageEdits.ResetFollowsDesktop` | lib/page-design.ts:486-494 | resetting a breakpoint makes that one follow the desktop again and changes nothing else |
| `PageEdits.UpdateTouchesOneGrid` | lib/page-design.ts:467-484 | an update changes the grid of its own breakpoint only, and nothing for an unknown block |
| `PageEdits.MigrationLays` | lib/page-design.ts:291-303 | where each block of a legacy design is laid: full over the whole width, primary beside the sidebar if there is one, in zone order |
| `PageEdits.DropOnZone` | lib/page-design.ts:502-517 | a block dropped on a zone's name is the last of that zone afterwards |
| `PageEdits.UnknownZoneMovesNothing` | lib/page-design.ts:504-507 | any other "zone-" name moves nothing |
| `PageEdits.DropOnBlock` | lib/page-design.ts:502-517 | a block dropped on another takes the place that one had in its zone |
| `PageEdits.RankIsLastPlace` | lib/page-design.ts:945-950 | a kind ranks where the template has it last |
| `PageEdits.MissingKindsRankLast` | lib/page-design.ts:948-950 | kinds the template lacks come after all others, at rank 999 |
| `PageEdits.SlotIsFirstPlacement` | lib/page-design.ts:951-955 | a kind's slot is the first placement of the template's first block of that kind |
| `PageEdits.TemplateIsStable` | lib/page-design.ts:948-962 | blocks of one kind keep their order under a template |
| `PageEdits.TemplateResetsOtherGrids` | lib/page-design.ts:963-964 | after a template tablet and mobile follow the new desktop grid |
| `ScimGroupUpdate.FilterNamesId` | lib/scim-group-update.ts:52 | a path names an id if and only if it has the form of the regular expression around that id: `members[value`, spaces, `eq`, spaces, the id without quotes in quotes, `]`, in any letter case |
| `ScimGroupUpdate.ParseScimGroupUpdate` | lib/scim-group-update.ts:18-60 | the loop computes the outcome of which the fold rows below say, request by request, what it is, refusals included |
| `ScimGroupUpdate.ApplyOperation` | lib/scim-group-update.ts:24-55 | one pass of the loop is one action on name and member list, or a refusal; `ReadingIsAction` says which |
| `ScimGroupUpdate.ReadingIsAction` | lib/scim-group-update.ts:26-55 | that action is the reading of op, path and value in terms of sets: add on `members` or without a path unites, remove with values or by filter subtracts, remove without a value empties, replace replaces, `displayName` changes the name alone, every other combination is refused |
| `ScimGroupUpdate.RefusedIff` | lib/scim-group-update.ts:26-55 | exactly which operations are refused, whatever the group |
| `ScimGroupUpdate.WordsDecide` | lib/scim-group-update.ts:12-39 | for a whole request with one operation on the members: the word "add", in any letter case, unites with the stored set, "remove" subtracts, "replace" replaces, any other word is refused |
| `ScimGroupUpdate.AttributesReplace` | lib/scim-group-update.ts:21-22 | a request without operations replaces name and members by those it brings |
| `ScimGroupUpdate.MembersAre` | lib/scim-group-update.ts:6 | a member list is read entry by entry, objects whose `value` is a database id, at most 10,000 |
| `ScimGroupUpdate.DisplayNameIff` | lib/scim-group-update.ts:5 | a display name is what stands between the outer spaces, 1 to 255 characters |
| `ScimGroupUpdate.OperationLimits` | lib/scim-group-update.ts:11-14 | a list of operations has one to a hundred entries |
| `ScimGroupUpdate.UpdateIsSetFold` | lib/scim-group-update.ts:18-60 | for every request and stored list: the list code is the left fold of union, difference and replacement in request order, with the same refusals, name and member set, if and only if it is not the case that the fold accepts and the first change of the members is a removal leaving the stored list with repetitions and more than 10,000 places |
| `ScimGroupUpdate.CountableListIsSetFold` | lib/scim-group-update.ts:18-60 | so for a stored list without repetitions, or of at most 10,000 places, it always is |
| `ScimGroupUpdate.AcceptedUpdateIsFold` | lib/scim-group-update.ts:18-60 | for any stored list, what the code accepts is the fold's answer |
| `ScimGroupUpdate.SetFoldIff` | lib/scim-group-update.ts:56 | for at most 10,000 different members the code is the fold for every request if and only if the stored list has at most 10,000 places |
| `ScimGroupUpdate.ResultIsBoundedSet` | lib/scim-group-update.ts:56-59 | an accepted update repeats no member and has at most 10,000 |
| `ScimGroupUpdate.InvalidOperationRefusesAll` | lib/scim-group-update.ts:24-55 | one invalid operation anywhere refuses the whole request |
| `ScimGroupUpdate.LastOperationDecides` | lib/scim-group-update.ts:24-55 | a member belongs as the last operation that settles it says, or else as before |

## Left out

- Network checks, SMTP, SMS and chat providers: a check or delivery is an arbitrary result.
- SQL text, Kysely and the job runner; only row guards, atomic transactions, row locks and skip-locked remain.
- Cryptography: SHA-256, HMAC and encryption are parameters. The genesis marker is the missing previous hash, so a stored hash equal to the text GENESIS is not represented.
- `worker/exports.ts` and `worker/audit-delivery.ts` use weaker variants of the same lease pattern.
- The drain loops that repeat lease and process; the machines allow any number of claims in any order.
- Liveness that needs scheduling fairness, and exactly-once delivery, which the code does not promise.
- Deleted pages and suspended organizations are one flag per machine in the monitor and notification protocols: active or not.
- Metric points, expiry checks, incident texts and audit rows written beside a monitor or purge commit.
- Retention of monitor checks and notification logs: checks and logs count the rows ever written. Retention of limiter rows removes only expired ones, which the next call would reset anyway.
- Event details and notes in the daily buckets, and notes on status events.
- A component row that does not exist, for which reconciliation does nothing.
- Key comparison by locale in canonical content: keys are ordered by code unit, and that no two different keys compare equal is part of the model.
- Calendar text and `Intl`: wall times are numbers and a zone is a table of offset changes, in whole seconds.
- Case folding and white space beyond ASCII in Base32 text, codes, SCIM paths and names.
- Totp.TotpStep: the clock is past the first half minute of 1970, before which the source computes no code.
- RateLimit.FirstRetryAdmittedIff: windows last at least one second; the configured minimum is ten (lib/rate-limit-policy.ts:24).
- RateLimit.AtMostTwiceTheLimit: one limit and one window for the whole run; an administrator's change between two calls is not represented.
- Audit deliveries after they are queued, and the job sweep that sealing requests for them.
- Subscribers appear only where a hard bounce quarantines one; the machine of the notification queue has no subscribers, and `Notify` takes the matching rows as given.
- Page themes, block settings, zone size limits and contrast checks; one surface at a time, and templates as any placements that fit the desktop columns.
- A reset or update that the design schema would refuse: designs are taken to parse.
