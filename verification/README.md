# Verification of kinakomate

kinakomate backs up the PostgreSQL database of a Misskey instance and proves backups usable by
restoring them into a scratch cluster. This project models its stateful and text-producing
parts in Dafny and proves what they guarantee. `dafny verify dfyconfig.toml` checks everything.

## What is modelled

**A restore-test run** (`RestoreDomain`, `PhaseLedger`, `ExecutionRecord`, `RestoreScript`,
`RestoreWorld`, `RunClock`, `RestoreRunner`, `RestoreRun`). `ExecutionRecord.ExecutionResult` is the mutable
record with the source's fields; each of its methods is proved equal to one operation of the
phase state machine `PhaseLedger`, and the laws of the machine are lemmas over all sequences of
operations. `RestoreWorld.World` is everything outside: an arbitrary answer to every call, a
clock that advances by arbitrary amounts and remembers its readings, the trace of calls made,
and the staged files.
`RestoreRunner.Runner` is the workflow: 20 calls in four phases, recovery, and the deferred
removal of the dump. `RestoreRun.RunWithSummary` is the whole run with preflight and
finalisation. For every way the world can answer it proves: the returned error, the report and
the summary agree; the rows read success\* failure? skipped\*; every duration is the difference
of the two clock readings around the calls it measures, and all of them fit in the total, also
in truncated milliseconds; and the account given (first error with its phase and step, failed
phase, recovery, removal, measurements) is exactly what the trace shows, also call by call.
`RestoreScript` then derives replica safety from the shape of the trace alone.

**Scaling against concurrent writers** (`Cluster`). A versioned store with other writers
committing before every call is handled and again before its reply arrives, lost replies and
refused calls. `Scale` is proved to lose nobody's update: erasing its commits from the history
changes only desired replicas. And it is proved to fail only with cause: on a conflict after as
many attempts as allowed, each overtaken by another writer, on a fault of one of its own calls, or
on a workload that was missing where it was looked for.

**The global timeline check** (`GlobalTimeline`, `Budget`, `Nanoseconds`). The retry loop against
every environment of responses, durations, late wake-ups and cancellations, with the responses
that decide it and a tight bound on the number of attempts.

**The backup pipeline** (`BackupRun`). Five phases over arbitrary dependency outcomes and any
non-decreasing clock, told in terms of those outcomes and readings alone.

**Notification text** (`Text`, `Identity`, `Durations`, `BackupEmbed`). The one-pass bounded
renderer is proved equal to "render everything, then cut to whole fragments"; readers written
from the escape table and from the h/m/s format recover the text; the embed stays in Discord's
limits.

**libpq quoting** (`Conninfo`). The printer is proved against a parser of keyword/value
connection strings (section 34.1.1.1 of the PostgreSQL 16 manual) reading a C string.

## Where the code falls short of the ideal

Each of these is proved, with its exact condition.

- Configuration does not check that `WEB_WORKLOAD` and `DB_WORKLOAD` differ, and replica safety
  rests on it: the database is touched only while web is down exactly when the names differ or the
  run stops before the reset (`RestoreScript.DatabaseTouchedOnlyWhenQuiet`), web starts only after
  a successful analyse exactly when they differ or the run stops before the database is scaled up
  (`WebStartedOnlyAfterAnalyze`), and the database is scaled down only at the very end exactly
  when they differ (`DatabaseScaledDownLast`). `SharedNameReachesReset` gives the run.
- A caller who has ended by the time an unsuccessful global timeline check stops is told so exactly
  unless the check stopped in the wait between attempts, or stopped before an attempt with the
  retry deadline having passed before the caller ended (`GlobalTimeline.CancellationReported`).
  During the wait the select decides (`CancelledInWait`). Runs of every kind are
  `CancelledWhileWaiting`, `CancelledBehindTimer` and `CancelledAfterDeadline`.
- `Durations.DurationReadsBackNearest`: the printed duration is the nearest whole second except
  in the last half second of the 64-bit range, where it is one second short, as for the longest
  duration (`LongestIsShort`).
- A trailing ellipsis does not prove truncation: the value of a truncated identity is also the value
  of one that fits exactly when the cut did not change the display mode
  (`Identity.TruncatedIsAmbiguousIff`), as for every code span over the limit
  (`LongCodeIsAmbiguous`, `AmbiguousExample`).
- `PhaseLedger.ShapeKeptIff`: failing a completed phase keeps the report well formed exactly
  when no phase is active and it is the last completed phase or the one after it.

## Model

| member | source | states |
|---|---|---|
| PhaseLedger.ShapeKeptIff | internal/restore/result.go:119-212 | every operation keeps the shape success\*, one failure, nothing later (and one active phase at most, recovery only after a failure) exactly when it is permitted: only late failures and stray recovery errors need a condition |
| PhaseLedger.RunKeepsShape | internal/restore/result.go:119-212 | the shape holds after every permitted sequence of operations |
| PhaseLedger.FailureIsFinal | internal/restore/result.go:129-208 | once set, failed phase, first error and all recorded phase outcomes never change, recovery of a failed cleanup included, over any further operations |
| PhaseLedger.RecoveryAtMostOnce | internal/restore/result.go:129-133 | over any operations recovery begins at most once, as cleanup, only for an initialised run that failed outside preflight |
| PhaseLedger.RowsShape | internal/restore/result.go:252-264 | the reported rows succeed up to the failed phase, fail there and are skipped after it; without a failure they succeed up to the next phase |
| PhaseLedger.SuccessIffAllSucceeded | internal/restore/result.go:239-251 | the verdict is success exactly when all five rows succeeded |
| PhaseLedger.TimeKept | internal/restore/result.go:143-203 | under a non-decreasing clock every operation keeps the recorded phase intervals disjoint and inside the run |
| PhaseLedger.PhaseCompletes | internal/restore/result.go:121-164 | from a ready state, beginning and completing the phase raises no state-machine error, advances to the next phase and leaves recovery untouched |
| PhaseLedger.PhaseFails | internal/restore/result.go:166-191 | from a ready state, failing the phase raises no state-machine error and records exactly that phase and error as the first failure |
| PhaseLedger.RecoveryRuns | internal/restore/result.go:129-183 | recovery that is required begins and ends without objection, changes nothing of the recorded failure, and sets its status and errors by its own outcome |
| RunClock.PhaseTimed | internal/restore/result.go:143-191 | completing or failing a phase leaves it with the difference of the readings that opened and closed it |
| RunClock.ThenPhase | internal/restore/runner.go:224-245 | with every phase so far having its readings around its own calls, so has the next |
| RunClock.PhasesThenRecovery | internal/restore/runner.go:247-280 | recovery adds four readings, around it and around its one call, and changes no phase's time |
| RunClock.ThenRemoval | internal/restore/runner.go:113-138 | the dump's removal adds two readings, one on each side of it, and changes no other time |
| ExecutionRecord.ExecutionResult.constructor | internal/restore/result.go:112-117 | a new record is the initial state, with nothing measured |
| ExecutionRecord.ExecutionResult.BeginPhase | internal/restore/result.go:121-141 | the field updates are the machine's Begin, with its error cases |
| ExecutionRecord.ExecutionResult.CompletePhase | internal/restore/result.go:143-164 | the field updates are the machine's Complete |
| ExecutionRecord.ExecutionResult.FailPhase | internal/restore/result.go:166-191 | the field updates are the machine's Fail, recovery included, with its error cases |
| ExecutionRecord.ExecutionResult.FailCompletedPhase | internal/restore/result.go:193-203 | the field updates are the machine's FailCompleted |
| ExecutionRecord.ExecutionResult.NoteRecoveryError | internal/restore/result.go:205-208 | the error is appended to the recovery errors and the status becomes error |
| ExecutionRecord.ExecutionResult.Rows | internal/restore/result.go:252-264 | one row per phase, in order, with its status and duration, skipped if absent |
| ExecutionRecord.ExecutionResult.FinalReport | internal/restore/result.go:231-266 | verdict, error, recovery and rows are those of the state; for a well-formed state the verdict is success exactly when every row succeeded |
| ExecutionRecord.ExecutionResult.SafeSummary | internal/restore/result.go:268-299 | success exactly when the verdict is; the recovery status is the recovery call's own where there was one |
| RestoreScript.ScriptIsCanon | internal/restore/runner.go:140-215 | the calls of each phase's step list are its part of the one canonical order of 20 calls |
| RestoreScript.RunInOrder | internal/restore/runner.go:112-280 | every run's calls, by position: the 20 workflow calls in their order, of which only the first two and the thirteenth may fail without being the last one; then the detached web scale-down if the last one failed, and the removal if the fifth succeeded |
| RestoreScript.ViewsAsExpected | internal/restore/runner.go:156-205 | before every call of every run, what the cluster was last told and last seen to reach is as the order demands |
| RestoreScript.DatabaseTouchedOnlyWhenQuiet | internal/restore/runner.go:156-185 | whenever the database is reset, loaded, measured or analysed, web was last scaled to and waited for at 0 and the database at 1: exactly when the workload names differ or the run stops before the reset |
| RestoreScript.QuietIffDistinct | internal/restore/runner.go:156-170 | in a run that resets the database, the reset is quiet exactly when the workload names differ |
| RestoreScript.SharedNameReachesReset | internal/config/config.go:125-145 | with one name for both workloads, which configuration accepts, a complete run reaches the reset with web not down |
| RestoreScript.WebStartedOnlyAfterAnalyze | internal/restore/runner.go:184-189 | every scale of web to 1 follows a successful analyse: exactly when the workload names differ or the run stops before the database is scaled up |
| RestoreScript.DatabaseScaledDownLast | internal/restore/runner.go:198-205 | every scale of the database to 0 is the last workflow call, after everything mandatory succeeded: exactly when the workload names differ |
| RestoreScript.LeftBehind | internal/restore/runner.go:198-280 | for any names, a complete run leaves both workloads told to be at 0 and a failed one leaves web so if the recovery call succeeded; with distinct names a failed run leaves the database as the workflow left it |
| RestoreScript.TailTouchesNothing | internal/restore/runner.go:247-280 | for any names, after the workflow's calls there is at most one detached scale of web to 0, only after a cut, and a dump removal |
| RestoreWorld.World.DownloadAndExtract | internal/restore/s3.go:98-158 | succeeds exactly when nothing goes wrong and hands over exactly one new file with the object's stated length or else the transferred size; every failing path leaves none unless its removal is refused |
| RestoreWorld.World.RemoveStaged | internal/restore/dump.go:31-46 | the file is gone afterwards or the removal was refused; a missing file or empty path counts as removed |
| RestoreRunner.Runner.RecordReplicas | internal/restore/runner.go:284-294 | both workloads are read, and no failure of either stops the run |
| RestoreRunner.Runner.LoadDump | internal/restore/runner.go:171-183 | a failed load ends the step before the size query; a failed size query never fails it; size fields are set accordingly |
| RestoreRunner.Runner.QuerySize | internal/restore/runner.go:176-181 | the size is recorded exactly as answered if the query succeeded, and nothing changes otherwise |
| RestoreRunner.Runner.FetchDump | internal/restore/runner.go:147-154 | a successful fetch is held and noted as the run's object, a failed one changes neither |
| RestoreRunner.Runner.DoStep | internal/restore/runner.go:140-205 | each step makes its calls in order up to the first mandatory failure and returns that call's error; only a download touches staged files |
| RestoreRunner.Runner.RunSteps | internal/restore/runner.go:229-243 | the steps of a phase go through in order, or stop at the first failing mandatory call; the step blamed is the one of the list, by position, that call belongs to; measurements are exactly those answered |
| RestoreRunner.Runner.OpenPhase | internal/restore/runner.go:226-228 | beginning the next phase is never refused |
| RestoreRunner.Runner.ClosePhase | internal/restore/runner.go:236-244 | the phase is recorded as done or as failed with the step's wrapped error, for as long as it took by the clock, and recording is never refused |
| RestoreRunner.Runner.RunPhase | internal/restore/runner.go:224-245 | a phase's calls and its record agree: done if all went through, else failed with the cause of the last call, naming the step of the phase, by position, that call belongs to; its duration spans exactly its calls |
| RestoreRunner.Runner.ScaleWebDown | internal/restore/runner.go:253-279 | exactly one detached scale of the web to 0 is made, presumed failed until it succeeds, without touching the recorded failure |
| RestoreRunner.Runner.RunRecovery | internal/restore/runner.go:247-280 | recovery records its own status and the time between its first and last reading, its call lying in between |
| RestoreRunner.Runner.Recover | internal/restore/runner.go:247-250 | recovery happens exactly when required, and otherwise nothing changes |
| RestoreRunner.Runner.RunPhases | internal/restore/runner.go:207-221 | the four phases follow the canonical order or stop at its first mandatory failure; a dump is held exactly if the fetch succeeded |
| RestoreRunner.Runner.Workflow | internal/restore/runner.go:207-222 | a failed workflow is followed by exactly one recovery call, a complete one by none, and all time taken is accounted for |
| RestoreRunner.Runner.RecordRemoval | internal/restore/runner.go:121-137 | a failed removal fails the completed cleanup of a successful run and otherwise only adds a recovery error |
| RestoreRunner.Runner.RemoveStagedDump | internal/restore/runner.go:113-138 | with a dump exactly one removal is made, recorded and timed; without one nothing happens at all |
| RestoreRunner.Runner.RunWithResult | internal/restore/runner.go:112-222 | for every answer of the world: the trace is the canonical order cut at the first mandatory failure, then recovery, then removal; the state accounts for it exactly, the error naming the step of the failed phase's script that failed; every duration is that of the clock readings around its calls; staged files are restored unless a removal was refused |
| RestoreRunner.RunExplained | internal/restore/runner.go:112-138 | from what the workflow left and what the removal changed, error, recovery and removal status are exactly what the trace shows |
| RestoreRun.Refuse | internal/restore/restore.go:91-113 | a refused preflight is recorded as the first failure and makes no call |
| RestoreRun.Admit | internal/restore/restore.go:114-117 | completing preflight is never refused and leaves an initialised run ready for Prepare |
| RestoreRun.Attempt | internal/restore/restore.go:86-119 | a run ends finished: idle, with the returned error as the recorded first error, or with all phases done, and all its times accounted for; a refused preflight makes no call |
| RestoreRun.Conclude | internal/restore/result.go:231-299 | report and summary of a finished run agree with the error, the rows and each other |
| RestoreRun.Finalise | internal/restore/restore.go:43-84 | the deferred failing of an active phase never happens; report and summary agree with the error; the times add up and are those of the clock |
| RestoreRun.MeasurementsAnswered | internal/restore/runner.go:147-183 | the reported measurements are those of the fifth and thirteenth calls, exactly when these succeeded |
| RestoreRun.RunWithSummary | internal/restore/restore.go:38-120 | nil is returned exactly when the summary says success, else exactly the recorded first error; never incomplete; the reported account is exactly what happened, also by position: which calls may fail, which failure ends the run and as which error; the reported object and database size are exactly what the fetch and the size query were answered, present exactly when these succeeded; every duration is the difference of the two readings around the calls it measures; staged files are restored unless a removal was refused |
| RestoreRun.RowsTell | internal/restore/result.go:252-264 | the rows of a finished run read success\* failure? skipped\* with the failure at the failed phase |
| RestoreRun.PreflightTimed | internal/restore/restore.go:86-117 | preflight lasts from the second reading to the third, and no call is made in it |
| RestoreRun.StepInOrder | internal/restore/runner.go:140-243 | the failure of the workflow's last call names, by its number among the 20, the phase and the step it belongs to |
| RestoreRun.OutcomeInOrder | internal/restore/runner.go:112-280 | by position and without reference to the script: the calls; the error returned, with every call but the first two and the thirteenth having succeeded if there is none; and what is said of recovery and removal |
| RestoreRun.ReportClocked | internal/restore/result.go:231-299 | by position: each row's duration is the difference of two readings with exactly that phase's calls in between, recovery and removal likewise, and the total is the last reading less the first |
| Cluster.Origin | internal/restore/k8sclient.go:88-92 | a stored object is the one committed at the revision it carries |
| Cluster.VersionIdentifies | internal/restore/k8sclient.go:88-92 | the same version at two moments means nothing was written in between |
| Cluster.VersionMoved | internal/restore/k8sclient.go:88-92 | a version that is no longer the one read was committed in between |
| Cluster.CommittedFromRead | internal/restore/k8sclient.go:116-122 | an update that passed the version check rewrites exactly the object read, replicas only |
| Cluster.NoUpdateLost | internal/restore/k8sclient.go:88-138 | erasing the client's commits from any history changes only desired replicas and versions; where another writer was last, not even those replicas |
| Cluster.NotWithoutCause | internal/restore/k8sclient.go:116-138 | without a fault and with the name resolving to one object throughout, nothing but a conflict can fail an attempt |
| Cluster.Server.Get | internal/restore/k8sclient.go:117-123 | a read returns the object as stored at the moment it is handled, or why not; others may write before and after that moment, we write nothing |
| Cluster.Server.Update | internal/restore/k8sclient.go:119-121 | an update commits only over the version that was read, with others writing before and after; a conflict means another version was stored, not-found that none was, and both commit nothing; any other error is a fault of this call |
| Cluster.Server.WriteBack | internal/restore/k8sclient.go:117-119 | writing back the object just read commits, if at all, replicas only; a conflict means someone else wrote it in between |
| Cluster.Server.ScaleKind | internal/restore/k8sclient.go:117-123 | reads the workload of one kind and, exactly if it is there, writes it back |
| Cluster.Server.ScaleOnce | internal/restore/k8sclient.go:116-138 | at most one commit, changing only replicas of the version it replaces, on the object the name resolves to, a StatefulSet only if there was no Deployment; each failure has its cause: overtaken by another writer, a fault of one of its calls, or a workload missing where it was looked for |
| Cluster.Server.Scale | internal/restore/k8sclient.go:93-109 | under any interleaving, also between commit and reply, at most one commit per call, replicas only, everything else in the new history being other writers'; success means one commit, in force at its own moment, on the target if that is fixed. It tries again exactly on conflict: it ends in one only after the allowed number of attempts, each overtaken by another writer; in another error only by a fault of one of its calls; with no workload only if there was none where it looked. So it succeeds if no call fails, the name keeps resolving to one object and not every attempt is overtaken |
| Cluster.Server.StatusReplicas | internal/restore/k8sclient.go:168-180 | the value polled is the ready count, at one moment of the poll, of a workload of that name, a StatefulSet only if there was no Deployment, and of the one scaling writes if the name keeps resolving to the same object; it is unknown only by a fault or if there is none |
| Cluster.Server.PollOnce | internal/restore/k8sclient.go:168-180 | what one poll was told is true of a moment of that poll |
| Cluster.Server.AwaitTick | internal/restore/k8sclient.go:156-163 | the wait ends at the next tick, at once if that has passed, or at the end; which of two that are due is taken either way |
| Cluster.Server.WaitForReplicas | internal/restore/k8sclient.go:143-164 | polling writes nothing and is bounded by the timeout, each poll at the first tick after the one before, and none after one that ended too late; it succeeds exactly on the first poll that sees a workload of that name (the target, if fixed) at the wanted count; failure means no poll did and the timeout or the caller's end has passed |
| GlobalTimeline.GtlSettings | internal/restore/misskey_api.go:144-169 | each setting is the first positive one of configuration, client and the defaults of 10 s, 30 s and 300 s |
| GlobalTimeline.StartsApart | internal/restore/misskey_api.go:127-140 | attempt i starts no earlier than i intervals after the first |
| GlobalTimeline.AttemptsBounded | internal/restore/misskey_api.go:103-141 | whatever the responses, at most ceil(timeout / interval) attempts are made |
| GlobalTimeline.BoundIsReached | internal/restore/misskey_api.go:103-141 | the bound is tight: a service that always fails at once is tried that often |
| GlobalTimeline.RetryUntilDone | internal/restore/misskey_api.go:103-141 | the loop ends at the first round that does not continue, with that round's verdict, within the bound |
| GlobalTimeline.CheckGlobalTimeline | internal/restore/misskey_api.go:101-142 | with the settings it computes from any configuration and client, the check ends at the first round that does not continue, with that round's verdict and at most ceil(timeout / interval) attempts; it validates exactly if the last response is a 2xx with a well-formed list of 1 to 10 notes; every earlier response was a transport failure, a 5xx, or a 2xx whose body could not be read or ran into the deadline; it rejects exactly on any other response with both contexts alive after the attempt |
| GlobalTimeline.ResponsesDecide | internal/restore/misskey_api.go:172-228 | the same in terms of the responses alone, for every stop of the loop |
| GlobalTimeline.ContinuesIff | internal/restore/misskey_api.go:103-141 | another attempt follows exactly a retryable response with the contexts alive before and after it, once the interval has passed |
| GlobalTimeline.SuccessIff | internal/restore/misskey_api.go:106-125 | success exactly when an attempt was made in the last round and validated, even if the contexts ended during it; all earlier ones were retryable with both contexts alive before and after |
| GlobalTimeline.Precedence | internal/restore/misskey_api.go:106-141 | which outcome each stop has: before an attempt the contexts' own cause, with the caller's end only if it came no later than the deadline; after a failed attempt the caller's end, then the retry timeout, then a permanent error; in the wait a retry timeout |
| GlobalTimeline.CancellationReported | internal/restore/misskey_api.go:106-141 | a caller ended by the stop of an unsuccessful check is reported as ended exactly unless the check stopped in a wait, or before an attempt with the deadline having come first |
| GlobalTimeline.CancelledInWait | internal/restore/misskey_api.go:107-140 | a caller ending in a wait before the deadline: a retry timeout if the select takes the context, the caller's end before the next attempt if it takes the timer, each exactly then |
| GlobalTimeline.CancelledWhileWaiting | internal/restore/misskey_api.go:129-140 | for every wait cut short there is a run whose caller ends in it and is reported as a retry timeout |
| GlobalTimeline.CancelledBehindTimer | internal/restore/misskey_api.go:107-140 | there is a run whose caller ends in the wait and is reported as ended |
| GlobalTimeline.CancelledAfterDeadline | internal/restore/misskey_api.go:107-140 | there are runs whose caller has ended and that report the deadline, before an attempt and in the wait |
| BackupRun.FirstFailure | internal/backup/result.go:67-71 | the least index holding a failure, if any |
| BackupRun.RunResult.Record | internal/backup/result.go:60-72 | the phase's status and duration are set; only the first failure sets the failed phase and the error |
| BackupRun.RunResult.RunPhase | internal/backup/result.go:57-73 | recording keeps the failed phase least and the phase times inside the run |
| BackupRun.Preflight | internal/backup/backup.go:63-101 | preflight succeeds exactly when its own checks do, and reports the target as soon as it is known |
| BackupRun.DumpPhase | internal/backup/backup.go:105-127 | the dump phase's outcome, path and calls for every dependency outcome |
| BackupRun.UploadPhase | internal/backup/backup.go:142-164 | verification holds exactly when upload and read-back succeeded with equal sizes, whatever closing the file does |
| BackupRun.ValidateAndUpload | internal/backup/backup.go:129-166 | upload is reached only through successful validation of the same file |
| BackupRun.DumpToUpload | internal/backup/backup.go:103-166 | dump, validation and upload each run only after the success of the one before, and end as their own work decides |
| BackupRun.CleanUp | internal/backup/backup.go:168-176 | a temporary file is removed whatever failed, one that is gone counting as removed |
| BackupRun.RunPhases | internal/backup/backup.go:66-176 | all five phases end as their own work decides, each timed by its own two readings |
| BackupRun.FirstFailureMeans | internal/backup/backup.go:53-176 | which phase fails first, in terms of the single outcomes: arguments, configuration, storage, dump, validation, upload, read-back and removal |
| BackupRun.VerifiedMeans | internal/backup/backup.go:142-158 | verified exactly if every outcome up to the read-back is good and the sizes are equal |
| BackupRun.TouchedMeans | internal/backup/backup.go:129-155 | the object is uploaded, and read back, exactly if configuration, storage, dump and validation went well, nothing was cancelled and the file opened, at the configured bucket and key |
| BackupRun.Execute | internal/backup/backup.go:53-178 | the run without the laws about it: statuses, first failure, error, target, size, trace and times |
| BackupRun.RunWithDependencies | internal/backup/backup.go:53-178 | for every outcome, in terms of the outcomes themselves: the phase that failed first, size, verification, target and whether the store was touched; the error and the whole trace; every duration is the difference of its phase's two clock readings, and the total that of the last and the first; all five phases succeeded exactly when nil is returned and the temporary file has a name; a verified run fails only by closing the upload or by a failing removal, and exactly then |
| BackupRun.StoreTouchedOnlyWhenValidated | internal/backup/backup.go:129-155 | the stored object is touched only after dump and validation of that very file succeeded, at the configured bucket and key |
| BackupRun.RemovedOnceAtEnd | internal/backup/backup.go:168-176 | a named temporary file is removed exactly once, last, whatever failed; nothing else is removed |
| BackupRun.VerifiedIsKept | internal/backup/backup.go:155-175 | a verified run can fail only in upload or cleanup, exactly when closing the uploaded file fails or the removal does |
| BackupRun.NoErrorMeansAllSucceeded | internal/backup/backup.go:168-177 | all five statuses are success exactly when no phase failed and the temporary file has a name, as every created file does; the first four need no name |
| Identity.IsSafeCode | internal/notification/discord.go:358-365 | true exactly when no character is a backtick, a control or a line separator, by code point |
| Identity.MeasureFragment | internal/notification/discord.go:338-342 | the size counted for a fragment is its UTF-16 size |
| Identity.RenderBounded | internal/notification/discord.go:324-354 | the one-pass loop equals rendering everything and cutting to the longest whole-fragment prefix that leaves room for the ellipsis |
| Identity.Kept | internal/notification/discord.go:336-351 | the cut is the longest prefix that fits one unit below the limit |
| Identity.BoundedSize | internal/notification/discord.go:324-354 | no rendered value exceeds 1024 UTF-16 units |
| Identity.CutAsLateAsPossible | internal/notification/discord.go:324-354 | a string is cut exactly if its full rendering exceeds 1024 units, and keeping any more of it would exceed them too |
| Identity.UnescapeFragment | internal/notification/discord.go:370-388 | every escape is read back as its character, whatever follows, by a reader that rejects bare punctuation, controls and unknown escapes |
| Identity.UnescapeRendered | internal/notification/discord.go:370-388 | escaped text is uniquely decodable |
| Identity.HexReadsBack | internal/notification/discord.go:384-386 | the four-digit escape is read back as its code |
| Identity.FieldReadsBack | internal/notification/discord.go:324-388 | a reader recovers the string from an untruncated value, and its kept prefix and ellipsis from a truncated one |
| Identity.RendersAlikeIff | internal/notification/discord.go:324-354 | exactly which identity strings render alike |
| Identity.UntruncatedInjective | internal/notification/discord.go:324-354 | untruncated rendering is injective across code spans and escaped text |
| Identity.EllipsisIsAmbiguous | internal/notification/discord.go:343-345 | the shown text of a truncated string differs from it and renders the same exactly when the cut did not change the mode, in which case it fits |
| Identity.TruncatedIsAmbiguousIff | internal/notification/discord.go:343-345 | some string that fits has the same value as a truncated one exactly when the cut did not change the mode |
| Identity.LongCodeIsAmbiguous | internal/notification/discord.go:324-354 | every code span over the limit is such a case |
| Identity.BoundedCharacters | internal/notification/discord.go:356-388 | by code point, no raw control or line separator appears; in a code span the only backticks are the outer two, elsewhere every backtick is escaped |
| Identity.IdentityValue | internal/notification/discord.go:315-320 | the value is the marker or the bounded rendering |
| Identity.UnknownIffEmpty | internal/notification/discord.go:315-320 | the unknown marker is shown exactly for the empty string, even for input equal to the marker |
| Durations.ClockReadsBack | internal/notification/discord.go:441-451 | the h/m/s text is read back as the number of seconds by a reader that rejects minutes or seconds of 60 or more, units out of order and a leading zero part |
| Durations.ReadClockPart | internal/notification/discord.go:442-451 | a number and its unit are read where they fit, with the rest after them, and rejected where they do not |
| Durations.RoundingIsNearest | internal/notification/discord.go:440-441 | rounding gives the nearest second, except exactly where it overflows |
| Durations.DurationReadsBackNearest | internal/notification/discord.go:436-452 | from one second up the text reads back as the nearest second exactly below the overflow |
| Durations.LongestIsShort | internal/notification/discord.go:436-452 | the longest duration is printed one second short |
| Durations.DurationTextDistinct | internal/notification/discord.go:436-452 | different rounded values print differently; below a second, and only there, nothing readable but the fixed text is printed |
| Durations.DurationTextLength | internal/notification/discord.go:436-452 | any 64-bit duration prints in at most 14 characters |
| BackupEmbed.TimingText | internal/notification/discord.go:277-294 | the total and the five known phases in fixed order, each with its last entry or as not run |
| BackupEmbed.TimingLayout | internal/notification/discord.go:204-294 | line by line: the total and the five phases in order under their own labels |
| BackupEmbed.LastNamed | internal/notification/discord.go:279-284 | among equal names the last entry counts |
| BackupEmbed.UnlistedPhasesInvisible | internal/notification/discord.go:280-284 | phases with unknown names never influence the text |
| BackupEmbed.PhaseTextTells | internal/notification/discord.go:397-408 | a phase's line says that it failed, was skipped or has an unknown status exactly if so, and gives its duration if it ran |
| BackupEmbed.FileName | internal/notification/discord.go:298-303 | the file name is the text after the key's last slash |
| BackupEmbed.FileNameUnique | internal/notification/discord.go:298-303 | nothing else qualifies as the file name |
| BackupEmbed.LocationReadsBack | internal/notification/discord.go:306-312 | a location names bucket and key, in this order, to a reader that splits at the first slash, exactly if the bucket has none; it is empty exactly if one is missing |
| BackupEmbed.SizeText | internal/notification/discord.go:420-435 | the size is shown in the first unit below 1024, or the largest, in at most 22 characters |
| BackupEmbed.SizeTells | internal/notification/discord.go:420-435 | the unit is the first of 1024^i bytes below 1024 of it, or the largest; the size is exact in bytes and the nearest hundredth in a larger unit |
| BackupEmbed.HundredthsReadBack | internal/notification/discord.go:420-435 | two decimals after the point read back as the number of hundredths |
| BackupEmbed.StatesAreDistinct | internal/notification/discord.go:254-274 | success is green, a verified failure amber, any other failure red, each with its own text, exactly then |
| BackupEmbed.LayoutBound | internal/notification/discord.go:200-203 | the layout stays within 6000 units |
| BackupEmbed.AddIdentity | internal/notification/discord.go:233-235 | the three identity fields hold the bounded database, file name and location |
| BackupEmbed.AddMetrics | internal/notification/discord.go:236-247 | size, verification, failed phase if known, and timings follow in order |
| BackupEmbed.Build | internal/notification/discord.go:219-249 | for any strings, 64-bit numbers and phases the embed is the fixed layout, within 6000 units, each value between 1 and 1024; its fields read back, in order, to database, file name and location, then size, verification, failed phase if known, and timings |
| Conninfo.DatabaseNameConninfo | internal/backup/dump.go:33-45 | the loop prints the quoted pair |
| Conninfo.QuotedReadsBack | internal/backup/dump.go:37-43 | a quoted name is read back as the name, whatever follows |
| Conninfo.SeenByLibpq | internal/backup/dump.go:33-45 | what a C program sees of the connection string, NUL bytes included |
| Conninfo.ConninfoRoundTrip | internal/backup/dump.go:33-45 | libpq reads exactly the one pair dbname = name, consuming everything, exactly when the name has no NUL byte; otherwise it rejects the string |
| Conninfo.PgDumpEnvironment | internal/backup/dump.go:47-58 | the loop keeps every entry that does not set the password, in order, and appends the password |
| Conninfo.EnvironmentSeen | internal/backup/dump.go:47-58 | the child sees the configured password, set once, and every other variable as before |

## Left out

- HTTP, the AWS SDK, the client-go transport, psql, pg_dump, JSON decoding and structured logging: calls are answered arbitrarily.
- gzip: a fetched or dumped file is valid or not; when validation succeeds without telling the size, the recorded size is 0 as in the code.
- createTemp is os.CreateTemp, which always names its file; only a test double could return a nameless one, and the condition on the name in the backup rows is about such a double.
- A NUL byte cannot occur in an environment variable or a process argument, so that case of the conninfo rows is a fact about the printer only.
- Retry back-off: retrying on conflict is "again, at most n times, n at least 1"; its pauses are not modelled.
- Cluster.Server.Update: a conflict or not-found answer is always truthful; a lost reply appears as another error, after which the write may or may not have happened.
- Invalid UTF-8: text is a sequence of Unicode scalar values, so byte cut points are not modelled.
- BackupEmbed.SizeText: sizes above bytes are rounded exactly, half to even; binary rounding of float64 for sizes of 2^53 bytes and more is not modelled.
- Unknown phase names: phases are a datatype, so the branches for a name not in the order do not exist.
- Clocks: readings are non-negative and never go back; saturation of time differences and readings made only for log lines are not modelled.
- GlobalTimeline.CheckGlobalTimeline: a context ends exactly at its instant, and if the caller's context ends together with the retry deadline the caller's end is the cause.
- GetReplicas' own lookup, whose result is only logged.
- The timestamp of the embed, the restore-test notification text and the readiness poll.
- RestoreWorld.World.RemoveStaged: the replaceable clean-up function that only the repository's own tests set.
- Runner doubles that return a dump together with an error: the runner is composed with the real download, which never does.
- Error texts: errors are values with identity, and joined errors are an ordered list.
- internal/config/config.go, internal/restore/db.go and cmd/kinakomate/main.go: input checks, SQL text and dispatch.
