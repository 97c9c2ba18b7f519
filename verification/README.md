# xsos server: verified model

xsos is a telemetry server whose whole state is one SQLite database, changed only by short
write transactions. This project models the parts of it where correctness depends on several
functions at once, and proves what they promise together:

- **Invites, pairing requests, credentials and hosts** (`Lifecycle.dfy`): every transaction of the
  pairing protocol, with the cross-table facts that make its guards sufficient. `Outcomes.dfy` says when
  they succeed, `Effects.dfy` what each of them answers and writes, `Deadlines.dfy` when a request may end,
  `Attachments.dfy` when a host keeps its invite and its request, and `Ledger.dfy` and `Promises.dfy` follow them
  over whole runs.
- **Report ingestion** (`Reports.dfy`, `Ingestion.dfy`): admission, de-duplication, the latest pointer, savepoint
  batches, and exactly when a report is accepted.
- **Retention** (`Aggregates.dfy`, `HourlyAggregates.dfy`, `Retention.dfy`, `Selection.dfy`, `Schedule.dfy`,
  `Forecast.dfy`, `Maintenance.dfy`): rolling raw reports up into hourly count/min/max/average rows, deleting marked rows,
  expiring hours, and the bounded run over the three, with what it leaves to do counted beforehand.
- **The history chart** (`History.dfy`, `Chart.dfy`, `Stability.dfy`): the step search, the union of raw and hourly
  rows, and what retention changes in an answer.
- **Token-bucket maps** (`TokenBuckets.dfy`, `RateLimits.dfy`): bounded maps that forget entries.
- **The telemetry writer** (`TelemetryWriter.dfy`, `WriterSafety.dfy`, `WriterTask.dfy`): a bounded queue,
  per-host permits, batching, lost waiters and the shutdown drain.
- **Keyset pages** (`Pagination.dfy`, `Navigation.dfy`).
- **Witnesses** (`Witnesses.dfy`): reachable databases that show what the server does not promise.

## How it is built

`Schema.Db` is one committed snapshot of the tables. Each transaction is a function from `Db` to `Db`
and an outcome. `Ledger.System` adds history that only exists in the proof: every acceptance of a
report, in order, and where each accepted sample is counted now (its own row, an hourly row, expired
or erased). `Ledger.Event` lists the twelve kinds of transaction, `Ledger.IsRun` is any sequence of
them from an empty database, and `Ledger.Inv` is the invariant of every state of every run: the
lifecycle facts, the resource limits, the exactly-once placement of samples, hourly rows that are the
direct summary of what was rolled into them, the latest pointer and the payloads.

`Database.Store` is the server's own form: one object whose fields are the tables and whose methods
update them step by step. Each method is proved to commit exactly one step of the state machine, so
`Store.Valid()` says that the tables are those of a state that some run reaches. The class
`HourlyAggregates.HourlyAggregate` accumulates a batch the way the server does, `TokenBuckets.BoundedBuckets`
holds the buckets of one policy, and `WriterTask.Task` persists batches through `Store` and drains its queue; each
of its methods is a sequence of steps of the writer's state machine, so `Task.Synced()` says that some interleaving
reaches its state.

The meaning of an aggregate is `Aggregates.Describes`: the count, the minimum, the maximum and the mean of a
finite set of values, stated directly. The incremental average, the merge in the upsert and the
grouping of the chart are all proved against it. The meaning of `ORDER BY ... LIMIT` is
`Common.IsFirst`, which allows rows of equal rank in any order.

The telemetry writer is a second state machine on top of the first: handlers, the writer task and all
other transactions interleave freely. Rate limits are proved against an ideal bucket per key that is
never forgotten.

Times of the database are nanoseconds since the Unix epoch (`int`); times and delays of the rate
limits are seconds (`real`). Metrics, averages and tokens are `real`.

## Model

| member | source | states |
|---|---|---|
| `Ledger.EveryRunIsSafe` | crates/server/src/store.rs:135-1132 | every state of every run, under any interleaving of the twelve transactions and cut short anywhere, satisfies all lifecycle, ledger, latest-pointer and resource invariants |
| `Ledger.NextKeepsInv` | crates/server/src/store.rs:709-866 | each single transaction, including the recover-identity rebind, preserves all of them |
| `Ledger.ReachableIsSafe` | schema/product.sql:1-130 | a database that some run can leave behind satisfies them |
| `Lifecycle.CreateInviteKeeps` | crates/server/src/store.rs:135-181 | a new invite for a fresh instance keeps codes and instances unique and invites in agreement with hosts |
| `Lifecycle.RotateKeeps` | crates/server/src/store.rs:289-356 | rotation revokes, denies and resets together, so that the invite is pending exactly when its host is revoked without a live credential |
| `Lifecycle.CancelKeeps` | crates/server/src/store.rs:365-416 | cancelling a pending invite, or deleting a cancelled one, keeps the cross-table facts |
| `Lifecycle.DeleteRecordsKeeps` | crates/server/src/store.rs:1646-1664 | deleting a host with everything that names it keeps them too |
| `Lifecycle.CreatePairingKeeps` | crates/server/src/store.rs:476-630 | a new or repeated request keeps at most 8192 rows, 4096 pending and 4 pending per device, and unissued pending tokens |
| `Lifecycle.ActivateKeeps` | crates/server/src/store.rs:709-866 | activation in both modes keeps at most one live credential per host, unique instances and truthful active requests |
| `Lifecycle.ActivationInsertIsUnique` | crates/server/src/store.rs:838-846 | the token of a pending request is in no credential row, live or revoked, so the credential insert never fails on it; nor does decryption for the rebind; and the claimed instance has no live credential, active host or other invite |
| `Lifecycle.TokenResolvesOnce` | crates/server/src/store.rs:883-890 | a report token resolves to at most one host |
| `Lifecycle.OneActivePairingPerInstance` | crates/server/src/store.rs:744-758 | two active requests never name the same instance |
| `Lifecycle.ReplayIsIdempotent` | crates/server/src/store.rs:744-758 | activating an active request again with its invite's current code returns the same instance and changes nothing |
| `Lifecycle.RotationCutsOff` | crates/server/src/store.rs:307-337 | after rotation to another code the active request reads denied, its token resolves to no host, the old code matches no invite, and other hosts are untouched |
| `Effects.CreatesExactly` | crates/server/src/store.rs:135-181 | each answer to a request for an invite by what was there before: exhausted without room or storage, a failed constraint for a taken id or code, created otherwise, with just the new pending row |
| `Effects.RotationWrites` | crates/server/src/store.rs:289-356 | each answer to a rotation likewise, and everything it writes: the invite pending under the new code, live credentials of its host revoked at that time, its active request denied, the host inactive, nothing else |
| `Effects.CancelsExactly` | crates/server/src/store.rs:365-416 | each answer to a cancellation by the status of the invite, and everything it writes: a pending invite reads cancelled and nothing else changes; a cancelled one goes with its host |
| `Effects.DeletesExactly` | crates/server/src/store.rs:418-444 | deleting an invite or a host succeeds exactly if it is known |
| `Effects.DeletionErases` | crates/server/src/store.rs:1646-1664 | every row that names the deleted host is gone and every other row of the six tables is unchanged |
| `Effects.CancelledStaysShut` | crates/server/src/store.rs:365-416 | over any stretch of any run in which a cancelled invite is not deleted, no activation with its code succeeds or changes anything, and rotation does not find it |
| `Effects.ActivationAnswers` | crates/server/src/store.rs:709-866 | each answer to an activation by the request and the invite with that code; without a new activation nothing changes |
| `Effects.ActivationGrants` | crates/server/src/store.rs:709-866 | everything a new activation writes; afterwards the request's token, and no other, resolves to the claimed host, and other hosts keep theirs |
| `Effects.CreatedInviteOpens` | crates/server/src/store.rs:135-181 | the code of a new invite activates any request in time that wants no identity back, under the invite's instance |
| `Effects.RotatedInviteOpens` | crates/server/src/store.rs:289-356 | and so does the new code of a rotated invite |
| `Witnesses.HostWithoutInvite` | crates/server/src/store.rs:766-834 | a reachable database with a host that no invite names |
| `Witnesses.HostWithoutInviteIsRevoked` | crates/server/src/store.rs:766-834 | in every reachable database such a host is inactive and without a live credential |
| `Witnesses.ActiveHostWithoutRequest` | crates/server/src/store.rs:1646-1664 | a reachable database with an active host and no pairing request at all |
| `Attachments.HostKeepsInvite` | crates/server/src/store.rs:766-834 | host by host: a transaction leaves a host without an invite exactly if it had none, or if it is the activation that rebinds the invite naming the host to another identity; a new host always has one, and a lost one is never regained |
| `Attachments.AllInvitedExactly` | crates/server/src/store.rs:799-834 | where every host has an invite, a transaction keeps it so exactly if it rebinds none of their invites away |
| `Attachments.InvitesStayExactly` | crates/server/src/store.rs:709-866 | in any run, every host had an invite all along exactly if no activation in it rebound one away |
| `Attachments.HostKeepsRequest` | crates/server/src/store.rs:1646-1664 | host by host: a host that is active after a transaction is without an active request exactly if it was active without one before, or if the transaction deletes another host whose identity that request had asked for |
| `Attachments.AllRequestedExactly` | crates/server/src/store.rs:1646-1664 | where every active host has its request, a transaction keeps it so exactly if it takes none along with another host |
| `Attachments.RequestsStayExactly` | crates/server/src/store.rs:476-866 | in any run, every active host had its request all along exactly if no deletion in it took one along |
| `Outcomes.RotatesExactly` | crates/server/src/store.rs:296-324 | in a reachable database rotation fails only on a missing or cancelled invite or a code another invite holds, never on the one-pending index |
| `Outcomes.RecoveryGuardSimplifies` | crates/server/src/store.rs:766-797 | in a reachable database the recovery guard means just this: no other invite has the identity, and a known host is the invite's own |
| `Outcomes.ActivatesExactly` | crates/server/src/store.rs:709-866 | a pending request is activated exactly when it is in time and its code names a pending invite that may take the identity |
| `Outcomes.ReadyRequestWaits` | crates/server/src/store.rs:526-630 | a request reported ready is stored as asked, pending, with a token no credential carries; if it was there before, unexpired and with no table changed, and if it is new, with a full lifetime from its creation time, whichever way the clock moved in between |
| `Outcomes.RepeatFindsTheSame` | crates/server/src/store.rs:497-541 | asking again before it expires finds the same request and changes nothing |
| `Outcomes.PruningIsSafe` | crates/server/src/store.rs:542-562 | a new request forgets at most 512 rows, each denied 30 days ago or run out a day ago, never an active one |
| `Deadlines.AsksExactly` | crates/server/src/store.rs:542-630 | each answer to a request with a new secret, counted on the tables before it (rows left after pruning, waiting requests, those of the device, the token), and everything it writes |
| `Deadlines.RepeatsExactly` | crates/server/src/store.rs:497-541 | each answer to a request repeated with its secret, and the one row it may let expire |
| `Deadlines.IssuedTokenConflicts` | crates/server/src/store.rs:482-496 | a token any credential carries is refused and nothing changes |
| `Deadlines.CreateSparesPending` | crates/server/src/store.rs:542-562 | a new request leaves every pending request before its deadline unchanged |
| `Deadlines.ExpiresExactly` | crates/server/src/store.rs:679-689 | looking at a request makes it expire exactly if it is pending and past its deadline |
| `Deadlines.EveryEndHasACause` | crates/server/src/store.rs:476-866 | whatever the transaction, a request leaves the tables only with a host it names or settled by age, expires only past its deadline, becomes active only by its own activation, and denied only by rotation of its instance's invite |
| `Deadlines.WaitsThrough` | crates/server/src/store.rs:476-866 | over any stretch of any run before its deadline, without its activation or the deletion of the host it names, a pending request stays exactly as it is |
| `Promises.EveryStepEvolves` | crates/server/src/store.rs:476-689 | no transaction revives a revoked credential or moves a request other than pending to active, pending to expired, active to denied |
| `Promises.RequestsMoveForward` | crates/server/src/store.rs:476-866 | over any stretch of any run a request that stays keeps what was asked, only moves forward, and once it left pending keeps its invite and instance |
| `Promises.RevokedStaysRevoked` | crates/server/src/store.rs:289-356 | over any stretch of any run a credential that stays keeps its host and token, and once revoked keeps its revocation time |
| `Reports.ChargeIsExact` | crates/server/src/capacity.rs:76-83 | the saturating charge accepts exactly what the unbounded sum would |
| `Reports.StoreReportKeepsBounds` | crates/server/src/capacity.rs:50-96 | rows and charged bytes of every host stay within their limits, also when the latest payload is swapped |
| `Reports.ResubmissionIsIdempotent` | crates/server/src/store.rs:1043-1054 | a stored id changes no table: the owner gets the first receipt time, another host a conflict |
| `Ingestion.AcceptsExactly` | crates/server/src/store.rs:986-1104 | each answer to a report by what was there before: a new report with a valid token is accepted exactly if there are fewer than 100 000 rows of its host and 1 000 000 in all, its rows and payloads fit in 1 GiB as charged, storage allows and no statement fails, whether it is the newest or delayed; otherwise nothing changes |
| `Ingestion.AcceptanceStores` | crates/server/src/store.rs:1026-1103 | everything an accepted report writes, table by table |
| `Ingestion.NewestBecomesLatest` | crates/server/src/store.rs:1005-1013 | a report becomes the latest exactly if it is newer than every acceptance of its host since the last activation |
| `Ingestion.NewerIsFair` | crates/server/src/store.rs:1001-1009 | honest clocks are ordered by collection time, and a report whose clock runs ahead does not stay newer than those received after it |
| `Ingestion.RetainedIsHeld` | crates/server/src/capacity.rs:74-74 | the bytes summed over all rows of a host are those of its latest payload |
| `Ingestion.BatchAnswersEach` | crates/server/src/store.rs:947-984 | each report of a batch is answered on its own, on the tables the reports before it left |
| `Ingestion.FailuresLeaveNoTrace` | crates/server/src/store.rs:960-979 | a batch does the same as the batch of its stored reports alone |
| `Ledger.AcceptKeepsLatest` | crates/server/src/store.rs:1005-1093 | after an acceptance the latest pointer of every host is its greatest report by (capped collection, receipt, id) since activation, and exactly the latest reports keep a payload |
| `Ledger.ActivationResetsLatest` | crates/server/src/store.rs:817-834 | activation starts the latest pointer afresh and releases the old payload |
| `Promises.RetryIsRecognised` | crates/server/src/store.rs:1043-1054 | in every run without deletion of the host or a purge cutoff later than the first receipt, a retry returns the first receipt time and changes nothing |
| `Promises.StoredStays` | crates/server/src/retention.rs:645-680 | a stored report leaves only with its host or by a purge whose cutoff is later than its receipt |
| `Aggregates.DescribesRecord` | crates/server/src/retention.rs:515-530 | recording one value keeps count, min, max and running average equal to those of all values so far |
| `Aggregates.DescribesMerge` | crates/server/src/retention.rs:736-752 | the upsert formula on two summaries, with zero counts and NULLs, summarises the union |
| `Aggregates.DescribesUnique` | crates/server/src/retention.rs:507-530 | one set of values has one summary |
| `Aggregates.RepresentsMerge` | crates/server/src/retention.rs:728-758 | merging two hourly rows represents the union of their samples, all 15 metrics and the interval ends |
| `Aggregates.RepresentsMeetsChecks` | schema/product.sql:213-230 | a row that represents samples of its hour satisfies every CHECK of the table |
| `Aggregates.BatchSplitIndependence` | crates/server/src/retention.rs:564-643 | any two ways of splitting and ordering the same reports into batches give the same hourly row |
| `HourlyAggregates.HourlyAggregate.constructor` | crates/server/src/retention.rs:540-552 | a new in-memory aggregate represents its first report |
| `HourlyAggregates.HourlyAggregate.Record` | crates/server/src/retention.rs:554-562 | the loop over the 15 metrics turns the aggregate into that of one more report |
| `Ledger.AccumulateRepresents` | crates/server/src/retention.rs:594-607 | the in-memory buckets of a batch summarise exactly the acceptances behind it, hour by hour |
| `Ledger.RollUpKeeps` | crates/server/src/retention.rs:564-643 | marking and upserting together keep every sample counted exactly once |
| `Ledger.PurgeKeeps` | crates/server/src/retention.rs:645-680 | deleting marked rows loses no counted sample and no latest report |
| `Promises.Conservation` | crates/server/src/retention.rs:564-708 | for each host and hour: reports accepted = unmarked rows + live sample count + expired + erased |
| `Promises.EveryStepMovesOn` | crates/server/src/retention.rs:564-708 | acceptances are never forgotten or reordered and a marked sample is never raw again |
| `Promises.NeverCountedAgain` | crates/server/src/retention.rs:564-708 | over any stretch of any run a sample once rolled up is never a raw row again, and an expired or erased one is never counted again |
| `Promises.LatestReportIsGreatest` | crates/server/src/store.rs:1005-1093 | in every reachable state the latest report is the greatest since activation, exists unmarked, and holds its host's only payload |
| `Promises.RetentionSparesLatest` | crates/server/src/retention.rs:577-585 | no retention step marks, changes or deletes a host's latest report |
| `Promises.ExpiryIsSound` | crates/server/src/retention.rs:682-708 | an hour expires only when every sample counted in it is older than the cutoff |
| `Retention.UpsertAll` | crates/server/src/retention.rs:609-623 | upserting the buckets one by one in any order gives the simultaneous upsert |
| `Maintenance.RunCycle` | crates/server/src/retention.rs:338-454 | one run is a sequence of bounded transactions in turns with any other transactions in between, ended by its first idle round, its budget, or the time limit, which may strike after any transaction; without the limit it reports: its counters are those of the sequence, the flag is "budget used up and some row touched", and without the flag the last round was idle. A run that was alone accounts for the rows waiting, the reports and the hours of the tables, leaves nothing due exactly if that could be counted before it, and nothing due at its retention times without the flag |
| `Witnesses.FalseAlarm` | crates/server/src/retention.rs:445-453 | a run from a reachable database that does all its work within its budget, leaves nothing to do and raises the backlog flag all the same |
| `Maintenance.RunUntilQuiet` | crates/server/src/retention.rs:338-384 | runs repeated at one time end with nothing due at these retention times |
| `Forecast.Foretold` | crates/server/src/retention.rs:396-454 | after any number n of transactions in turns: rows still wait to be rolled up exactly if there were more than a batch for each roll-up; the marked rows left are those there were and those that become due, less a batch for each deletion; the expired hours left follow from when the hours end and the waiting reports alone |
| `Forecast.BatchIsNext` | crates/server/src/retention.rs:577-588 | the batches of a run are consecutive slices of the rows that wait at its start, in their order |
| `Forecast.WaitingIsOldRaw` | crates/server/src/retention.rs:577-588 | the rows that wait are the unmarked old reports of the table that are no host's latest, each once, in order of collection |
| `Forecast.HoursLeftExactly` | crates/server/src/retention.rs:682-708 | if no waiting report is as old as the aggregate cutoff or belongs to an hour about to expire, the hours left are those there were less a batch for each expiry |
| `Maintenance.RunIsForetold` | crates/server/src/retention.rs:396-454 | a run that ends early, in its first idle round, leaves as little as its whole budget would have |
| `Schedule.IdleRoundFoundNothing` | crates/server/src/retention.rs:445-447 | a round that touches nothing found no old unmarked report, no old marked one and no old hour in the tables when it looked, whatever else was written in between |
| `Schedule.IdleRoundIsQuiet` | crates/server/src/retention.rs:445-447 | and if nothing else was written, nothing is left to do |
| `Retention.RollUpProgress` | crates/server/src/retention.rs:564-643 | a roll-up batch removes exactly its rows from the work left, and an empty one proves there were none |
| `Retention.PurgeProgress` | crates/server/src/retention.rs:645-680 | a delete batch strictly shrinks the marked rows and leaves the same rows waiting for roll-up |
| `Retention.ExpireProgress` | crates/server/src/retention.rs:682-708 | an expiry batch strictly shrinks the expired hours and touches nothing else |
| `Selection.RollUpMarksOldest` | crates/server/src/retention.rs:577-643 | on the tables: at most `limit` unmarked reports that are no host's latest and were collected before the cutoff are marked, the first collected first, fewer only if none is left; nothing else about any report changes |
| `Selection.PurgeDeletesOldest` | crates/server/src/retention.rs:645-680 | on the tables likewise: marked reports received before the cutoff that are no host's latest, the first marked first |
| `Selection.ExpiryDeletesOldest` | crates/server/src/retention.rs:682-708 | on the tables likewise: hours whose last sample was collected before the cutoff, the first to end first |
| `Selection.QuietMeansNothingDue` | crates/server/src/retention.rs:396-454 | an idle database is one in which every report that is no host's latest was collected after `now - raw_retention`, or is marked and was received after it, and every hour ends after `now - aggregate_retention` |
| `History.ChooseStep` | crates/server/src/store.rs:1442-1485 | the loop ends with the least table step that meets the point budget and is an hour or more where an hourly row overlaps, and fails exactly when there is none |
| `History.BelowMinimumNeverFits` | crates/server/src/store.rs:1442-1447 | no step below the computed minimum could meet the budget, so starting there skips none |
| `History.OverlapsBelowHour` | crates/server/src/store.rs:1466-1483 | an overlap seen at one step below an hour is seen at every coarser one below an hour |
| `History.AllowedRangesHaveAStep` | crates/server/src/http.rs:1098-1112 | every range the endpoint lets through (up to 31 days, 100 to 1000 points) has an acceptable step |
| `History.AlignedRangeCovers` | crates/server/src/store.rs:1449-1465 | the aligned range covers the requested one including fractions of seconds, in at most the allowed number of buckets |
| `Chart.HistorySeries` | crates/server/src/store.rs:1424-1585 | the answer has the least acceptable step, the range aligned to it, the source label of the rows met, and as points the direct count, min, max and mean of the accepted, unexpired samples in each interval; a range the endpoint lets through is never out of budget |
| `Chart.GroupRows` | crates/server/src/store.rs:1496-1521 | grouping the union of raw and hourly rows gathers every counted sample into its own interval, in any visiting order |
| `Chart.GridSize` | crates/server/src/store.rs:1519-1519 | the groups number at most the grid's intervals, so LIMIT drops none |
| `Chart.SeriesIsUnique` | crates/server/src/store.rs:1486-1534 | the chart is a function of the counted samples |
| `Chart.RetentionIsInvisible` | crates/server/src/store.rs:1486-1534 | rolling up and deleting raw rows change no chart at any given range and step |
| `Stability.StepStaysExactly` | crates/server/src/store.rs:1466-1483 | when hours are added, the least step stays the least exactly if it is an hour or more or none of the hours meets the range |
| `Stability.RetentionKeepsTheStep` | crates/server/src/store.rs:1466-1483 | deleting raw rows never changes the chosen step; a roll-up keeps it exactly if it is an hour or more or no report of the batch lies in an hour of the host that meets the range |
| `Stability.RetentionChangesNoAnswer` | crates/server/src/store.rs:1424-1585 | under the same condition, and only then, a question answered before and after retention gets the same chart; then the answer is the same, source label included, exactly if the rows it shows stay of the same kinds; after deleting raw rows it always is |
| `Witnesses.RollUpCoarsens` | crates/server/src/store.rs:1466-1483 | a reachable database and a batch whose roll-up moves the least step of an hour's chart away from 5 seconds |
| `Witnesses.RollUpRelabels` | crates/server/src/store.rs:1571-1585 | the same batch turns the label of an hour drawn in one point from raw to mixed and leaves its step alone |
| `Database.Store.CreateInvite` | crates/server/src/store.rs:135-181 | the method commits exactly the state machine's step |
| `Database.Store.RotateInvite` | crates/server/src/store.rs:289-356 | five statements commit exactly the rotation step |
| `Database.Store.CancelInvite` | crates/server/src/store.rs:365-416 | likewise for cancelling and deleting, whose answers and writes `Effects` states on the tables |
| `Database.Store.DeleteInvite` | crates/server/src/store.rs:418-444 | likewise |
| `Database.Store.DeleteHost` | crates/server/src/store.rs:1622-1644 | likewise |
| `Database.Store.CreatePairing` | crates/server/src/store.rs:476-630 | expire, prune, count and insert commit exactly the pairing step, with the pruned rows an answer of the limited subquery; `Deadlines` states its answers on the tables |
| `Database.Store.ExpirePairing` | crates/server/src/store.rs:679-689 | the expiration update is the expiry step |
| `Database.Store.Activate` | crates/server/src/store.rs:709-866 | the updates of all five tables commit exactly the activation step |
| `Database.Store.HostForToken` | crates/server/src/store.rs:883-890 | returns a host the token resolves to, and none only if there is none |
| `Database.Store.RetainedBytes` | crates/server/src/capacity.rs:74-74 | the SUM over payload lengths of one host |
| `Database.Store.StoreReportInTransaction` | crates/server/src/store.rs:986-1104 | the statements of one report, and on success its whole effect, which `Ingestion` states on the tables |
| `Database.Store.Savepoint` | crates/server/src/store.rs:960-979 | a failed report leaves no trace of the statements it already ran |
| `Database.Store.StoreReportBatch` | crates/server/src/store.rs:947-984 | a batch equals its reports one after another with failures as no-ops |
| `Database.Store.FillBuckets` | crates/server/src/retention.rs:594-607 | the loop over the batch fills one aggregate object per host and hour |
| `Database.Store.AggregateRawBatch` | crates/server/src/retention.rs:564-643 | select, accumulate, upsert and mark commit exactly the roll-up step, and mark the oldest unmarked reports of the table |
| `Database.Store.DeleteAggregatedRawBatch` | crates/server/src/retention.rs:645-680 | the limited delete is the purge step, and deletes the oldest marked reports of the table |
| `Database.Store.DeleteExpiredAggregateBatch` | crates/server/src/retention.rs:682-708 | the limited delete is the expiry step, and deletes the oldest hours of the table |
| `Database.Store.HistorySeries` | crates/server/src/store.rs:1424-1585 | asked of the store after any run, the same whole answer, over what that run accepted |
| `Database.Store.Perform` | crates/server/src/store.rs:135-1132 | any one of the twelve transactions, with the arguments given and rows of its own choice, is an enabled step of the state machine |
| `TokenBuckets.BoundedBuckets.CheckAt` | crates/server/src/pairing_admission.rs:253-265 | one call: retain, make room, insert, charge |
| `TokenBuckets.BoundedBuckets.MakeRoom` | crates/server/src/pairing_admission.rs:267-293 | evicts the longest unseen full entry, or refuses with the shortest wait |
| `TokenBuckets.BoundedBuckets.FindEvictable` | crates/server/src/pairing_admission.rs:271-277 | the scan finds an evictable entry if there is one, and then one not seen for the longest time |
| `TokenBuckets.BoundedBuckets.ShortestWait` | crates/server/src/pairing_admission.rs:282-292 | the scan finds the least time until some entry is full |
| `RateLimits.StepRefinesIdeal` | crates/server/src/pairing_admission.rs:201-294 | a call is one step of the key's ideal bucket, or a refusal for want of room that costs nobody a token; the map stays within its capacity; also if the clock went back |
| `RateLimits.StepForgets` | crates/server/src/pairing_admission.rs:253-265 | after a call every entry was used within its time to live, an admitted key is there, and no other entry changed |
| `RateLimits.StepGivesUpOldest` | crates/server/src/pairing_admission.rs:267-279 | otherwise at most one entry goes, only from a full map, and it is full and unseen for the longest time |
| `RateLimits.MapAgreesWithIdeal` | crates/server/src/pairing_admission.rs:201-294 | after any run of calls every key's level is that of a bucket that was never evicted, expired or recreated |
| `RateLimits.VerdictsAreIdeal` | crates/server/src/pairing_admission.rs:210-228 | every answer in every run is the ideal bucket's own, with its exact delay, unless there was no room |
| `RateLimits.RateBound` | crates/server/src/http.rs:174-232 | at most burst + T / refill calls of one key are admitted in any interval of length T |
| `RateLimits.OutOfOrderExceedsRate` | crates/server/src/pairing_admission.rs:201-228 | three calls of one key whose clock readings arrive out of order, two of them admitted at one time under a burst of one: the rate bound needs calls in order of time |
| `RateLimits.AnyOrderBound` | crates/server/src/pairing_admission.rs:201-294 | whatever the clock readings, any calls in a row admit at most burst + F / refill of one key, where F is how far the readings moved forward |
| `RateLimits.ForwardInOrder` | crates/server/src/pairing_admission.rs:201-228 | in order of time F is the time from the first call to the last |
| `RateLimits.DrainedRetryIsExact` | crates/server/src/pairing_admission.rs:216-228 | after a refusal by a drained bucket the key is admitted exactly from the stated delay on |
| `RateLimits.FullMapRetryIsExact` | crates/server/src/pairing_admission.rs:282-292 | after a refusal for want of room the key is admitted exactly from the stated delay on at every nanosecond tick; at other moments that fails exactly if an entry is full again less than a nanosecond after the refusal |
| `RateLimits.AdmittedBetweenTicks` | crates/server/src/pairing_admission.rs:282-292 | three calls in order of time, the last of them admitted half a nanosecond after a refusal that said one |
| `RateLimits.RoomExactly` | crates/server/src/pairing_admission.rs:267-293 | a full map takes a new key exactly when some entry is full again |
| `RateLimits.ReportRefillIsTheSame` | crates/server/src/http.rs:174-192 | the report buckets' tokens-per-second formula is the same refill |
| `RateLimits.ProductionForgetsOnlyFull` | crates/server/src/pairing_admission.rs:27-40 | every production policy lives long enough to be full again before it is forgotten |
| `RateLimits.RetryAfterSeconds` | crates/server/src/pairing_admission.rs:310-318 | whole seconds, rounded up, at least one |
| `WriterSafety.EveryInterleavingIsSafe` | crates/server/src/telemetry.rs:256-463 | every state of every interleaving satisfies all writer invariants |
| `WriterSafety.ReachableStateIsSafe` | crates/server/src/telemetry.rs:256-463 | a state in which some interleaving ends satisfies them |
| `WriterSafety.StepConserves` | crates/server/src/telemetry.rs:344-463 | each sent report is in exactly one of finished, being answered, batch and queue, in send order |
| `WriterSafety.SuccessIsCommitted` | crates/server/src/telemetry.rs:284-298 | a handler that hears success hears about its own report, and a committed acceptance backs it |
| `WriterSafety.EveryoneHears` | crates/server/src/telemetry.rs:284-298 | a handler that has sent its one report waits while it is unanswered, and then has heard exactly the recorded answer, unless it gave up before |
| `WriterSafety.CountersAreExact` | crates/server/src/telemetry.rs:420-462 | completed counts the stored reports answered, failed the others including those of a failed batch still being answered, abandoned the answers whose handler had gone |
| `WriterSafety.AcquireExactly` | crates/server/src/telemetry.rs:260-279 | a handler is turned away exactly if sixteen permits of its host are out |
| `WriterSafety.HandlersProceed` | crates/server/src/telemetry.rs:280-290 | with a permit a handler gets a slot as soon as there is one and is turned away only by shutdown; with a slot it sends its report to the end of the queue and waits |
| `WriterSafety.ShutdownProceeds` | crates/server/src/telemetry.rs:344-377 | a requested shutdown can close the queue while the writer waits or collects, what is queued can still be received, and once nothing is queued or reserved the writer can end |
| `WriterSafety.PersistedInSendOrder` | crates/server/src/telemetry.rs:412-463 | newly accepted reports entered the database in the order they were sent |
| `WriterSafety.ShutdownLosesNothing` | crates/server/src/telemetry.rs:351-377 | once the writer has ended the queue is empty, every sent report was answered, every handler that did not give up has heard the answer to its own, nobody waits and none can be sent |
| `WriterSafety.AtMostSixteenPerHost` | crates/server/src/telemetry.rs:260-279 | at most 16 permits are out per host although the weak map drops and recreates semaphores |
| `WriterSafety.ForgettingIsSafe` | crates/server/src/telemetry.rs:261-266 | what the weak map forgets, no handler and no unanswered report refers to |
| `WriterSafety.StepKeepsQueueFits` | crates/server/src/telemetry.rs:280-284 | queued reports and reserved slots never exceed the queue capacity |
| `WriterTask.ResultsAreOutcomes` | crates/server/src/telemetry.rs:449-462 | the answers of a committed batch are the store's outcomes, one for one |
| `WriterTask.Task.PersistBatch` | crates/server/src/telemetry.rs:412-463 | one transaction for the batch, then one answer per report in order: the store's outcomes if the commit was confirmed, a failure for each if it was rolled back or if it took effect and its answer was lost; all of it steps of the state machine |
| `WriterTask.Task.TakeBatch` | crates/server/src/telemetry.rs:379-396 | receives the head of the queue up to the batch size and stops short only when it is empty, as steps of the state machine |
| `WriterTask.Task.AnswerAll` | crates/server/src/telemetry.rs:449-462 | the answers of a batch go out one by one in batch order, each of them one step, and every handler that did not give up has heard its own |
| `WriterTask.Task.HandlerMoves` | crates/server/src/telemetry.rs:280-298 | a handler with a reserved slot sends or is dropped, as one step |
| `WriterTask.Task.Start` | crates/server/src/telemetry.rs:344-350 | a new writer starts in a reachable state on any database that a run has left |
| `WriterTask.Task.OthersCommit` | crates/server/src/telemetry.rs:344-463 | any transactions of the rest of the server, each of them one step |
| `WriterTask.Task.Drain` | crates/server/src/telemetry.rs:351-410 | from any reachable state with a closed queue, with handlers that hold a slot still sending or giving up, other transactions committing and any batch failing meanwhile: it ends in the stopped state with nothing queued, no slot held and nobody waiting; every report ever sent was answered once, in order, and counted, and every handler that did not give up has heard its answer |
| `Pagination.Fetch` | crates/server/src/store.rs:1236-1244 | the keyset query: the first 51 rows on one side of the cursor |
| `Pagination.MakePage` | crates/server/src/pagination.rs:69-122 | the count and byte cut, the reversal and both cursors; an error exactly for an oversized first row |
| `Pagination.ListPage` | crates/server/src/store.rs:1403-1422 | fetch and cut together; fails exactly if the nearest listed row alone exceeds 7 MiB |
| `Navigation.PageIsBounded` | crates/server/src/pagination.rs:78-95 | at most 50 rows and 7 MiB, in list order, and not empty while a row is left |
| `Navigation.PageContinues` | crates/server/src/pagination.rs:96-116 | every row beyond the cursor is shown or lies beyond the onward cursor, and never both |
| `Navigation.CursorsExactly` | crates/server/src/pagination.rs:96-116 | onward in the direction of the scan a page has a cursor exactly if it leaves some row out, and back exactly if it was reached through one; without a cursor there is no `previous` |
| `Navigation.PageIsFull` | crates/server/src/pagination.rs:75-90 | a page that leaves a row out shows 50 rows, or the nearest row left out would not have fitted in 7 MiB |
| `Navigation.WalkShowsExactlyOnce` | crates/server/src/pagination.rs:69-122 | on a walk in either direction over a changing table, a row that stays is shown on exactly one page and in one place of it |
| `Navigation.BackAndForth` | crates/server/src/pagination.rs:96-116 | from a page, `previous` leads to a page with a way onward exactly if some row still precedes the page, and then `next` returns to the same page, cursors included, even where bytes cut it |
| `Navigation.BackShows` | crates/server/src/pagination.rs:96-116 | a page fetched backwards is empty, and without a way onward, exactly if no row precedes |
| `Navigation.NoWayBack` | crates/server/src/pagination.rs:96-116 | a walk of two rows, the first deleted in between: `previous` gives an empty page without cursors |
| `Navigation.PageIsUnique` | crates/server/src/store.rs:1236-1244 | two cursors with the same rows beyond them give the same page |
| `Common.OrderedLimit` | crates/server/src/retention.rs:584-588 | an answer of ORDER BY and LIMIT |

## Left out

Facts that do not hold of the code, each with an input that shows it and the exact condition under which it does:

- Maintenance.RunCycle: `backlogRemaining` does not mean that work is left, because a last idle round may use up the budget (`Witnesses.FalseAlarm`). If nothing else was written, work is left exactly if `Forecast.WorkLeft` holds of the tables before the run; and then the flag is up.
- Stability.RetentionKeepsTheStep: below an hour a roll-up may coarsen the chart (`Witnesses.RollUpCoarsens`), because hourly rows force a step of 3600; the lemma gives the exact condition on the batch.
- Stability.RetentionChangesNoAnswer: a roll-up may change the source label of the same chart (`Witnesses.RollUpRelabels`); it does not exactly under `Stability.KeepsLabel`.
- RateLimits.FullMapRetryIsExact: between two ticks an entry may be full before a delay that was rounded up to one nanosecond (`RateLimits.AdmittedBetweenTicks`); the second clause says exactly when.
- RateLimits.RateBound: needs calls in order of time. `check_create` and its siblings read the clock before they take the lock, so two calls may arrive in the other order, and then more may pass in an interval than the rate allows (`RateLimits.OutOfOrderExceedsRate`). What holds of calls in any order is `RateLimits.AnyOrderBound`, of which the rate bound is the case of calls in order.
- Navigation.BackAndForth: if every row before the page has been deleted, `previous` leads to an empty page without cursors (`Navigation.NoWayBack`); this is the only way to lose the page.
- "Every host has an invite" is not an invariant (`Witnesses.HostWithoutInvite`); `Attachments.HostKeepsInvite` and `Attachments.InvitesStayExactly` say exactly when it holds.
- "Every active host has an active request" is not an invariant (`Witnesses.ActiveHostWithoutRequest`); `Attachments.HostKeepsRequest` and `Attachments.RequestsStayExactly` say exactly when it holds.

Not modelled, in the tables and transactions:

- Host names, platform columns, capabilities and report intervals, which no guard reads; the platform of a pairing request is one string.
- `updated_at` of hourly rows, `activated_at` and `cancelled_at` of invites, audit events, `update_instance_name`.
- The file-size and free-space part of admission: its verdict is the input `storageOk` of each call. Its input and output errors are not modelled.
- Hashes and encryption: hashes are opaque values, and a sealed code opens under the instance it was sealed for.
- Fresh random identifiers are an explicit precondition (`Ledger.Enabled` and the methods' `requires`).
- SQLite's text encoding of timestamps and chrono's range errors; clocks are parameters, and may jump.
- Float rounding: metrics, averages and tokens are reals. Infinite and NaN metrics are not part of this model.
- A statement that fails after the report insert is one input of the report (`broken`); other SQL errors roll back to the state before.
- The order of pruned pairing rows of equal age and of hourly upserts is left open; the in-memory metric array is a sequence.

Not modelled, elsewhere:

- TelemetryWriter.Possible: time-outs appear as a handler giving up at any moment and as a batch closed at any size; a commit that took effect may lose its answer; the abort after the drain deadline and the loss of all senders are not modelled.
- WriterTask.Task: covers batches at any time and the loop after shutdown; before shutdown the choice between the two is left to the state machine. A batch takes what is queued without waiting for more.
- TokenBuckets.BoundedBuckets: the lock, key hashing and the pairs of maps consulted by one request; a request refused by the second map has paid in the first.
- Pagination.MakePage: cursor encoding and scope, the limit of one row for a focused host, and `Admission`, whose semaphores follow the same pattern as the writer's.
- `list_invites_page`, host statistics and the raw history endpoint: single queries.
- Routing, sessions, configuration, release bundles and the web console.
