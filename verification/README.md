# Verification of the policy core

This project models the stateful and arithmetic cores of the policy platform and proves what they
keep over every run: the wave scheduler of the agent orchestrator, the accounting of the database
connection pool, the user and analytics migrations, the audit log's buffer, the compliance control
framework, the refresh of materialized views, the partitioning of the audit log, quote numbers and
pagination. `dafny verify dfyconfig.toml` checks everything.

One module stands for one component.

| module | component |
|---|---|
| `WaveScheduler` | `run_wave`: rounds of starting ready agents into free slots and waiting for some of them |
| `PoolMetrics` | `acquire` and the metrics dictionary, under every interleaving of sessions |
| `UserMigration` | migration 011 (split of `users`) and the view of migration 012 (join back) |
| `MetricsRollup` | `aggregate_analytics_metrics`: windowed group-by with upsert |
| `AuditBuffer` | `AuditLogger`: write-through, write-behind, batch INSERT |
| `ControlFramework` | registration, execution history, latest-execution registry, report |
| `ViewRefresh` | `refresh_materialized_views`, next to other backends |
| `AuditPartitions` | monthly partitions and `create_monthly_audit_partition` |
| `QuoteNumbers` | `quote_number_seq` and `generate_quote_number` |
| `Pagination` | `create_pagination_info` and the walk along `next_page` |
| `Decimals`, `Whitespace`, `Tallies`, `Results` | decimal notation; trimming of text fields; sums and counts; optional values and `Ok`/`Err` |

What the environment decides is an input and is never restricted: which running agents finish in a
round and how, when sessions time out, fail or are cancelled, which database calls fail, what clocks
read, what a control's hook returns, what other backends do between two awaits. A component that
changes state in place is a class or a method with a loop, proved equal to a function of its old
state; the theorems about whole runs are lemmas about that function. A run is a sequence of states
`ps`, each of which follows from the one before it by one step, so that a lemma about `ps[k]` is a
statement about every reachable state.

## What the code does not promise

Some properties that one would expect hold only under a condition. Each is stated here as the exact
condition, with a lemma, and an input that fails it is given by a lemma or method of its own unless the
condition itself names one.

- The wave loop ends if and only if the agent ids are distinct, every agent is reachable through
  finished dependencies, and the cap is positive (or the wave empty). With a repeated id, a cycle, a
  dependency outside the wave, or a cap of zero or less it polls forever: `WaveScheduler.ExitCondition`,
  and such a wave: `WaveScheduler.SelfDependencyNeverExits`.
- A round waits with a free slot next to a ready agent if and only if two of the agents it launched
  share an id and the id of some ready agent is carried by none of them:
  `WaveScheduler.WaitsOnlyWhenBusy`, and such a wave: `WaveScheduler.RepeatedIdWastesASlot`.
- `connections_active` is the number of live sessions throughout a run if and only if no attempt is
  refused while it is positive: `PoolMetrics.ActiveIsExact`, and a run where it is wrong:
  `PoolMetrics.TimeoutUnderreports`.
- `users_compat` has one row per user if and only if no user has two active roles:
  `UserMigration.OneRowPerUserIff`, and a state with two rows: `UserMigration.TwoActiveRoles`.
- After its own downgrade, migration 011 can never be applied again: the downgrade leaves the
  constraints of the restored table under their new names (`UserMigration.UpgradeTwice`). The downgrade
  itself succeeds if and only if every admin refers to a user of the legacy table
  (`UserMigration.Database.Downgrade`, and a failing case: `UserMigration.DowngradeWithNewAdmin`).
- Once aggregated, the stored row of a day with events is the combination of its stored hour rows if and
  only if no hour's row is stale, that is, left over from events that are gone: `MetricsRollup.DayRowIsRollUpOfHourRows`, and such a
  table: `MetricsRollup.StaleHourBreaksRollUp`.
- A context exit empties the audit buffer if and only if it was empty, or every low-risk event logged so
  far passes validation and fits the columns of `audit_logs`, and the database call does not fail for
  another reason: `AuditBuffer.ExitDrainsIff`. One event that does not keeps every low-risk event out of
  the database from then on: `AuditBuffer.RefusedEventBlocks`, and a run:
  `AuditBuffer.RefusedEventStays`. The logger creates such events itself: successful authentications and
  errors have no resource type, and control events have a control id where a UUID is stored
  (`AuditBuffer.CommonRefusals`).
- When tasks interleave, no audit event is lost, repeated or reordered throughout a run if and only if
  every flush finds the buffer as it copied it: `AuditBuffer.InterleavedConservation`, and a loss:
  `AuditBuffer.AppendDuringFlushIsLost`. For events that are all different, that is, if and only if
  nothing is logged and no other flush commits from a flush's begin to its commit:
  `AuditBuffer.ConservesIffQuiet`.
- The compliance report succeeds if and only if the trimmed id of every control that was executed is
  registered. Executions are recorded under the trimmed id, controls under the id as given:
  `ControlFramework.ReportOkIff`, and a failing run: `ControlFramework.PaddedIdBreaksReport`. A control
  whose own id has white space at an end stays inactive for good: `ControlFramework.InactiveIff`.
- The sequence of quote numbers runs on across years. The numbers of one year are distinct if and only if
  its sequence values stay below 10000000, or the last of them is 10000000 and the first is not 1000000;
  or, in a year that starts at 10000000 or later, if there is at most one value, or there are two, of
  which the first drops only nines: `QuoteNumbers.DistinctWithinYearIff`, and equal
  numbers: `QuoteNumbers.CrossingRepeats`.
- `prev_page` undoes `next_page` if and only if the page is not before the first page:
  `Pagination.PrevUndoesNext`.

## Model

| member | source | states |
|---|---|---|
| `WaveScheduler.Ready` | scripts/sage-parallel-orchestrator.py:235-240 | the agents that can run are exactly those neither completed nor running whose dependencies are all completed, each once, in wave order |
| `WaveScheduler.PythonPrefix` | scripts/sage-parallel-orchestrator.py:243-244 | the slice by the free slots is a prefix of that many agents, and for a negative number of slots it drops agents from the end |
| `WaveScheduler.StartAgents` | scripts/sage-parallel-orchestrator.py:247-250 | starting the chosen agents one by one gives the specified running dictionary, in which an agent with a present key replaces the entry |
| `WaveScheduler.ProcessDone` | scripts/sage-parallel-orchestrator.py:260-272 | the loop over a copy of the running tasks moves exactly the tasks that are done, whether they returned or raised, to the completed set and the results |
| `WaveScheduler.RunRound` | scripts/sage-parallel-orchestrator.py:233-272 | one iteration of the loop is one round of the transition function |
| `WaveScheduler.RunWave` | scripts/sage-parallel-orchestrator.py:224-278 | the loop follows a run, for as long as the environment's waits last, and stops only on the loop condition or at a wait that would not return |
| `WaveScheduler.RunsAreSafe` | scripts/sage-parallel-orchestrator.py:233-272 | in every reachable state and before every wait: running never exceeds a cap of zero or more, running and completed are disjoint, every agent started at most once and only with all dependencies finished, every started agent is running or finished, and exactly the finished ids have results |
| `WaveScheduler.LaunchesOnlyReadyAgents` | scripts/sage-parallel-orchestrator.py:235-250 | the log of starts only grows, and what a round adds to it was ready when the round began |
| `WaveScheduler.SlotsGoInWaveOrder` | scripts/sage-parallel-orchestrator.py:242-250 | in every round of every run the free slots go to the ready agents in wave order: with an agent that is started, every ready agent before it is started too, and the starts of a round ascend |
| `WaveScheduler.ResultsAreOutcomes` | scripts/sage-parallel-orchestrator.py:258-272 | every finished id became finished in an earlier round that reported its task, and its result in all later states is what that round reported, whether the task returned or raised |
| `WaveScheduler.SlotIsWastedIff` | scripts/sage-parallel-orchestrator.py:235-250 | a round wastes a slot, that is, leaves the cap unreached next to a ready agent, if and only if two of the agents it launches share an id and some ready agent's id is carried by none of them |
| `WaveScheduler.WaitsOnlyWhenBusy` | scripts/sage-parallel-orchestrator.py:242-257 | before every wait of every run, for every wave and cap: the cap is reached or no ready agent is left unstarted, except exactly in that case; with distinct ids it never occurs |
| `WaveScheduler.RepeatedIdWastesASlot` | scripts/sage-parallel-orchestrator.py:235-250 | a wave with a repeated id whose first round wastes a slot |
| `WaveScheduler.ReachableIsFixpoint` | scripts/sage-parallel-orchestrator.py:127-129 | layering the wave by dependencies as often as it has agents reaches a fixpoint |
| `WaveScheduler.ReachableIsLeastClosed` | scripts/sage-parallel-orchestrator.py:127-129 | that fixpoint is the least set that contains every agent all of whose dependencies it contains |
| `WaveScheduler.Confluence` | scripts/sage-parallel-orchestrator.py:233-272 | for every completion order, every mix of failures and repeated ids too, only the least fixpoint ever finishes, and all of it has finished after as many rounds as it has members |
| `WaveScheduler.ExitNeedsWholeWave` | scripts/sage-parallel-orchestrator.py:233 | a run that leaves the loop shows that ids are distinct and the fixpoint is the whole wave |
| `WaveScheduler.WholeWaveExits` | scripts/sage-parallel-orchestrator.py:233-275 | if ids are distinct and the fixpoint is the whole wave, every run exits within as many iterations as there are agents |
| `WaveScheduler.SomeoneNeverStarts` | scripts/sage-parallel-orchestrator.py:243-244 | under a cap of zero or less some agent is never started, in any run |
| `WaveScheduler.ExitCondition` | scripts/sage-parallel-orchestrator.py:233-275 | the loop can exit if and only if ids are distinct, the fixpoint is the whole wave, and the cap is positive or the wave empty |
| `WaveScheduler.SelfDependencyNeverExits` | scripts/sage-parallel-orchestrator.py:233-240 | a wave whose only agent waits for itself is never left, under any cap |
| `WaveScheduler.WholeIffAcyclic` | scripts/sage-parallel-orchestrator.py:127-129 | for distinct ids the fixpoint is the whole wave if and only if all dependencies are in the wave and acyclic |
| `WaveScheduler.LockstepCount` | scripts/sage-parallel-orchestrator.py:242-272 | when every wait finishes all running agents, each round either runs as many agents as the cap or completes another dependency layer |
| `WaveScheduler.MakespanBound` | scripts/sage-parallel-orchestrator.py:233-272 | such a run of n agents under cap m, with at most d agents on a dependency chain, has at most (n - 1) / m + d rounds |
| `WaveScheduler.MakespanLowerBound` | scripts/sage-parallel-orchestrator.py:233-272 | no run exits in fewer rounds than the longest dependency chain or than n / m |
| `PoolMetrics.Database.CheckPoolHealth` | src/policy_core/core/database.py:519-547 | the verdict on the pool, and the exhaustion counter goes up exactly when no holder is free |
| `PoolMetrics.HealthInHolders` | src/policy_core/core/database.py:537-547 | in whole holders: near capacity means some are free but fewer than a tenth, healthy a tenth or more; without a pool the answer is that there is none |
| `PoolMetrics.Database.Acquired` | src/policy_core/core/database.py:571-594 | the whole metrics dictionary after a connection is granted |
| `PoolMetrics.Database.BodyDone` | src/policy_core/core/database.py:598-612 | the whole metrics dictionary after the caller's body ends normally |
| `PoolMetrics.Database.Close` | src/policy_core/core/database.py:614-623 | the whole metrics dictionary after the `except` and `finally` clauses, for each way to end |
| `PoolMetrics.Database.DetailedPoolMetrics` | src/policy_core/core/database.py:711-762 | the averages are the means of the windows, the p95 is zero below 20 samples and otherwise a true 95th percentile, and the error rate is zero without acquisitions and otherwise, times the acquisitions, the error count |
| `PoolMetrics.MeanOfSum` | src/policy_core/core/database.py:711-716 | the mean of a window times its length is the sum of the window, and an empty window has mean zero |
| `Tallies.SumLaws` | src/policy_core/core/database.py:715 | the sum is that of all elements of a list: zero for none, the element for one, and additive over two lists |
| `PoolMetrics.CountsArePositions` | src/policy_core/core/database.py:751-754 | the two counts of the percentile are numbers of positions with a sample at most, or at least, the value |
| `PoolMetrics.SortedPermutes` | src/policy_core/core/database.py:752 | sorting keeps every sample, as often as it occurs |
| `PoolMetrics.P95IsOrderStatistic` | src/policy_core/core/database.py:751-754 | for any window of at least 20 samples and any sorting of it, the index is in range, the reported value is a sample, strictly more than 95% of the samples are at most it and at least 5% are at least it |
| `PoolMetrics.RunsAreAccounted` | src/policy_core/core/database.py:558-623 | over every interleaving: queries equal acquisitions, acquisitions equal releases plus sessions holding plus failed bodies, slow queries are at most the releases, and the active count is between 0 and the live sessions and misses at most one per refused attempt |
| `PoolMetrics.ActiveIsExact` | src/policy_core/core/database.py:570-623 | the active count equals the live sessions throughout a run if and only if no attempt is refused while the count is positive |
| `PoolMetrics.TimeoutUnderreports` | src/policy_core/core/database.py:614-623 | a run in which a timed-out attempt makes the count 0 while one session is live |
| `PoolMetrics.FailuresAreCounted` | src/policy_core/core/database.py:537-540 | the exhaustion counter is the number of health checks on a full pool plus the timeouts, the error counter is the number of other exceptions, and cancellations count as neither |
| `PoolMetrics.SuccessesAreCounted` | src/policy_core/core/database.py:571-612 | over every interleaving, acquisitions count the connections granted, releases the bodies that ended normally, and slow queries those of them that took more than a second |
| `PoolMetrics.IdleIsLastSeen` | src/policy_core/core/database.py:577-587 | over every interleaving the idle count is what the last granted attempt saw |
| `PoolMetrics.WindowsRefineHistory` | src/policy_core/core/database.py:573-606 | after any run both windows are exactly the last 1000 recorded values, in order, of the whole history |
| `UserMigration.InsertRows` | alembic/versions/011_modularize_user_tables.py:579-626 | the INSERT statements go through exactly for the tables that the migration accepts, and then fill each new table with the stated image of the legacy table |
| `UserMigration.MigratedTablesValid` | alembic/versions/011_modularize_user_tables.py:139-153 | the images of an accepted table satisfy all keys and references of the new tables |
| `UserMigration.MigratedAccounts` | alembic/versions/011_modularize_user_tables.py:582-590 | each legacy user gets, in order, a local account that is verified and active as the legacy flag says, neither locked nor with failed logins, and with the legacy columns |
| `UserMigration.MigratedProfiles` | alembic/versions/011_modularize_user_tables.py:593-600 | the profiles are exactly those of the legacy users with a first or last name, with their names and dates |
| `UserMigration.MigratedRoles` | alembic/versions/011_modularize_user_tables.py:603-610 | the roles are exactly those of the legacy users with a role, active and granted when the user was created |
| `UserMigration.Database.Upgrade` | alembic/versions/011_modularize_user_tables.py:30-637 | succeeds exactly on a first run over a table that fits the new constraints; then all keys and references hold, that of `admin_users` included, and each new table is the stated image of the legacy table; otherwise nothing changes |
| `UserMigration.Database.Downgrade` | alembic/versions/011_modularize_user_tables.py:640-673 | succeeds exactly when every admin refers to a legacy user; then the legacy table comes back unchanged and its constraints keep their new names; otherwise nothing changes |
| `UserMigration.UpgradeTwice` | alembic/versions/011_modularize_user_tables.py:33-44 | upgrading, downgrading and upgrading again fails at the last step, for every table that can be migrated |
| `UserMigration.DowngradeWithNewAdmin` | alembic/versions/011_modularize_user_tables.py:665-673 | the downgrade fails once a user created after the upgrade has become an admin |
| `UserMigration.UsersFollowLegacy` | alembic/versions/011_modularize_user_tables.py:582-590 | the inserted users satisfy the constraints of the new table exactly when the legacy table is one that the migration accepts, roles apart |
| `UserMigration.RowsFollowUsers` | alembic/versions/011_modularize_user_tables.py:593-626 | once the users are in, profiles, preferences and security rows satisfy their keys, and only an unknown role can still stop the migration |
| `UserMigration.OnlyEmailsCanFail` | alembic/versions/002_add_users_and_quote_system_tables.py:30-64 | a table that the old constraints admit can be migrated if and only if every email has the new format |
| `UserMigration.EmailFormatIff` | alembic/versions/011_modularize_user_tables.py:145-147 | an email has the format if and only if it is a local part, an @, a domain, a dot and at least two letters |
| `UserMigration.OwnProfile` | alembic/versions/011_modularize_user_tables.py:593-600 | a user joins exactly the profile made from the user's own legacy row, and none if that row had no name |
| `UserMigration.OwnRole` | alembic/versions/011_modularize_user_tables.py:603-610 | a user joins exactly the role made from the user's own legacy row, and none if that row had no role |
| `UserMigration.MigrationRoundTrip` | alembic/versions/012_add_users_compatibility_view.py:27-45 | for every table that the migration accepts, the view afterwards has exactly one row per legacy user, in order, with the same ten columns and no failed logins |
| `UserMigration.ViewIsLeftJoin` | alembic/versions/012_add_users_compatibility_view.py:30-44 | in any state a row is in the view if and only if it has the columns of a user, the names of a profile of that user or NULL when there is none, and the role of an active role of that user or NULL when there is none |
| `UserMigration.RowsPerUser` | alembic/versions/012_add_users_compatibility_view.py:42-44 | in any later state that satisfies the keys, a user with k active roles has max(1, k) rows, and an unknown id none |
| `UserMigration.OneRowPerUserIff` | alembic/versions/012_add_users_compatibility_view.py:42-44 | the view has one row per user if and only if nobody has two active roles |
| `UserMigration.TwoActiveRoles` | alembic/versions/012_add_users_compatibility_view.py:42-44 | a state that satisfies all keys, in which one user has two rows |
| `MetricsRollup.RealtimeMetrics.AggregateAnalyticsMetrics` | alembic/versions/005_add_realtime_analytics_tables.py:670-727 | one call turns the table into the specified one, keeps one row per metric key and positive counts |
| `MetricsRollup.GroupsDistinct` | alembic/versions/005_add_realtime_analytics_tables.py:718 | the grouping yields each pair of state and event type once |
| `MetricsRollup.SummaryCounts` | alembic/versions/005_add_realtime_analytics_tables.py:709-718 | a group has a row exactly when it has a selected event, and then its count is positive |
| `MetricsRollup.SummaryIsExact` | alembic/versions/005_add_realtime_analytics_tables.py:709-718 | the count is the number of events of the half-open window that have the group's dimensions and a value, and the sum is that of a list that holds each value as often as such an event has it |
| `MetricsRollup.UpsertAllKeepsKeys` | alembic/versions/005_add_realtime_analytics_tables.py:585-591 | any sequence of upserts keeps one row per unique key |
| `MetricsRollup.AggregatedIsValid` | alembic/versions/005_add_realtime_analytics_tables.py:585-607 | the unique key and the positive counts hold after any call, whatever the events |
| `MetricsRollup.StoredAfterAggregate` | alembic/versions/005_add_realtime_analytics_tables.py:689-726 | afterwards each group of the window is stored with exactly its figures, and every other key is as before |
| `MetricsRollup.RowsKeepWindows` | alembic/versions/005_add_realtime_analytics_tables.py:689-726 | a call removes and reorders no row and changes only figures of the rows already there, and the rows it adds are summaries of its own metric, period and window |
| `MetricsRollup.RerunIsIdempotent` | alembic/versions/005_add_realtime_analytics_tables.py:719-726 | running a window again leaves the table unchanged |
| `MetricsRollup.AverageBetweenExtremes` | alembic/versions/005_add_realtime_analytics_tables.py:709-713 | a group's average lies between its minimum and its maximum |
| `MetricsRollup.AverageTimesCount` | alembic/versions/005_add_realtime_analytics_tables.py:709-713 | the average, added up as often as there are events, is the sum |
| `MetricsRollup.ExtremesAreAttained` | alembic/versions/005_add_realtime_analytics_tables.py:711-712 | minimum and maximum are values of the group, and no value of the group lies outside them |
| `MetricsRollup.RollUpTwo` | alembic/versions/005_add_realtime_analytics_tables.py:715-718 | two adjacent half-open windows combine to the window they cover |
| `MetricsRollup.RollUp` | alembic/versions/005_add_realtime_analytics_tables.py:680-718 | any number of consecutive equal windows combine to the window they cover, for any events and any group |
| `MetricsRollup.PeriodsNest` | alembic/versions/005_add_realtime_analytics_tables.py:680-686 | 60 minutes make up an hour, 24 hours a day and 7 days a week, for any events and any group |
| `MetricsRollup.DayRowIsRollUpOfHourRows` | alembic/versions/005_add_realtime_analytics_tables.py:680-726 | in any table, after aggregating 24 hours and their day: the day's row is the combination of the 24 hour rows if and only if no hour had a row left over from events that are gone; a group without events in the day rolls up exactly if it did before |
| `MetricsRollup.LateEventsRollUp` | alembic/versions/005_add_realtime_analytics_tables.py:719-726 | aggregating a day again after late events makes it roll up, over the rows stored before |
| `MetricsRollup.StaleHourBreaksRollUp` | alembic/versions/005_add_realtime_analytics_tables.py:719-726 | a table with a stale hour row, after which the hours do not combine to the day |
| `AuditBuffer.BatchValues` | src/policy_core/compliance/audit_logger.py:291-319 | the value loop gives the concatenated rows of all events, or stops at the first event that cannot be converted |
| `AuditBuffer.BatchPlaceholders` | src/policy_core/compliance/audit_logger.py:322-329 | the placeholder loop gives the specified numbers |
| `AuditBuffer.PlaceholdersInOrder` | src/policy_core/compliance/audit_logger.py:322-329 | for any number of events, placeholder j of row i is number 15i + j + 1: exactly $1 to $15n in order |
| `AuditBuffer.BatchBindsRows` | src/policy_core/compliance/audit_logger.py:332-343 | every placeholder has a value, and binding the flattened values through them gives back the original rows |
| `AuditBuffer.BatchInsertsEvents` | src/policy_core/compliance/audit_logger.py:290-343 | the batch INSERT inserts one row for each pending event, in order |
| `AuditBuffer.BatchRows` | src/policy_core/compliance/audit_logger.py:290-343 | what the built query inserts is one row for each event, if all can be converted |
| `AuditBuffer.AuditLogger.LogEvent` | src/policy_core/compliance/audit_logger.py:224-239 | the new database and buffer, and exactly when the call returns `Ok` |
| `AuditBuffer.RiskLevelDecides` | src/policy_core/compliance/audit_logger.py:224-239 | a critical or high-risk event is stored by itself exactly when the call is `Ok`, and leaves the buffer alone; any other event joins the buffer, and the 100th takes the whole buffer to the database or stays with it |
| `AuditBuffer.StoredColumns` | src/policy_core/compliance/audit_logger.py:247-281 | each attribute of an event goes to the column of its name |
| `AuditBuffer.AcceptedIffStorable` | alembic/versions/004_add_security_compliance_tables.py:334-336 | the table accepts the rows of a batch exactly when each event has an action and a resource type that fit and no resource id but a UUID |
| `AuditBuffer.AcceptableInCharacters` | alembic/versions/004_add_security_compliance_tables.py:334-336 | which events can be stored, in characters: the lengths of action, resource type, address, user agent and path, and a resource id of 32 hexadecimal digits and hyphens |
| `AuditBuffer.AuditLogger.WriteEventToDatabase` | src/policy_core/compliance/audit_logger.py:242-282 | adds the event's row exactly when the event converts, its row fits the table and the database does not fail otherwise, and leaves the buffer alone |
| `AuditBuffer.AuditLogger.FlushPendingEvents` | src/policy_core/compliance/audit_logger.py:285-344 | either all pending events become rows, in order, and the buffer is empty, or nothing changes |
| `AuditBuffer.AuditLogger.AsyncExit` | src/policy_core/compliance/audit_logger.py:659-662 | leaving the context flushes the buffer, and raises exactly when the flush fails |
| `AuditBuffer.EventsAreConserved` | src/policy_core/compliance/audit_logger.py:224-239 | whatever database calls fail: the stored low-risk events followed by the buffer are exactly the low-risk events logged, in log order, and the stored high-risk events are exactly those whose call returned `Ok` |
| `AuditBuffer.ConservedByRiskLevel` | src/policy_core/compliance/audit_logger.py:224-239 | after any run a critical or high-risk event is in the database if and only if a call that logged it returned `Ok`, and any other event is in the database or the buffer if and only if it was logged |
| `AuditBuffer.EveryEventOnce` | src/policy_core/compliance/audit_logger.py:224-344 | database and buffer together hold each of those events exactly once, and nothing else |
| `AuditBuffer.OkLeavesLessThanABatch` | src/policy_core/compliance/audit_logger.py:231-239 | a low-risk `Ok` leaves fewer than 100 pending events, a clean exit leaves none, and a low-risk error leaves the event in the buffer |
| `AuditBuffer.BufferAcceptableIff` | src/policy_core/compliance/audit_logger.py:231-235 | whatever database calls fail, the buffer can be stored exactly when every low-risk event logged so far can |
| `AuditBuffer.ExitDrainsIff` | src/policy_core/compliance/audit_logger.py:659-662 | in any run an exit leaves the buffer empty if and only if it was empty, or every low-risk event logged converts and fits the table and the database does not fail otherwise |
| `AuditBuffer.RefusedEventBlocks` | src/policy_core/compliance/audit_logger.py:285-344 | once a low-risk event that does not convert or does not fit the table has been logged, no low-risk event reaches the database any more, in any continuation, and the buffer is never empty again |
| `AuditBuffer.RefusedEventStays` | src/policy_core/compliance/audit_logger.py:659-662 | a run in which such an event is logged, the exit fails and the event stays in the buffer although nothing else goes wrong |
| `AuditBuffer.CommonRefusals` | src/policy_core/compliance/audit_logger.py:359-520 | events without a resource type, events with a control id as resource id, and events with a user agent of 501 characters are never stored |
| `AuditBuffer.InterleavedConservation` | src/policy_core/compliance/audit_logger.py:343-344 | under free interleaving, database followed by buffer are exactly the events appended, throughout a run, if and only if every commit finds the buffer as its flush copied it |
| `AuditBuffer.FlushHoldsCopy` | src/policy_core/compliance/audit_logger.py:291-343 | a flush in flight holds the buffer as it was at the step that began it |
| `AuditBuffer.QuietFlushesConserve` | src/policy_core/compliance/audit_logger.py:343-344 | a schedule in which nothing is logged and no other flush commits between a flush's begin and its commit conserves all events |
| `AuditBuffer.ConservesIffQuiet` | src/policy_core/compliance/audit_logger.py:343-344 | when no two events are equal, such schedules are the only ones that conserve all events throughout |
| `AuditBuffer.AppendDuringFlushIsLost` | src/policy_core/compliance/audit_logger.py:343-344 | an interleaving in which an event logged during a flush is in neither the database nor the buffer |
| `ControlFramework.FoldHasOneEntryEach` | src/policy_core/compliance/control_framework.py:152-163 | the registry has one entry per control |
| `ControlFramework.MaxByTimestamp` | src/policy_core/compliance/control_framework.py:383 | finds the first of the executions with the latest timestamp |
| `ControlFramework.EntryIsLatest` | src/policy_core/compliance/control_framework.py:152-163 | the registry's entry of a control is the one that a scan of the control's own executions settles on |
| `ControlFramework.RegistryIsLatest` | src/policy_core/compliance/control_framework.py:376-384 | for every history, equal timestamps included, the registry holds the execution that `max` by timestamp picks, and none exactly when there is none |
| `ControlFramework.RegistryKeepsOrder` | src/policy_core/compliance/control_framework.py:152-168 | the registry lists controls in the order of their first executions |
| `ControlFramework.ControlFramework.RegisterControl` | src/policy_core/compliance/control_framework.py:217-235 | adds the control exactly when its id is new, and keeps the framework valid |
| `ControlFramework.ControlFramework.ExecuteControl` | src/policy_core/compliance/control_framework.py:238-319 | appends one execution under the trimmed id, with a status that tells its result, exactly when the control is registered, the hook returns and the records pass validation: a trimmed id that is not empty, and at most 50 characters long if there is evidence, and no negative duration |
| `ControlFramework.ElapsedMs` | src/policy_core/compliance/control_framework.py:267-268 | the duration is negative exactly when the clock ran backwards by at least a millisecond |
| `ControlFramework.RunsAreValid` | src/policy_core/compliance/control_framework.py:217-319 | in every reachable state the registered ids are distinct, every execution carries the trimmed id of a registered control, and its status tells its result |
| `ControlFramework.ControlFramework.GetControlStatus` | src/policy_core/compliance/control_framework.py:370-384 | the direct lookup returns the status that the registry holds |
| `ControlFramework.ControlFramework.BuildRegistry` | src/policy_core/compliance/control_framework.py:408-410 | the loop builds the fold of the history |
| `ControlFramework.ControlFramework.GetFailingControls` | src/policy_core/compliance/control_framework.py:453-459 | lists exactly the failing entries of the registry, in order |
| `ControlFramework.ControlFramework.GenerateComplianceReport` | src/policy_core/compliance/control_framework.py:387-450 | the report succeeds exactly when the id of every execution is registered, and then its figures are those of the registry, its percentage lies in 0..100, and the findings of failing entries are counted under "high", "medium" and any other risk level, by the text of the level |
| `ControlFramework.ControlFramework.CountFindings` | src/policy_core/compliance/control_framework.py:421-433 | the loop fails exactly when an entry's control is not registered, whether the entry passes or not, and otherwise counts the findings of failing executions per risk class |
| `ControlFramework.FoldOfHistory` | src/policy_core/compliance/control_framework.py:408-410 | the registry has one entry per control, and each entry's status tells its result |
| `ControlFramework.FoldRegisteredIff` | src/policy_core/compliance/control_framework.py:408-426 | all lookups for the registry succeed exactly when they would for the whole history |
| `ControlFramework.ReportOkIff` | src/policy_core/compliance/control_framework.py:425-426 | after any run of calls the report succeeds if and only if the trimmed id of every control executed so far is registered |
| `ControlFramework.ExecuteKeepsReportIff` | src/policy_core/compliance/control_framework.py:295-311 | a successful execution breaks a report that succeeded if and only if the trimmed id is not registered |
| `ControlFramework.TrimmedControlsReport` | src/policy_core/compliance/control_framework.py:217-223 | as long as no registered id has white space at an end, the report succeeds |
| `ControlFramework.PaddedIdBreaksReport` | src/policy_core/compliance/control_framework.py:295-311 | a run: a control registered and executed as " X", both successfully, after which the report fails and the control is inactive |
| `ControlFramework.PassingAndFailing` | src/policy_core/compliance/control_framework.py:412-414 | passing plus failing entries are all entries |
| `ControlFramework.EntriesFitControls` | src/policy_core/compliance/control_framework.py:390-412 | active controls are at most the controls, and if they are as many, every control is active |
| `ControlFramework.FindingsAddUp` | src/policy_core/compliance/control_framework.py:420-433 | high, medium and low findings add up to all findings of failing latest executions |
| `ControlFramework.FindingsByLevel` | src/policy_core/compliance/control_framework.py:420-433 | the three figures are the numbers of findings of failing latest executions whose control has the risk level "high", the level "medium", and any other text |
| `ControlFramework.FullPercentage` | src/policy_core/compliance/control_framework.py:412-418 | the percentage is in 0..100, and is 100 if and only if there are controls and the latest execution of each passes |
| `ControlFramework.PercentageOfTotal` | src/policy_core/compliance/control_framework.py:416-418 | the percentage times the number of controls is a hundred times the number of passing ones |
| `ControlFramework.FailingIffFailed` | src/policy_core/compliance/control_framework.py:453-459 | for every history an id is listed as failing if and only if its status is `Failed`, and is inactive if and only if no execution is recorded under it |
| `ControlFramework.InactiveIff` | src/policy_core/compliance/control_framework.py:376-381 | after any run a control is inactive if and only if no control whose trimmed id is its id was executed, and always if its own id has white space at an end |
| `Whitespace.StripKeepsMiddle` | src/policy_core/compliance/control_framework.py:118-127 | trimming leaves the text from the first to the last character that is not white space |
| `Whitespace.StripFixes` | src/policy_core/compliance/control_framework.py:118-127 | an id is recorded unchanged exactly when it has no white space at its ends |
| `ViewRefresh.RefreshView` | src/policy_core/core/admin_query_optimizer.py:259-339 | the loop body, with every race, failure and early exit, is one visit of the specification |
| `ViewRefresh.RefreshEach` | src/policy_core/core/admin_query_optimizer.py:259-339 | the loop visits the views in order until a failure, and otherwise its result has one entry per view, true for the refreshed ones |
| `ViewRefresh.RefreshMaterializedViews` | src/policy_core/core/admin_query_optimizer.py:250-344 | the call is an error exactly when the connection cannot be acquired or released or a view fails, and otherwise the result has one entry per view, true exactly for the refreshed ones |
| `ViewRefresh.MovesAreSafe` | src/policy_core/core/admin_query_optimizer.py:322-335 | whatever any backends do, a tracked refresh time is never later than the latest actual refresh plus its bookkeeping delay |
| `ViewRefresh.VisitIsSafe` | src/policy_core/core/admin_query_optimizer.py:261-339 | one visit keeps that invariant, and establishes what its outcome promises about the view's age |
| `ViewRefresh.FateOfVisit` | src/policy_core/core/admin_query_optimizer.py:261-339 | whatever others do: a view is left alone exactly when its row, as read, is at most its interval old at the check; otherwise, or when forced, it is refreshed exactly when the refresh goes through and is recorded, or its count meets another operation |
| `ViewRefresh.VisitRecords` | src/policy_core/core/admin_query_optimizer.py:321-335 | after a refresh that was counted, the row holds the time of the record and the delay since the data was taken, whatever others do |
| `ViewRefresh.LoneVisit` | src/policy_core/core/admin_query_optimizer.py:276-337 | if nobody else moves, a visit changes nothing but the data of its own view, when the refresh goes through, and its row, when the refresh is also counted and recorded |
| `ViewRefresh.CallIsSafe` | src/policy_core/core/admin_query_optimizer.py:258-344 | a whole call, successful or not, keeps the tracking invariant, and time and data only move forward |
| `ViewRefresh.ViewsAreFreshEnough` | src/policy_core/core/admin_query_optimizer.py:258-341 | after any `Ok` call every view has an outcome, and each view not skipped by a race was at most its interval plus the delay old when the call looked at it; a forced call leaves only data taken during the call |
| `ViewRefresh.AgeAtTheEnd` | src/policy_core/core/admin_query_optimizer.py:258-341 | the same, as an age at the end of the call |
| `ViewRefresh.HistoryIsConsistent` | src/policy_core/core/admin_query_optimizer.py:322-335 | over every history of calls, successful or not, and of moves of others, from views just created: a tracked refresh time is never later than the latest actual refresh plus its bookkeeping delay |
| `ViewRefresh.OkCallsKeepPromises` | src/policy_core/core/admin_query_optimizer.py:258-341 | after any `Ok` call of any history every view has an outcome, and in the world it leaves and every later one each view's data is no older than its outcome promises, and its row is tracked accordingly unless its count met another operation |
| `ViewRefresh.RefreshesOnlyDueViews` | src/policy_core/core/admin_query_optimizer.py:261-275 | an undisturbed, unforced call leaves everything as it is if and only if every view is tracked and at most its interval old |
| `ViewRefresh.NextCallIsIdle` | src/policy_core/core/admin_query_optimizer.py:261-339 | after an `Ok` call that met no other operation each view is tracked at most its interval ago, and an undisturbed, unforced call right after it refreshes nothing and changes nothing |
| `ViewRefresh.FailureIsFinal` | src/policy_core/core/admin_query_optimizer.py:343-344 | after a failure no further view is visited |
| `AuditPartitions.AuditLogs.constructor` | alembic/versions/004_add_security_compliance_tables.py:381-407 | the four initial partitions are those of January to April 2025 |
| `AuditPartitions.AuditLogs.CreateMonthlyAuditPartition` | alembic/versions/004_add_security_compliance_tables.py:412-440 | adds the partition of the month after today's unless that month has one, and never creates a range that overlaps |
| `AuditPartitions.InitialNames` | alembic/versions/004_add_security_compliance_tables.py:381-407 | the literal names and bounds of the initial partitions are those the function would give them |
| `AuditPartitions.NextMonth` | alembic/versions/004_add_security_compliance_tables.py:421-424 | truncating today plus one month gives the first of the next month, across year ends and short months |
| `AuditPartitions.InMonthPartition` | alembic/versions/004_add_security_compliance_tables.py:433 | a date lies in a month's half-open range if and only if it is a date of that month |
| `AuditPartitions.MonthsAreDisjoint` | alembic/versions/004_add_security_compliance_tables.py:433 | partitions of different months do not overlap |
| `AuditPartitions.NamesAreInjective` | alembic/versions/004_add_security_compliance_tables.py:422 | different months have different names |
| `AuditPartitions.NameTellsMonth` | alembic/versions/004_add_security_compliance_tables.py:427-430 | the test for the name is a test for the month |
| `AuditPartitions.CreatedPartitions` | alembic/versions/004_add_security_compliance_tables.py:381-440 | after any calls the partitions have the bounds of the initial four months and of the months that follow those in which the function ran |
| `AuditPartitions.OnePartitionPerDate` | alembic/versions/004_add_security_compliance_tables.py:381-440 | in every reachable state a date lies in at most one partition, and in one if and only if its month is an initial one or follows a month in which the function ran |
| `AuditPartitions.CoverageIffEveryMonth` | alembic/versions/004_add_security_compliance_tables.py:412-440 | every date from January 2025 to the end of the month after a given one lies in exactly one partition if and only if the function ran in every month from April 2025 to that one |
| `AuditPartitions.SecondCallIsIdle` | alembic/versions/004_add_security_compliance_tables.py:427-438 | a call changes nothing if and only if the function already ran in that month, or the month after is an initial one |
| `QuoteNumbers.QuoteNumberSequence.GenerateQuoteNumber` | alembic/versions/002_add_users_and_quote_system_tables.py:328-348 | takes the next sequence value and formats it with the year |
| `QuoteNumbers.PaddedValue` | alembic/versions/002_add_users_and_quote_system_tables.py:346 | padding to seven places keeps the leading seven digits of any value from 1000000 on |
| `QuoteNumbers.ParseQuoteNumber` | alembic/versions/002_add_users_and_quote_system_tables.py:345-347 | a quote number has 17 characters, and year and leading seven digits can be read back |
| `QuoteNumbers.CoincideIff` | alembic/versions/002_add_users_and_quote_system_tables.py:345-347 | two quote numbers coincide if and only if their years and leading seven digits do |
| `QuoteNumbers.NextLeading` | alembic/versions/002_add_users_and_quote_system_tables.py:346 | consecutive values spell the same seven digits unless the digits that `LPAD` drops from the first are all nines |
| `QuoteNumbers.DistinctWithinYearIff` | alembic/versions/002_add_users_and_quote_system_tables.py:328-348 | the numbers of a year whose sequence values run from any first to any next value are distinct if and only if: starting below 10000000, they stop there, or right after without having started at 1000000; starting later, there is at most one, or two of which the first drops only nines |
| `QuoteNumbers.TruncatedRepeats` | alembic/versions/002_add_users_and_quote_system_tables.py:346 | every value from 10000000 on spells, in a given year, the number that a smaller value spells in that year |
| `QuoteNumbers.CrossingRepeats` | alembic/versions/002_add_users_and_quote_system_tables.py:346 | from 10000000 on a value and the next give one number in one year if and only if the digits that `LPAD` drops from the first are not all nines |
| `Pagination.FloorDiv` | src/policy_core/api/response_patterns.py:470 | division that rounds down, for both signs of the divisor |
| `Pagination.HasMoreIff` | src/policy_core/api/response_patterns.py:470-471 | the page count is the ceiling of total over limit, and `has_more` holds if and only if page * limit < total |
| `Pagination.InfoTellsPage` | src/policy_core/api/response_patterns.py:470-486 | page, limit, total and first page come back as given; `prev_page` is the page before, exactly for pages after the first; `next_page` is the page after, exactly if `has_more` holds, and never beyond `last_page`; the call fails exactly for a limit of zero with items to divide |
| `Pagination.PagesPartitionItems` | src/policy_core/api/response_patterns.py:470 | every item lies on exactly one page, which is one of those from 1 to the page count |
| `Pagination.PagesAreNotEmpty` | src/policy_core/api/response_patterns.py:470 | every page from 1 to the page count has an item |
| `Pagination.WalkVisitsEveryPage` | src/policy_core/api/response_patterns.py:471-474 | following `next_page` visits every page up to the last, in order, and ends there |
| `Pagination.WalkCoversItemsOnce` | src/policy_core/api/response_patterns.py:470-474 | the pages of the walk from page 1 cover the items 0 to total without gap or overlap |
| `Pagination.PrevUndoesNext` | src/policy_core/api/response_patterns.py:473-474 | going to the next page and back leads to the same page if and only if that page is not before the first |

## Left out

- RunWave: the waits that drive it are a finite list, since the loop may spin forever; the theorems about runs hold for lists of every length.
- RunsAreSafe: the cap bounds the entries of the running dictionary. With a repeated id the task of an overwritten entry goes on unseen and is not counted.
- P95IsOrderStatistic: times are exact reals, and the index `int(n * 0.95)` is the exact product rounded down. Rounding of floating-point sums and quotients is not modelled.
- RunsAreAccounted: holds between the atomic steps of sessions.
- MigrationRoundTrip: the other columns of the new tables take their defaults and are not modelled, nor are `user_addresses`, `user_phones`, the surrogate key of `user_roles`, and foreign keys of further tables on `users`.
- OnlyEmailsCanFail: the email pattern is over ASCII letters, as the bracket expressions of the constraint list them.
- StoredAfterAggregate: amounts are exact reals, so that the rounding of numeric columns is not modelled; `updated_at` is left out; the end of a month window is an input.
- DayRowIsRollUpOfHourRows: the 24 hours and then the day are aggregated over the same events; events that arrive in between are not part of it.
- EventsAreConserved: calls run one at a time and a database call inserts all its rows or none; `InterleavedConservation` says exactly when this extends to interleaved tasks. PostgreSQL's limit on the number of parameters is not modelled.
- ExitDrainsIff: of the table's constraints those on action, resource type and resource id are modelled; the syntax of IP addresses, the reference to `users`, the partition of the timestamp and characters that PostgreSQL cannot store are reasons for the database to fail otherwise. The driver that parses UUIDs is not part of this model; a UUID is taken as 32 hexadecimal digits with up to four hyphens.
- BatchInsertsEvents: a stored row carries a log id and timestamp drawn at conversion, as in the code; the event's own id and timestamp are not stored.
- GenerateComplianceReport: the percentage is exact, and the assessment time is left out.
- ExecuteControl: the library that validates and trims the records is not part of this model; white space is taken as the Unicode property.
- CreateMonthlyAuditPartition: dates are in the calendar of the session's time zone; time zones are not modelled.
- ParseQuoteNumber: for years of four digits.
- Worktrees, model calls, pull requests, registry files, prompts and the one-second pause of the orchestrator: input and output; an agent is its outcome.
- Connecting and warming up the pool, read and admin pools, retries, prepared statements and warning texts: library glue around `acquire`.
- Audit queries and convenience methods, evidence objects, remediation lists and audit hooks of the control framework, `execute_all_controls`: projections of what is modelled.
- Contents, creation and row counts of materialized views, and the dashboards that read them.
- The quote, policy, session and rating tables: schema without behaviour.
- Availability, confidentiality, privacy and security managers, processing integrity and control testing: fixed or random simulated data.
- `run-migrations.py`, caches, configuration, authentication and result mapping: thin wrappers.
