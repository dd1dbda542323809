# Job publishing in the openGauss monitor service

This project is a Dafny model of the job service of the openGauss monitoring
tool (`SysJobServiceImpl`). A *job* is a monitoring query: a SQL text run
against a data source on a cron schedule, whose numeric result columns become
metrics for Prometheus, Zabbix or Nagios. The service does three things:

- it validates and saves new jobs;
- it publishes jobs to data sources and withdraws them again (binding, pausing and resuming them in the scheduler);
- it lists jobs with filters, sorting and paging.

The model keeps the service's own structure:

- **Pure logic is written as functions and lemmas.** This covers the query-text normalisation and duplicate check (`Dedup`), the number recognisers and `Integer.parseInt`/`toString` (`Text`), the cron table and interval bounds (`Cron`), and the job-name suffix maximum (`Naming`).
- **Code that changes things in place stays imperative.**
  - `dealList`, `getColumnList`, `addMap` and `dealOldSysJob` (`Columns`) are methods with loops over arrays and map objects.
  - `addPublish` and `addIsCanUpdate` (`Listing`) are methods that update arrays of jobs.
  - The publishing operations are methods of the class `Service.JobService`. Its fields are the job store, the data-source bindings, the scheduler triggers and the log of dispatched asynchronous tasks.
- **Every method is proved against a specification function.** Examples are `Publish.PublishOnce`, `Schedule.StopAll`, `Insert.InsertSpec` and `Listing.SelectAll`. Lemmas then prove what the service promises about those functions.

Conventions of the model:

- **The surroundings are parameters.**
  - The scheduler's failures are a set `failing` of keys whose Quartz call throws.
  - `getMoreThanOneSource` (whose SQL is not part of this model) is the uninterpreted function `Env.shared`.
  - The probe result of a new job's query, the id generator and the clock are the `Outside` record.
- **Jobs are identified by id** in `List.removeAll`. `SysJob` is not part of this model, so it is an assumption that its `equals` compares ids.
- **Java `int` arithmetic is explicit**: see `Base.Wrap`.

## Model

| member | source | states |
|---|---|---|
| Base.Wrap | monitor-tools/src/main/java/org/opengauss/monitor/service/impl/SysJobServiceImpl.java:746 | a Java `int` result is in range and equals the exact value when that is in range |
| Text.Remove | monitor-tools/src/main/java/org/opengauss/monitor/service/impl/SysJobServiceImpl.java:866-873 | removing a character leaves none of it, keeps every other character and never lengthens the text |
| Text.Normalize | monitor-tools/src/main/java/org/opengauss/monitor/service/impl/SysJobServiceImpl.java:866-873 | the normalised query text contains no space, newline or semicolon |
| Text.NormalizeKeeps | monitor-tools/src/main/java/org/opengauss/monitor/service/impl/SysJobServiceImpl.java:866-873 | every other character is in the normalised text iff it is in the original |
| Text.NormalizeFixpoint | monitor-tools/src/main/java/org/opengauss/monitor/service/impl/SysJobServiceImpl.java:866-873 | a text is its own normal form iff it contains none of the three removed characters |
| Text.NormalizeIdempotent | monitor-tools/src/main/java/org/opengauss/monitor/service/impl/SysJobServiceImpl.java:866-873 | normalising twice is normalising once |
| Text.IsNumber | monitor-tools/src/main/java/org/opengauss/monitor/service/impl/SysJobServiceImpl.java:77 | the whole-string match of `ISNUM`; an accepted text ends in a digit |
| Text.IsScientific | monitor-tools/src/main/java/org/opengauss/monitor/service/impl/SysJobServiceImpl.java:84 | the whole-string match of `KEXUE`; an accepted text ends in a digit |
| Text.NumberComplete | monitor-tools/src/main/java/org/opengauss/monitor/service/impl/SysJobServiceImpl.java:77 | an optional sign, digits and an optional fraction with digits match `ISNUM` |
| Text.ScientificComplete | monitor-tools/src/main/java/org/opengauss/monitor/service/impl/SysJobServiceImpl.java:84 | sign, digits, `E`/`e`, optional sign and digits match `KEXUE` |
| Text.ScientificFractionComplete | monitor-tools/src/main/java/org/opengauss/monitor/service/impl/SysJobServiceImpl.java:84 | the same with a fraction in the mantissa matches `KEXUE` |
| Text.NumberSound | monitor-tools/src/main/java/org/opengauss/monitor/service/impl/SysJobServiceImpl.java:77 | every text `ISNUM` accepts splits into a sign, digits and, optionally, a dot and at least one digit |
| Text.NumberGrammar | monitor-tools/src/main/java/org/opengauss/monitor/service/impl/SysJobServiceImpl.java:77 | `ISNUM` accepts a text if and only if it is in the grammar `(\-\|\+)?\d+(\.\d+)?` |
| Text.MantissaSound | monitor-tools/src/main/java/org/opengauss/monitor/service/impl/SysJobServiceImpl.java:84 | the mantissa of an accepted `KEXUE` text is a sign, digits, and an optional dot with optional digits |
| Text.ExponentSound | monitor-tools/src/main/java/org/opengauss/monitor/service/impl/SysJobServiceImpl.java:84 | the exponent of an accepted `KEXUE` text is a sign and at least one digit |
| Text.ScientificSound | monitor-tools/src/main/java/org/opengauss/monitor/service/impl/SysJobServiceImpl.java:84 | every text `KEXUE` accepts splits into mantissa, `E`/`e` and exponent as the pattern says |
| Text.ScientificGrammar | monitor-tools/src/main/java/org/opengauss/monitor/service/impl/SysJobServiceImpl.java:84 | `KEXUE` accepts a text if and only if it is in the grammar `[+-]?\d+\.?\d*[Ee][+-]?\d+` |
| Text.MetricTextStart | monitor-tools/src/main/java/org/opengauss/monitor/service/impl/SysJobServiceImpl.java:77-84 | any text matching either pattern is non-empty and starts with a digit or a sign |
| Text.IntToString | monitor-tools/src/main/java/org/opengauss/monitor/service/impl/SysJobServiceImpl.java:746-749 | `Integer.toString`: a non-empty text that starts with `-` exactly for a negative number |
| Text.ParseInt | monitor-tools/src/main/java/org/opengauss/monitor/service/impl/SysJobServiceImpl.java:804-815 | `Integer.parseInt`: an optional sign and digits whose value fits an `int`; any result is an `int` |
| Text.ParseIntToString | monitor-tools/src/main/java/org/opengauss/monitor/service/impl/SysJobServiceImpl.java:746-748 | `Integer.parseInt` of a printed `int` gives it back, so the suffix appended to a new name reads back as that number |
| Text.NodeLabelNotMetric | monitor-tools/src/main/java/org/opengauss/monitor/service/impl/SysJobServiceImpl.java:1005-1009 | the instance label `"node" + i` never matches either number pattern |
| Cron.GetCron | monitor-tools/src/main/java/org/opengauss/monitor/service/impl/SysJobServiceImpl.java:1011-1032 | the cron text of an interval and unit, empty exactly for a unit outside the table |
| Cron.CheckNum | monitor-tools/src/main/java/org/opengauss/monitor/service/impl/SysJobServiceImpl.java:830-848 | the assertion message of `checkNum`; a message comes only for a unit with a bound and an interval below 0 or above it |
| Cron.CronIntervalRoundTrip | monitor-tools/src/main/java/org/opengauss/monitor/service/impl/SysJobServiceImpl.java:1011-1032 | for seconds, minutes and hours the interval `num` sits in its own field of the cron text and reads back unchanged |
| Cron.CronFixedUnits | monitor-tools/src/main/java/org/opengauss/monitor/service/impl/SysJobServiceImpl.java:1011-1032 | day, week, month and year give fixed texts whatever `num` is; the empty text comes exactly from an unknown unit |
| Cron.CheckNumAdmits | monitor-tools/src/main/java/org/opengauss/monitor/service/impl/SysJobServiceImpl.java:830-855 | `checkNum` accepts exactly `0 <= num <=` the unit's bound (59, 59, 23, 30, 4, 12) and any unit without a bound |
| Dedup.PlatformTargets | monitor-tools/src/main/java/org/opengauss/monitor/service/impl/SysJobServiceImpl.java:902-935 | the normalised texts of exactly the jobs of one platform |
| Dedup.CheckTarget | monitor-tools/src/main/java/org/opengauss/monitor/service/impl/SysJobServiceImpl.java:857-900 | a non-empty SQL-check message wins; otherwise the result is empty or the platform's duplicate message |
| Dedup.CheckTargetDuplicate | monitor-tools/src/main/java/org/opengauss/monitor/service/impl/SysJobServiceImpl.java:857-900 | the duplicate message comes iff the normalised text clashes with a job of the compared platform and the job is new or its stored text differs (both directions) |
| Dedup.CreateDuplicateRefused | monitor-tools/src/main/java/org/opengauss/monitor/service/impl/SysJobServiceImpl.java:857-900 | creating a job whose normalised text equals a same-platform job's is refused |
| Dedup.UnchangedEditAccepted | monitor-tools/src/main/java/org/opengauss/monitor/service/impl/SysJobServiceImpl.java:857-900 | editing a job without changing its normalised text is accepted |
| Dedup.CheckTargetRespectsNormalization | monitor-tools/src/main/java/org/opengauss/monitor/service/impl/SysJobServiceImpl.java:857-900 | two texts with the same normal form get the same verdict |
| Naming.DealMax | monitor-tools/src/main/java/org/opengauss/monitor/service/impl/SysJobServiceImpl.java:804-815 | the largest name suffix of the table, 0 for an empty table |
| Naming.NewName | monitor-tools/src/main/java/org/opengauss/monitor/service/impl/SysJobServiceImpl.java:746-749 | the name a created job gets: the requested name followed by `dealMax + 1`, so it starts with the requested name and is longer |
| Naming.NewNameIsFresh | monitor-tools/src/main/java/org/opengauss/monitor/service/impl/SysJobServiceImpl.java:746-749 | when the prefix has exactly three characters and `max` is below `Integer.MAX_VALUE`, a created job's name `prefix + (max + 1)` differs from every name in the table |
| Naming.NewNameStaysValid | monitor-tools/src/main/java/org/opengauss/monitor/service/impl/SysJobServiceImpl.java:746-749 | when the prefix has exactly three characters, the new name again ends in an `int`, its suffix is `max + 1` with wrap-around, and the table stays well-formed |
| Naming.ShortPrefixCollides | monitor-tools/src/main/java/org/opengauss/monitor/service/impl/SysJobServiceImpl.java:746-749 | with a two-character prefix the new name can already be taken: for the table `xyz12`, `ab13` the prefix `ab` gives `ab13` |
| Naming.LongPrefixBreaksTable | monitor-tools/src/main/java/org/opengauss/monitor/service/impl/SysJobServiceImpl.java:746-749 | with a longer prefix whose fourth character cannot start an `int` (such as `cpu_usage`), the saved name makes the table unreadable for `dealMax` |
| Columns.NormalizeRows | monitor-tools/src/main/java/org/opengauss/monitor/service/impl/SysJobServiceImpl.java:443-458 | `dealList` on values: every row normalised, one result row per input row |
| Columns.NormalizeValueFilled | monitor-tools/src/main/java/org/opengauss/monitor/service/impl/SysJobServiceImpl.java:975-988 | a normalised value is never empty and never starts with `.`; other present values are unchanged |
| Columns.EmptyCellValue | monitor-tools/src/main/java/org/opengauss/monitor/service/impl/SysJobServiceImpl.java:443-458 | an empty `toastsize` cell (any case) becomes the metric `"0"`, any other empty cell the non-metric `"default"` |
| Columns.BareFractionBecomesMetric | monitor-tools/src/main/java/org/opengauss/monitor/service/impl/SysJobServiceImpl.java:443-458 | a value `.digits` becomes `0.digits`, which is a metric |
| Columns.NormalizeRowsFilled | monitor-tools/src/main/java/org/opengauss/monitor/service/impl/SysJobServiceImpl.java:443-458 | after normalisation no cell is empty and every row keeps its length and keys |
| Columns.NormalizeRowsIdempotent | monitor-tools/src/main/java/org/opengauss/monitor/service/impl/SysJobServiceImpl.java:443-458 | normalising the rows twice is normalising them once |
| Columns.DealList | monitor-tools/src/main/java/org/opengauss/monitor/service/impl/SysJobServiceImpl.java:443-458 | the array of rows is normalised in place |
| Columns.RowIds | monitor-tools/src/main/java/org/opengauss/monitor/service/impl/SysJobServiceImpl.java:989-1002 | the inner loop yields the identities of one row's metric cells |
| Columns.GetColumnList | monitor-tools/src/main/java/org/opengauss/monitor/service/impl/SysJobServiceImpl.java:973-1003 | the rows are normalised in place and the result is the column identities of the normalised rows |
| Columns.ColumnIds | monitor-tools/src/main/java/org/opengauss/monitor/service/impl/SysJobServiceImpl.java:989-1002 | the column identities of all rows, at most one per cell |
| Columns.RowColumnIdsOrder | monitor-tools/src/main/java/org/opengauss/monitor/service/impl/SysJobServiceImpl.java:989-1002 | the identities of one row follow its cells in order: those of a split row are those of its parts |
| Columns.ColumnIdsOrder | monitor-tools/src/main/java/org/opengauss/monitor/service/impl/SysJobServiceImpl.java:989-1002 | the identities come row after row: those of a split list of rows are those of its parts, in order |
| Columns.ColumnIdsUnits | monitor-tools/src/main/java/org/opengauss/monitor/service/impl/SysJobServiceImpl.java:989-1002 | a single row gives its own identities, and a single cell its identity exactly when it is a metric cell |
| Columns.ColumnIdsCount | monitor-tools/src/main/java/org/opengauss/monitor/service/impl/SysJobServiceImpl.java:989-1002 | one identity per metric cell, so at most one per cell |
| Columns.ColumnIdsMembership | monitor-tools/src/main/java/org/opengauss/monitor/service/impl/SysJobServiceImpl.java:989-1002 | an identity is listed iff some metric cell has that key |
| Columns.InstanceCellAddsNothing | monitor-tools/src/main/java/org/opengauss/monitor/service/impl/SysJobServiceImpl.java:1005-1009 | adding the `instance` cell of `dealMetric` adds no column |
| Columns.PutAll | monitor-tools/src/main/java/org/opengauss/monitor/service/impl/SysJobServiceImpl.java:427-441 | `Map.put` of each pair in turn: old keys stay and every put key is present |
| Columns.PutAllKeys | monitor-tools/src/main/java/org/opengauss/monitor/service/impl/SysJobServiceImpl.java:427-441 | a key is in the map after the puts iff it was before or some put carries it |
| Columns.PutAllLast | monitor-tools/src/main/java/org/opengauss/monitor/service/impl/SysJobServiceImpl.java:427-441 | the last put of a key decides its value |
| Columns.RowPairsMatchColumns | monitor-tools/src/main/java/org/opengauss/monitor/service/impl/SysJobServiceImpl.java:427-441 | row `i`'s entry keys are its column identities followed by the connection name and `_i` |
| Columns.AddRow | monitor-tools/src/main/java/org/opengauss/monitor/service/impl/SysJobServiceImpl.java:427-441 | one row's puts into `nagiosMap`, and `all` holds the old entries overlaid with `nagiosMap` once any put happened |
| Columns.AddMap | monitor-tools/src/main/java/org/opengauss/monitor/service/impl/SysJobServiceImpl.java:427-441 | `nagiosMap` receives every row's pairs in order; `all` is its old content overlaid with the final `nagiosMap` |
| Columns.DealOldSysJob | monitor-tools/src/main/java/org/opengauss/monitor/service/impl/SysJobServiceImpl.java:548-564 | the loop yields the registry keys of the jobs, job by job |
| Columns.RegistryKeys | monitor-tools/src/main/java/org/opengauss/monitor/service/impl/SysJobServiceImpl.java:548-564 | the registry keys of a list of jobs; each one ends with the connection name |
| Columns.RegistryKeysCount | monitor-tools/src/main/java/org/opengauss/monitor/service/impl/SysJobServiceImpl.java:548-564 | one key per column of each job |
| Columns.RegistryKeysMembership | monitor-tools/src/main/java/org/opengauss/monitor/service/impl/SysJobServiceImpl.java:548-564 | a key is listed iff it is some job's column with the connection name appended |
| Selection.SelectBatch | monitor-tools/src/main/java/org/opengauss/monitor/service/impl/SysJobServiceImpl.java:369-370 | the stored jobs whose ids are requested, each once; unknown ids are skipped |
| Selection.RemoveAllById | monitor-tools/src/main/java/org/opengauss/monitor/service/impl/SysJobServiceImpl.java:371 | `removeAll`: exactly the jobs whose id is not removed |
| Selection.OfPlatform | monitor-tools/src/main/java/org/opengauss/monitor/service/impl/SysJobServiceImpl.java:381-384 | exactly the jobs of the platform; none when no job has it |
| Selection.RemoveIds | monitor-tools/src/main/java/org/opengauss/monitor/service/impl/SysJobServiceImpl.java:500 | exactly the ids not deleted |
| Selection.RemoveIdsIdempotent | monitor-tools/src/main/java/org/opengauss/monitor/service/impl/SysJobServiceImpl.java:500 | removing the same ids twice is removing them once |
| Selection.RemoveIdsKeepsOrder | monitor-tools/src/main/java/org/opengauss/monitor/service/impl/SysJobServiceImpl.java:500 | the remaining ids keep their relative order |
| Selection.ConfigById | monitor-tools/src/main/java/org/opengauss/monitor/service/impl/SysJobServiceImpl.java:361-364 | a configuration of the data source exists iff one is found |
| Schedule.Register | monitor-tools/src/main/java/org/opengauss/monitor/service/impl/SysJobServiceImpl.java:1118-1131 | `createMonitorJob` installs the job's trigger, suspended iff the job is paused |
| Schedule.UpdateScheduler | monitor-tools/src/main/java/org/opengauss/monitor/service/impl/SysJobServiceImpl.java:1118-1131 | `updateSchedulerJob`: only the triggers change; records, bindings and log stay |
| Schedule.UpdateSchedulerReplaces | monitor-tools/src/main/java/org/opengauss/monitor/service/impl/SysJobServiceImpl.java:1118-1131 | rescheduling in the job's own group leaves its trigger, suspended iff paused, and touches no other key |
| Schedule.UpdateSchedulerMoves | monitor-tools/src/main/java/org/opengauss/monitor/service/impl/SysJobServiceImpl.java:1118-1131 | rescheduling from another group deletes the old trigger unless that deletion fails, and installs the new one |
| Schedule.PauseOne | monitor-tools/src/main/java/org/opengauss/monitor/service/impl/SysJobServiceImpl.java:568-575 | `pauseJob`: a stored job ends paused, and no record, trigger key, binding or task appears or disappears |
| Schedule.ResumeOne | monitor-tools/src/main/java/org/opengauss/monitor/service/impl/SysJobServiceImpl.java:579-585 | `resumeJob`: no record, trigger key, binding or task appears or disappears, and only the trigger (id, `DEFAULT`) can change |
| Schedule.StopAll | monitor-tools/src/main/java/org/opengauss/monitor/service/impl/SysJobServiceImpl.java:533-546 | `stopTimeTask`: bindings and log stay, and no record or trigger key appears or disappears |
| Schedule.StopAllFrame | monitor-tools/src/main/java/org/opengauss/monitor/service/impl/SysJobServiceImpl.java:533-546 | stopping touches only the listed jobs' records and triggers and no binding or log |
| Schedule.StopAllPauses | monitor-tools/src/main/java/org/opengauss/monitor/service/impl/SysJobServiceImpl.java:533-546 | with no failure every listed job ends paused and every existing trigger of the list suspended |
| Schedule.StopAllHalts | monitor-tools/src/main/java/org/opengauss/monitor/service/impl/SysJobServiceImpl.java:533-546 | the first failing scheduler call ends the loop: the later jobs are untouched |
| Schedule.StartAll | monitor-tools/src/main/java/org/opengauss/monitor/service/impl/SysJobServiceImpl.java:516-531 | `startTimeTask`: bindings stay, no record or trigger key appears or disappears, and at most one task per job is logged |
| Schedule.StartAllHalts | monitor-tools/src/main/java/org/opengauss/monitor/service/impl/SysJobServiceImpl.java:516-531 | the first failing resume ends the loop: the later jobs are untouched, because the catch is outside it |
| Schedule.StartAllLog | monitor-tools/src/main/java/org/opengauss/monitor/service/impl/SysJobServiceImpl.java:516-531 | with no failure starting logs one `executeOne` task per job, in order |
| Schedule.StartAllFrame | monitor-tools/src/main/java/org/opengauss/monitor/service/impl/SysJobServiceImpl.java:516-531 | starting touches only the listed records and triggers of group `DEFAULT` |
| Schedule.StartAllStarts | monitor-tools/src/main/java/org/opengauss/monitor/service/impl/SysJobServiceImpl.java:516-531 | with no failure every listed job ends `NORMAL` and its `DEFAULT` trigger running |
| Schedule.ResumeMissesOwnGroup | monitor-tools/src/main/java/org/opengauss/monitor/service/impl/SysJobServiceImpl.java:568-585 | pausing then resuming a job outside group `DEFAULT` leaves its own trigger suspended |
| Schedule.StopAllKeyed | monitor-tools/src/main/java/org/opengauss/monitor/service/impl/SysJobServiceImpl.java:533-546 | stopping keeps every stored job under its own id |
| Schedule.StartAllKeyed | monitor-tools/src/main/java/org/opengauss/monitor/service/impl/SysJobServiceImpl.java:516-531 | starting keeps every stored job under its own id |
| Publish.PublishOnce | monitor-tools/src/main/java/org/opengauss/monitor/service/impl/SysJobServiceImpl.java:357-402 | an unknown data source gives `没有该主机信息` and changes nothing; otherwise success, and the binding becomes exactly the requested ids |
| Publish.WithdrawnIds | monitor-tools/src/main/java/org/opengauss/monitor/service/impl/SysJobServiceImpl.java:367-371 | the withdrawn jobs are exactly the stored jobs bound before and not requested now |
| Publish.StartedJobs | monitor-tools/src/main/java/org/opengauss/monitor/service/impl/SysJobServiceImpl.java:380-389 | the started jobs are those of the list or shared, minus the list's Nagios jobs; a Nagios job starts only if shared |
| Publish.NoNagiosAfterFirstSource | monitor-tools/src/main/java/org/opengauss/monitor/service/impl/SysJobServiceImpl.java:341-343 | when no shared job is a Nagios job, the list handed to the next data source has no Nagios job and dispatches no Nagios task |
| Publish.PublishRebinds | monitor-tools/src/main/java/org/opengauss/monitor/service/impl/SysJobServiceImpl.java:375 | publishing replaces the source's binding with the requested ids and keeps the stored jobs |
| Publish.WithdrawnStayPaused | monitor-tools/src/main/java/org/opengauss/monitor/service/impl/SysJobServiceImpl.java:371-373 | a withdrawn job that is not restarted ends paused |
| Publish.PublishKeepsOthers | monitor-tools/src/main/java/org/opengauss/monitor/service/impl/SysJobServiceImpl.java:371-389 | a job neither withdrawn nor started is unchanged |
| Publish.PublishLog | monitor-tools/src/main/java/org/opengauss/monitor/service/impl/SysJobServiceImpl.java:373-400 | the log grows by the registry removal, one start per started job, then the Zabbix and Nagios tasks of the requested list |
| Publish.PauseUnbinds | monitor-tools/src/main/java/org/opengauss/monitor/service/impl/SysJobServiceImpl.java:495-504 | withdrawing removes the requested ids from an existing non-empty binding and leaves the others |
| Publish.PauseStepPauses | monitor-tools/src/main/java/org/opengauss/monitor/service/impl/SysJobServiceImpl.java:489-490 | every requested stored job that is not shared ends paused |
| Publish.PauseRestartsShared | monitor-tools/src/main/java/org/opengauss/monitor/service/impl/SysJobServiceImpl.java:493-506 | the log records the registry removal and a start per shared job; the shared jobs end `NORMAL` |
| Publish.PausePublishOnce | monitor-tools/src/main/java/org/opengauss/monitor/service/impl/SysJobServiceImpl.java:482-508 | `singlePublishPause`: succeeds iff the data source is configured, a failure changes nothing, and no record appears or disappears |
| Publish.PauseOnceBindings | monitor-tools/src/main/java/org/opengauss/monitor/service/impl/SysJobServiceImpl.java:482-508 | one withdrawal changes the bindings only for a configured data source, and then by removing the ids |
| Publish.PauseEach | monitor-tools/src/main/java/org/opengauss/monitor/service/impl/SysJobServiceImpl.java:651-669 | the loop of `batchPublishPause` over the data sources; no record appears or disappears |
| Publish.PauseEachBindings | monitor-tools/src/main/java/org/opengauss/monitor/service/impl/SysJobServiceImpl.java:651-669 | every listed, configured, bound data source ends bound to none of the ids, and other sources keep their bindings |
| Publish.BatchPauseSpec | monitor-tools/src/main/java/org/opengauss/monitor/service/impl/SysJobServiceImpl.java:651-669 | `batchPublishPause`: succeeds iff both lists are non-empty, and a failure changes nothing |
| Publish.BatchPauseUnbinds | monitor-tools/src/main/java/org/opengauss/monitor/service/impl/SysJobServiceImpl.java:651-669 | afterwards every listed, configured, bound data source is bound to none of the ids, and no other binding changes |
| Publish.UnbindRebound | monitor-tools/src/main/java/org/opengauss/monitor/service/impl/SysJobServiceImpl.java:495-504 | removing the ids just bound empties the binding |
| Publish.PublishThenPauseUnbinds | monitor-tools/src/main/java/org/opengauss/monitor/service/impl/SysJobServiceImpl.java:357-507 | publishing then withdrawing the same ids leaves the source bound to nothing |
| Publish.PublishEach | monitor-tools/src/main/java/org/opengauss/monitor/service/impl/SysJobServiceImpl.java:334-345 | the loop of `batchPublish` over the data sources with one shared list; no record appears or disappears |
| Publish.BatchPublishSpec | monitor-tools/src/main/java/org/opengauss/monitor/service/impl/SysJobServiceImpl.java:312-345 | `batchPublish`: empty lists are refused, and any reply but success leaves the state unchanged |
| Publish.PublishEachUnknown | monitor-tools/src/main/java/org/opengauss/monitor/service/impl/SysJobServiceImpl.java:341-343 | unknown data sources leave the state and the shared list unchanged |
| Publish.BatchPublishIgnoresUnknown | monitor-tools/src/main/java/org/opengauss/monitor/service/impl/SysJobServiceImpl.java:341-344 | `batchPublish` still reports success when every data source is unknown |
| Publish.DeleteOne | monitor-tools/src/main/java/org/opengauss/monitor/service/impl/SysJobServiceImpl.java:589-601 | `deleteTask`: the record is gone, it reports whether there was one, and bindings and log stay |
| Publish.DeleteEach | monitor-tools/src/main/java/org/opengauss/monitor/service/impl/SysJobServiceImpl.java:605-617 | `deleteTaskByIds`: bindings stay and no record or trigger appears |
| Publish.DeleteEachEffects | monitor-tools/src/main/java/org/opengauss/monitor/service/impl/SysJobServiceImpl.java:605-617 | deleting leaves the bindings, removes the listed ids when it completes, and keeps every other job |
| Publish.DuplicateIdAborts | monitor-tools/src/main/java/org/opengauss/monitor/service/impl/SysJobServiceImpl.java:605-617 | a repeated id makes the second delete fail, so the loop stops |
| Insert.CheckConfig | monitor-tools/src/main/java/org/opengauss/monitor/service/impl/SysJobServiceImpl.java:779-791 | a message comes iff the group is not the system group and the platform's Zabbix or Nagios configuration is missing |
| Insert.PromConfig | monitor-tools/src/main/java/org/opengauss/monitor/service/impl/SysJobServiceImpl.java:793-802 | a Prometheus configuration of the job's data source, iff one exists |
| Insert.DealSysJob | monitor-tools/src/main/java/org/opengauss/monitor/service/impl/SysJobServiceImpl.java:941-971 | the saved job: new id on create, paused, bound to the configuration, cleaned text, derived cron and columns, timestamps outside the system group |
| Insert.Decide | monitor-tools/src/main/java/org/opengauss/monitor/service/impl/SysJobServiceImpl.java:729-769 | the ending of `insertTask`: `modifyDefault` exactly for an edit in the system group, and a saved job is paused under its data source |
| Insert.InsertSpec | monitor-tools/src/main/java/org/opengauss/monitor/service/impl/SysJobServiceImpl.java:729-777 | `insertTask` on the state: the bindings never change |
| Insert.ModifyDefault | monitor-tools/src/main/java/org/opengauss/monitor/service/impl/SysJobServiceImpl.java:817-823 | an interval out of bounds fails; otherwise the stored job gets the new cron text and a trigger |
| Insert.SystemEditModifies | monitor-tools/src/main/java/org/opengauss/monitor/service/impl/SysJobServiceImpl.java:730-733 | editing a job of the system group (any case) only modifies its schedule |
| Insert.InvalidTableThrows | monitor-tools/src/main/java/org/opengauss/monitor/service/impl/SysJobServiceImpl.java:730-746 | the insert ends with `dealMax`'s exception iff the checks before `selectJobAll` pass and a stored name cannot be parsed |
| Insert.SavedIffChecksPass | monitor-tools/src/main/java/org/opengauss/monitor/service/impl/SysJobServiceImpl.java:730-769 | a job is saved iff every check passes, in the source's order, including a table whose names `dealMax` can read |
| Insert.EmptyProbe | monitor-tools/src/main/java/org/opengauss/monitor/service/impl/SysJobServiceImpl.java:767-769 | an empty probe is refused as "no metric" only when `isFalse` is set and false |
| Insert.SavedJob | monitor-tools/src/main/java/org/opengauss/monitor/service/impl/SysJobServiceImpl.java:746-771 | a saved job has the new name on create, the new id, status paused, the derived cron and columns, and passed the duplicate check |
| Insert.CreatedNameIsNew | monitor-tools/src/main/java/org/opengauss/monitor/service/impl/SysJobServiceImpl.java:746-749 | when the requested name has exactly three characters and `max` is below `Integer.MAX_VALUE`, a created job's name is not already in the table |
| Insert.InsertEffects | monitor-tools/src/main/java/org/opengauss/monitor/service/impl/SysJobServiceImpl.java:729-777 | a rejection, the exception of `dealMax` or an empty probe changes nothing, and only `dealMax`'s exception gives no reply; a save stores the job with a suspended trigger and success |
| Listing.Filter | monitor-tools/src/main/java/org/opengauss/monitor/service/impl/SysJobServiceImpl.java:236-269 | `filter`: the jobs that pass the query, each one from the input |
| Listing.JoinParts | monitor-tools/src/main/java/org/opengauss/monitor/service/impl/SysJobServiceImpl.java:236-271 | splitting at commas and joining again gives the text back |
| Listing.DropTrailingEmpty | monitor-tools/src/main/java/org/opengauss/monitor/service/impl/SysJobServiceImpl.java:236-271 | `split(",")` drops exactly the trailing empty parts |
| Listing.Where | monitor-tools/src/main/java/org/opengauss/monitor/service/impl/SysJobServiceImpl.java:236-271 | exactly the jobs that pass the test, in order |
| Listing.FilterLastWins | monitor-tools/src/main/java/org/opengauss/monitor/service/impl/SysJobServiceImpl.java:236-271 | a job is listed iff it passes the last active filter of the query (window, then groups, then platforms) |
| Listing.WindowOverrides | monitor-tools/src/main/java/org/opengauss/monitor/service/impl/SysJobServiceImpl.java:236-271 | with a time window the platform and group filters have no effect |
| Listing.SortByTimeDesc | monitor-tools/src/main/java/org/opengauss/monitor/service/impl/SysJobServiceImpl.java:299-302 | the list sorted latest first and a permutation of the input |
| Listing.InsertByTime | monitor-tools/src/main/java/org/opengauss/monitor/service/impl/SysJobServiceImpl.java:299-302 | placing one job keeps the order and adds exactly that job |
| Listing.Paginate | monitor-tools/src/main/java/org/opengauss/monitor/service/impl/SysJobServiceImpl.java:157-161 | the page fails exactly when the `int` skip or the size is negative, and holds at most `size` jobs |
| Listing.PageContents | monitor-tools/src/main/java/org/opengauss/monitor/service/impl/SysJobServiceImpl.java:157-161 | without overflow page `page` is the `size` jobs from `(page - 1) * size` on, or those left |
| Listing.PagesCover | monitor-tools/src/main/java/org/opengauss/monitor/service/impl/SysJobServiceImpl.java:157-161 | every job appears on page `k / size + 1` at position `k % size` |
| Listing.PublishFlags | monitor-tools/src/main/java/org/opengauss/monitor/service/impl/SysJobServiceImpl.java:213-229 | with a queried data source each job's flag says whether that source binds it; only the flag changes |
| Listing.AddPublish | monitor-tools/src/main/java/org/opengauss/monitor/service/impl/SysJobServiceImpl.java:213-229 | the array gets those flags in place |
| Listing.MarkCanUpdate | monitor-tools/src/main/java/org/opengauss/monitor/service/impl/SysJobServiceImpl.java:178-205 | a job can be updated iff its id is not published; an unknown data source is cleared |
| Listing.UpdateFlags | monitor-tools/src/main/java/org/opengauss/monitor/service/impl/SysJobServiceImpl.java:178-205 | every job gets those two fields and nothing else changes |
| Listing.AddIsCanUpdate | monitor-tools/src/main/java/org/opengauss/monitor/service/impl/SysJobServiceImpl.java:178-205 | the array gets those fields in place |
| Listing.SelectAll | monitor-tools/src/main/java/org/opengauss/monitor/service/impl/SysJobServiceImpl.java:142-166 | the listing fails only on the paged path with a negative skip or size; the total is at most the number of jobs and bounds the page |
| Listing.SelectAllJob | monitor-tools/src/main/java/org/opengauss/monitor/service/impl/SysJobServiceImpl.java:142-166 | the method yields the specified total and page |
| Service.JobService.PauseJob | monitor-tools/src/main/java/org/opengauss/monitor/service/impl/SysJobServiceImpl.java:568-575 | stores the job paused, then suspends its own key unless that call fails |
| Service.JobService.ResumeJob | monitor-tools/src/main/java/org/opengauss/monitor/service/impl/SysJobServiceImpl.java:579-585 | stores the job, then resumes key (id, `DEFAULT`) unless that call fails |
| Service.JobService.StopTimeTask | monitor-tools/src/main/java/org/opengauss/monitor/service/impl/SysJobServiceImpl.java:533-546 | the loop of pauses stops at the first failure |
| Service.JobService.StartTimeTask | monitor-tools/src/main/java/org/opengauss/monitor/service/impl/SysJobServiceImpl.java:516-531 | the loop of starts stops at the first failure |
| Service.JobService.SinglePublish | monitor-tools/src/main/java/org/opengauss/monitor/service/impl/SysJobServiceImpl.java:357-402 | the new state, the caller's updated list and the reply are those of `Publish.PublishOnce` |
| Service.JobService.WithdrawJobs | monitor-tools/src/main/java/org/opengauss/monitor/service/impl/SysJobServiceImpl.java:367-378 | the withdrawn jobs are stopped, the binding saved and their registry keys dispatched |
| Service.JobService.DispatchPlatformTasks | monitor-tools/src/main/java/org/opengauss/monitor/service/impl/SysJobServiceImpl.java:391-400 | the Zabbix and Nagios tasks are appended to the log |
| Service.JobService.BatchPublish | monitor-tools/src/main/java/org/opengauss/monitor/service/impl/SysJobServiceImpl.java:312-345 | the state and reply are those of the batch specification, with the checks for missing Zabbix or Nagios configuration |
| Service.JobService.PublishSources | monitor-tools/src/main/java/org/opengauss/monitor/service/impl/SysJobServiceImpl.java:341-343 | the loop over the data sources shares one list between the calls |
| Service.JobService.SinglePublishPause | monitor-tools/src/main/java/org/opengauss/monitor/service/impl/SysJobServiceImpl.java:482-507 | the state and reply are those of `Publish.PausePublishOnce` |
| Service.JobService.BatchPublishPause | monitor-tools/src/main/java/org/opengauss/monitor/service/impl/SysJobServiceImpl.java:651-668 | the state and reply are those of the batch withdrawal |
| Service.JobService.DeleteTask | monitor-tools/src/main/java/org/opengauss/monitor/service/impl/SysJobServiceImpl.java:589-601 | deletes a stored job and its trigger, reporting whether it was stored |
| Service.JobService.DealExec | monitor-tools/src/main/java/org/opengauss/monitor/service/impl/SysJobServiceImpl.java:619-630 | logs a registry removal for each configuration with a connection name |
| Service.JobService.DeleteTaskByIds | monitor-tools/src/main/java/org/opengauss/monitor/service/impl/SysJobServiceImpl.java:605-617 | deletes the jobs in order and stops at the first id with no stored job, where the source throws |
| Service.JobService.UpdateSchedulerJob | monitor-tools/src/main/java/org/opengauss/monitor/service/impl/SysJobServiceImpl.java:1118-1131 | the scheduler state becomes `Schedule.UpdateScheduler` |
| Service.JobService.CreateMonitorJob | monitor-tools/src/main/java/org/opengauss/monitor/service/impl/SysJobServiceImpl.java:774 | installs the job's trigger as `Schedule.Register` |
| Service.JobService.ModifyDefault | monitor-tools/src/main/java/org/opengauss/monitor/service/impl/SysJobServiceImpl.java:817-823 | the state and reply are those of `Insert.ModifyDefault` |
| Service.JobService.InsertTask | monitor-tools/src/main/java/org/opengauss/monitor/service/impl/SysJobServiceImpl.java:729-777 | the state and reply are those of `Insert.InsertSpec` |

## Left out

- `init` and `start`: the startup reload and the manual one-off run are Quartz and Spring plumbing.
- `@Transactional` rollback is not modelled: every change made before an exception stays. This differs from the source where an exception leaves a transactional method called from outside the service:
  - `Publish.DeleteEach` and `Service.JobService.DeleteTaskByIds`: an id with no stored job ends the source's `deleteTaskByIds` with a null dereference. That rolls back the record deletions of the earlier ids. The model keeps them. The scheduler deletions and the dispatched tasks are outside the database transaction and survive in both.
  - `Service.JobService.PauseJob` and `Service.JobService.ResumeJob`: when the scheduler call throws, the source rolls back the stored status. The model keeps it. Inside `stopTimeTask` and `startTimeTask` the calls do not go through Spring's proxy, so those loops behave as modelled.
- Mapper behaviour is assumed, because the SQL is not part of this model:
  - `updateJob` overwrites the whole stored record of the job's id (`Schedule.Persist`).
  - `deleteJobByIds` succeeds exactly when the row exists (`Publish.DeleteOne`, `Publish.DeleteEach`).
- `MonitorTaskUtils.createMonitorJob` is not part of this model. It is taken to install the key (id, group) in the state that matches the job's status.
- JDBC: `executeSql`, `getDataSource` and `getJdbcTemplate`. The probe result is an input, either rows or the exception message.
- The effects of the asynchronous tasks: `removeRegistry`, `recordZabbix`, `recordNagios`, `executeNagios` and `executeOne`. Each dispatch is only a tagged entry in the log.
- `executeZabbix`, `startNagios` and `publishNagios`: concurrency, `Thread.sleep` and the external Zabbix and Nagios services.
- Date handling in `filter` and `dealSysJob`.
  - The parsed creation window is the value `Listing.Window`: absent, unparsable, or a pair of ordered timestamps. An unparsable window is inactive.
  - The clock and the `MonitorFlake` id generator are fields of `Insert.Outside`.
- Foreign code: `SqlUtil.checkDql` (its message is an input), `Base64.decode` of the password, `HandleUtils.getMap` and the `AssertUtil` internals. An exception raised by `checkNum` becomes a failure reply.
- `Cron.CheckNum`: `AssertUtil.isTrue(cond, msg)` is not part of this model. It is read as "throw `msg` when `cond` holds". The evidence is that every condition describes the rejected case and every message the admitted one: `num < 0 || num > 59` comes with "时间间隔应大于0小于等于59" ("the interval should be greater than 0 and at most 59"). `Cron.CheckNumAdmits` and every `Insert` decision depend on this reading.
- `getMoreThanOneSource` and the other mapper SQL: the shared jobs come from the function `Env.shared`.
- `selectBatchJobByIds` returns the jobs in the order their ids first appear. The SQL order is not visible.
- `insertJob` stores the job under its id, as an upsert.
- `selectJobAll` is the parameter `table` of `InsertTask`.
- The texts of the platform constants (`ConmmonShare`) are the function `platformName`. The system group name is the parameter `systemGroup`.
- Response wrapping (`MonitorResult`, `ResponseVO`, `dealMap`/`MFilter`): only the reply kind and its message are kept.
- `getDefaultTarget`, `selectGroup`, `checkJobIds`, `deleteRelation` and `updateTask`: listing and editing endpoints outside the publishing logic.
- `dealMetric` is dropped from the column derivation. `Columns.InstanceCellAddsNothing` and `Text.NodeLabelNotMetric` show that it adds no column.
- Null jobs, null lists and null ids are not modelled. A missing `dataSourceId` and a missing `isFalse` are `Option`s.
- `Text.EqualsIgnoreCase`: folds ASCII letters only, not the Unicode case mapping of `equalsIgnoreCase`.
- `Text.IsBlank`: treats a fixed list of whitespace characters as blank, not every Unicode space character.
- `Naming.DealMax`: requires every name to be at least three characters long and followed by an `int`. On other tables the source throws. `insertTask` reads the table only after `checkConfig`, and there the model ends in `Insert.Throw` with the reply `Publish.Thrown` (`Insert.InvalidTableThrows`).
- `Text.ParseInt`: accepts ASCII digits only. `Integer.parseInt` also accepts other Unicode decimal digits, so `Naming.ValidName` rejects a few names the source can read.
- `Listing.Filter`: an end date shorter than ten characters makes the source's `substring(0, 10)` throw `StringIndexOutOfBoundsException`. That exception is not caught and leaves `selectAll` and `selectAllJob`. The model counts such a window as `Unparsable`, which it ignores.
- `Service.JobService.StartTimeTask`: does not model the returned count.
- `Service.JobService.StopTimeTask`: does not model the returned count.
- `Service.JobService.SinglePublish`: the caller's list is a `JobList` object whose content is replaced, not the Java list mutated element by element.
- `Listing.SortByTimeDesc`: does not state that the sort is stable.
