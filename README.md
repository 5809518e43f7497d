# photoshop-timing: the scheduler, dispatcher and task ledger, in Dafny

photoshop-timing is a desktop application that, on a cron schedule or on demand,
pulls the records a designer has confirmed from a WPS spreadsheet, hands each one
to a local Photoshop automation worker, keeps a local SQLite ledger of tasks and
their logs, and reports each record's outcome back to the spreadsheet. This
project models its core and proves what it guarantees:

- `wps_reader.dfy` (module `WpsReader`): the two spreadsheet calls — the fixed
  search payload and the one-record update payload, each with a reader that
  recovers what it says, and the way a reply is turned into the
  `{"status": "Success" | "Error", ...}` envelope the callers see.
- `cron.dfy` (module `Cron`): `normalize_cron` over Rust's `split_whitespace`,
  the delay the timer loop sleeps before a fire time, and the `Schedule` cell as
  a class whose `start_cron` / `stop_cron` methods abort the running timer and
  install a new one, with the invariant that at most one timer is live and it is
  the one in the cell — as long as the commands do not overlap (see
  "## Left out").
- `cron_timer.dfy` (module `CronTimer`): the loop of the spawned timer, run for the
  fire times the schedule yields, as a method over the database.
- `store.dfy` (module `Store`): the `tasks` and `task_logs` tables created in
  `setup` and the three writes `execute_task` issues, as a class over two row
  sequences.
- `dispatch.dfy` (module `Dispatch`): `execute_task` — a specification function
  (`Run`, `ExecuteSpec`) and the imperative loop (`ExecuteTask`, `DispatchOne`)
  proved equal to it.
- `dispatch_properties.dfy` (module `DispatchProperties`): what `execute_task`
  guarantees — the skip rule, the error and success paths, the report-before-update
  order, what the counter counts, that a failure stops the run and keeps what was
  written, and a one-record scenario worked end to end.
- `query.dfy` (module `Query`): `get_task_list` and `get_task_logs` — the
  statement and its binds, SQLite's `LIKE`, the displayed time, the ordering, and
  the JSON replies.
- `json.dfy`, `wrappers.dfy`: a `serde_json::Value` subset and `Option` / `Result`.

Everything the code learns from outside — HTTP replies, the clock, fresh v7
uuids, whether an SQLite write fails, whether the cron crate accepts an
expression — is a parameter (an "oracle"). For `execute_task` that is an
`ItemOracle` per record, indexed by the record's position in the fetched array.

Points of the code's behaviour that the model keeps as written:

- `start_cron` aborts the running timer before it parses the new expression
  (lib.rs:42-46), so a refused expression still stops the running schedule and
  leaves no timer at all.
- The timer loop sleeps `max(next - now, 0)` before every fire time the schedule
  yields (lib.rs:53-60); a fire time already past is run at once, not skipped.
- Task filters use SQLite's default `LIKE`, which matches ASCII letters without
  regard to case (lib.rs:113-118).
- `ORDER BY run_time` (lib.rs:120) names the output column, so tasks are ordered
  by the displayed time (first 19 characters, `T` shown as a space), not the
  stored one.

## Model

| member | source | states |
|---|---|---|
| Cron.Word | src-tauri/src/lib.rs:28 | the longest whitespace-free prefix: a prefix, non-empty when the string starts with a non-space, followed by whitespace or the end |
| Cron.FieldsAreWords | src-tauri/src/lib.rs:28 | every field `split_whitespace` yields is non-empty and holds no whitespace |
| Cron.NormalizeCron | src-tauri/src/lib.rs:27-33 | exactly five fields → `"0 "` prepended; any other count → unchanged |
| Cron.ZeroSecondsField | src-tauri/src/lib.rs:28-29 | the fields of `"0 " + expr` are `"0"` followed by the fields of `expr` |
| Cron.NormalizedHasSixFields | src-tauri/src/lib.rs:27-33 | a five-field expression normalises to six fields, the first being the seconds field `0` |
| Cron.NormalizeIdempotent | src-tauri/src/lib.rs:27-33 | normalising twice equals normalising once |
| Cron.Delay | src-tauri/src/lib.rs:53-58 | the sleep never ends before the fire time, ends exactly on it when the time is ahead, and is zero when the time is past |
| Cron.Schedule.constructor | src-tauri/src/lib.rs:25 | the cell starts empty with no timer spawned |
| Cron.Schedule.TakeAndAbort | src-tauri/src/lib.rs:42-44 | the cell is emptied, the timer it held (if any) is aborted, and no timer is left live |
| Cron.Schedule.StartCron | src-tauri/src/lib.rs:35-67 | the old timer is aborted first; a refused expression returns `解析cron表达式失败:` plus the reason and leaves the cell empty; an accepted one spawns one timer on the normalised expression, stores it, and it is the only live timer (for a call that no other `start_cron` / `stop_cron` overlaps) |
| Cron.Schedule.StopCron | src-tauri/src/lib.rs:69-76 | always `Ok`; the held timer is aborted and the cell is empty with nothing live |
| CronTimer.RunTimer | src-tauri/src/lib.rs:50-62 | one wait per fire time, each `Delay(next, now)`; the tables end as the fire-by-fire composition of `execute_task`, whatever each run returned |
| CronTimer.TimerKeepsTables | src-tauri/src/lib.rs:50-62 | across any number of fires no task row is removed or changed other than being marked done, no log row is removed, and statuses stay 0 or 1 |
| CronTimer.ExecuteKeepsTables | src-tauri/src/lib.rs:194-287 | one `execute_task` run keeps the tables in that sense, on every path |
| Store.MarkDone | src-tauri/src/lib.rs:279-284 | every row with the task id gets status 1, every other row is unchanged |
| Store.Db.constructor | src-tauri/src/lib.rs:408-431 | on a new database file both tables exist and are empty |
| Store.Db.InsertTask | src-tauri/src/lib.rs:227-235 | appends the row unless the engine fails, and then reports that failure; `task_logs` unchanged |
| Store.Db.InsertLog | src-tauri/src/lib.rs:248-257 | appends the log row unless the engine fails; `tasks` unchanged |
| Store.Db.UpdateStatusDone | src-tauri/src/lib.rs:279-284 | applies `MarkDone` unless the engine fails; `task_logs` unchanged |
| WpsReader.CriterionReadsBack | src-tauri/src/wps_reader.rs:31-42 | a criterion of the search payload reads back as an `Equals` test of its field against its value |
| WpsReader.SearchPayloadReadsBack | src-tauri/src/wps_reader.rs:22-48 | the search payload reads back as a `search` of `数据表` with mode `AND` over: confirmed field equals `是`, done field equals the empty string |
| WpsReader.UpdatePayloadReadsBack | src-tauri/src/wps_reader.rs:91-108 | the update payload reads back as an `update` of `数据表` with exactly one record: the target id, the done field set to the flag |
| WpsReader.ReportedFlagLeavesPendingFilter | src-tauri/src/wps_reader.rs:39-41 | reporting `是` or `否` writes a done-field value the search's done criterion does not accept, so a reported record is not fetched again |
| WpsReader.SearchEnvelope | src-tauri/src/wps_reader.rs:57-74 | no `data` key → `Error` with `数据获取失败` and no data; otherwise `Success` with `data.result.data`, null when missing |
| WpsReader.FetchWpsData | src-tauri/src/wps_reader.rs:7-75 | fails exactly when the HTTP round trip fails, with its message; otherwise the envelope's status says whether the reply had `data` |
| WpsReader.UpdateEnvelope | src-tauri/src/wps_reader.rs:115-133 | a `status` key of any value → `Success`/`更新成功`; none → `Error`/`更新失败` |
| WpsReader.UpdateWpsDate | src-tauri/src/wps_reader.rs:77-134 | fails exactly when the HTTP round trip fails; otherwise the envelope status says whether the reply had `status` |
| WpsReader.EnvelopeItems | src-tauri/src/wps_reader.rs:58-73 | the dispatcher finds an item array under the envelope's `data` exactly when the reply has one at `data.result.data` |
| Dispatch.DecimalRoundTrip | src-tauri/src/lib.rs:286 | the counter is printed as non-empty decimal digits that read back as the counter |
| Dispatch.DispatchOne | src-tauri/src/lib.rs:221-284 | the imperative body for one record leaves tables, calls, counter and failure exactly as `DispatchItem` says |
| Dispatch.ExecuteTask | src-tauri/src/lib.rs:194-287 | the imperative command leaves tables, calls and result exactly as `ExecuteSpec` says |
| Dispatch.RunUnfold | src-tauri/src/lib.rs:208 | records are processed one after another in fetched order: one more record is one more `Step` |
| Dispatch.RunStopsAtFailure | src-tauri/src/lib.rs:227-285 | once a step fails, later records change nothing |
| DispatchProperties.YesReportsAppend | src-tauri/src/lib.rs:276 | `是` reports of concatenated call lists add up |
| DispatchProperties.SkipRule | src-tauri/src/lib.rs:209-220 | a record is left without any trace exactly when it lacks `fields` or a non-empty SKU and template; otherwise a task row is added and its fields are posted to the worker |
| DispatchProperties.ErrorPath | src-tauri/src/lib.rs:243-261 | worker `status: "error"`: task stays at 0, one log `任务执行失败: ` + message (default `未知错误`) at the clock time, a `否` report, counter unchanged, the run continues unless the report fails |
| DispatchProperties.SuccessPath | src-tauri/src/lib.rs:263-284 | any other reply with N log entries: N log rows in order with each entry's time and message (defaults `""` and `无日志信息`), counter +1, a `是` report, the new task at status 1 |
| DispatchProperties.UnparsableReplyCompletes | src-tauri/src/lib.rs:242 | a worker body that is not JSON counts as success with no log rows |
| DispatchProperties.ReportBeforeStatusUpdate | src-tauri/src/lib.rs:275-284 | when the `是` report fails the counter has already moved, the task stays at 0 and the run stops with `更新任务状态失败: ` |
| DispatchProperties.AdvancesTransitive | src-tauri/src/lib.rs:221-284 | the per-record frame (rows kept, only this task marked, counter tracks `是` reports) composes |
| DispatchProperties.SendReportAdvances | src-tauri/src/lib.rs:258-260 | a report appends exactly one call and moves no table or counter |
| DispatchProperties.CompletedAdvances | src-tauri/src/lib.rs:276-284 | the completion step adds one `是` report and only marks this task |
| DispatchProperties.WorkerFailedAdvances | src-tauri/src/lib.rs:243-261 | the error path keeps the frame and leaves the counter |
| DispatchProperties.WorkerSucceededAdvances | src-tauri/src/lib.rs:263-284 | the success path moves the counter exactly when all log inserts succeed, and keeps the frame |
| DispatchProperties.PostedAdvances | src-tauri/src/lib.rs:236-284 | after the post, the counter moves exactly when the reply is not an error and all logs are written |
| DispatchProperties.CountStep | src-tauri/src/lib.rs:221-284 | one record moves the counter exactly when it completes, and keeps the frame |
| DispatchProperties.StepKeeps | src-tauri/src/lib.rs:208-285 | any loop turn keeps the frame; after a failure a turn changes nothing |
| DispatchProperties.KeepsTransitive | src-tauri/src/lib.rs:208-285 | rows kept / logs and calls only appended composes |
| DispatchProperties.EarlierWritesStay | src-tauri/src/lib.rs:208-285 | what the first k records wrote is still there at the end, even when a later record fails |
| DispatchProperties.CountIsYesReports | src-tauri/src/lib.rs:275-278 | the counter equals the number of `是` reports sent |
| DispatchProperties.CountIsCompleted | src-tauri/src/lib.rs:206-286 | without a failure the counter equals the number of dispatched records that completed |
| DispatchProperties.StatusesStayBinary | src-tauri/src/lib.rs:227-284 | statuses stay 0 or 1 |
| DispatchProperties.FreshIdsLeaveOldRows | src-tauri/src/lib.rs:221-284 | with fresh task ids the rows that existed before are left exactly as they were |
| DispatchProperties.NoItemsNoEffect | src-tauri/src/lib.rs:196-204 | fetch failure or no item array: an error, and no row, post or report |
| DispatchProperties.SuccessReportsCompleted | src-tauri/src/lib.rs:286 | a successful run answers `任务执行完成, 共插入 N 条任务` with N the number of completed records |
| DispatchProperties.ScenarioRecord | src-tauri/src/lib.rs:202-226 | the scenario reply yields one item with SKU `A1`, template `tmplX`, row id `r1` |
| DispatchProperties.ScenarioWorkerReply | src-tauri/src/lib.rs:263-274 | the scenario worker reply is not an error and gives two log rows `t1 started`, `t2 done` |
| DispatchProperties.ScenarioDispatch | src-tauri/src/lib.rs:221-284 | the scenario record's turn: one task at status 1, two logs, a post and a `是` report, counter 1 |
| DispatchProperties.OneRecordScenario | src-tauri/src/lib.rs:194-287 | end to end: one completed task, its two log rows in order, one post, one `是` report, result `任务执行完成, 共插入 1 条任务` |
| Query.PercentMatchesAll | src-tauri/src/lib.rs:114 | `%` matches every value |
| Query.WordThenPercent | src-tauri/src/lib.rs:114 | a wildcard-free `s%` matches exactly the values starting with `s`, ASCII case folded |
| Query.PercentThen | src-tauri/src/lib.rs:114 | `%q` matches exactly the values with a suffix matching `q` |
| Query.LikeIsContainment | src-tauri/src/lib.rs:112-119 | with a wildcard-free filter, `LIKE %f%` holds exactly when the value contains `f`, ASCII case folded |
| Query.LikeSelf | src-tauri/src/lib.rs:113 | every value matches itself as a pattern |
| Query.LikeThenPercent | src-tauri/src/lib.rs:114 | a trailing `%` keeps a match |
| Query.SelfPatternMatches | src-tauri/src/lib.rs:112-115 | a value matches the filter built from itself |
| Query.TextLeTotal | src-tauri/src/lib.rs:120 | text ordering compares any two values |
| Query.TextLeTransitive | src-tauri/src/lib.rs:120 | text ordering is transitive |
| Query.InOrderTotal | src-tauri/src/lib.rs:120 | ascending or descending order compares any two keys |
| Query.InOrderTransitive | src-tauri/src/lib.rs:120 | ascending or descending order is transitive |
| Query.InsertBySorted | src-tauri/src/lib.rs:120 | inserting into a sorted list keeps it sorted and adds exactly that row |
| Query.SortBySpec | src-tauri/src/lib.rs:120 | the ordering sorts by the key and is a permutation of its input |
| Query.ReplaceT | src-tauri/src/lib.rs:103 | `replace(s,'T',' ')`: same length, every `T` becomes a space, every other character stays |
| Query.DisplayTime | src-tauri/src/lib.rs:103 | at most 19 characters, the stored time's first ones with `T` shown as a space; no `T` remains |
| Query.Views | src-tauri/src/lib.rs:135-141 | one listed view per row, in order |
| Query.ParamColumnsAppend | src-tauri/src/lib.rs:111-120 | placeholders of a concatenated statement are those of its parts, in order |
| Query.BuildTaskQuery | src-tauri/src/lib.rs:99-120 | one `like ?` per given filter, SKU first; each placeholder bound in order to `%value%` of the filter on its column; the select first, the ordering last |
| Query.SelectMembers | src-tauri/src/lib.rs:112-119 | the selection holds exactly the rows meeting every given filter, is a sub-multiset, and is everything without filters |
| Query.ViewsMembers | src-tauri/src/lib.rs:135-141 | a view is listed exactly when some row shows as it |
| Query.TaskListSpec | src-tauri/src/lib.rs:92-145 | the list is sorted by displayed time, latest first, is a permutation of the selected rows' views, and lists a view exactly when a selected row shows as it |
| Query.NoFilterListsAll | src-tauri/src/lib.rs:92-145 | without filters every task is listed, once |
| Query.ListBySkuFindsTask | src-tauri/src/lib.rs:112-115 | filtering by a task's own SKU lists that task |
| Query.SelectedIsContainment | src-tauri/src/lib.rs:112-119 | with wildcard-free filters a row is selected exactly when its SKU and template contain them, ASCII case folded |
| Query.GetTaskList | src-tauri/src/lib.rs:133-144 | `status: "success"` and a `data` array whose elements read back, in order, as the listed tasks |
| Query.LogsOfMembers | src-tauri/src/lib.rs:153-158 | the task's logs are exactly the log rows with that task id |
| Query.TaskLogsSpec | src-tauri/src/lib.rs:147-175 | the logs of a task, sorted by `log_time` ascending, a permutation of that task's rows, and nothing else |
| Query.GetTaskLogs | src-tauri/src/lib.rs:167-174 | `status: "success"` and a `data` array whose elements carry, in order, each listed log's time and message |
| Cron.IsWhitespace | src-tauri/src/lib.rs:28 | Unicode `White_Space`, as `split_whitespace` uses it: among printable ASCII only the space counts; tab, newline and carriage return count |
| Cron.Fields | src-tauri/src/lib.rs:28 | `split_whitespace` yields no field exactly when every character is whitespace |
| CronTimer.TablesAfter | src-tauri/src/lib.rs:50-62 | however many fires, the task table never shrinks |
| WpsReader.SearchPayload | src-tauri/src/wps_reader.rs:22-48 | the body's `Context.argv` is a `search` action on the sheet `数据表` |
| WpsReader.UpdatePayload | src-tauri/src/wps_reader.rs:91-108 | the body's `Context.argv` is an `update` action on the sheet `数据表` |
| WpsReader.PendingCriteriaReadBack | src-tauri/src/wps_reader.rs:31-42 | the two criteria read back as: confirmed field equals `是`, done field equals the empty string |
| Dispatch.Extract | src-tauri/src/lib.rs:209-226 | a record without `fields` yields nothing; a yielded item carries the record's fields, a non-empty SKU and template read from them, the row id (default `""`) and the creation time (default `""`) |
| Dispatch.EntryRow | src-tauri/src/lib.rs:264-270 | the log row carries the task id, entry `[0]` as its time when it is a string (else `""`) and entry `[1]` as its message when it is a string (else `无日志信息`) |
| Dispatch.SummaryReadsBack | src-tauri/src/lib.rs:286 | the success message is `任务执行完成, 共插入 `, the counter in decimal, then ` 条任务`; the middle reads back as the counter |
| Dispatch.SendReport | src-tauri/src/lib.rs:258-260 | one report call is appended and tables and counter stay; a failing call stops the run with `更新任务状态失败: ` plus the reason |
| Dispatch.DispatchItem | src-tauri/src/lib.rs:221-284 | a failed task insert records only `数据库插入失败: ` plus the reason; otherwise one task row is added and the next call is the post of the record's fields; logs and calls only grow, the counter by at most one |
| Dispatch.Posted | src-tauri/src/lib.rs:236-284 | an unreachable worker stops the run with `请求后台服务失败: ` plus the reason; no task row is added; logs and calls only grow |
| Dispatch.WorkerFailed | src-tauri/src/lib.rs:243-261 | a failed log insert stops the run and writes nothing; otherwise one failure log row and one `否` report; tasks and counter stay |
| Dispatch.WorkerSucceeded | src-tauri/src/lib.rs:263-284 | the logs gain, in order, the entries inserted before the first failing insert; the counter moves exactly when all were inserted |
| Dispatch.Completed | src-tauri/src/lib.rs:275-284 | one `是` report is appended; the run goes on exactly when the report and the status update both succeed, and then the task is marked done |
| Dispatch.Step | src-tauri/src/lib.rs:208-285 | after a failure, or for a skipped record, nothing changes; otherwise at most one task row is added and logs and calls only grow |
| Dispatch.Run | src-tauri/src/lib.rs:208-285 | the loop never shortens the tables or the call list |
| Dispatch.ExecuteSpec | src-tauri/src/lib.rs:194-287 | a failed fetch returns `数据获取失败: ` plus the reason and touches nothing; a success needs a fetched reply; no task row is ever lost |
| Dispatch.ReportWorkerFailure | src-tauri/src/lib.rs:243-261 | the imperative error path leaves tables, calls, counter and failure exactly as `WorkerFailed` says |
| Dispatch.RecordWorkerLogs | src-tauri/src/lib.rs:263-284 | the imperative log loop and completion leave everything exactly as `WorkerSucceeded` says |
| Dispatch.FinishItem | src-tauri/src/lib.rs:275-284 | the imperative report and status update leave everything exactly as `Completed` says |
| Dispatch.RunItems | src-tauri/src/lib.rs:208-285 | the imperative loop over the records leaves tables, calls, counter and failure exactly as `Run` says |
| DispatchProperties.StepStatusesBinary | src-tauri/src/lib.rs:227-284 | one record keeps every status 0 or 1 |
| Dispatch.InsertEntries | src-tauri/src/lib.rs:264-273 | one log row per entry, in order, up to the first insert that fails; it reports an error exactly when it stopped early, and then with that insert's message; the task table is untouched |
| DispatchProperties.SuccessLedger | src-tauri/src/lib.rs:263-284 | a record whose logs, report and status update all succeed adds its task, marks it done, appends every log row, posts the work and a `是` report, and adds one to the counter |
| DispatchProperties.DispatchTasks | src-tauri/src/lib.rs:221-284 | one record's turn leaves the task table unchanged, with the new task appended, or with the new task appended and marked done, and nothing else |
| CronTimer.Fire | src-tauri/src/lib.rs:60-61 | one fire runs `execute_task` on the tables the earlier fires left, ignoring its result, and leaves the tables of one more fire |
| DispatchProperties.ScenarioRun | src-tauri/src/lib.rs:208-285 | the loop over the scenario's one record is that record's turn |
| DispatchProperties.SummaryOne | src-tauri/src/lib.rs:286 | one completed record answers `任务执行完成, 共插入 1 条任务` |
| Query.Like | src-tauri/src/lib.rs:113-118 | a wildcard-free pattern matches only values of its own length |
| Query.TextLe | src-tauri/src/lib.rs:120 | a prefix sorts first |
| Query.TextLeAntisymmetric | src-tauri/src/lib.rs:120 | values that sort both ways are equal |
| Query.InsertBy | src-tauri/src/lib.rs:120 | inserting adds exactly one row |
| Query.SortBy | src-tauri/src/lib.rs:120 | the ordering keeps the number of rows |
| Query.Selected | src-tauri/src/lib.rs:112-119 | no filter selects every row; filters equal to a row's own SKU and template select it |
| Query.Select | src-tauri/src/lib.rs:112-119 | the selection has at most the table's rows |
| Query.SelectWithoutFilters | src-tauri/src/lib.rs:99-120 | without filters the selection is the whole table, in order |
| Query.SelectMembership | src-tauri/src/lib.rs:112-119 | a row is selected exactly when it is in the table and meets every given filter |
| Query.SelectSubmultiset | src-tauri/src/lib.rs:112-119 | each row is selected at most as often as it occurs |
| Query.TaskList | src-tauri/src/lib.rs:92-145 | one listed task per selected row |
| Query.TaskViewJson | src-tauri/src/lib.rs:135-141 | the JSON object of a listed task reads back as that task |
| Query.LogsOf | src-tauri/src/lib.rs:153-158 | at most the table's log rows; none when no row has the task id |
| Query.TaskLogs | src-tauri/src/lib.rs:147-175 | one listed log per log row of the task |
| Query.LogViewJson | src-tauri/src/lib.rs:169-172 | the JSON object of a listed log carries its time and message |

## Left out

- HTTP: the spreadsheet and worker calls are their replies (`Result<Json>`); URL,
  headers, the `Airscript-Token`, `dotenv` and the panics on missing environment
  variables are not modelled.
- The envelope that `fetch_wps_data` serialises and `execute_task` parses again
  (lib.rs:196-201) is passed as the `Json` value itself; the `JSON解析失败` branch
  cannot occur for that text and is not modelled.
- JSON numbers are integers; floating point is not modelled.
- The cron crate's parser and its `upcoming` iterator are foreign: parsing is the
  `parse` parameter, and the fire times are a finite sequence given to
  `RunTimer`; an endless schedule is modelled by its first fire times.
- Concurrency: the `tokio` mutexes, the spawned task running beside the commands,
  and `abort` taking effect at an await point are not modelled; `StartCron` takes
  the two lock acquisitions of lib.rs:42 and lib.rs:65 as one step, and aborting
  is recorded in `Schedule.aborted` rather than stopping a running loop.
- Cron.Schedule.StartCron: the at-most-one-timer invariant holds only for
  commands that do not overlap. In the code the cell is unlocked between
  lib.rs:42 and lib.rs:65. Two overlapping `start_cron` calls can both find it
  empty; the assignment at lib.rs:65 then drops the other call's handle, which
  detaches that task instead of aborting it, so two timers keep firing. A
  `stop_cron` that runs between those lines returns `Ok` but leaves the new timer
  installed and running.
- Store.Db.constructor: `create table if not exists` keeps the rows of an
  existing `app_data.db`; the model states the new-file case only.
- Task ids (`Uuid::now_v7`) and clock readings are oracle values. Nothing in the
  model assumes the new ids are distinct from each other or that the clock is
  monotone; `FreshIdsLeaveOldRows` assumes only that every record's task id
  differs from the id of every row that existed before the run.
- SQLite: failures of `prepare`, `query` and row reads in the two list commands
  are not modelled; write failures are the `fault` arguments. The autoincrement
  `id` is a row's position. The statement text is modelled as pieces (`Piece`)
  rather than characters.
- Query.TaskList: among rows with equal displayed time (or equal `log_time` in
  Query.TaskLogs) SQLite may return any order; the model fixes one and the lemmas
  state only sortedness and the permutation.
- Query.Like: the `ESCAPE` clause and the `case_sensitive_like` pragma are not
  modelled, nor non-ASCII case folding (SQLite does none by default).
- Dispatch.Summary: the `i32` counter is an unbounded natural; wrap-around after
  2^31-1 records is not modelled.
- The window, tray, single-instance and notification plugins, the background
  service child process, `get_data` and the other window commands are outside
  this model.
