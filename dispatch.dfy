/**
 * `execute_task` (lib.rs): fetch the pending records, and for each one that names
 * a SKU and a Photoshop template, insert a task, post its fields to the local
 * automation worker, log what the worker reports, report the outcome back to the
 * spreadsheet and mark the task done. `Run` and `ExecuteSpec` say what one
 * invocation does to the two tables and which outbound calls it makes;
 * `ExecuteTask` is the loop, proved to do exactly that.
 *
 * Everything the code learns from the outside per record (the fresh task id, the
 * clock, the worker's reply, the spreadsheet's reply, storage failures) is an
 * `ItemOracle`, indexed by the record's position in the fetched array.
 */
module Dispatch {
  import opened Wrappers
  import opened Json
  import WpsReader
  import opened Store

  const SkuKey: string := "SKU"
  const ModuleKey: string := "调用PS模版"
  const CreateTimeKey: string := "创建时间"
  const Yes: string := "是"
  const No: string := "否"

  const FetchFailedPrefix: string := "数据获取失败: "
  const NoDataMessage: string := "数据获取失败: 响应体中没有 'data' 字段"
  const InsertFailedPrefix: string := "数据库插入失败: "
  const WorkerUnreachablePrefix: string := "请求后台服务失败: "
  const LogFailedPrefix: string := "日志插入失败: "
  const StatusFailedPrefix: string := "更新任务状态失败: "
  const TaskFailedPrefix: string := "任务执行失败: "
  const UnknownError: string := "未知错误"
  const NoLogMessage: string := "无日志信息"

  /** The fields the loop reads from one fetched record. */
  datatype WorkItem = WorkItem(rowId: string, sku: string, moduleName: string, createTime: string, fields: Json)

  /** An outbound HTTP call: a post to the worker, or a status report to the spreadsheet. */
  datatype Call = PostWorker(body: Json) | Report(rowId: string, flag: string)

  /** The storage failure of the `at`-th log insert of one record. */
  datatype LogFault = LogFault(at: nat, detail: string)

  /**
   * What the outside world answers while one record is processed: the v7 uuid and
   * the two clock readings, whether each storage write fails, the worker's reply
   * (`Err`: the request failed; `Ok(None)`: the body is not JSON) and the
   * spreadsheet's reply to the status report.
   */
  datatype ItemOracle = ItemOracle(
    taskId: string, runTime: string, errorTime: string,
    insertFault: Option<string>,
    reply: Result<Option<Json>>,
    logFault: Option<LogFault>,
    report: Result<Json>,
    updateFault: Option<string>)

  /** The state one invocation builds up: the tables, the calls made, the counter, and the error that stopped it. */
  datatype Ledger = Ledger(tasks: seq<TaskRow>, logs: seq<LogRow>, calls: seq<Call>, count: nat,
                           failure: Option<string>)

  /** What an invocation leaves behind and returns. */
  datatype Outcome = Outcome(tasks: seq<TaskRow>, logs: seq<LogRow>, calls: seq<Call>, result: Result<string>)

  // ---------------------------------------------------------------- reading records and replies

  /** The item array `execute_task` looks for: `data` as an array. */
  function Items(envelope: Json): Option<seq<Json>>
  {
    AsArray(Get(envelope, "data"))
  }

  /** A record is skipped unless it has `fields` with a non-empty SKU and template. */
  function Extract(item: Json): (r: Option<WorkItem>)
    ensures Get(item, "fields").None? ==> r.None?
    ensures r.Some? ==> && Get(item, "fields") == Some(r.value.fields)
                        && r.value.sku == StrOr(r.value.fields, SkuKey, "") != []
                        && r.value.moduleName == StrOr(r.value.fields, ModuleKey, "") != []
                        && r.value.rowId == StrOr(item, "id", "")
                        && r.value.createTime == StrOr(r.value.fields, CreateTimeKey, "")
  {
    var fields := Get(item, "fields");
    if fields.None? then None
    else
      var sku := StrOr(fields.value, SkuKey, "");
      var moduleName := StrOr(fields.value, ModuleKey, "");
      if sku == [] || moduleName == [] then None
      else Some(WorkItem(StrOr(item, "id", ""), sku, moduleName, StrOr(fields.value, CreateTimeKey, ""), fields.value))
  }

  /** The worker's reply as the loop sees it: a body that is not JSON reads as `{}`. */
  function ReplyJson(body: Option<Json>): Json
  {
    if body.Some? then body.value else EmptyObject
  }

  predicate IsErrorReply(resp: Json)
  {
    AsStr(Get(resp, "status")) == Some("error")
  }

  /** The worker's `logs` array, or nothing when absent or not an array. */
  function WorkerLogs(resp: Json): seq<Json>
  {
    var logs := AsArray(Get(resp, "logs"));
    if logs.Some? then logs.value else []
  }

  /** A log row from one `[time, message]` entry, with the source's defaults for missing parts. */
  function EntryRow(taskId: string, entry: Json): (r: LogRow)
    ensures r.taskId == taskId
    ensures r.logTime == (if At(entry, 0).JStr? then At(entry, 0).s else "")
    ensures r.message == (if At(entry, 1).JStr? then At(entry, 1).s else NoLogMessage)
  {
    var time := AsStr(Some(At(entry, 0)));
    var message := AsStr(Some(At(entry, 1)));
    LogRow(taskId, if time.Some? then time.value else "",
           if message.Some? then message.value else NoLogMessage)
  }

  function EntryRows(taskId: string, entries: seq<Json>): (r: seq<LogRow>)
  {
    seq(|entries|, i requires 0 <= i < |entries| => EntryRow(taskId, entries[i]))
  }

  /** The row the error path logs. */
  function FailureRow(o: ItemOracle, resp: Json): LogRow
  {
    LogRow(o.taskId, o.errorTime, TaskFailedPrefix + StrOr(resp, "message", UnknownError))
  }

  function NewTask(w: WorkItem, o: ItemOracle): TaskRow
  {
    TaskRow(o.taskId, o.runTime, w.sku, w.moduleName, w.createTime, 0)
  }

  function LogFaultAt(o: ItemOracle, k: nat): Option<string>
  {
    if o.logFault.Some? && o.logFault.value.at == k then Some(o.logFault.value.detail) else None
  }

  /** How many of `n` log inserts succeed before the first failing one. */
  function LogsWritten(o: ItemOracle, n: nat): nat
  {
    if o.logFault.Some? && o.logFault.value.at < n then o.logFault.value.at else n
  }

  // ---------------------------------------------------------------- one record

  /** `update_wps_date(row_id, flag)`: the call is made; only a transport failure stops the run. */
  function SendReport(l: Ledger, rowId: string, flag: string, reply: Result<Json>): (r: Ledger)
    ensures r.tasks == l.tasks && r.logs == l.logs && r.count == l.count
    ensures r.calls == l.calls + [Report(rowId, flag)]
    ensures r.failure == if reply.Err? then Some(StatusFailedPrefix + reply.msg) else l.failure
  {
    var l' := l.(calls := l.calls + [Report(rowId, flag)]);
    var r := WpsReader.UpdateWpsDate(reply);
    if r.Err? then l'.(failure := Some(StatusFailedPrefix + r.msg)) else l'
  }

  /** The body of the loop for a record that was not skipped (lib.rs:221-284): first the task insert. */
  function DispatchItem(l: Ledger, w: WorkItem, o: ItemOracle): (r: Ledger)
    ensures |r.tasks| == |l.tasks| + (if o.insertFault.Some? then 0 else 1)
    ensures l.logs <= r.logs && l.calls <= r.calls && l.count <= r.count <= l.count + 1
    ensures o.insertFault.Some? ==> r == l.(failure := Some(InsertFailedPrefix + o.insertFault.value))
    ensures o.insertFault.None? ==> |r.calls| > |l.calls| && r.calls[|l.calls|] == PostWorker(w.fields)
  {
    if o.insertFault.Some? then l.(failure := Some(InsertFailedPrefix + o.insertFault.value))
    else Posted(l.(tasks := l.tasks + [NewTask(w, o)], calls := l.calls + [PostWorker(w.fields)]), w, o)
  }

  /** After the insert: the post to the worker, and the branch on its reply. */
  function Posted(l: Ledger, w: WorkItem, o: ItemOracle): (r: Ledger)
    ensures |r.tasks| == |l.tasks|
    ensures l.logs <= r.logs && l.calls <= r.calls && l.count <= r.count <= l.count + 1
    ensures o.reply.Err? ==> r == l.(failure := Some(WorkerUnreachablePrefix + o.reply.msg))
  {
    if o.reply.Err? then l.(failure := Some(WorkerUnreachablePrefix + o.reply.msg))
    else
      var resp := ReplyJson(o.reply.value);
      if IsErrorReply(resp) then WorkerFailed(l, w, o, resp) else WorkerSucceeded(l, w, o, resp)
  }

  /** `status == "error"`: one log row, then the `否` report (lib.rs:243-261). */
  function WorkerFailed(l: Ledger, w: WorkItem, o: ItemOracle, resp: Json): (r: Ledger)
    ensures r.tasks == l.tasks && r.count == l.count
    ensures LogFaultAt(o, 0).Some? ==> r.logs == l.logs && r.calls == l.calls && r.failure.Some?
    ensures LogFaultAt(o, 0).None? ==>
              r.logs == l.logs + [FailureRow(o, resp)] && r.calls == l.calls + [Report(w.rowId, No)]
  {
    if LogFaultAt(o, 0).Some? then l.(failure := Some(LogFailedPrefix + LogFaultAt(o, 0).value))
    else SendReport(l.(logs := l.logs + [FailureRow(o, resp)]), w.rowId, No, o.report)
  }

  /** Any other reply: its log rows, then the counter, the `是` report and the status update (lib.rs:263-284). */
  function WorkerSucceeded(l: Ledger, w: WorkItem, o: ItemOracle, resp: Json): (r: Ledger)
    ensures |r.tasks| == |l.tasks| && l.calls <= r.calls
    ensures r.logs == l.logs + EntryRows(o.taskId, WorkerLogs(resp)[..LogsWritten(o, |WorkerLogs(resp)|)])
    ensures r.count == l.count + (if LogsWritten(o, |WorkerLogs(resp)|) == |WorkerLogs(resp)| then 1 else 0)
  {
    var entries := WorkerLogs(resp);
    var n := LogsWritten(o, |entries|);
    var l2 := l.(logs := l.logs + EntryRows(o.taskId, entries[..n]));
    if n < |entries| then l2.(failure := Some(LogFailedPrefix + o.logFault.value.detail))
    else Completed(l2.(count := l2.count + 1), w, o)
  }

  /** After `inserted += 1`: the `是` report, and only after it the status update. */
  function Completed(l: Ledger, w: WorkItem, o: ItemOracle): (r: Ledger)
    ensures r.logs == l.logs && r.count == l.count && |r.tasks| == |l.tasks|
    ensures r.calls == l.calls + [Report(w.rowId, Yes)]
    ensures r.failure.None? <==> l.failure.None? && o.report.Ok? && o.updateFault.None?
    ensures r.failure.None? ==> r.tasks == MarkDone(l.tasks, o.taskId)
  {
    var l3 := SendReport(l, w.rowId, Yes, o.report);
    if l3.failure.Some? then l3
    else if o.updateFault.Some? then l3.(failure := Some(StatusFailedPrefix + o.updateFault.value))
    else l3.(tasks := MarkDone(l3.tasks, o.taskId))
  }

  /** One turn of the loop: nothing after a failure, nothing for a skipped record. */
  function Step(l: Ledger, item: Json, o: ItemOracle): (r: Ledger)
    ensures l.failure.Some? || Extract(item).None? ==> r == l
    ensures |l.tasks| <= |r.tasks| <= |l.tasks| + 1
    ensures l.logs <= r.logs && l.calls <= r.calls
  {
    if l.failure.Some? then l
    else
      var w := Extract(item);
      if w.None? then l else DispatchItem(l, w.value, o)
  }

  /** The loop over the first `|items|` records. */
  function Run(l: Ledger, items: seq<Json>, env: nat -> ItemOracle): (r: Ledger)
    ensures |l.tasks| <= |r.tasks| && |l.logs| <= |r.logs| && |l.calls| <= |r.calls|
    decreases |items|
  {
    if items == [] then l
    else Step(Run(l, items[..|items| - 1], env), items[|items| - 1], env(|items| - 1))
  }

  const SummaryPrefix: string := "任务执行完成, 共插入 "
  const SummarySuffix: string := " 条任务"

  /** The message `execute_task` returns on success: the count in decimal between the two fixed parts. */
  function Summary(n: nat): string
  {
    SummaryPrefix + Decimal(n) + SummarySuffix
  }

  /** The count can be read back from the success message, between its fixed prefix and suffix. */
  lemma SummaryReadsBack(n: nat)
    ensures var r := Summary(n);
            && |r| > |SummaryPrefix| + |SummarySuffix|
            && r[..|SummaryPrefix|] == SummaryPrefix && r[|r| - |SummarySuffix|..] == SummarySuffix
            && DecimalValue(r[|SummaryPrefix|..|r| - |SummarySuffix|]) == n
  {
    DecimalRoundTrip(n);
    var r := Summary(n);
    assert r[|SummaryPrefix|..|r| - |SummarySuffix|] == Decimal(n);
  }

  /** One whole invocation of `execute_task`, given the search reply and the per-record oracles. */
  function ExecuteSpec(tasks: seq<TaskRow>, logs: seq<LogRow>, reply: Result<Json>, env: nat -> ItemOracle): (r: Outcome)
    ensures reply.Err? ==> r == Outcome(tasks, logs, [], Err(FetchFailedPrefix + reply.msg))
    ensures |tasks| <= |r.tasks|
    ensures r.result.Ok? ==> reply.Ok?
  {
    var fetched := WpsReader.FetchWpsData(reply);
    if fetched.Err? then Outcome(tasks, logs, [], Err(FetchFailedPrefix + fetched.msg))
    else
      var items := Items(fetched.value);
      if items.None? then Outcome(tasks, logs, [], Err(NoDataMessage))
      else
        var l := Run(Ledger(tasks, logs, [], 0, None), items.value, env);
        Outcome(l.tasks, l.logs, l.calls, if l.failure.Some? then Err(l.failure.value) else Ok(Summary(l.count)))
  }

  // ---------------------------------------------------------------- decimal formatting of the counter

  function DigitChar(d: nat): char
    requires d < 10
  {
    "0123456789"[d]
  }

  /** `format!("{}", n)` for a non-negative integer. */
  function Decimal(n: nat): string
  {
    if n < 10 then [DigitChar(n)] else Decimal(n / 10) + [DigitChar(n % 10)]
  }

  /** Reading a string of decimal digits back as a number. */
  function DecimalValue(s: string): nat
  {
    if s == [] then 0
    else
      var c := s[|s| - 1];
      DecimalValue(s[..|s| - 1]) * 10 + (if '0' <= c <= '9' then (c as int - '0' as int) else 0)
  }

  lemma {:induction false} DecimalRoundTrip(n: nat)
    ensures Decimal(n) != []
    ensures forall i :: 0 <= i < |Decimal(n)| ==> '0' <= Decimal(n)[i] <= '9'
    ensures DecimalValue(Decimal(n)) == n
  {
    if n < 10 {
      DigitCharValue(n);
      assert Decimal(n)[..0] == [];
    } else {
      DecimalRoundTrip(n / 10);
      DigitCharValue(n % 10);
      var s := Decimal(n);
      assert s[..|s| - 1] == Decimal(n / 10);
      assert s[|s| - 1] == DigitChar(n % 10);
      assert DecimalValue(s) == DecimalValue(Decimal(n / 10)) * 10 + n % 10;
    }
  }

  lemma DigitCharValue(d: nat)
    requires d < 10
    ensures '0' <= DigitChar(d) <= '9' && DigitChar(d) as int - '0' as int == d
  {
    var digits := "0123456789";
    assert digits[0] == '0' && digits[1] == '1' && digits[2] == '2' && digits[3] == '3' && digits[4] == '4';
    assert digits[5] == '5' && digits[6] == '6' && digits[7] == '7' && digits[8] == '8' && digits[9] == '9';
  }

  // ---------------------------------------------------------------- the imperative loop

  /** Lines 221-284 of lib.rs for a record that was not skipped. */
  method DispatchOne(db: Db, w: WorkItem, o: ItemOracle, calls0: seq<Call>, count0: nat)
    returns (calls: seq<Call>, count: nat, failure: Option<string>)
    modifies db
    ensures Ledger(db.tasks, db.logs, calls, count, failure)
         == DispatchItem(Ledger(old(db.tasks), old(db.logs), calls0, count0, None), w, o)
  {
    calls, count := calls0, count0;
    var err := db.InsertTask(NewTask(w, o), o.insertFault);
    if err.Some? {
      return calls, count, Some(InsertFailedPrefix + err.value);
    }
    calls := calls + [PostWorker(w.fields)];
    if o.reply.Err? {
      return calls, count, Some(WorkerUnreachablePrefix + o.reply.msg);
    }
    var resp := ReplyJson(o.reply.value);
    if IsErrorReply(resp) {
      calls, count, failure := ReportWorkerFailure(db, w, o, resp, calls, count);
    } else {
      calls, count, failure := RecordWorkerLogs(db, w, o, resp, calls, count);
    }
  }

  /** Lines 243-261 of lib.rs: the worker answered `status == "error"`. */
  method ReportWorkerFailure(db: Db, w: WorkItem, o: ItemOracle, resp: Json, calls0: seq<Call>, count0: nat)
    returns (calls: seq<Call>, count: nat, failure: Option<string>)
    modifies db
    ensures Ledger(db.tasks, db.logs, calls, count, failure)
         == WorkerFailed(Ledger(old(db.tasks), old(db.logs), calls0, count0, None), w, o, resp)
  {
    calls, count := calls0, count0;
    var err := db.InsertLog(FailureRow(o, resp), LogFaultAt(o, 0));
    if err.Some? {
      return calls, count, Some(LogFailedPrefix + err.value);
    }
    calls := calls + [Report(w.rowId, No)];
    var reported := WpsReader.UpdateWpsDate(o.report);
    if reported.Err? {
      return calls, count, Some(StatusFailedPrefix + reported.msg);
    }
    return calls, count, None;
  }

  /** Lines 263-284 of lib.rs: the worker's log entries, then `FinishItem`. */
  method RecordWorkerLogs(db: Db, w: WorkItem, o: ItemOracle, resp: Json, calls0: seq<Call>, count0: nat)
    returns (calls: seq<Call>, count: nat, failure: Option<string>)
    modifies db
    ensures Ledger(db.tasks, db.logs, calls, count, failure)
         == WorkerSucceeded(Ledger(old(db.tasks), old(db.logs), calls0, count0, None), w, o, resp)
  {
    var entries := WorkerLogs(resp);
    var err := InsertEntries(db, o, entries);
    if err.Some? {
      return calls0, count0, Some(LogFailedPrefix + err.value);
    }
    assert entries[..|entries|] == entries;
    calls, count, failure := FinishItem(db, w, o, calls0, count0 + 1);
  }

  /** Lines 264-273 of lib.rs: one log insert per entry, in order, stopping at the first that fails. */
  method InsertEntries(db: Db, o: ItemOracle, entries: seq<Json>) returns (err: Option<string>)
    modifies db
    ensures db.tasks == old(db.tasks)
    ensures db.logs == old(db.logs) + EntryRows(o.taskId, entries[..LogsWritten(o, |entries|)])
    ensures err.Some? <==> LogsWritten(o, |entries|) < |entries|
    ensures err.Some? ==> err.value == o.logFault.value.detail
  {
    var k := 0;
    while k < |entries|
      invariant 0 <= k <= |entries|
      invariant o.logFault.Some? ==> o.logFault.value.at >= k
      invariant db.tasks == old(db.tasks)
      invariant db.logs == old(db.logs) + EntryRows(o.taskId, entries[..k])
    {
      err := db.InsertLog(EntryRow(o.taskId, entries[k]), LogFaultAt(o, k));
      if err.Some? {
        assert LogsWritten(o, |entries|) == k;
        return;
      }
      assert EntryRows(o.taskId, entries[..k + 1]) == EntryRows(o.taskId, entries[..k]) + [EntryRow(o.taskId, entries[k])];
      k := k + 1;
    }
    assert LogsWritten(o, |entries|) == |entries|;
    err := None;
  }

  /** Lines 275-284 of lib.rs: after `inserted += 1`, the `是` report, then the status update. */
  method FinishItem(db: Db, w: WorkItem, o: ItemOracle, calls0: seq<Call>, count0: nat)
    returns (calls: seq<Call>, count: nat, failure: Option<string>)
    modifies db
    ensures Ledger(db.tasks, db.logs, calls, count, failure)
         == Completed(Ledger(old(db.tasks), old(db.logs), calls0, count0, None), w, o)
  {
    count := count0;
    calls := calls0 + [Report(w.rowId, Yes)];
    var reported := WpsReader.UpdateWpsDate(o.report);
    if reported.Err? {
      return calls, count, Some(StatusFailedPrefix + reported.msg);
    }
    var err := db.UpdateStatusDone(o.taskId, o.updateFault);
    if err.Some? {
      return calls, count, Some(StatusFailedPrefix + err.value);
    }
    failure := None;
  }

  /** `execute_task`, with the search reply and the per-record oracles given. */
  method ExecuteTask(db: Db, reply: Result<Json>, env: nat -> ItemOracle)
    returns (result: Result<string>, calls: seq<Call>)
    modifies db
    ensures Outcome(db.tasks, db.logs, calls, result) == ExecuteSpec(old(db.tasks), old(db.logs), reply, env)
  {
    var fetched := WpsReader.FetchWpsData(reply);
    if fetched.Err? {
      return Err(FetchFailedPrefix + fetched.msg), [];
    }
    var found := Items(fetched.value);
    if found.None? {
      return Err(NoDataMessage), [];
    }
    var items := found.value;
    var inserted, failure;
    calls, inserted, failure := RunItems(db, items, env);
    result := if failure.Some? then Err(failure.value) else Ok(Summary(inserted));
  }

  /** The loop of lines 208-285 of lib.rs over the fetched records, stopping at the first failure. */
  method RunItems(db: Db, items: seq<Json>, env: nat -> ItemOracle)
    returns (calls: seq<Call>, inserted: nat, failure: Option<string>)
    modifies db
    ensures Ledger(db.tasks, db.logs, calls, inserted, failure) == Run(Ledger(old(db.tasks), old(db.logs), [], 0, None), items, env)
  {
    ghost var l0 := Ledger(db.tasks, db.logs, [], 0, None);
    inserted := 0;
    calls := [];
    var i := 0;
    while i < |items|
      invariant 0 <= i <= |items|
      invariant Run(l0, items[..i], env) == Ledger(db.tasks, db.logs, calls, inserted, None)
    {
      RunUnfold(l0, items, env, i);
      var w := Extract(items[i]);
      if w.Some? {
        calls, inserted, failure := DispatchOne(db, w.value, env(i), calls, inserted);
        if failure.Some? {
          RunStopsAtFailure(l0, items, env, i + 1, |items|);
          assert items[..|items|] == items;
          return;
        }
      }
      i := i + 1;
    }
    assert items[..i] == items;
    failure := None;
  }

  /** One more record is one more `Step`. */
  lemma RunUnfold(l: Ledger, items: seq<Json>, env: nat -> ItemOracle, i: nat)
    requires i < |items|
    ensures Run(l, items[..i + 1], env) == Step(Run(l, items[..i], env), items[i], env(i))
  {
    assert items[..i + 1][..i] == items[..i];
  }

  lemma StepAfterFailure(l: Ledger, item: Json, o: ItemOracle)
    requires l.failure.Some?
    ensures Step(l, item, o) == l
  {
  }

  /** After a failure nothing further happens: the invocation's state is the state at the failure. */
  lemma {:induction false} RunStopsAtFailure(l: Ledger, items: seq<Json>, env: nat -> ItemOracle, k: nat, n: nat)
    requires k <= n <= |items|
    requires Run(l, items[..k], env).failure.Some?
    ensures Run(l, items[..n], env) == Run(l, items[..k], env)
    decreases n
  {
    if n > k {
      RunStopsAtFailure(l, items, env, k, n - 1);
      RunUnfold(l, items, env, n - 1);
      StepAfterFailure(Run(l, items[..n - 1], env), items[n - 1], env(n - 1));
    }
  }
}
