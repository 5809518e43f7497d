/**
 * What `execute_task` guarantees, stated over its specification `Dispatch.Run`
 * and `Dispatch.ExecuteSpec`: the skip rule, the two paths a dispatched record
 * can take, the order of the report and the status update, what the counter
 * counts, and that a failure keeps everything written before it.
 */
module DispatchProperties {
  import opened Wrappers
  import opened Json
  import opened Store
  import opened Dispatch

  /** The guard of lib.rs:209-220: a record with `fields` and a non-empty SKU and template. */
  predicate Dispatchable(item: Json)
  {
    var fields := Get(item, "fields");
    fields.Some? && StrOr(fields.value, SkuKey, "") != "" && StrOr(fields.value, ModuleKey, "") != ""
  }

  /** A dispatched record reaches `inserted += 1`: stored, answered without error, all its logs stored. */
  predicate Completes(o: ItemOracle)
  {
    && o.insertFault.None?
    && o.reply.Ok?
    && !IsErrorReply(ReplyJson(o.reply.value))
    && LogsWritten(o, |WorkerLogs(ReplyJson(o.reply.value))|) == |WorkerLogs(ReplyJson(o.reply.value))|
  }

  /** The records of `items` that were dispatched and completed. */
  function CompletedCount(items: seq<Json>, env: nat -> ItemOracle): nat
    decreases |items|
  {
    if items == [] then 0
    else
      var i := |items| - 1;
      CompletedCount(items[..i], env) + (if Dispatchable(items[i]) && Completes(env(i)) then 1 else 0)
  }

  /** The `是` reports in a call trace. */
  function YesReports(calls: seq<Call>): nat
    decreases |calls|
  {
    if calls == [] then 0
    else YesReports(calls[..|calls| - 1]) + (if calls[|calls| - 1].Report? && calls[|calls| - 1].flag == Yes then 1 else 0)
  }

  lemma {:induction false} YesReportsAppend(a: seq<Call>, b: seq<Call>)
    ensures YesReports(a + b) == YesReports(a) + YesReports(b)
    decreases |b|
  {
    if b == [] {
      assert a + b == a;
    } else {
      var b' := b[..|b| - 1];
      assert (a + b)[..|a + b| - 1] == a + b';
      assert (a + b)[|a + b| - 1] == b[|b| - 1];
      YesReportsAppend(a, b');
    }
  }

  /** Tasks rows are never removed or reordered, and a row changes at most by its status becoming 1. */
  ghost predicate RowsKept(before: seq<TaskRow>, after: seq<TaskRow>)
  {
    && |before| <= |after|
    && forall i :: 0 <= i < |before| ==> after[i] == before[i] || after[i] == before[i].(status := 1)
  }

  /** Everything in `a` is still in `b`: table rows (up to completion), log rows and calls as prefixes. */
  ghost predicate Keeps(a: Ledger, b: Ledger)
  {
    && RowsKept(a.tasks, b.tasks)
    && a.logs <= b.logs
    && a.calls <= b.calls
    && a.count <= b.count
  }

  // ---------------------------------------------------------------- one record

  /**
   * A record lacking `fields`, a SKU or a template is skipped without a trace: no
   * task, no log, no call. Every other record leaves one.
   */
  lemma SkipRule(l: Ledger, item: Json, o: ItemOracle)
    requires l.failure.None?
    ensures Step(l, item, o) == l <==> !Dispatchable(item)
    ensures Dispatchable(item) && o.insertFault.None? ==>
              && |Step(l, item, o).tasks| == |l.tasks| + 1
              && |Step(l, item, o).calls| > |l.calls|
              && Step(l, item, o).calls[|l.calls|] == PostWorker(Get(item, "fields").value)
  {
    if Dispatchable(item) {
      var w := Extract(item).value;
      var r := DispatchItem(l, w, o);
      if o.insertFault.None? {
        assert |r.tasks| > |l.tasks|;
      }
    }
  }

  /**
   * Worker answers `status: "error"`: exactly one log row, `任务执行失败: ` and the
   * worker's message (or `未知错误`); the task row stays at status 0; a `否` report
   * follows; the counter does not move.
   */
  lemma ErrorPath(l: Ledger, w: WorkItem, o: ItemOracle)
    requires o.insertFault.None? && o.reply.Ok? && IsErrorReply(ReplyJson(o.reply.value))
    requires LogFaultAt(o, 0).None?
    ensures DispatchItem(l, w, o).tasks == l.tasks + [TaskRow(o.taskId, o.runTime, w.sku, w.moduleName, w.createTime, 0)]
    ensures DispatchItem(l, w, o).logs
         == l.logs + [LogRow(o.taskId, o.errorTime, "任务执行失败: " + StrOr(ReplyJson(o.reply.value), "message", "未知错误"))]
    ensures DispatchItem(l, w, o).calls == l.calls + [PostWorker(w.fields), Report(w.rowId, "否")]
    ensures DispatchItem(l, w, o).count == l.count
    ensures DispatchItem(l, w, o).failure.None? <==> l.failure.None? && o.report.Ok?
  {
  }

  /**
   * Worker answers anything else with N log entries: N log rows in the worker's
   * order, each with the entry's time and message (or the defaults); the counter
   * goes up; a `是` report; and the task row is marked done.
   */
  lemma SuccessPath(l: Ledger, w: WorkItem, o: ItemOracle)
    requires l.failure.None? && Completes(o) && o.report.Ok? && o.updateFault.None?
    ensures |DispatchItem(l, w, o).logs| == |l.logs| + |WorkerLogs(ReplyJson(o.reply.value))|
    ensures DispatchItem(l, w, o).logs[..|l.logs|] == l.logs
    ensures forall i :: 0 <= i < |WorkerLogs(ReplyJson(o.reply.value))| ==>
              var entry := WorkerLogs(ReplyJson(o.reply.value))[i];
              var row := DispatchItem(l, w, o).logs[|l.logs| + i];
              && row.taskId == o.taskId
              && row.logTime == (if At(entry, 0).JStr? then At(entry, 0).s else "")
              && row.message == (if At(entry, 1).JStr? then At(entry, 1).s else "无日志信息")
    ensures DispatchItem(l, w, o).calls == l.calls + [PostWorker(w.fields), Report(w.rowId, "是")]
    ensures DispatchItem(l, w, o).count == l.count + 1
    ensures DispatchItem(l, w, o).failure.None?
    ensures |DispatchItem(l, w, o).tasks| == |l.tasks| + 1
    ensures DispatchItem(l, w, o).tasks[|l.tasks|] == TaskRow(o.taskId, o.runTime, w.sku, w.moduleName, w.createTime, 1)
  {
    var entries := WorkerLogs(ReplyJson(o.reply.value));
    SuccessLedger(l, w, o);
    assert |EntryRows(o.taskId, entries)| == |entries|;
  }

  /** The ledger after a completed record whose report and status update succeed. */
  lemma SuccessLedger(l: Ledger, w: WorkItem, o: ItemOracle)
    requires l.failure.None? && Completes(o) && o.report.Ok? && o.updateFault.None?
    ensures DispatchItem(l, w, o)
         == Ledger(MarkDone(l.tasks + [NewTask(w, o)], o.taskId),
                   l.logs + EntryRows(o.taskId, WorkerLogs(ReplyJson(o.reply.value))),
                   l.calls + [PostWorker(w.fields), Report(w.rowId, Yes)], l.count + 1, None)
  {
    var resp := ReplyJson(o.reply.value);
    var entries := WorkerLogs(resp);
    assert entries[..|entries|] == entries;
    var l1 := l.(tasks := l.tasks + [NewTask(w, o)], calls := l.calls + [PostWorker(w.fields)]);
    assert DispatchItem(l, w, o) == WorkerSucceeded(l1, w, o, resp);
  }

  /** A worker body that is not JSON is read as `{}`: the success path, with no log rows. */
  lemma UnparsableReplyCompletes(l: Ledger, w: WorkItem, o: ItemOracle)
    requires o.insertFault.None? && o.reply == Ok(None)
    ensures Completes(o)
    ensures DispatchItem(l, w, o).logs == l.logs
    ensures DispatchItem(l, w, o).count == l.count + 1
  {
    assert WorkerLogs(EmptyObject) == [];
  }

  /**
   * The `是` report comes before the status update: when the report fails the run
   * stops with the counter already incremented and the task row still at status 0.
   */
  lemma ReportBeforeStatusUpdate(l: Ledger, w: WorkItem, o: ItemOracle)
    requires Completes(o) && o.report.Err?
    ensures DispatchItem(l, w, o).tasks == l.tasks + [TaskRow(o.taskId, o.runTime, w.sku, w.moduleName, w.createTime, 0)]
    ensures DispatchItem(l, w, o).calls == l.calls + [PostWorker(w.fields), Report(w.rowId, "是")]
    ensures DispatchItem(l, w, o).count == l.count + 1
    ensures DispatchItem(l, w, o).failure == Some("更新任务状态失败: " + o.report.msg)
  {
  }

  /** Rows other than those with task id `id` are untouched; those may only become completed. */
  ghost predicate OnlyMarks(before: seq<TaskRow>, after: seq<TaskRow>, id: string)
  {
    && |before| <= |after|
    && forall k :: 0 <= k < |before| ==>
         after[k] == before[k] || (before[k].taskId == id && after[k] == before[k].(status := 1))
  }

  /** What every part of a record's processing keeps: `Keeps`, only its own id marked, counter in step with `是` reports. */
  ghost predicate Advances(a: Ledger, b: Ledger, id: string)
  {
    && Keeps(a, b)
    && OnlyMarks(a.tasks, b.tasks, id)
    && b.count + YesReports(a.calls) == a.count + YesReports(b.calls)
  }

  lemma AdvancesTransitive(a: Ledger, b: Ledger, c: Ledger, id: string)
    requires Advances(a, b, id) && Advances(b, c, id)
    ensures Advances(a, c, id)
  {
    KeepsTransitive(a, b, c);
  }

  lemma SendReportAdvances(l: Ledger, rowId: string, flag: string, reply: Result<Json>)
    ensures SendReport(l, rowId, flag, reply).calls == l.calls + [Report(rowId, flag)]
    ensures YesReports(SendReport(l, rowId, flag, reply).calls) == YesReports(l.calls) + (if flag == Yes then 1 else 0)
    ensures SendReport(l, rowId, flag, reply).count == l.count
    ensures Keeps(l, SendReport(l, rowId, flag, reply))
    ensures OnlyMarks(l.tasks, SendReport(l, rowId, flag, reply).tasks, rowId)
  {
    var calls := l.calls + [Report(rowId, flag)];
    assert calls[..|calls| - 1] == l.calls;
  }

  lemma CompletedAdvances(l: Ledger, w: WorkItem, o: ItemOracle)
    ensures Completed(l, w, o).count == l.count
    ensures YesReports(Completed(l, w, o).calls) == YesReports(l.calls) + 1
    ensures Keeps(l, Completed(l, w, o))
    ensures OnlyMarks(l.tasks, Completed(l, w, o).tasks, o.taskId)
  {
    SendReportAdvances(l, w.rowId, Yes, o.report);
  }

  lemma WorkerFailedAdvances(l: Ledger, w: WorkItem, o: ItemOracle, resp: Json)
    ensures WorkerFailed(l, w, o, resp).count == l.count
    ensures Advances(l, WorkerFailed(l, w, o, resp), o.taskId)
  {
    if LogFaultAt(o, 0).None? {
      var l' := l.(logs := l.logs + [FailureRow(o, resp)]);
      SendReportAdvances(l', w.rowId, No, o.report);
      AdvancesTransitive(l, l', WorkerFailed(l, w, o, resp), o.taskId);
    }
  }

  lemma WorkerSucceededAdvances(l: Ledger, w: WorkItem, o: ItemOracle, resp: Json)
    ensures WorkerSucceeded(l, w, o, resp).count
         == l.count + (if LogsWritten(o, |WorkerLogs(resp)|) == |WorkerLogs(resp)| then 1 else 0)
    ensures Advances(l, WorkerSucceeded(l, w, o, resp), o.taskId)
  {
    var entries := WorkerLogs(resp);
    var n := LogsWritten(o, |entries|);
    var l2 := l.(logs := l.logs + EntryRows(o.taskId, entries[..n]));
    assert Advances(l, l2, o.taskId);
    if n == |entries| {
      var l2' := l2.(count := l2.count + 1);
      CompletedAdvances(l2', w, o);
      assert Advances(l2, Completed(l2', w, o), o.taskId);
      AdvancesTransitive(l, l2, Completed(l2', w, o), o.taskId);
    }
  }

  lemma PostedAdvances(l: Ledger, w: WorkItem, o: ItemOracle)
    ensures Posted(l, w, o).count
         == l.count + (if o.reply.Ok? && !IsErrorReply(ReplyJson(o.reply.value))
                          && LogsWritten(o, |WorkerLogs(ReplyJson(o.reply.value))|) == |WorkerLogs(ReplyJson(o.reply.value))|
                       then 1 else 0)
    ensures Advances(l, Posted(l, w, o), o.taskId)
  {
    if o.reply.Ok? {
      var resp := ReplyJson(o.reply.value);
      if IsErrorReply(resp) {
        WorkerFailedAdvances(l, w, o, resp);
      } else {
        WorkerSucceededAdvances(l, w, o, resp);
      }
    }
  }

  /** The counter moves by one exactly for a record that completes, whatever happens after. */
  lemma CountStep(l: Ledger, w: WorkItem, o: ItemOracle)
    ensures DispatchItem(l, w, o).count == l.count + (if Completes(o) then 1 else 0)
    ensures Advances(l, DispatchItem(l, w, o), o.taskId)
  {
    if o.insertFault.None? {
      var post := [PostWorker(w.fields)];
      var l1 := l.(tasks := l.tasks + [NewTask(w, o)], calls := l.calls + post);
      YesReportsAppend(l.calls, post);
      assert YesReports(post) == 0 by { assert post[..0] == []; }
      assert Advances(l, l1, o.taskId);
      PostedAdvances(l1, w, o);
      AdvancesTransitive(l, l1, Posted(l1, w, o), o.taskId);
    }
  }

  // ---------------------------------------------------------------- a whole invocation

  lemma StepKeeps(l: Ledger, item: Json, o: ItemOracle)
    ensures Advances(l, Step(l, item, o), o.taskId)
    ensures l.failure.Some? ==> Step(l, item, o) == l
  {
    if l.failure.None? && Extract(item).Some? {
      CountStep(l, Extract(item).value, o);
    }
  }

  lemma KeepsTransitive(a: Ledger, b: Ledger, c: Ledger)
    requires Keeps(a, b) && Keeps(b, c)
    ensures Keeps(a, c)
  {
    assert a.logs <= c.logs by { assert c.logs[..|a.logs|] == b.logs[..|b.logs|][..|a.logs|]; }
  }

  /**
   * Abort-on-error keeps earlier writes: the state after any prefix of the records
   * survives in the final state (rows only ever gain status 1; logs and calls are
   * prefixes).
   */
  lemma {:induction false} EarlierWritesStay(l: Ledger, items: seq<Json>, env: nat -> ItemOracle, k: nat)
    requires k <= |items|
    ensures Keeps(Run(l, items[..k], env), Run(l, items, env))
    decreases |items|
  {
    if k < |items| {
      var n := |items| - 1;
      var prev := Run(l, items[..n], env);
      var last := Run(l, items, env);
      assert last == Step(prev, items[n], env(n));
      assert items[..n][..k] == items[..k];
      EarlierWritesStay(l, items[..n], env, k);
      StepKeeps(prev, items[n], env(n));
      KeepsTransitive(Run(l, items[..k], env), prev, last);
    } else {
      assert items[..k] == items;
    }
  }

  /** The counter equals the number of `是` reports the invocation sent. */
  lemma {:induction false} CountIsYesReports(l: Ledger, items: seq<Json>, env: nat -> ItemOracle)
    ensures Run(l, items, env).count + YesReports(l.calls) == l.count + YesReports(Run(l, items, env).calls)
    decreases |items|
  {
    if items != [] {
      var n := |items| - 1;
      CountIsYesReports(l, items[..n], env);
      StepKeeps(Run(l, items[..n], env), items[n], env(n));
    }
  }

  /** When nothing failed, the counter counts exactly the dispatched records that completed. */
  lemma {:induction false} CountIsCompleted(l: Ledger, items: seq<Json>, env: nat -> ItemOracle)
    requires Run(l, items, env).failure.None?
    ensures Run(l, items, env).count == l.count + CompletedCount(items, env)
    decreases |items|
  {
    if items != [] {
      var n := |items| - 1;
      var before := Run(l, items[..n], env);
      StepKeeps(before, items[n], env(n));
      CountIsCompleted(l, items[..n], env);
      if Extract(items[n]).Some? {
        CountStep(before, Extract(items[n]).value, env(n));
      }
    }
  }

  /** A run that starts with binary statuses ends with binary statuses. */
  lemma {:induction false} StatusesStayBinary(l: Ledger, items: seq<Json>, env: nat -> ItemOracle)
    requires StatusesBinary(l.tasks)
    ensures StatusesBinary(Run(l, items, env).tasks)
    decreases |items|
  {
    if items != [] {
      var n := |items| - 1;
      StatusesStayBinary(l, items[..n], env);
      StepStatusesBinary(Run(l, items[..n], env), items[n], env(n));
    }
  }

  /** One record keeps every status 0 or 1: old rows are at most marked, a new row starts at 0. */
  lemma StepStatusesBinary(l: Ledger, item: Json, o: ItemOracle)
    requires StatusesBinary(l.tasks)
    ensures StatusesBinary(Step(l, item, o).tasks)
  {
    if l.failure.None? && Extract(item).Some? {
      var w := Extract(item).value;
      var grown := l.tasks + [NewTask(w, o)];
      DispatchTasks(l, w, o);
      assert StatusesBinary(grown);
    }
  }

  /** A record's turn leaves the task table as it was, with the new row, or with the new row marked done. */
  lemma DispatchTasks(l: Ledger, w: WorkItem, o: ItemOracle)
    ensures var t := DispatchItem(l, w, o).tasks;
            || t == l.tasks
            || t == l.tasks + [NewTask(w, o)]
            || t == MarkDone(l.tasks + [NewTask(w, o)], o.taskId)
  {
    if o.insertFault.None? && o.reply.Ok? {
      var l1 := l.(tasks := l.tasks + [NewTask(w, o)], calls := l.calls + [PostWorker(w.fields)]);
      var resp := ReplyJson(o.reply.value);
      if !IsErrorReply(resp) {
        assert DispatchItem(l, w, o) == WorkerSucceeded(l1, w, o, resp);
      }
    }
  }

  /** With task ids fresh against the existing rows, the existing rows are left exactly as they were. */
  lemma {:induction false} FreshIdsLeaveOldRows(l: Ledger, items: seq<Json>, env: nat -> ItemOracle)
    requires forall i, k :: 0 <= i < |items| && 0 <= k < |l.tasks| ==> l.tasks[k].taskId != env(i).taskId
    ensures |l.tasks| <= |Run(l, items, env).tasks|
    ensures Run(l, items, env).tasks[..|l.tasks|] == l.tasks
    decreases |items|
  {
    if items != [] {
      var n := |items| - 1;
      FreshIdsLeaveOldRows(l, items[..n], env);
      var before := Run(l, items[..n], env);
      StepKeeps(before, items[n], env(n));
      var after := Run(l, items, env);
      forall k | 0 <= k < |l.tasks|
        ensures after.tasks[k] == l.tasks[k]
      {
        assert before.tasks[k] == l.tasks[k];
      }
    }
  }

  /**
   * No item array (the `Error` envelope, or `data` missing or not an array): the
   * invocation fails and writes nothing, posts nothing and reports nothing.
   */
  lemma NoItemsNoEffect(tasks: seq<TaskRow>, logs: seq<LogRow>, reply: Result<Json>, env: nat -> ItemOracle)
    requires reply.Err? || Items(WpsReader.SearchEnvelope(reply.value)).None?
    ensures var out := ExecuteSpec(tasks, logs, reply, env);
            out.tasks == tasks && out.logs == logs && out.calls == [] && out.result.Err?
  {
  }

  /** A successful invocation reports, in decimal, the number of records that completed. */
  lemma SuccessReportsCompleted(tasks: seq<TaskRow>, logs: seq<LogRow>, reply: Result<Json>, env: nat -> ItemOracle)
    requires ExecuteSpec(tasks, logs, reply, env).result.Ok?
    ensures reply.Ok? && Items(WpsReader.SearchEnvelope(reply.value)).Some?
    ensures var items := Items(WpsReader.SearchEnvelope(reply.value)).value;
            ExecuteSpec(tasks, logs, reply, env).result == Ok(Summary(CompletedCount(items, env)))
  {
    var items := Items(WpsReader.SearchEnvelope(reply.value)).value;
    CountIsCompleted(Ledger(tasks, logs, [], 0, None), items, env);
  }

  // ---------------------------------------------------------------- one record end to end

  function ScenarioFields(): Json
  {
    JObj(map["SKU" := JStr("A1"), "调用PS模版" := JStr("tmplX")])
  }

  function ScenarioItem(): Json
  {
    JObj(map["id" := JStr("r1"), "fields" := ScenarioFields()])
  }

  /** The spreadsheet's search reply carrying the one record. */
  function ScenarioReply(): Json
  {
    JObj(map["data" := JObj(map["result" := JObj(map["data" := JArr([ScenarioItem()])])])])
  }

  function ScenarioEntries(): seq<Json>
  {
    [JArr([JStr("t1"), JStr("started")]), JArr([JStr("t2"), JStr("done")])]
  }

  /** `{"status":"ok","logs":[["t1","started"],["t2","done"]]}`. */
  function ScenarioWorker(): Json
  {
    JObj(map["status" := JStr("ok"), "logs" := JArr(ScenarioEntries())])
  }

  function ScenarioOracle(taskId: string, runTime: string): ItemOracle
  {
    ItemOracle(taskId, runTime, "", None, Ok(Some(ScenarioWorker())), None, Ok(JObj(map["status" := JNum(0)])), None)
  }

  lemma ScenarioRecord()
    ensures Items(WpsReader.SearchEnvelope(ScenarioReply())) == Some([ScenarioItem()])
    ensures Extract(ScenarioItem()) == Some(WorkItem("r1", "A1", "tmplX", "", ScenarioFields()))
  {
    var rows := JArr([ScenarioItem()]);
    assert WpsReader.ResultRows(ScenarioReply()) == Some(rows);
    WpsReader.EnvelopeItems(ScenarioReply());
    assert Get(ScenarioItem(), "fields") == Some(ScenarioFields());
    assert StrOr(ScenarioFields(), SkuKey, "") == "A1";
    assert StrOr(ScenarioFields(), ModuleKey, "") == "tmplX";
    assert StrOr(ScenarioFields(), CreateTimeKey, "") == "";
    assert StrOr(ScenarioItem(), "id", "") == "r1";
  }

  lemma ScenarioWorkerReply(taskId: string)
    ensures !IsErrorReply(ScenarioWorker())
    ensures WorkerLogs(ScenarioWorker()) == ScenarioEntries()
    ensures EntryRows(taskId, ScenarioEntries()) == [LogRow(taskId, "t1", "started"), LogRow(taskId, "t2", "done")]
  {
    assert Get(ScenarioWorker(), "status") == Some(JStr("ok"));
    assert Get(ScenarioWorker(), "logs") == Some(JArr(ScenarioEntries()));
  }

  /** The record's turn of the loop. */
  lemma ScenarioDispatch(taskId: string, runTime: string)
    ensures DispatchItem(Ledger([], [], [], 0, None), WorkItem("r1", "A1", "tmplX", "", ScenarioFields()),
                         ScenarioOracle(taskId, runTime))
         == Ledger([TaskRow(taskId, runTime, "A1", "tmplX", "", 1)],
                   [LogRow(taskId, "t1", "started"), LogRow(taskId, "t2", "done")],
                   [PostWorker(ScenarioFields()), Report("r1", "是")], 1, None)
  {
    var o := ScenarioOracle(taskId, runTime);
    var w := WorkItem("r1", "A1", "tmplX", "", ScenarioFields());
    ScenarioWorkerReply(taskId);
    var row := TaskRow(taskId, runTime, "A1", "tmplX", "", 0);
    var l1 := Ledger([row], [], [PostWorker(ScenarioFields())], 0, None);
    assert ReplyJson(o.reply.value) == ScenarioWorker();
    assert LogsWritten(o, 2) == 2;
    assert ScenarioEntries()[..2] == ScenarioEntries();
    var l2 := l1.(logs := [LogRow(taskId, "t1", "started"), LogRow(taskId, "t2", "done")], count := 1);
    assert WorkerSucceeded(l1, w, o, ScenarioWorker()) == Completed(l2, w, o);
    var l3 := l2.(calls := l2.calls + [Report("r1", Yes)]);
    assert SendReport(l2, "r1", Yes, o.report) == l3;
    assert MarkDone([row], taskId) == [row.(status := 1)];
  }

  /**
   * One pending record with SKU `A1` and template `tmplX`, and a worker that
   * answers with two log entries: one completed task, its two log rows in the
   * worker's order, one post and one `是` report, and the summary counts one task.
   */
  lemma OneRecordScenario(taskId: string, runTime: string, env: nat -> ItemOracle)
    requires env(0) == ScenarioOracle(taskId, runTime)
    ensures ExecuteSpec([], [], Ok(ScenarioReply()), env)
         == Outcome([TaskRow(taskId, runTime, "A1", "tmplX", "", 1)],
                    [LogRow(taskId, "t1", "started"), LogRow(taskId, "t2", "done")],
                    [PostWorker(ScenarioFields()), Report("r1", "是")],
                    Ok("任务执行完成, 共插入 1 条任务"))
  {
    var l0 := Ledger([], [], [], 0, None);
    var l1 := Ledger([TaskRow(taskId, runTime, "A1", "tmplX", "", 1)],
                     [LogRow(taskId, "t1", "started"), LogRow(taskId, "t2", "done")],
                     [PostWorker(ScenarioFields()), Report("r1", "是")], 1, None);
    ScenarioRecord();
    ScenarioRun(taskId, runTime, env);
    assert WpsReader.FetchWpsData(Ok(ScenarioReply())) == Ok(WpsReader.SearchEnvelope(ScenarioReply()));
    assert ExecuteSpec([], [], Ok(ScenarioReply()), env) == Outcome(l1.tasks, l1.logs, l1.calls, Ok(Summary(1)));
    SummaryOne();
  }

  /** The loop over the one record is that record's turn. */
  lemma ScenarioRun(taskId: string, runTime: string, env: nat -> ItemOracle)
    requires env(0) == ScenarioOracle(taskId, runTime)
    ensures Run(Ledger([], [], [], 0, None), [ScenarioItem()], env)
         == Ledger([TaskRow(taskId, runTime, "A1", "tmplX", "", 1)],
                   [LogRow(taskId, "t1", "started"), LogRow(taskId, "t2", "done")],
                   [PostWorker(ScenarioFields()), Report("r1", "是")], 1, None)
  {
    var l0 := Ledger([], [], [], 0, None);
    ScenarioRecord();
    ScenarioDispatch(taskId, runTime);
    assert [ScenarioItem()][..0] == [];
    assert Step(l0, ScenarioItem(), env(0))
        == DispatchItem(l0, WorkItem("r1", "A1", "tmplX", "", ScenarioFields()), ScenarioOracle(taskId, runTime));
  }

  lemma SummaryOne()
    ensures Summary(1) == "任务执行完成, 共插入 1 条任务"
  {
    assert Decimal(1) == "1";
  }
}
