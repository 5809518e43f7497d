/**
 * The task `start_cron` spawns: walk the schedule's upcoming fire times, sleep
 * until each one, run `execute_task` and drop its result.
 *
 * The fire times the schedule yields, the clock readings and what each run of
 * `execute_task` is told by the outside world are parameters.
 */
module CronTimer {
  import opened Wrappers
  import opened Json
  import opened Store
  import opened Dispatch
  import DispatchProperties
  import Cron

  /** The tables after the first `n` fires, each running `execute_task` with its own reply and oracles. */
  function TablesAfter(tasks: seq<TaskRow>, logs: seq<LogRow>, n: nat,
                       replies: nat -> Result<Json>, envs: nat -> nat -> ItemOracle): (r: (seq<TaskRow>, seq<LogRow>))
    ensures |tasks| <= |r.0|
  {
    if n == 0 then (tasks, logs)
    else
      var before := TablesAfter(tasks, logs, n - 1, replies, envs);
      var out := ExecuteSpec(before.0, before.1, replies(n - 1), envs(n - 1));
      (out.tasks, out.logs)
  }

  /**
   * The timer loop for a schedule that yields `upcoming`: before fire `i` it
   * reads the clock (`now(i)`) and sleeps `Delay(upcoming[i], now(i))`, then
   * runs `execute_task` against the database, whatever that run answers. The
   * waits are returned so their relation to the schedule can be stated.
   */
  method RunTimer(db: Db, upcoming: seq<int>, now: nat -> int,
                  replies: nat -> Result<Json>, envs: nat -> nat -> ItemOracle)
    returns (waits: seq<nat>)
    modifies db
    ensures |waits| == |upcoming|
    ensures forall i :: 0 <= i < |upcoming| ==> waits[i] == Cron.Delay(upcoming[i], now(i))
    ensures (db.tasks, db.logs) == TablesAfter(old(db.tasks), old(db.logs), |upcoming|, replies, envs)
  {
    ghost var tasks0, logs0 := db.tasks, db.logs;
    waits := [];
    var i := 0;
    while i < |upcoming|
      invariant 0 <= i <= |upcoming|
      invariant WaitsFor(waits, upcoming, now, i)
      invariant (db.tasks, db.logs) == TablesAfter(tasks0, logs0, i, replies, envs)
    {
      WaitsStep(waits, upcoming, now, i);
      waits := waits + [Cron.Delay(upcoming[i], now(i))];
      Fire(db, tasks0, logs0, i, replies, envs);
      i := i + 1;
    }
  }

  /** The first `i` waits of the loop, one per fire time. */
  ghost predicate WaitsFor(waits: seq<nat>, upcoming: seq<int>, now: nat -> int, i: nat)
  {
    && i <= |upcoming| && |waits| == i
    && forall j :: 0 <= j < i ==> waits[j] == Cron.Delay(upcoming[j], now(j))
  }

  lemma WaitsStep(waits: seq<nat>, upcoming: seq<int>, now: nat -> int, i: nat)
    requires WaitsFor(waits, upcoming, now, i) && i < |upcoming|
    ensures WaitsFor(waits + [Cron.Delay(upcoming[i], now(i))], upcoming, now, i + 1)
  {
  }

  /** Fire `n` of the timer: `execute_task` runs on the tables the earlier fires left, its result dropped. */
  method Fire(db: Db, ghost tasks0: seq<TaskRow>, ghost logs0: seq<LogRow>, n: nat,
              replies: nat -> Result<Json>, envs: nat -> nat -> ItemOracle)
    requires (db.tasks, db.logs) == TablesAfter(tasks0, logs0, n, replies, envs)
    modifies db
    ensures (db.tasks, db.logs) == TablesAfter(tasks0, logs0, n + 1, replies, envs)
  {
    ghost var before := (db.tasks, db.logs);
    var _, _ := ExecuteTask(db, replies(n), envs(n));
    ghost var out := ExecuteSpec(before.0, before.1, replies(n), envs(n));
    assert (db.tasks, db.logs) == (out.tasks, out.logs);
  }

  /**
   * Whatever the runs answer, the timer never removes or rewrites a task other
   * than marking it done, never removes a log, and keeps every status 0 or 1.
   */
  lemma {:induction false} TimerKeepsTables(tasks: seq<TaskRow>, logs: seq<LogRow>, n: nat,
                                            replies: nat -> Result<Json>, envs: nat -> nat -> ItemOracle)
    requires StatusesBinary(tasks)
    ensures DispatchProperties.RowsKept(tasks, TablesAfter(tasks, logs, n, replies, envs).0)
    ensures logs <= TablesAfter(tasks, logs, n, replies, envs).1
    ensures StatusesBinary(TablesAfter(tasks, logs, n, replies, envs).0)
  {
    if n > 0 {
      TimerKeepsTables(tasks, logs, n - 1, replies, envs);
      var before := TablesAfter(tasks, logs, n - 1, replies, envs);
      var out := ExecuteSpec(before.0, before.1, replies(n - 1), envs(n - 1));
      assert TablesAfter(tasks, logs, n, replies, envs) == (out.tasks, out.logs);
      ExecuteKeepsTables(before.0, before.1, replies(n - 1), envs(n - 1));
      TablesKeptTransitive(tasks, logs, before.0, before.1, out.tasks, out.logs);
    }
  }

  lemma TablesKeptTransitive(tasks0: seq<TaskRow>, logs0: seq<LogRow>, tasks1: seq<TaskRow>, logs1: seq<LogRow>,
                             tasks2: seq<TaskRow>, logs2: seq<LogRow>)
    requires DispatchProperties.RowsKept(tasks0, tasks1) && logs0 <= logs1
    requires DispatchProperties.RowsKept(tasks1, tasks2) && logs1 <= logs2
    ensures DispatchProperties.RowsKept(tasks0, tasks2) && logs0 <= logs2
  {
    DispatchProperties.KeepsTransitive(
      Ledger(tasks0, logs0, [], 0, None), Ledger(tasks1, logs1, [], 0, None), Ledger(tasks2, logs2, [], 0, None));
  }

  /** One `execute_task` run keeps the tables in the same sense. */
  lemma ExecuteKeepsTables(tasks: seq<TaskRow>, logs: seq<LogRow>, reply: Result<Json>, env: nat -> ItemOracle)
    requires StatusesBinary(tasks)
    ensures var out := ExecuteSpec(tasks, logs, reply, env);
            DispatchProperties.RowsKept(tasks, out.tasks) && logs <= out.logs && StatusesBinary(out.tasks)
  {
    var fetched := WpsReader.FetchWpsData(reply);
    if fetched.Ok? && Items(fetched.value).Some? {
      var items := Items(fetched.value).value;
      var l := Ledger(tasks, logs, [], 0, None);
      DispatchProperties.EarlierWritesStay(l, items, env, 0);
      assert items[..0] == [];
      DispatchProperties.StatusesStayBinary(l, items, env);
    } else {
      assert DispatchProperties.RowsKept(tasks, tasks);
    }
  }
}
