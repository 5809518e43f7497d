/**
 * The two SQLite tables created in `setup` (lib.rs), as sequences of rows in
 * insertion order (the autoincrement `id` column is a row's position), and the
 * three writes the dispatcher issues. Whether a write fails is decided by the
 * database engine; it reaches the model as a `fault` argument.
 */
module Store {
  import opened Wrappers

  /** A row of `tasks` (`moduleName` is the `module` column): status 0 is pending/dispatched, 1 completed. */
  datatype TaskRow = TaskRow(taskId: string, runTime: string, sku: string, moduleName: string,
                             createTime: string, status: int)

  /** A row of `task_logs`, tied to its task by value only. */
  datatype LogRow = LogRow(taskId: string, logTime: string, message: string)

  /** `UPDATE tasks SET status = 1 WHERE task_id = id`: every row with that id is marked, nothing else moves. */
  function MarkDone(tasks: seq<TaskRow>, id: string): (r: seq<TaskRow>)
    ensures |r| == |tasks|
    ensures forall i :: 0 <= i < |tasks| && tasks[i].taskId == id ==> r[i] == tasks[i].(status := 1)
    ensures forall i :: 0 <= i < |tasks| && tasks[i].taskId != id ==> r[i] == tasks[i]
  {
    if tasks == [] then []
    else
      var rest := MarkDone(tasks[1..], id);
      [if tasks[0].taskId == id then tasks[0].(status := 1) else tasks[0]] + rest
  }

  /** The `tasks` column `status` only ever holds 0 or 1. */
  ghost predicate StatusesBinary(tasks: seq<TaskRow>)
  {
    forall i :: 0 <= i < |tasks| ==> tasks[i].status == 0 || tasks[i].status == 1
  }

  /** The database connection behind `Db(Mutex<Connection>)`, with its two tables. */
  class Db {
    var tasks: seq<TaskRow>
    var logs: seq<LogRow>

    /** A freshly created database file: both tables exist and are empty. */
    constructor ()
      ensures tasks == [] && logs == []
    {
      tasks := [];
      logs := [];
    }

    /** `INSERT INTO tasks ...`: appends `row` unless the engine reports `fault`. */
    method InsertTask(row: TaskRow, fault: Option<string>) returns (err: Option<string>)
      modifies this
      ensures err == fault && logs == old(logs)
      ensures tasks == if fault.None? then old(tasks) + [row] else old(tasks)
    {
      err := fault;
      if fault.None? {
        tasks := tasks + [row];
      }
    }

    /** `INSERT INTO task_logs ...`: appends `row` unless the engine reports `fault`. */
    method InsertLog(row: LogRow, fault: Option<string>) returns (err: Option<string>)
      modifies this
      ensures err == fault && tasks == old(tasks)
      ensures logs == if fault.None? then old(logs) + [row] else old(logs)
    {
      err := fault;
      if fault.None? {
        logs := logs + [row];
      }
    }

    /** `UPDATE tasks SET status = 1 WHERE task_id = ?1`, unless the engine reports `fault`. */
    method UpdateStatusDone(id: string, fault: Option<string>) returns (err: Option<string>)
      modifies this
      ensures err == fault && logs == old(logs)
      ensures tasks == if fault.None? then MarkDone(old(tasks), id) else old(tasks)
    {
      err := fault;
      if fault.None? {
        tasks := MarkDone(tasks, id);
      }
    }
  }
}
