/**
 * `get_task_list` and `get_task_logs` (lib.rs): the SQL they hand to SQLite and
 * what SQLite answers, over the two tables. The engine's part is modelled as
 * functions: `LIKE` as SQLite evaluates it by default (`%`, `_`, ASCII letters
 * matched without regard to case), text ordering as the BINARY collation
 * (code-point order), and `ORDER BY` as a sort whose order among equal keys is
 * one the engine is free to choose.
 */
module Query {
  import opened Wrappers
  import opened Json
  import opened Store

  // ---------------------------------------------------------------- LIKE

  function LowerAscii(c: char): char
  {
    if 'A' <= c <= 'Z' then (c as int + 32) as char else c
  }

  /** SQLite's `text LIKE pattern` without an ESCAPE clause. */
  predicate Like(text: string, pattern: string)
    ensures Like(text, pattern) && NoWildcards(pattern) ==> |text| == |pattern|
    decreases |text| + |pattern|
  {
    if pattern == [] then text == []
    else if pattern[0] == '%' then Like(text, pattern[1..]) || (text != [] && Like(text[1..], pattern))
    else text != [] && (pattern[0] == '_' || LowerAscii(text[0]) == LowerAscii(pattern[0]))
         && Like(text[1..], pattern[1..])
  }

  /** The bind `format!("%{}%", s)`. */
  function Pattern(s: string): string
  {
    "%" + s + "%"
  }

  predicate NoWildcards(s: string)
  {
    forall i :: 0 <= i < |s| ==> s[i] != '%' && s[i] != '_'
  }

  /** `s` matches the start of `t`, ASCII letters compared without case. */
  predicate FoldedPrefix(t: string, s: string)
  {
    |s| <= |t| && forall i :: 0 <= i < |s| ==> LowerAscii(t[i]) == LowerAscii(s[i])
  }

  /** `s` occurs somewhere in `t`, ASCII letters compared without case. */
  predicate ContainsFolded(t: string, s: string)
  {
    exists k :: 0 <= k <= |t| && FoldedPrefix(t[k..], s)
  }

  lemma {:induction false} PercentMatchesAll(t: string)
    ensures Like(t, "%")
    decreases |t|
  {
    if t != [] {
      PercentMatchesAll(t[1..]);
    }
  }

  lemma {:induction false} WordThenPercent(t: string, s: string)
    requires NoWildcards(s)
    ensures Like(t, s + "%") <==> FoldedPrefix(t, s)
    decreases |s|
  {
    if s == [] {
      assert s + "%" == "%";
      PercentMatchesAll(t);
    } else {
      assert (s + "%")[1..] == s[1..] + "%";
      if t != [] {
        WordThenPercent(t[1..], s[1..]);
        if FoldedPrefix(t[1..], s[1..]) && LowerAscii(t[0]) == LowerAscii(s[0]) {
          assert FoldedPrefix(t, s);
        }
      }
    }
  }

  lemma {:induction false} PercentThen(t: string, q: string)
    ensures Like(t, "%" + q) <==> exists k :: 0 <= k <= |t| && Like(t[k..], q)
    decreases |t|
  {
    var p := "%" + q;
    assert p[1..] == q;
    assert t[0..] == t;
    if t != [] {
      PercentThen(t[1..], q);
      if Like(t[1..], p) {
        var k' :| 0 <= k' <= |t[1..]| && Like(t[1..][k'..], q);
        assert t[1..][k'..] == t[k' + 1..];
      }
      if k :| 0 <= k <= |t| && Like(t[k..], q) {
        if k > 0 {
          assert t[1..][k - 1..] == t[k..];
        }
      }
    } else {
      if k :| 0 <= k <= |t| && Like(t[k..], q) {
        assert t[k..] == t;
      }
    }
  }

  /** A filter without wildcards selects the values that contain it, ASCII letters compared without case. */
  lemma LikeIsContainment(t: string, s: string)
    requires NoWildcards(s)
    ensures Like(t, Pattern(s)) <==> ContainsFolded(t, s)
  {
    assert Pattern(s) == "%" + (s + "%");
    PercentThen(t, s + "%");
    forall k | 0 <= k <= |t|
      ensures Like(t[k..], s + "%") <==> FoldedPrefix(t[k..], s)
    {
      WordThenPercent(t[k..], s);
    }
  }

  /** Every value matches itself as a pattern: `%` and `_` in it match themselves. */
  lemma {:induction false} LikeSelf(t: string)
    ensures Like(t, t)
    decreases |t|
  {
    if t != [] {
      LikeSelf(t[1..]);
      if t[0] == '%' {
        assert Like(t[1..], t[1..]);
        assert Like(t[1..], t);
      }
    }
  }

  lemma {:induction false} LikeThenPercent(t: string, p: string)
    requires Like(t, p)
    ensures Like(t, p + "%")
    decreases |t| + |p|
  {
    if p == [] {
      assert p + "%" == "%";
      PercentMatchesAll(t);
    } else {
      assert (p + "%")[1..] == p[1..] + "%";
      if p[0] == '%' {
        if Like(t, p[1..]) {
          LikeThenPercent(t, p[1..]);
        } else {
          LikeThenPercent(t[1..], p);
        }
      } else {
        LikeThenPercent(t[1..], p[1..]);
      }
    }
  }

  /** A value always matches the filter made from itself. */
  lemma SelfPatternMatches(t: string)
    ensures Like(t, Pattern(t))
  {
    LikeSelf(t);
    LikeThenPercent(t, t);
    assert Pattern(t) == "%" + (t + "%");
    PercentThen(t, t + "%");
    assert t[0..] == t;
  }

  // ---------------------------------------------------------------- ordering

  /** SQLite's BINARY collation on text: code-point order, a proper prefix first. */
  predicate TextLe(a: string, b: string)
    ensures a <= b ==> TextLe(a, b)
    decreases |a|
  {
    if a == [] then true
    else if b == [] then false
    else if a[0] != b[0] then a[0] < b[0]
    else TextLe(a[1..], b[1..])
  }

  lemma {:induction false} TextLeTotal(a: string, b: string)
    ensures TextLe(a, b) || TextLe(b, a)
    decreases |a|
  {
    if a != [] && b != [] && a[0] == b[0] {
      TextLeTotal(a[1..], b[1..]);
    }
  }

  lemma {:induction false} TextLeAntisymmetric(a: string, b: string)
    requires TextLe(a, b) && TextLe(b, a)
    ensures a == b
    decreases |a|
  {
    if a != [] && b != [] {
      TextLeAntisymmetric(a[1..], b[1..]);
    }
  }

  lemma {:induction false} TextLeTransitive(a: string, b: string, c: string)
    requires TextLe(a, b) && TextLe(b, c)
    ensures TextLe(a, c)
    decreases |a|
  {
    if a != [] && b != [] && c != [] && a[0] == b[0] && b[0] == c[0] {
      TextLeTransitive(a[1..], b[1..], c[1..]);
    }
  }

  /** `a` may come before `b` under `ORDER BY key ASC` (or `DESC`). */
  predicate InOrder(a: string, b: string, ascending: bool)
  {
    if ascending then TextLe(a, b) else TextLe(b, a)
  }

  lemma InOrderTotal(a: string, b: string, ascending: bool)
    ensures InOrder(a, b, ascending) || InOrder(b, a, ascending)
  {
    TextLeTotal(a, b);
  }

  lemma InOrderTransitive(a: string, b: string, c: string, ascending: bool)
    requires InOrder(a, b, ascending) && InOrder(b, c, ascending)
    ensures InOrder(a, c, ascending)
  {
    if ascending { TextLeTransitive(a, b, c); } else { TextLeTransitive(c, b, a); }
  }

  ghost predicate SortedBy<T>(s: seq<T>, key: T -> string, ascending: bool)
  {
    forall i, j :: 0 <= i < j < |s| ==> InOrder(key(s[i]), key(s[j]), ascending)
  }

  function InsertBy<T>(x: T, s: seq<T>, key: T -> string, ascending: bool): (r: seq<T>)
    ensures |r| == |s| + 1
  {
    if s == [] || InOrder(key(x), key(s[0]), ascending) then [x] + s
    else [s[0]] + InsertBy(x, s[1..], key, ascending)
  }

  /** `ORDER BY key`: insertion sort, keeping the earlier row first among equal keys. */
  function SortBy<T>(s: seq<T>, key: T -> string, ascending: bool): (r: seq<T>)
    ensures |r| == |s|
  {
    if s == [] then [] else InsertBy(s[0], SortBy(s[1..], key, ascending), key, ascending)
  }

  lemma {:induction false} InsertBySorted<T>(x: T, s: seq<T>, key: T -> string, ascending: bool)
    requires SortedBy(s, key, ascending)
    ensures multiset(InsertBy(x, s, key, ascending)) == multiset(s) + multiset{x}
    ensures SortedBy(InsertBy(x, s, key, ascending), key, ascending)
    decreases |s|
  {
    if s == [] || InOrder(key(x), key(s[0]), ascending) {
      var r := [x] + s;
      forall i, j | 0 <= i < j < |r| ensures InOrder(key(r[i]), key(r[j]), ascending) {
        if i == 0 && j > 1 {
          InOrderTransitive(key(x), key(s[0]), key(s[j - 1]), ascending);
        }
      }
    } else {
      InOrderTotal(key(x), key(s[0]), ascending);
      var rest := InsertBy(x, s[1..], key, ascending);
      InsertBySorted(x, s[1..], key, ascending);
      assert s == [s[0]] + s[1..];
      var r := [s[0]] + rest;
      forall i, j | 0 <= i < j < |r| ensures InOrder(key(r[i]), key(r[j]), ascending) {
        if i == 0 {
          assert r[j] in multiset(rest);
          assert r[j] == x || r[j] in s[1..];
          if r[j] != x {
            var m :| 0 <= m < |s[1..]| && s[1..][m] == r[j];
            assert s[m + 1] == r[j];
          }
        }
      }
    }
  }

  /** The sort orders by the key and neither loses nor invents a row. */
  lemma {:induction false} SortBySpec<T>(s: seq<T>, key: T -> string, ascending: bool)
    ensures SortedBy(SortBy(s, key, ascending), key, ascending)
    ensures multiset(SortBy(s, key, ascending)) == multiset(s)
    decreases |s|
  {
    if s != [] {
      SortBySpec(s[1..], key, ascending);
      InsertBySorted(s[0], SortBy(s[1..], key, ascending), key, ascending);
      assert s == [s[0]] + s[1..];
    }
  }

  // ---------------------------------------------------------------- get_task_list

  /** `replace(s, 'T', ' ')`. */
  function ReplaceT(s: string): (r: string)
    ensures |r| == |s|
    ensures forall i :: 0 <= i < |s| ==> r[i] == (if s[i] == 'T' then ' ' else s[i])
  {
    if s == [] then [] else [if s[0] == 'T' then ' ' else s[0]] + ReplaceT(s[1..])
  }

  /**
   * The `run_time` column as listed: `replace(substr(run_time, 1, 19), 'T', ' ')`,
   * the first 19 characters of the stored RFC 3339 time with its `T` shown as a
   * space.
   */
  function DisplayTime(runTime: string): (d: string)
    ensures |d| == if |runTime| < 19 then |runTime| else 19
    ensures forall i :: 0 <= i < |d| ==> d[i] == (if runTime[i] == 'T' then ' ' else runTime[i])
    ensures forall i :: 0 <= i < |d| ==> d[i] != 'T'
  {
    ReplaceT(if |runTime| <= 19 then runTime else runTime[..19])
  }

  /** One listed task: `{task_id, run_time, SKU, module, status}`. */
  datatype TaskView = TaskView(taskId: string, runTime: string, sku: string, moduleName: string, status: int)

  function View(t: TaskRow): TaskView
  {
    TaskView(t.taskId, DisplayTime(t.runTime), t.sku, t.moduleName, t.status)
  }

  function Views(tasks: seq<TaskRow>): (r: seq<TaskView>)
    ensures |r| == |tasks| && forall i :: 0 <= i < |tasks| ==> r[i] == View(tasks[i])
  {
    if tasks == [] then [] else [View(tasks[0])] + Views(tasks[1..])
  }

  /**
   * A piece of the statement text: literal SQL, or an ` AND <column> like ?`
   * clause whose `?` takes the next bound value.
   */
  datatype Piece = Sql(text: string) | LikeParam(column: string)

  const SelectTasks: Piece :=
    Sql("SELECT task_id, replace(substr(run_time,1,19),'T',' ') AS run_time, SKU, module, status FROM tasks WHERE 1=1")
  const OrderClause: Piece := Sql(" ORDER BY run_time DESC")

  /** The columns of the statement's placeholders, in placeholder order. */
  function ParamColumns(sql: seq<Piece>): (cs: seq<string>)
    ensures |cs| <= |sql|
  {
    if sql == [] then []
    else (if sql[0].LikeParam? then [sql[0].column] else []) + ParamColumns(sql[1..])
  }

  lemma {:induction false} ParamColumnsAppend(a: seq<Piece>, b: seq<Piece>)
    ensures ParamColumns(a + b) == ParamColumns(a) + ParamColumns(b)
    decreases |a|
  {
    if a == [] {
      assert a + b == b;
    } else {
      var head := if a[0].LikeParam? then [a[0].column] else [];
      assert (a + b)[0] == a[0];
      assert (a + b)[1..] == a[1..] + b;
      ParamColumnsAppend(a[1..], b);
      calc {
        ParamColumns(a + b);
        head + ParamColumns(a[1..] + b);
        head + (ParamColumns(a[1..]) + ParamColumns(b));
        (head + ParamColumns(a[1..])) + ParamColumns(b);
      }
    }
  }

  /** The filter value the source binds for a column. */
  function FilterFor(column: string, sku: Option<string>, moduleName: Option<string>): Option<string>
  {
    if column == "SKU" then sku else if column == "module" then moduleName else None
  }

  /**
   * How `get_task_list` builds its statement: one `like ?` clause per filter
   * given, SKU first, then the ordering; every placeholder is bound, in order,
   * to `%value%` of the filter on its own column.
   */
  method BuildTaskQuery(sku: Option<string>, moduleName: Option<string>) returns (sql: seq<Piece>, binds: seq<string>)
    ensures ParamColumns(sql) == (if sku.Some? then ["SKU"] else []) + (if moduleName.Some? then ["module"] else [])
    ensures |binds| == |ParamColumns(sql)|
    ensures forall i :: 0 <= i < |binds| ==>
              FilterFor(ParamColumns(sql)[i], sku, moduleName).Some?
              && binds[i] == Pattern(FilterFor(ParamColumns(sql)[i], sku, moduleName).value)
    ensures |sql| >= 2 && sql[0] == SelectTasks && sql[|sql| - 1] == OrderClause
  {
    sql := [SelectTasks];
    binds := [];
    if sku.Some? {
      ParamColumnsAppend(sql, [LikeParam("SKU")]);
      sql := sql + [LikeParam("SKU")];
      binds := binds + [Pattern(sku.value)];
    }
    if moduleName.Some? {
      ParamColumnsAppend(sql, [LikeParam("module")]);
      sql := sql + [LikeParam("module")];
      binds := binds + [Pattern(moduleName.value)];
    }
    ParamColumnsAppend(sql, [OrderClause]);
    sql := sql + [OrderClause];
  }

  /** The `WHERE` of the built statement: each bind matched by `LIKE` against its column. */
  predicate Selected(t: TaskRow, sku: Option<string>, moduleName: Option<string>)
    ensures sku.None? && moduleName.None? ==> Selected(t, sku, moduleName)
    ensures (sku.None? || sku == Some(t.sku)) && (moduleName.None? || moduleName == Some(t.moduleName))
            ==> Selected(t, sku, moduleName)
  {
    SelfPatternMatches(t.sku);
    SelfPatternMatches(t.moduleName);
    && (sku.Some? ==> Like(t.sku, Pattern(sku.value)))
    && (moduleName.Some? ==> Like(t.moduleName, Pattern(moduleName.value)))
  }

  function Select(tasks: seq<TaskRow>, sku: Option<string>, moduleName: Option<string>): (r: seq<TaskRow>)
    ensures |r| <= |tasks|
  {
    if tasks == [] then []
    else (if Selected(tasks[0], sku, moduleName) then [tasks[0]] else []) + Select(tasks[1..], sku, moduleName)
  }

  function ListedTime(v: TaskView): string { v.runTime }

  /**
   * The rows `get_task_list` answers. `ORDER BY run_time` names the output column,
   * so rows are ordered by the displayed time, latest first.
   */
  function TaskList(tasks: seq<TaskRow>, sku: Option<string>, moduleName: Option<string>): (r: seq<TaskView>)
    ensures |r| == |Select(tasks, sku, moduleName)| <= |tasks|
  {
    SortBy(Views(Select(tasks, sku, moduleName)), ListedTime, false)
  }

  lemma {:induction false} SelectMembers(tasks: seq<TaskRow>, sku: Option<string>, moduleName: Option<string>)
    ensures forall t :: t in Select(tasks, sku, moduleName) <==> t in tasks && Selected(t, sku, moduleName)
    ensures multiset(Select(tasks, sku, moduleName)) <= multiset(tasks)
    ensures sku.None? && moduleName.None? ==> Select(tasks, sku, moduleName) == tasks
  {
    SelectMembership(tasks, sku, moduleName);
    SelectSubmultiset(tasks, sku, moduleName);
    if sku.None? && moduleName.None? {
      SelectWithoutFilters(tasks);
    }
  }

  lemma {:induction false} SelectWithoutFilters(tasks: seq<TaskRow>)
    ensures Select(tasks, None, None) == tasks
    decreases |tasks|
  {
    if tasks != [] {
      SelectWithoutFilters(tasks[1..]);
      assert Selected(tasks[0], None, None);
      assert tasks == [tasks[0]] + tasks[1..];
    }
  }

  lemma {:induction false} SelectMembership(tasks: seq<TaskRow>, sku: Option<string>, moduleName: Option<string>)
    ensures forall t :: t in Select(tasks, sku, moduleName) <==> t in tasks && Selected(t, sku, moduleName)
    decreases |tasks|
  {
    if tasks != [] {
      SelectMembership(tasks[1..], sku, moduleName);
      assert tasks == [tasks[0]] + tasks[1..];
    }
  }

  lemma {:induction false} SelectSubmultiset(tasks: seq<TaskRow>, sku: Option<string>, moduleName: Option<string>)
    ensures multiset(Select(tasks, sku, moduleName)) <= multiset(tasks)
    decreases |tasks|
  {
    if tasks != [] {
      SelectSubmultiset(tasks[1..], sku, moduleName);
      var rest := Select(tasks[1..], sku, moduleName);
      assert tasks == [tasks[0]] + tasks[1..];
      assert multiset(tasks) == multiset([tasks[0]]) + multiset(tasks[1..]);
      if Selected(tasks[0], sku, moduleName) {
        assert Select(tasks, sku, moduleName) == [tasks[0]] + rest;
        assert multiset([tasks[0]] + rest) == multiset([tasks[0]]) + multiset(rest);
      } else {
        assert Select(tasks, sku, moduleName) == [] + rest == rest;
      }
    }
  }

  lemma ViewsMembers(tasks: seq<TaskRow>)
    ensures forall v :: v in Views(tasks) <==> exists t :: t in tasks && View(t) == v
  {
    forall v | v in Views(tasks) ensures exists t :: t in tasks && View(t) == v {
      var i :| 0 <= i < |Views(tasks)| && Views(tasks)[i] == v;
      assert tasks[i] in tasks;
    }
    forall v | exists t :: t in tasks && View(t) == v ensures v in Views(tasks) {
      var t :| t in tasks && View(t) == v;
      var i :| 0 <= i < |tasks| && tasks[i] == t;
      assert Views(tasks)[i] == v;
    }
  }

  /**
   * `get_task_list`: the listed rows are exactly the views of the tasks the
   * filters select, each once per matching row, latest displayed time first.
   */
  lemma TaskListSpec(tasks: seq<TaskRow>, sku: Option<string>, moduleName: Option<string>)
    ensures SortedBy(TaskList(tasks, sku, moduleName), ListedTime, false)
    ensures multiset(TaskList(tasks, sku, moduleName)) == multiset(Views(Select(tasks, sku, moduleName)))
    ensures forall v :: v in TaskList(tasks, sku, moduleName)
                    <==> exists t :: t in tasks && Selected(t, sku, moduleName) && View(t) == v
  {
    var selected := Select(tasks, sku, moduleName);
    SortBySpec(Views(selected), ListedTime, false);
    SelectMembers(tasks, sku, moduleName);
    ViewsMembers(selected);
    forall v ensures v in TaskList(tasks, sku, moduleName) <==> v in Views(selected) {
      assert v in TaskList(tasks, sku, moduleName) <==> v in multiset(TaskList(tasks, sku, moduleName));
    }
  }

  /** Without filters every task is listed, once. */
  lemma NoFilterListsAll(tasks: seq<TaskRow>)
    ensures |TaskList(tasks, None, None)| == |tasks|
    ensures multiset(TaskList(tasks, None, None)) == multiset(Views(tasks))
  {
    TaskListSpec(tasks, None, None);
    SelectMembers(tasks, None, None);
    assert |TaskList(tasks, None, None)| == |multiset(TaskList(tasks, None, None))|;
    assert |Views(tasks)| == |multiset(Views(tasks))|;
  }

  /** A stored task is found again by filtering on its own SKU. */
  lemma ListBySkuFindsTask(tasks: seq<TaskRow>, k: nat)
    requires k < |tasks|
    ensures View(tasks[k]) in TaskList(tasks, Some(tasks[k].sku), None)
  {
    SelfPatternMatches(tasks[k].sku);
    TaskListSpec(tasks, Some(tasks[k].sku), None);
    assert tasks[k] in tasks;
  }

  /** With wildcard-free filters the selection is case-insensitive (ASCII) substring containment. */
  lemma SelectedIsContainment(t: TaskRow, sku: Option<string>, moduleName: Option<string>)
    requires sku.Some? ==> NoWildcards(sku.value)
    requires moduleName.Some? ==> NoWildcards(moduleName.value)
    ensures Selected(t, sku, moduleName)
        <==> (sku.Some? ==> ContainsFolded(t.sku, sku.value))
             && (moduleName.Some? ==> ContainsFolded(t.moduleName, moduleName.value))
  {
    if sku.Some? { LikeIsContainment(t.sku, sku.value); }
    if moduleName.Some? { LikeIsContainment(t.moduleName, moduleName.value); }
  }

  /** Reading one listed task back from the reply. */
  function ReadTaskView(j: Json): Option<TaskView>
  {
    var id := AsStr(Get(j, "task_id"));
    var time := AsStr(Get(j, "run_time"));
    var sku := AsStr(Get(j, "SKU"));
    var moduleName := AsStr(Get(j, "module"));
    var status := Get(j, "status");
    if id.Some? && time.Some? && sku.Some? && moduleName.Some? && status.Some? && status.value.JNum?
    then Some(TaskView(id.value, time.value, sku.value, moduleName.value, status.value.n))
    else None
  }

  /** One listed task as `get_task_list` writes it; it reads back as the same view. */
  function TaskViewJson(v: TaskView): (j: Json)
    ensures ReadTaskView(j) == Some(v)
  {
    var fields := map["task_id" := JStr(v.taskId), "run_time" := JStr(v.runTime), "SKU" := JStr(v.sku),
                      "module" := JStr(v.moduleName), "status" := JNum(v.status)];
    assert fields["task_id"] == JStr(v.taskId) && fields["run_time"] == JStr(v.runTime);
    assert fields["SKU"] == JStr(v.sku) && fields["module"] == JStr(v.moduleName);
    assert fields["status"] == JNum(v.status);
    JObj(fields)
  }

  /** `get_task_list`'s reply: `{"status":"success","data":[...]}` over `TaskList`. */
  function GetTaskList(tasks: seq<TaskRow>, sku: Option<string>, moduleName: Option<string>): (r: Json)
    ensures AsStr(Get(r, "status")) == Some("success")
    ensures AsArray(Get(r, "data")).Some?
    ensures var data := AsArray(Get(r, "data")).value;
            var list := TaskList(tasks, sku, moduleName);
            |data| == |list| && forall i :: 0 <= i < |data| ==> ReadTaskView(data[i]) == Some(list[i])
  {
    var list := TaskList(tasks, sku, moduleName);
    var data := seq(|list|, i requires 0 <= i < |list| => TaskViewJson(list[i]));
    var fields := map["status" := JStr("success"), "data" := JArr(data)];
    assert fields["status"] == JStr("success") && fields["data"] == JArr(data);
    JObj(fields)
  }

  // ---------------------------------------------------------------- get_task_logs

  /** One listed log: `{log_time, message}`. */
  datatype LogView = LogView(logTime: string, message: string)

  function LogTimeOf(v: LogView): string { v.logTime }

  /** `select log_time, message from task_logs where task_id = ?1`, in table order. */
  function LogsOf(logs: seq<LogRow>, taskId: string): (r: seq<LogView>)
    ensures |r| <= |logs|
    ensures (forall i :: 0 <= i < |logs| ==> logs[i].taskId != taskId) ==> r == []
  {
    if logs == [] then []
    else (if logs[0].taskId == taskId then [LogView(logs[0].logTime, logs[0].message)] else [])
         + LogsOf(logs[1..], taskId)
  }

  /** The rows `get_task_logs` answers: the task's logs in ascending `log_time`. */
  function TaskLogs(logs: seq<LogRow>, taskId: string): (r: seq<LogView>)
    ensures |r| == |LogsOf(logs, taskId)| <= |logs|
  {
    SortBy(LogsOf(logs, taskId), LogTimeOf, true)
  }

  lemma {:induction false} LogsOfMembers(logs: seq<LogRow>, taskId: string)
    ensures forall v :: v in LogsOf(logs, taskId)
                    <==> exists r :: r in logs && r.taskId == taskId && LogView(r.logTime, r.message) == v
    decreases |logs|
  {
    if logs != [] {
      LogsOfMembers(logs[1..], taskId);
      assert logs == [logs[0]] + logs[1..];
      forall v | v in LogsOf(logs, taskId)
        ensures exists r :: r in logs && r.taskId == taskId && LogView(r.logTime, r.message) == v
      {
        if v !in LogsOf(logs[1..], taskId) {
          assert logs[0] in logs;
        }
      }
      forall v | exists r :: r in logs && r.taskId == taskId && LogView(r.logTime, r.message) == v
        ensures v in LogsOf(logs, taskId)
      {
        var r :| r in logs && r.taskId == taskId && LogView(r.logTime, r.message) == v;
        if r != logs[0] {
          assert r in logs[1..];
        }
      }
    }
  }

  /**
   * `get_task_logs(id)`: exactly the logs of task `id`, each once per row, in
   * ascending `log_time`.
   */
  lemma TaskLogsSpec(logs: seq<LogRow>, taskId: string)
    ensures SortedBy(TaskLogs(logs, taskId), LogTimeOf, true)
    ensures multiset(TaskLogs(logs, taskId)) == multiset(LogsOf(logs, taskId))
    ensures forall v :: v in TaskLogs(logs, taskId)
                    <==> exists r :: r in logs && r.taskId == taskId && LogView(r.logTime, r.message) == v
  {
    SortBySpec(LogsOf(logs, taskId), LogTimeOf, true);
    LogsOfMembers(logs, taskId);
    forall v ensures v in TaskLogs(logs, taskId) <==> v in LogsOf(logs, taskId) {
      assert v in TaskLogs(logs, taskId) <==> v in multiset(TaskLogs(logs, taskId));
    }
  }

  /** One listed log as `get_task_logs` writes it: its time and message under their keys. */
  function LogViewJson(v: LogView): (j: Json)
    ensures AsStr(Get(j, "log_time")) == Some(v.logTime) && AsStr(Get(j, "message")) == Some(v.message)
  {
    var fields := map["log_time" := JStr(v.logTime), "message" := JStr(v.message)];
    assert fields["log_time"] == JStr(v.logTime) && fields["message"] == JStr(v.message);
    JObj(fields)
  }

  /** `get_task_logs`'s reply: `{"status":"success","data":[{log_time, message}, ...]}`. */
  function GetTaskLogs(logs: seq<LogRow>, taskId: string): (r: Json)
    ensures AsStr(Get(r, "status")) == Some("success")
    ensures AsArray(Get(r, "data")).Some?
    ensures var data := AsArray(Get(r, "data")).value;
            var list := TaskLogs(logs, taskId);
            |data| == |list|
            && forall i :: 0 <= i < |data| ==>
                 AsStr(Get(data[i], "log_time")) == Some(list[i].logTime)
                 && AsStr(Get(data[i], "message")) == Some(list[i].message)
  {
    var list := TaskLogs(logs, taskId);
    var data := seq(|list|, i requires 0 <= i < |list| => LogViewJson(list[i]));
    var fields := map["status" := JStr("success"), "data" := JArr(data)];
    assert fields["status"] == JStr("success") && fields["data"] == JArr(data);
    JObj(fields)
  }
}
