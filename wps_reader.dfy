/**
 * The remote spreadsheet client of wps_reader.rs with HTTP abstracted away:
 * the two request payloads it posts, and the way it turns the remote's reply
 * into an in-band `Success`/`Error` envelope. The reply reaches these functions
 * as a `Result`: `Err` stands for a failed send or a body that is not JSON, the
 * only two ways the Rust functions return `Err`.
 */
module WpsReader {
  import opened Wrappers
  import opened Json

  const Sheet: string := "数据表"
  /** "Has the designer confirmed the record is complete and runnable". */
  const ConfirmedField: string := "设计师确认是否已完整填写可运行"
  /** "Has the run finished": empty until the record is reported. */
  const DoneField: string := "是否运行完成"

  const FetchFailedMessage: string := "数据获取失败"
  const UpdateOkMessage: string := "更新成功"
  const UpdateFailedMessage: string := "更新失败"

  /** One search criterion as it appears in the payload: a field, an operator, accepted values. */
  datatype Criterion = Criterion(field: string, op: string, values: seq<string>)
  datatype SearchRequest = SearchRequest(action: string, sheet: string, mode: string, criteria: seq<Criterion>)
  datatype UpdateRecord = UpdateRecord(id: string, fields: map<string, Json>)
  datatype UpdateRequest = UpdateRequest(action: string, sheet: string, records: seq<UpdateRecord>)

  /** The filter the search payload is meant to carry: confirmed records not yet run. */
  const PendingCriteria: seq<Criterion> :=
    [Criterion(ConfirmedField, "Equals", ["是"]), Criterion(DoneField, "Equals", [""])]

  // ---------------------------------------------------------------- payloads

  function CriterionJson(field: string, values: seq<string>): Json
  {
    JObj(map["field" := JStr(field), "op" := JStr("Equals"),
             "values" := JArr(seq(|values|, i requires 0 <= i < |values| => JStr(values[i])))])
  }

  /** The body `fetch_wps_data` posts: a search of the sheet with two criteria ANDed. */
  function SearchPayload(): (p: Json)
    ensures Argv(p).Some?
    ensures Get(Argv(p).value, "action") == Some(JStr("search")) && Get(Argv(p).value, "sheet") == Some(JStr(Sheet))
  {
    var argv := map[
      "action" := JStr("search"),
      "sheet" := JStr(Sheet),
      "filter" := JObj(map[
        "mode" := JStr("AND"),
        "criteria" := JArr([CriterionJson(ConfirmedField, ["是"]), CriterionJson(DoneField, [""])])])];
    var ctx := map["argv" := JObj(argv)];
    var p := map["Context" := JObj(ctx)];
    assert p["Context"] == JObj(ctx) && ctx["argv"] == JObj(argv);
    assert argv["action"] == JStr("search") && argv["sheet"] == JStr(Sheet);
    JObj(p)
  }

  /** The body `update_wps_date(target_id, res)` posts: one record setting the done field. */
  function UpdatePayload(targetId: string, res: string): (p: Json)
    ensures Argv(p).Some?
    ensures Get(Argv(p).value, "action") == Some(JStr("update")) && Get(Argv(p).value, "sheet") == Some(JStr(Sheet))
  {
    var argv := map[
      "action" := JStr("update"),
      "sheet" := JStr(Sheet),
      "records" := JArr([JObj(map["fields" := JObj(map[DoneField := JStr(res)]),
                                  "id" := JStr(targetId)])])];
    var ctx := map["argv" := JObj(argv)];
    var p := map["Context" := JObj(ctx)];
    assert p["Context"] == JObj(ctx) && ctx["argv"] == JObj(argv);
    assert argv["action"] == JStr("update") && argv["sheet"] == JStr(Sheet);
    JObj(p)
  }

  // ---------------------------------------------------------------- readers
  // Readers that take a payload apart again; they are the partners of the builders.

  function Argv(p: Json): Option<Json>
  {
    var ctx := Get(p, "Context");
    if ctx.Some? then Get(ctx.value, "argv") else None
  }

  function ReadStrings(xs: seq<Json>): Option<seq<string>>
  {
    if xs == [] then Some([])
    else if !xs[0].JStr? then None
    else
      var rest := ReadStrings(xs[1..]);
      if rest.Some? then Some([xs[0].s] + rest.value) else None
  }

  function ReadCriterion(c: Json): Option<Criterion>
  {
    var field := AsStr(Get(c, "field"));
    var op := AsStr(Get(c, "op"));
    var values := AsArray(Get(c, "values"));
    if field.Some? && op.Some? && values.Some? && ReadStrings(values.value).Some?
    then Some(Criterion(field.value, op.value, ReadStrings(values.value).value))
    else None
  }

  function ReadCriteria(xs: seq<Json>): Option<seq<Criterion>>
  {
    if xs == [] then Some([])
    else
      var c := ReadCriterion(xs[0]);
      var rest := ReadCriteria(xs[1..]);
      if c.Some? && rest.Some? then Some([c.value] + rest.value) else None
  }

  function ReadSearch(p: Json): Option<SearchRequest>
  {
    var argv := Argv(p);
    if argv.None? then None
    else
      var action := AsStr(Get(argv.value, "action"));
      var sheet := AsStr(Get(argv.value, "sheet"));
      var filter := Get(argv.value, "filter");
      if action.None? || sheet.None? || filter.None? then None
      else
        var mode := AsStr(Get(filter.value, "mode"));
        var criteria := AsArray(Get(filter.value, "criteria"));
        if mode.None? || criteria.None? || ReadCriteria(criteria.value).None? then None
        else Some(SearchRequest(action.value, sheet.value, mode.value, ReadCriteria(criteria.value).value))
  }

  function ReadRecord(r: Json): Option<UpdateRecord>
  {
    var id := AsStr(Get(r, "id"));
    var fields := Get(r, "fields");
    if id.Some? && fields.Some? && fields.value.JObj?
    then Some(UpdateRecord(id.value, fields.value.fields))
    else None
  }

  function ReadRecords(xs: seq<Json>): Option<seq<UpdateRecord>>
  {
    if xs == [] then Some([])
    else
      var r := ReadRecord(xs[0]);
      var rest := ReadRecords(xs[1..]);
      if r.Some? && rest.Some? then Some([r.value] + rest.value) else None
  }

  function ReadUpdate(p: Json): Option<UpdateRequest>
  {
    var argv := Argv(p);
    if argv.None? then None
    else
      var action := AsStr(Get(argv.value, "action"));
      var sheet := AsStr(Get(argv.value, "sheet"));
      var records := AsArray(Get(argv.value, "records"));
      if action.None? || sheet.None? || records.None? || ReadRecords(records.value).None? then None
      else Some(UpdateRequest(action.value, sheet.value, ReadRecords(records.value).value))
  }

  /** A criterion of the search payload reads back as an `Equals` test of its field against its value. */
  lemma CriterionReadsBack(field: string, value: string)
    ensures ReadCriterion(CriterionJson(field, [value])) == Some(Criterion(field, "Equals", [value]))
  {
    var c := CriterionJson(field, [value]);
    var vs := c.fields["values"].items;
    assert vs == [JStr(value)];
    assert vs[1..] == [] && ReadStrings(vs[1..]) == Some([]);
    assert [vs[0].s] + [] == [value];
    assert AsArray(Get(c, "values")) == Some(vs);
    assert AsStr(Get(c, "field")) == Some(field);
    assert AsStr(Get(c, "op")) == Some("Equals");
  }

  /** The two criteria of the search payload read back as the pending-record filter. */
  lemma PendingCriteriaReadBack()
    ensures ReadCriteria([CriterionJson(ConfirmedField, ["是"]), CriterionJson(DoneField, [""])]) == Some(PendingCriteria)
  {
    var c1 := CriterionJson(ConfirmedField, ["是"]);
    var c2 := CriterionJson(DoneField, [""]);
    CriterionReadsBack(ConfirmedField, "是");
    CriterionReadsBack(DoneField, "");
    var cs := [c1, c2];
    assert cs[1..][1..] == [] && ReadCriteria(cs[1..][1..]) == Some([]);
    assert cs[1..][0] == c2;
    assert [PendingCriteria[1]] + [] == [PendingCriteria[1]];
    assert ReadCriteria(cs[1..]) == Some([PendingCriteria[1]]);
    assert [PendingCriteria[0]] + [PendingCriteria[1]] == PendingCriteria;
  }

  /** The search payload is a search of the sheet for confirmed records not yet run, ANDed. */
  lemma SearchPayloadReadsBack()
    ensures ReadSearch(SearchPayload()) == Some(SearchRequest("search", Sheet, "AND", PendingCriteria))
  {
    var cs := [CriterionJson(ConfirmedField, ["是"]), CriterionJson(DoneField, [""])];
    PendingCriteriaReadBack();
    var filter := JObj(map["mode" := JStr("AND"), "criteria" := JArr(cs)]);
    var argv := JObj(map["action" := JStr("search"), "sheet" := JStr(Sheet), "filter" := filter]);
    assert SearchPayload() == JObj(map["Context" := JObj(map["argv" := argv])]);
    assert Argv(SearchPayload()) == Some(argv);
    assert AsStr(Get(argv, "action")) == Some("search");
    assert AsStr(Get(argv, "sheet")) == Some(Sheet);
    assert Get(argv, "filter") == Some(filter);
    assert AsStr(Get(filter, "mode")) == Some("AND");
    assert AsArray(Get(filter, "criteria")) == Some(cs);
  }

  /** The update payload carries exactly one record: the target id with the done field set to `res`. */
  lemma UpdatePayloadReadsBack(targetId: string, res: string)
    ensures ReadUpdate(UpdatePayload(targetId, res))
         == Some(UpdateRequest("update", Sheet, [UpdateRecord(targetId, map[DoneField := JStr(res)])]))
  {
    var rec := JObj(map["fields" := JObj(map[DoneField := JStr(res)]), "id" := JStr(targetId)]);
    assert AsStr(Get(rec, "id")) == Some(targetId);
    assert Get(rec, "fields") == Some(JObj(map[DoneField := JStr(res)]));
    assert ReadRecord(rec) == Some(UpdateRecord(targetId, map[DoneField := JStr(res)]));
    var recs := [rec];
    assert recs[1..] == [] && ReadRecords(recs[1..]) == Some([]);
    assert [UpdateRecord(targetId, map[DoneField := JStr(res)])] + [] == [UpdateRecord(targetId, map[DoneField := JStr(res)])];
    var argv := JObj(map["action" := JStr("update"), "sheet" := JStr(Sheet), "records" := JArr(recs)]);
    assert UpdatePayload(targetId, res) == JObj(map["Context" := JObj(map["argv" := argv])]);
    assert Argv(UpdatePayload(targetId, res)) == Some(argv);
    assert AsStr(Get(argv, "action")) == Some("update");
    assert AsStr(Get(argv, "sheet")) == Some(Sheet);
    assert AsArray(Get(argv, "records")) == Some(recs);
  }

  /**
   * A report with either flag writes to the done field a value the search's
   * done-field criterion does not accept, so the reported record no longer
   * satisfies the criteria the next search sends.
   */
  lemma ReportedFlagLeavesPendingFilter(targetId: string, res: string)
    requires res == "是" || res == "否"
    ensures ReadUpdate(UpdatePayload(targetId, res)).Some? && ReadSearch(SearchPayload()).Some?
    ensures |ReadUpdate(UpdatePayload(targetId, res)).value.records| == 1
    ensures |ReadSearch(SearchPayload()).value.criteria| == 2
    ensures var u := ReadUpdate(UpdatePayload(targetId, res)).value.records[0];
            var s := ReadSearch(SearchPayload()).value;
            && s.criteria[1].field in u.fields
            && u.fields[s.criteria[1].field].JStr?
            && u.fields[s.criteria[1].field].s !in s.criteria[1].values
  {
    UpdatePayloadReadsBack(targetId, res);
    SearchPayloadReadsBack();
  }

  // ---------------------------------------------------------------- replies

  /** The `status` of an envelope, when it is a string. */
  function Status(env: Json): Option<string>
  {
    AsStr(Get(env, "status"))
  }

  /** `data.result.data` of a search reply, when present. */
  function ResultRows(reply: Json): Option<Json>
  {
    var data := Get(reply, "data");
    if data.None? then None
    else
      var result := Get(data.value, "result");
      if result.None? then None else Get(result.value, "data")
  }

  /**
   * The envelope `fetch_wps_data` builds from a parsed search reply: `Error` with a
   * fixed message when the reply has no `data` key, otherwise `Success` with
   * `data.result.data` (null when either step is missing).
   */
  function SearchEnvelope(reply: Json): (env: Json)
    ensures Status(env) == Some(if Get(reply, "data").Some? then "Success" else "Error")
    ensures Get(reply, "data").None? ==> Get(env, "message") == Some(JStr(FetchFailedMessage)) && Get(env, "data").None?
    ensures Get(reply, "data").Some? ==> Get(env, "data") == Some(OrNull(ResultRows(reply))) && Get(env, "message").None?
  {
    if Get(reply, "data").None? then
      JObj(map["status" := JStr("Error"), "message" := JStr(FetchFailedMessage)])
    else
      var data := Get(reply, "data").value;
      var result := Get(data, "result");
      JObj(map["status" := JStr("Success"),
               "data" := OrNull(if result.Some? then Get(result.value, "data") else None)])
  }

  /** `fetch_wps_data` with the HTTP round trip given as `reply`. */
  function FetchWpsData(reply: Result<Json>): (r: Result<Json>)
    ensures r.Err? <==> reply.Err?
    ensures reply.Err? ==> r.msg == reply.msg
    ensures reply.Ok? ==> Status(r.value) == Some(if Get(reply.value, "data").Some? then "Success" else "Error")
  {
    if reply.Err? then Err(reply.msg) else Ok(SearchEnvelope(reply.value))
  }

  /**
   * The envelope `update_wps_date` builds from a parsed update reply: a `status` key of
   * any value means success, its absence means failure; both are `Ok`.
   */
  function UpdateEnvelope(reply: Json): (env: Json)
    ensures Status(env) == Some(if Get(reply, "status").Some? then "Success" else "Error")
    ensures Get(env, "message")
         == Some(JStr(if Get(reply, "status").Some? then UpdateOkMessage else UpdateFailedMessage))
  {
    if Get(reply, "status").None? then
      JObj(map["status" := JStr("Error"), "message" := JStr(UpdateFailedMessage)])
    else
      JObj(map["status" := JStr("Success"), "message" := JStr(UpdateOkMessage)])
  }

  /** `update_wps_date` with the HTTP round trip given as `reply`. */
  function UpdateWpsDate(reply: Result<Json>): (r: Result<Json>)
    ensures r.Err? <==> reply.Err?
    ensures reply.Err? ==> r.msg == reply.msg
    ensures reply.Ok? ==> Status(r.value) == Some(if Get(reply.value, "status").Some? then "Success" else "Error")
  {
    if reply.Err? then Err(reply.msg) else Ok(UpdateEnvelope(reply.value))
  }

  /**
   * What the dispatcher finds under `data` of the envelope: an item array exactly
   * when the reply holds an array at `data.result.data`; the `Error` envelope and a
   * `Success` envelope whose rows are missing both give none.
   */
  lemma {:induction false} EnvelopeItems(reply: Json)
    ensures AsArray(Get(SearchEnvelope(reply), "data")) == AsArray(ResultRows(reply))
  {
    if Get(reply, "data").Some? {
      assert Get(SearchEnvelope(reply), "data") == Some(OrNull(ResultRows(reply)));
    }
  }
}
