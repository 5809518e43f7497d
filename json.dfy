/**
 * The part of serde_json's `Value` that the core reads and builds: objects are
 * maps from keys to values (key order plays no role in the core), and the
 * accessors `get`, `as_str`, `as_array` and integer indexing behave as serde_json's
 * do on values of the wrong shape (they give `None` or `Null`, never fail).
 */
module Json {
  import opened Wrappers

  datatype Json =
    | JNull
    | JBool(b: bool)
    | JNum(n: int)
    | JStr(s: string)
    | JArr(items: seq<Json>)
    | JObj(fields: map<string, Json>)

  /** `Value::get(key)`: `None` unless the value is an object holding `key`. */
  function Get(v: Json, key: string): Option<Json>
  {
    if v.JObj? && key in v.fields then Some(v.fields[key]) else None
  }

  /** `Option<&Value>::and_then(Value::as_str)`. */
  function AsStr(v: Option<Json>): Option<string>
  {
    if v.Some? && v.value.JStr? then Some(v.value.s) else None
  }

  /** `Option<&Value>::and_then(Value::as_array)`. */
  function AsArray(v: Option<Json>): Option<seq<Json>>
  {
    if v.Some? && v.value.JArr? then Some(v.value.items) else None
  }

  /** `v.get(key).and_then(|x| x.as_str()).unwrap_or(default)`. */
  function StrOr(v: Json, key: string, default: string): string
  {
    var s := AsStr(Get(v, key));
    if s.Some? then s.value else default
  }

  /** `v[i]` on a serde_json value: `Null` when `v` is no array or `i` is out of range. */
  function At(v: Json, i: nat): Json
  {
    if v.JArr? && i < |v.items| then v.items[i] else JNull
  }

  /** `Option<&Value>` turned into a value by `json!`: a missing value becomes `null`. */
  function OrNull(v: Option<Json>): Json
  {
    if v.Some? then v.value else JNull
  }

  /** `json!({})`. */
  const EmptyObject: Json := JObj(map[])
}
