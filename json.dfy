// The JSON values that `json.loads` / `requests.Response.json()` produce, as
// the CVE providers and the report view inspect them: Python truthiness,
// `dict.get(key, default)` and iteration with `for x in value`.

module Json {
  import opened Wrappers

  /**
   * A decoded JSON document. Objects keep their keys in document order (the order a
   * Python dict built by json.loads iterates in); numbers are integers.
   */
  datatype Json =
    | JNull
    | JBool(b: bool)
    | JNum(n: int)
    | JStr(s: string)
    | JArr(items: seq<Json>)
    | JObj(fields: seq<(string, Json)>)

  /** Python's bool(x) for the decoded value: None, False, 0, "", [] and {} are false. */
  predicate Truthy(j: Json) {
    match j
    case JNull => false
    case JBool(b) => b
    case JNum(n) => n != 0
    case JStr(s) => s != []
    case JArr(items) => items != []
    case JObj(fields) => fields != []
  }

  /** The value stored under `key` in an object's fields, if any. */
  function Lookup(fields: seq<(string, Json)>, key: string): Option<Json> {
    if fields == [] then None
    else if fields[0].0 == key then Some(fields[0].1)
    else Lookup(fields[1..], key)
  }

  /**
   * `x.get(key, default)`: defined on objects only; on any other value Python raises
   * AttributeError, which is `None` here.
   */
  function DictGet(j: Json, key: string, default: Json): (r: Option<Json>)
    ensures r.Some? <==> j.JObj?
  {
    match j
    case JObj(fields) => Some(Lookup(fields, key).GetOr(default))
    case _ => None
  }

  /**
   * The elements `for x in j` visits: an array's items, a string's characters, an
   * object's keys. Iterating None, a bool or a number raises TypeError: `None` here.
   */
  function Iterate(j: Json): (r: Option<seq<Json>>)
    ensures j.JArr? ==> r == Some(j.items)
    ensures r.Some? <==> (j.JArr? || j.JStr? || j.JObj?)
  {
    match j
    case JArr(items) => Some(items)
    case JStr(s) => Some(seq(|s|, i requires 0 <= i < |s| => JStr([s[i]])))
    case JObj(fields) => Some(seq(|fields|, i requires 0 <= i < |fields| => JStr(fields[i].0)))
    case _ => None
  }

  /** `r.json() or default`: a falsy document is replaced by the default. */
  function OrDefault(j: Json, default: Json): (r: Json)
    ensures Truthy(j) ==> r == j
    ensures !Truthy(j) ==> r == default
  {
    if Truthy(j) then j else default
  }
}
