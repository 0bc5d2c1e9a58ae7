/**
 * JSON values as Express's body parser hands them to the handlers, and the
 * rows of the hosted tables, which the query builder exchanges as JSON objects.
 * Numbers are exact reals: JavaScript floating point is not modelled.
 */
module Json {
  import opened Wrappers

  datatype Json =
    | JNull
    | JBool(b: bool)
    | JNumber(n: real)
    | JString(s: string)
    | JArray(items: seq<Json>)
    | JObject(fields: map<string, Json>)

  /** A table row, or the key/value pairs of a request body */
  type Row = map<string, Json>

  /** Reading `obj.key`; `None` is JavaScript's `undefined` */
  function Get(row: Row, key: string): (r: Option<Json>)
    ensures r.Some? <==> key in row
    ensures r.Some? ==> r.value == row[key]
  {
    if key in row then Some(row[key]) else None
  }

  /** The defined JSON values JavaScript treats as false */
  const Falsy: set<Json> := {JNull, JBool(false), JNumber(0.0), JString("")}

  /** JavaScript truthiness of a defined value: null, false, 0 and "" are falsy */
  predicate Truthy(v: Json): (t: bool)
    ensures t <==> v !in Falsy
  {
    match v
    case JNull => false
    case JBool(b) => b
    case JNumber(n) => n != 0.0
    case JString(s) => s != ""
    case JArray(_) => true
    case JObject(_) => true
  }

  /** `v || fallback` on a possibly undefined value */
  function OrElse(v: Option<Json>, fallback: Json): (r: Json)
    ensures v.Some? && Truthy(v.value) ==> r == v.value
    ensures !(v.Some? && Truthy(v.value)) ==> r == fallback
  {
    if v.Some? && Truthy(v.value) then v.value else fallback
  }

  /** The type name a schema reports for a value it did not expect */
  function TypeName(v: Json): string {
    match v
    case JNull => "null"
    case JBool(_) => "boolean"
    case JNumber(_) => "number"
    case JString(_) => "string"
    case JArray(_) => "array"
    case JObject(_) => "object"
  }

  /** A sequence of rows as the JSON array a handler sends */
  function RowsToJson(rows: seq<Row>): (r: Json)
    ensures r.JArray? && |r.items| == |rows|
    ensures forall i :: 0 <= i < |rows| ==> r.items[i] == JObject(rows[i])
  {
    JArray(seq(|rows|, i requires 0 <= i < |rows| => JObject(rows[i])))
  }
}
