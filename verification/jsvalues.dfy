/** The JavaScript values the library handles: documents produced by
    `JSON.parse` (request bodies and the backing file), with the
    truthiness and type tests the source applies to them. */
module JsValues {
  import opened Outcomes

  /** A parsed JSON value. JSON has no `NaN` or `undefined`; a missing
      property is `None` at the point where it is read. */
  datatype Json =
    | JNull
    | JBool(b: bool)
    | JNum(n: real)
    | JStr(s: string)
    | JArr(items: seq<Json>)
    | JObj(fields: map<string, Json>)

  /** JavaScript truthiness of a property read (`undefined` when absent). */
  predicate Truthy(v: Option<Json>) {
    match v
    case None => false
    case Some(JNull) => false
    case Some(JBool(b)) => b
    case Some(JNum(n)) => n != 0.0
    case Some(JStr(s)) => |s| > 0
    case Some(JArr(_)) => true
    case Some(JObj(_)) => true
  }

  /** `typeof v === 'string'`. */
  predicate IsString(v: Option<Json>) {
    v.Some? && v.value.JStr?
  }

  /** `Array.isArray(v)`. */
  predicate IsArray(v: Option<Json>) {
    v.Some? && v.value.JArr?
  }
}
