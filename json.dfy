/** Parsed JSON request bodies and the two JavaScript reads the handlers make
    on them: a property read and a truthiness test. */
module Json {
  import opened Wrappers

  /** A JSON value as `req.json()` produces it (numbers are integers here). */
  datatype Json =
    | JNull
    | JBool(b: bool)
    | JNum(n: int)
    | JStr(s: string)
    | JArr(items: seq<Json>)
    | JObj(fields: map<string, Json>)

  /** `body.key` on a non-null body: `undefined` (None) unless the body is an
      object that has the key. */
  function Field(body: Json, key: string): (r: Option<Json>)
    ensures r.Some? <==> body.JObj? && key in body.fields
    ensures body.JObj? && key in body.fields ==> r == Some(body.fields[key])
  {
    if body.JObj? && key in body.fields then Some(body.fields[key]) else None
  }

  /** JavaScript truthiness of a possibly missing value. */
  predicate Truthy(v: Option<Json>)
  {
    match v
    case None => false
    case Some(JNull) => false
    case Some(JBool(b)) => b
    case Some(JNum(n)) => n != 0
    case Some(JStr(s)) => s != ""
    case Some(JArr(_)) => true
    case Some(JObj(_)) => true
  }
}
