/** The slice of JavaScript's value semantics the service relies on: parsed
    JSON request bodies, `typeof`, truthiness for `||` and `if`, property
    access (which throws on `null`), and the message a caught value yields. */
module JsValues {
  import opened Wrappers

  /** A value produced by the JSON body parser. Numbers are modelled as
      integers. */
  datatype Json =
    | JNull
    | JBool(b: bool)
    | JNumber(n: int)
    | JString(s: string)
    | JArray(items: seq<Json>)
    | JObject(fields: map<string, Json>)

  /** A thrown value: an `Error` object carrying a message, or anything else. */
  datatype Exception = Error(message: string) | NotAnError(text: string)

  /** `error instanceof Error ? error.message : String(error)` */
  function Message(e: Exception): string
  {
    match e
    case Error(m) => m
    case NotAnError(t) => t
  }

  /** JavaScript truthiness of a property read; `None` is `undefined`. */
  predicate Truthy(v: Option<Json>)
  {
    match v
    case None => false
    case Some(JNull) => false
    case Some(JBool(b)) => b
    case Some(JNumber(n)) => n != 0
    case Some(JString(s)) => s != ""
    case Some(JArray(_)) => true
    case Some(JObject(_)) => true
  }

  /** The falsy values a JSON body can hold: `undefined`, `null`, `false`,
      `0` and `""`; every array and every object is truthy, even when empty. */
  lemma FalsyValues(v: Option<Json>)
    ensures !Truthy(v) <==> v in {None, Some(JNull), Some(JBool(false)), Some(JNumber(0)), Some(JString(""))}
  {
  }

  /** `typeof v === 'string'` */
  predicate IsString(v: Option<Json>)
  {
    v.Some? && v.value.JString?
  }

  /** `v[key]` for a value that is not `null`: an own field of an object, and
      `undefined` otherwise (no prototype of a JSON value has the keys the
      service reads). */
  function Field(v: Json, key: string): Option<Json>
  {
    if v.JObject? && key in v.fields then Some(v.fields[key]) else None
  }

  /** The TypeError that reading a property of `null` raises. */
  function NullRead(key: string): Exception
  {
    Error("Cannot read properties of null (reading '" + key + "')")
  }

  /** `v[key]`, which throws when `v` is `null`. */
  function Get(v: Json, key: string): (r: Result<Option<Json>, Exception>)
    ensures r.Failure? <==> v == JNull
    ensures r.Success? ==> r.value == Field(v, key)
  {
    if v.JNull? then Failure(NullRead(key)) else Success(Field(v, key))
  }
}
