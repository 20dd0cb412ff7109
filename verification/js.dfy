/**
 * The JavaScript values the application handles without a static type:
 * whatever `JSON.parse` produces, and the `Error` objects that are thrown.
 * `JSON.parse` itself is not modelled; it is a parameter of the operations
 * that call it.
 */
module Js {
  import opened Wrappers

  /** A parsed JSON value. Numbers are JavaScript numbers, modelled as reals. */
  datatype Json =
    | JNull
    | JBool(b: bool)
    | JNum(n: real)
    | JStr(s: string)
    | JArr(items: seq<Json>)
    | JObj(fields: map<string, Json>)

  /** Property read `v.key`: `None` is `undefined`. Only objects carry the keys read here. */
  function Get(v: Json, key: string): (r: Option<Json>)
    ensures r.Some? <==> v.JObj? && key in v.fields
  {
    if v.JObj? && key in v.fields then Some(v.fields[key]) else None
  }

  /** JavaScript truthiness of a JSON value. */
  predicate Truthy(v: Json)
  {
    match v
    case JNull => false
    case JBool(b) => b
    case JNum(n) => n != 0.0
    case JStr(s) => s != []
    case JArr(_) => true
    case JObj(_) => true
  }

  /** Truthiness of a property read; `undefined` is falsy. */
  predicate TruthyOpt(v: Option<Json>)
  {
    v.Some? && Truthy(v.value)
  }

  /** `v || fallback` for a property read. */
  function OrElse(v: Option<Json>, fallback: Json): (r: Json)
    ensures TruthyOpt(v) ==> r == v.value
    ensures !TruthyOpt(v) ==> r == fallback
  {
    if TruthyOpt(v) then v.value else fallback
  }

  /** A thrown `Error` object: its `name` and its `message`. */
  datatype JsError = JsError(name: string, message: string)

  /** A plain `new Error(message)`. */
  function Error(message: string): JsError
  {
    JsError("Error", message)
  }

  /** A `TypeError` raised by the JavaScript engine. */
  function TypeError(message: string): JsError
  {
    JsError("TypeError", message)
  }

  /**
   * `error.message || error.toString()`: the message when it is non-empty,
   * otherwise `Error.prototype.toString`, which is the name alone.
   */
  function ErrorText(e: JsError): (r: string)
    ensures e.message != [] ==> r == e.message
    ensures e.message == [] ==> r == e.name
  {
    if e.message != [] then e.message else e.name
  }
}
