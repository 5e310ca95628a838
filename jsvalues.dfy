/**
 * JavaScript values as the front end sees them: JSON-shaped data with
 * JavaScript's truthiness, optional property access and String(...)
 * conversion, and the three ways an HTTP request made through axios or
 * fetch can end.
 */
module JsValues {
  import opened Wrappers
  import opened Text

  /** A JSON value. `undefined` is not a value here: it is an absent Option. */
  datatype Json =
    | JNull
    | JBool(b: bool)
    | JNum(n: int)
    | JStr(s: string)
    | JArr(items: seq<Json>)
    | JObj(fields: map<string, Json>)

  /** JavaScript truthiness of a value. */
  predicate Truthy(j: Json) {
    match j
    case JNull => false
    case JBool(b) => b
    case JNum(n) => n != 0
    case JStr(s) => s != ""
    case _ => true
  }

  /** Truthiness of a possibly undefined value. */
  predicate TruthyOpt(o: Option<Json>) {
    o.Some? && Truthy(o.value)
  }

  /** o?.key: undefined when o is undefined or null, when o is not an object, or when the key is missing. */
  function Field(o: Option<Json>, key: string): (r: Option<Json>)
    ensures r.Some? <==> o.Some? && o.value.JObj? && key in o.value.fields
  {
    if o.Some? && o.value.JObj? && key in o.value.fields then Some(o.value.fields[key]) else None
  }

  /** String(v) for a JSON value; array elements that are null become empty strings. */
  function ToJsString(j: Json): string {
    match j
    case JNull => "null"
    case JBool(b) => if b then "true" else "false"
    case JNum(n) => IntToString(n)
    case JStr(s) => s
    case JArr(items) =>
      Join(seq(|items|, k requires 0 <= k < |items| => if items[k].JNull? then "" else ToJsString(items[k])), ",")
    case JObj(_) => "[object Object]"
  }

  /** String(v) where v may be undefined. */
  function ToJsStringOpt(o: Option<Json>): string {
    if o.None? then "undefined" else ToJsString(o.value)
  }

  /** new Error(v).message: the empty string for undefined, String(v) otherwise. */
  function ErrorMessage(o: Option<Json>): string {
    if o.None? then "" else ToJsString(o.value)
  }

  /** How an HTTP request ended: a 2xx response with its body, a non-2xx response, or no response at all. */
  datatype HttpOutcome<T> =
    | Resolved(data: T)
    | Rejected(status: int, body: Json)
    | NoResponse
    | SetupError(message: string)

  /** err.response?.status for a failed request. */
  function Status<T>(h: HttpOutcome<T>): (r: Option<int>)
    ensures r.Some? <==> h.Rejected?
  {
    if h.Rejected? then Some(h.status) else None
  }

  /** err.response?.data?.message for a failed request. */
  function ServerMessage<T>(h: HttpOutcome<T>): Option<Json> {
    if h.Rejected? then Field(Some(h.body), "message") else None
  }

  /** err.response?.data?.message || fallback. */
  function MessageOr<T>(h: HttpOutcome<T>, fallback: string): string {
    if TruthyOpt(ServerMessage(h)) then ToJsString(ServerMessage(h).value) else fallback
  }

  /** How an awaited async handler settled: the value it returned (undefined is None), or an Error's message. */
  datatype Settled = Fulfilled(value: Option<string>) | Thrown(message: string)
}
