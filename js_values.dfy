/**
 * JSON values as the route handlers see them after `JSON.parse`, the
 * JavaScript truthiness test applied to them, and the HTTP responses that
 * `NextResponse.json` builds.
 */
module JsValues {
  import opened Options

  /** A parsed JSON value. A number is kept as the text JavaScript's
    * `String(n)` gives it (so zero, positive or negative, is "0"); object
    * key order is not modelled. */
  datatype Json =
    | JNull
    | JBool(b: bool)
    | JNumber(repr: string)
    | JString(s: string)
    | JArray(items: seq<Json>)
    | JObject(fields: map<string, Json>)

  /** JavaScript truthiness of a JSON value: `null`, `false`, `0` and `""`
    * are falsy; arrays and objects, even empty ones, are truthy. */
  predicate Truthy(v: Json) {
    match v
    case JNull => false
    case JBool(b) => b
    case JNumber(repr) => repr != "0"
    case JString(s) => s != ""
    case _ => true
  }

  /** Truthiness of an optional string field: absent and "" are falsy. */
  predicate Present(o: Option<string>) {
    o.Some? && o.value != ""
  }

  /** `a || b` where `a` is an optional string field and `b` a string. */
  function OrElse(a: Option<string>, b: string): string
  {
    if Present(a) then a.value else b
  }

  /** The outcome of `JSON.parse` on a text: a value, or the SyntaxError it
    * throws, with the engine's message. */
  datatype ParseResult = SyntaxError(message: string) | Parsed(value: Json)

  /** What a `throw` carries into a `catch (error)`: `error.name` and
    * `error.message`. */
  datatype Thrown = Thrown(name: string, message: string)

  /** `NextResponse.json(body, { status })`. */
  datatype Response = Response(status: nat, body: Json)

  /** The object literal `{ error: e, details: d }`. */
  function ErrorBody(error: string, details: string): Json
  {
    JObject(map["error" := JString(error), "details" := JString(details)])
  }
}
