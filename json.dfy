/** Parsed JSON values as the client code handles them: JavaScript truthiness,
    property reads (which throw on `null`), `||` defaults and `String(v)`. */
module JsValues {
  import opened Wrappers
  import Text

  /** A JSON value. Numbers are integers in this model. */
  datatype Json =
    | JNull
    | JBool(b: bool)
    | JNum(n: int)
    | JStr(s: string)
    | JArr(items: seq<Json>)
    | JObj(fields: map<string, Json>)

  /** JavaScript truthiness of a value; an absent property (`undefined`) is falsy. */
  predicate Truthy(v: Json) {
    match v
    case JNull => false
    case JBool(b) => b
    case JNum(n) => n != 0
    case JStr(s) => s != ""
    case JArr(_) => true
    case JObj(_) => true
  }

  /** Truthiness of a property read that may have yielded `undefined`. */
  predicate Present(v: Option<Json>) {
    v.Some? && Truthy(v.value)
  }

  /** `v.key`: reading a property of `null` throws a TypeError; reading a missing
      property, or any property of a primitive or an array, yields `undefined`. */
  function Read(v: Json, key: string): (r: Result<Option<Json>>)
    ensures r.Failure? <==> v.JNull?
    ensures r.Success? && r.value.Some? ==> v.JObj? && key in v.fields && v.fields[key] == r.value.value
    ensures v.JObj? && key in v.fields ==> r == Success(Some(v.fields[key]))
  {
    match v
    case JNull => Failure("Cannot read properties of null (reading '" + key + "')")
    case JObj(f) => Success(if key in f then Some(f[key]) else None)
    case _ => Success(None)
  }

  /** `a || d` where `a` may be `undefined`. */
  function Or(a: Option<Json>, d: Json): (r: Json)
    ensures Present(a) ==> r == a.value
    ensures !Present(a) ==> r == d
  {
    if Present(a) then a.value else d
  }

  /** `v.key` is truthy: `v` is an object holding a truthy value under `key`. */
  predicate Carries(v: Json, key: string) {
    v.JObj? && key in v.fields && Truthy(v.fields[key])
  }

  /** `v.key || d` for a non-null `v`, read off the object directly. */
  function FieldOr(v: Json, key: string, d: Json): Json {
    if Carries(v, key) then v.fields[key] else d
  }

  /** `String(v)`: the message `new Error(v)` carries. Objects print as `[object Object]`;
      arrays join their elements' strings with commas, writing `null` elements as empty. */
  function ToJsString(v: Json): string {
    match v
    case JNull => "null"
    case JBool(b) => if b then "true" else "false"
    case JNum(n) => Text.IntToString(n)
    case JStr(s) => s
    case JArr(items) => JoinItems(items)
    case JObj(_) => "[object Object]"
  }

  function JoinItems(items: seq<Json>): string
    decreases items
  {
    if items == [] then ""
    else
      var head := if items[0].JNull? then "" else ToJsString(items[0]);
      if |items| == 1 then head else head + "," + JoinItems(items[1..])
  }
}
