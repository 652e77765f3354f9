/** JSON values as the browser scripts see them after `response.json()`. */
module JsJson {
  import opened Wrappers
  import opened JsStrings

  /** Numbers are integers here: every number the scripts exchange is an id or a status. */
  datatype Json =
    | JNull
    | JBool(b: bool)
    | JNum(n: int)
    | JStr(s: string)
    | JArr(items: seq<Json>)
    | JObj(fields: map<string, Json>)

  /** JavaScript truthiness: null, false, 0 and "" are falsy; arrays and objects are truthy. */
  function Truthy(j: Json): (b: bool)
    ensures !b <==> j in {JNull, JBool(false), JNum(0), JStr("")}
  {
    match j
    case JNull => false
    case JBool(b) => b
    case JNum(n) => n != 0
    case JStr(s) => s != []
    case _ => true
  }

  /** `value.key`: None stands for `undefined` (only objects carry named properties here). */
  function Property(j: Json, key: string): (r: Option<Json>)
    ensures r.Some? <==> j.JObj? && key in j.fields
  {
    if j.JObj? && key in j.fields then Some(j.fields[key]) else None
  }

  /**
   * `String(value)`, as `new Error(value)` applies it to its message: a
   * string is kept as it is, and a number's text reads back as that number.
   */
  function ToJsString(j: Json): (s: string)
    ensures j.JStr? ==> s == j.s
    ensures j.JNum? ==> StringToNumber(s) == Some(j.n)
    ensures j.JNull? ==> s == "null"
  {
    StringToNumberOfEveryIntToString();
    match j
    case JNull => "null"
    case JBool(b) => if b then "true" else "false"
    case JNum(n) => IntToString(n)
    case JStr(s) => s
    case JObj(_) => "[object Object]"
    case JArr(items) => JoinItems(seq(|items|, i requires 0 <= i < |items| =>
                          if items[i] == JNull then "" else ToJsString(items[i])))
  }

  /** `Array.prototype.join` with the default separator. */
  function JoinItems(parts: seq<string>): string {
    if parts == [] then ""
    else if |parts| == 1 then parts[0]
    else parts[0] + "," + JoinItems(parts[1..])
  }

  /** The body Flask's `jsonify({'error': message})` produces. */
  function ErrorBody(message: string): (j: Json)
    ensures Property(j, "error") == Some(JStr(message))
  {
    JObj(map["error" := JStr(message)])
  }

  /**
   * The string-valued members of a JSON object body: what the server's
   * handlers can read from it, as they treat every field as text.
   */
  function StringFields(payload: map<string, Json>): (body: map<string, string>)
    ensures forall k :: k in body <==> k in payload && payload[k].JStr?
    ensures forall k :: k in body ==> payload[k] == JStr(body[k])
  {
    map k | k in payload && payload[k].JStr? :: payload[k].s
  }
}
