/** The values `JSON.parse` produces, and the few JavaScript operations the
    handlers apply to them: truthiness, property reads and `String(v)`. */
module JsValue {
  import opened Wrappers

  /** A parsed JSON value. A number is carried by the text JavaScript's
      Number-to-String conversion gives it, which is all the handlers use. */
  datatype Json =
    | JNull
    | JBool(b: bool)
    | JNum(text: string)
    | JStr(s: string)
    | JArr(items: seq<Json>)
    | JObj(fields: map<string, Json>)

  /** ToBoolean: null, false, the number 0 and the empty string are falsy;
      arrays and objects, even empty ones, are truthy. */
  predicate Truthy(v: Json)
    ensures !Truthy(v) <==> v in {JNull, JBool(false), JNum("0"), JNum("NaN"), JStr("")}
  {
    match v
    case JNull => false
    case JBool(b) => b
    case JNum(t) => t != "0" && t != "NaN"
    case JStr(s) => s != ""
    case JArr(_) => true
    case JObj(_) => true
  }

  /** The property read `v.key` on a parsed value: only objects carry the
      keys the handlers read; on any other value the read gives undefined. */
  function Get(v: Json, key: string): (r: Option<Json>)
    ensures r.Some? <==> v.JObj? && key in v.fields
    ensures r.Some? ==> r.value == v.fields[key]
  {
    if v.JObj? && key in v.fields then Some(v.fields[key]) else None
  }

  /** `v?.key || null`: the property when it is truthy, otherwise null. */
  function TruthyOrNull(v: Json, key: string): (r: Json)
    ensures r == JNull || (Get(v, key) == Some(r) && Truthy(r))
    ensures Truthy(r) <==> Get(v, key).Some? && Truthy(Get(v, key).value)
  {
    match Get(v, key)
    case Some(x) => if Truthy(x) then x else JNull
    case None => JNull
  }

  /** `String(v)`, as a template literal `${v}` renders it: an array is its
      elements joined with commas (null elements render empty), any object
      is "[object Object]". */
  function ToText(v: Json): (r: string)
    ensures v.JStr? ==> r == v.s
    ensures v.JNum? ==> r == v.text
    ensures v.JBool? ==> r == (if v.b then "true" else "false")
    ensures v == JNull ==> r == "null"
    ensures v.JObj? ==> r == "[object Object]"
    ensures v.JArr? && |v.items| == 0 ==> r == ""
    ensures v.JArr? && |v.items| == 1 && v.items[0] != JNull ==> r == ToText(v.items[0])
    ensures v.JArr? && |v.items| == 1 && v.items[0] == JNull ==> r == ""
    decreases v
  {
    match v
    case JNull => "null"
    case JBool(b) => if b then "true" else "false"
    case JNum(t) => t
    case JStr(s) => s
    case JArr(items) =>
      JoinWithCommas(seq(|items|, i requires 0 <= i < |items| =>
        if items[i] == JNull then "" else ToText(items[i])))
    case JObj(_) => "[object Object]"
  }

  /** How one array element renders inside `String(array)`: null as "". */
  function ElemText(x: Json): string {
    if x == JNull then "" else ToText(x)
  }

  /** An array of two or more elements renders as its first element, a
      comma, and the rendering of the rest. */
  lemma ToTextArray(items: seq<Json>)
    requires |items| >= 2
    ensures ToText(JArr(items)) == ElemText(items[0]) + "," + ToText(JArr(items[1..]))
  {
    var parts := seq(|items|, i requires 0 <= i < |items| =>
      if items[i] == JNull then "" else ToText(items[i]));
    var rest := items[1..];
    var partsRest := seq(|rest|, i requires 0 <= i < |rest| =>
      if rest[i] == JNull then "" else ToText(rest[i]));
    assert parts[1..] == partsRest;
  }

  function JoinWithCommas(parts: seq<string>): string {
    if |parts| == 0 then ""
    else if |parts| == 1 then parts[0]
    else parts[0] + "," + JoinWithCommas(parts[1..])
  }
}
