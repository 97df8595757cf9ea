/** The JSON values a parsed reply can hold, and how JavaScript turns one into text
    when it is interpolated into a template literal (`${v}`). */
module Json {
  import opened Text

  /** A parsed JSON value. Numbers are modelled as integers. */
  datatype JsonValue =
    | JNull
    | JBool(b: bool)
    | JNumber(n: int)
    | JString(s: string)
    | JArray(items: seq<JsonValue>)
    | JObject(fields: map<string, JsonValue>)

  /** `String(v)`: the text a template literal inserts for `v`. */
  function Render(v: JsonValue): (r: string)
    ensures v.JString? ==> r == v.s
    decreases v, 1
  {
    match v
    case JNull => "null"
    case JBool(b) => if b then "true" else "false"
    case JNumber(n) => IntToDecimal(n)
    case JString(s) => s
    case JArray(items) => RenderItems(items)
    case JObject(_) => "[object Object]"
  }

  /** `Array.prototype.join(",")`, which renders a null element as the empty string. */
  function RenderItems(items: seq<JsonValue>): (r: string)
    ensures items == [] ==> r == ""
    decreases items, 0
  {
    if items == [] then ""
    else
      var head := if items[0] == JNull then "" else Render(items[0]);
      if |items| == 1 then head else head + "," + RenderItems(items[1..])
  }

  /** Joining two non-empty arrays one after the other puts a single comma between
      their joined texts: every element is separated from the next by exactly one `,`. */
  lemma {:induction false} RenderItemsAppend(a: seq<JsonValue>, b: seq<JsonValue>)
    requires a != [] && b != []
    ensures RenderItems(a + b) == RenderItems(a) + "," + RenderItems(b)
    decreases |a|
  {
    if |a| == 1 {
      assert (a + b)[1..] == b;
    } else {
      assert (a + b)[1..] == a[1..] + b;
      RenderItemsAppend(a[1..], b);
    }
  }
}
