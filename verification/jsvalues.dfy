/**
 * JavaScript values as the dashboards handle them: the result rows of the GraphQL
 * backend, form state and configuration entries. Numbers are integers here.
 */
module JsValues {
  import opened Strings
  import opened Dicts

  datatype JsValue =
    | Undefined
    | Null
    | Bool(b: bool)
    | Num(n: int)
    | Str(s: string)
    | Arr(items: seq<JsValue>)
    | Obj(fields: Dict<JsValue>)

  /** JavaScript truthiness: `undefined`, `null`, `false`, `0` and `""` are falsy; every array and object is truthy. */
  predicate Truthy(v: JsValue) {
    match v
    case Undefined => false
    case Null => false
    case Bool(b) => b
    case Num(n) => n != 0
    case Str(s) => s != ""
    case Arr(_) => true
    case Obj(_) => true
  }

  /** `String(v)`, which is also what `+` with a string and a template literal `${v}` produce. */
  function ToText(v: JsValue): string
    decreases v, 1
  {
    match v
    case Undefined => "undefined"
    case Null => "null"
    case Bool(b) => if b then "true" else "false"
    case Num(n) => IntToString(n)
    case Str(s) => s
    case Arr(items) => ItemsText(items)
    case Obj(_) => "[object Object]"
  }

  /** `Array.prototype.toString`: the items joined by ",", with `null` and `undefined` items written as nothing. */
  function ItemsText(items: seq<JsValue>): string
    decreases items, 0
  {
    if items == [] then ""
    else
      var first := if items[0] == Undefined || items[0] == Null then "" else ToText(items[0]);
      if |items| == 1 then first else first + "," + ItemsText(items[1..])
  }
}
