/**
 * Python values as the ETL job handles them: decoded JSON (None, booleans, integers,
 * strings, lists and dicts), with truthiness, `str()`, `repr()`, `json.dumps` and
 * the iteration a `for` loop performs.
 */
module PyValues {
  import opened Results
  import opened Strings
  import opened Dicts

  datatype PyValue =
    | PNone
    | PBool(b: bool)
    | PInt(i: int)
    | PStr(s: string)
    | PList(items: seq<PyValue>)
    | PDict(entries: Dict<PyValue>)

  /** Python truthiness: None, False, 0, "" and empty containers are falsy. */
  predicate PyTruthy(v: PyValue) {
    match v
    case PNone => false
    case PBool(b) => b
    case PInt(i) => i != 0
    case PStr(s) => s != ""
    case PList(items) => items != []
    case PDict(entries) => entries != []
  }

  /** `str(v)`: a string is itself, everything else is its `repr`. */
  function PyStr(v: PyValue): string
    decreases v, 1
  {
    match v
    case PStr(s) => s
    case _ => Repr(v)
  }

  /** `repr(v)`, with strings in single quotes (escape sequences are not modelled). */
  function Repr(v: PyValue): string
    decreases v, 0
  {
    match v
    case PNone => "None"
    case PBool(b) => if b then "True" else "False"
    case PInt(i) => IntToString(i)
    case PStr(s) => "'" + s + "'"
    case PList(items) => "[" + Join(seq(|items|, k requires 0 <= k < |items| => Repr(items[k])), ", ") + "]"
    case PDict(entries) =>
      "{" + Join(seq(|entries|, k requires 0 <= k < |entries| => "'" + entries[k].key + "': " + Repr(entries[k].value)), ", ") + "}"
  }

  /** True when `x` occurs in a string somewhere inside `v`: a string value, a dict key, or nested deeper. */
  predicate Holds(v: PyValue, x: string) {
    match v
    case PStr(s) => Contains(s, x)
    case PList(items) => exists k :: 0 <= k < |items| && Holds(items[k], x)
    case PDict(entries) => exists k :: 0 <= k < |entries| && (Contains(entries[k].key, x) || Holds(entries[k].value, x))
    case _ => false
  }

  /** Whatever a value holds anywhere inside it shows in its `repr`. */
  lemma {:induction false} ReprShows(v: PyValue, x: string)
    requires Holds(v, x)
    ensures Contains(Repr(v), x)
  {
    match v
    case PStr(s) =>
      ContainsWithin("'", s, "'", x);
    case PList(items) =>
      var k :| 0 <= k < |items| && Holds(items[k], x);
      var parts := seq(|items|, j requires 0 <= j < |items| => Repr(items[j]));
      ReprShows(items[k], x);
      JoinContains(parts, ", ", k, x);
      ContainsWithin("[", Join(parts, ", "), "]", x);
    case PDict(entries) =>
      var k :| 0 <= k < |entries| && (Contains(entries[k].key, x) || Holds(entries[k].value, x));
      var parts := seq(|entries|, j requires 0 <= j < |entries| => "'" + entries[j].key + "': " + Repr(entries[j].value));
      if Contains(entries[k].key, x) {
        ContainsWithin("'", entries[k].key, "': " + Repr(entries[k].value), x);
        assert "'" + entries[k].key + ("': " + Repr(entries[k].value)) == parts[k];
      } else {
        ReprShows(entries[k].value, x);
        ContainsWithin("'" + entries[k].key + "': ", Repr(entries[k].value), [], x);
        assert "'" + entries[k].key + "': " + Repr(entries[k].value) + [] == parts[k];
      }
      JoinContains(parts, ", ", k, x);
      ContainsWithin("{", Join(parts, ", "), "}", x);
  }

  /** `x in str(v)` whenever `v` holds `x` anywhere inside it. */
  lemma StrShows(v: PyValue, x: string)
    requires Holds(v, x)
    ensures Contains(PyStr(v), x)
  {
    if !v.PStr? { ReprShows(v, x); }
  }

  /** `json.dumps(v)` with its default separators (escape sequences are not modelled). */
  function JsonText(v: PyValue): string {
    match v
    case PNone => "null"
    case PBool(b) => if b then "true" else "false"
    case PInt(i) => IntToString(i)
    case PStr(s) => "\"" + s + "\""
    case PList(items) => "[" + Join(seq(|items|, k requires 0 <= k < |items| => JsonText(items[k])), ", ") + "]"
    case PDict(entries) =>
      "{" + Join(seq(|entries|, k requires 0 <= k < |entries| => "\"" + entries[k].key + "\": " + JsonText(entries[k].value)), ", ") + "}"
  }

  /** What `for x in v` visits: list items, dict keys, string characters; None for a value that is not iterable (TypeError). */
  function Iterate(v: PyValue): (r: Option<seq<PyValue>>)
    ensures v.PList? ==> r == Some(v.items)
    ensures r.None? <==> (v.PNone? || v.PBool? || v.PInt?)
  {
    match v
    case PList(items) => Some(items)
    case PDict(entries) => Some(seq(|entries|, k requires 0 <= k < |entries| => PStr(entries[k].key)))
    case PStr(s) => Some(seq(|s|, k requires 0 <= k < |s| => PStr([s[k]])))
    case _ => None
  }

  /** `d.get(key, default)` on a dict. */
  function GetOr(d: Dict<PyValue>, key: string, default: PyValue): PyValue {
    Get(d, key).GetOr(default)
  }
}
