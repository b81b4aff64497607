/**
 * The CSV export of the editor's grids (atd-vze/src/Components/GridExportData.js):
 * nested result rows flattened into one level of columns, and the export limit
 * chosen from the modal's inputs.
 */
module GridExport {
  import opened Results
  import opened Strings
  import opened Dicts
  import opened JsValues
  import opened GqlAbstract

  /**
   * The number of `Object.entries` of a value: fields of an object, items of an array,
   * characters of a string, none for a number or a boolean.
   */
  function ChildCount(v: JsValue): nat {
    match v
    case Obj(fields) => |fields|
    case Arr(items) => |items|
    case Str(chars) => |chars|
    case _ => 0
  }

  /** `${old}, ${new}` when the column already holds a truthy value, otherwise the new value. */
  function Leaf(acc: Dict<JsValue>, name: string, value: JsValue): Dict<JsValue> {
    var current := Get(acc, name);
    if current.Some? && Truthy(current.value) then Set(acc, name, Str(ToText(current.value) + ", " + ToText(value)))
    else Set(acc, name, value)
  }

  /** One `[columnName, columnValue]` pair: `__typename` is skipped, arrays and objects are descended into. */
  function Step(name: string, value: JsValue, acc: Dict<JsValue>): Dict<JsValue>
    decreases value, 2, 0
  {
    if name == "__typename" then acc
    else if value.Arr? || value.Obj? then Flatten(value, acc)
    else Leaf(acc, name, value)
  }

  /**
   * The entry at index i; the entries of an array or a string are named by their index, as
   * `Object.entries` names them. A character is a one-character string, so always a leaf.
   */
  function Visit(v: JsValue, i: nat, acc: Dict<JsValue>): Dict<JsValue>
    requires i < ChildCount(v)
    decreases v, 0, 0
  {
    match v
    case Obj(fields) => Step(fields[i].key, fields[i].value, acc)
    case Arr(items) => Step(IntToString(i), items[i], acc)
    case Str(chars) => Leaf(acc, IntToString(i), Str([chars[i]]))
  }

  /** The entries from index i on, each merged into the accumulator in turn. */
  function FlattenFrom(v: JsValue, i: nat, acc: Dict<JsValue>): Dict<JsValue>
    decreases v, 0, ChildCount(v) - i
  {
    if i >= ChildCount(v) then acc else FlattenFrom(v, i + 1, Visit(v, i, acc))
  }

  /** The flat row that `flattenRow(v, acc)` leaves behind. */
  function Flatten(v: JsValue, acc: Dict<JsValue>): Dict<JsValue>
    decreases v, 1, 0
  {
    FlattenFrom(v, 0, acc)
  }

  /**
   * A scalar leaf: the column `name` takes the joined text when it already held a
   * truthy value, the new value when it was absent or falsy (0, "", null); no other
   * column changes, and the column list only grows at its end.
   */
  lemma LeafSpec(acc: Dict<JsValue>, name: string, value: JsValue)
    requires UniqueKeys(acc)
    ensures Get(Leaf(acc, name, value), name) ==
      (if Get(acc, name).Some? && Truthy(Get(acc, name).value)
       then Some(Str(ToText(Get(acc, name).value) + ", " + ToText(value))) else Some(value))
    ensures forall j :: j != name ==> Get(Leaf(acc, name, value), j) == Get(acc, j)
    ensures UniqueKeys(Leaf(acc, name, value))
    ensures Keys(Leaf(acc, name, value)) == if name in Keys(acc) then Keys(acc) else Keys(acc) + [name]
  {
    var current := Get(acc, name);
    var nv := if current.Some? && Truthy(current.value) then Str(ToText(current.value) + ", " + ToText(value)) else value;
    assert Leaf(acc, name, value) == Set(acc, name, nv);
    SetKeepsUnique(acc, name, nv);
    forall j ensures Get(Set(acc, name, nv), j) == if j == name then Some(nv) else Get(acc, j) {
      SetGet(acc, name, nv, j);
    }
  }

  /** What flattening keeps: distinct column names, the earlier columns first, and no `__typename` column. */
  predicate Extends(acc: Dict<JsValue>, r: Dict<JsValue>) {
    UniqueKeys(r) && |Keys(acc)| <= |Keys(r)| && Keys(r)[..|Keys(acc)|] == Keys(acc) &&
    ("__typename" !in Keys(acc) ==> "__typename" !in Keys(r))
  }

  lemma ExtendsTrans(a: Dict<JsValue>, b: Dict<JsValue>, c: Dict<JsValue>)
    requires Extends(a, b) && Extends(b, c)
    ensures Extends(a, c)
  {
    assert Keys(c)[..|Keys(a)|] == Keys(c)[..|Keys(b)|][..|Keys(a)|];
  }

  lemma {:induction false} StepExtends(name: string, value: JsValue, acc: Dict<JsValue>)
    requires UniqueKeys(acc)
    ensures Extends(acc, Step(name, value, acc))
    decreases value, 2, 0
  {
    if name == "__typename" {
      assert Keys(acc)[..|Keys(acc)|] == Keys(acc);
    } else if value.Arr? || value.Obj? {
      FlattenExtends(value, acc);
    } else {
      LeafSpec(acc, name, value);
      var r := Leaf(acc, name, value);
      assert Keys(r)[..|Keys(acc)|] == Keys(acc);
    }
  }

  lemma {:induction false} VisitExtends(v: JsValue, i: nat, acc: Dict<JsValue>)
    requires i < ChildCount(v) && UniqueKeys(acc)
    ensures Extends(acc, Visit(v, i, acc))
    decreases v, 0, 0
  {
    match v
    case Obj(fields) => StepExtends(fields[i].key, fields[i].value, acc);
    case Arr(items) => StepExtends(IntToString(i), items[i], acc);
    case Str(chars) =>
      LeafSpec(acc, IntToString(i), Str([chars[i]]));
      var r := Leaf(acc, IntToString(i), Str([chars[i]]));
      assert Keys(r)[..|Keys(acc)|] == Keys(acc);
      assert IsDigit(IntToString(i)[0]) && IntToString(i) != "__typename";
  }

  lemma {:induction false} FlattenFromExtends(v: JsValue, i: nat, acc: Dict<JsValue>)
    requires UniqueKeys(acc)
    ensures Extends(acc, FlattenFrom(v, i, acc))
    decreases v, 0, ChildCount(v) - i
  {
    if i >= ChildCount(v) {
      assert Keys(acc)[..|Keys(acc)|] == Keys(acc);
    } else {
      var next := Visit(v, i, acc);
      VisitExtends(v, i, acc);
      FlattenFromExtends(v, i + 1, next);
      ExtendsTrans(acc, next, FlattenFrom(v, i + 1, next));
    }
  }

  /**
   * Flattening keeps the column names distinct, keeps the columns already present
   * in front and in order, and never adds a `__typename` column, at any depth.
   */
  lemma {:induction false} FlattenExtends(v: JsValue, acc: Dict<JsValue>)
    requires UniqueKeys(acc)
    ensures Extends(acc, Flatten(v, acc))
    decreases v, 1, 0
  {
    FlattenFromExtends(v, 0, acc);
  }

  /**
   * The scalar leaves of a value, as (column name, value) pairs in the order `flattenRow`
   * reaches them: `Object.entries` order at each level, `__typename` entries skipped,
   * arrays and objects descended into, array items and characters named by their index.
   */
  function Leaves(v: JsValue): (r: seq<(string, JsValue)>)
    ensures forall p :: p in r ==> p.0 != "__typename" && !p.1.Arr? && !p.1.Obj?
    decreases v, 1, 0
  {
    LeavesFrom(v, 0)
  }

  function LeavesFrom(v: JsValue, i: nat): (r: seq<(string, JsValue)>)
    ensures forall p :: p in r ==> p.0 != "__typename" && !p.1.Arr? && !p.1.Obj?
    decreases v, 0, ChildCount(v) - i
  {
    if i >= ChildCount(v) then [] else EntryLeaves(v, i) + LeavesFrom(v, i + 1)
  }

  function EntryLeaves(v: JsValue, i: nat): (r: seq<(string, JsValue)>)
    requires i < ChildCount(v)
    ensures forall p :: p in r ==> p.0 != "__typename" && !p.1.Arr? && !p.1.Obj?
    decreases v, 0, 0
  {
    match v
    case Obj(fields) => StepLeaves(fields[i].key, fields[i].value)
    case Arr(items) => StepLeaves(IntToString(i), items[i])
    case Str(chars) =>
      assert IsDigit(IntToString(i)[0]) && IntToString(i) != "__typename";
      [(IntToString(i), Str([chars[i]]))]
  }

  function StepLeaves(name: string, value: JsValue): (r: seq<(string, JsValue)>)
    ensures forall p :: p in r ==> p.0 != "__typename" && !p.1.Arr? && !p.1.Obj?
    decreases value, 2, 0
  {
    if name == "__typename" then []
    else if value.Arr? || value.Obj? then Leaves(value)
    else [(name, value)]
  }

  /** The leaves written into the accumulator one after another. */
  function LeafFold(acc: Dict<JsValue>, leaves: seq<(string, JsValue)>): Dict<JsValue>
    decreases |leaves|
  {
    if leaves == [] then acc else LeafFold(Leaf(acc, leaves[0].0, leaves[0].1), leaves[1..])
  }

  lemma {:induction false} LeafFoldAppend(acc: Dict<JsValue>, a: seq<(string, JsValue)>, b: seq<(string, JsValue)>)
    ensures LeafFold(acc, a + b) == LeafFold(LeafFold(acc, a), b)
    decreases |a|
  {
    if a != [] {
      assert (a + b)[0] == a[0] && (a + b)[1..] == a[1..] + b;
      LeafFoldAppend(Leaf(acc, a[0].0, a[0].1), a[1..], b);
    } else {
      assert a + b == b;
    }
  }

  /**
   * The accumulator's columns after the leaves: the columns it had, and a column for
   * each leaf name, and no other.
   */
  lemma {:induction false} LeafFoldKeys(acc: Dict<JsValue>, leaves: seq<(string, JsValue)>)
    requires UniqueKeys(acc)
    ensures UniqueKeys(LeafFold(acc, leaves))
    ensures forall k :: k in Keys(LeafFold(acc, leaves)) <==>
      (k in Keys(acc) || exists j :: 0 <= j < |leaves| && leaves[j].0 == k)
    decreases |leaves|
  {
    if leaves != [] {
      var next := Leaf(acc, leaves[0].0, leaves[0].1);
      LeafSpec(acc, leaves[0].0, leaves[0].1);
      LeafFoldKeys(next, leaves[1..]);
      forall k ensures k in Keys(LeafFold(acc, leaves)) <==>
        (k in Keys(acc) || exists j :: 0 <= j < |leaves| && leaves[j].0 == k)
      {
        if exists j :: 0 <= j < |leaves[1..]| && leaves[1..][j].0 == k {
          var j :| 0 <= j < |leaves[1..]| && leaves[1..][j].0 == k;
          assert leaves[j + 1].0 == k;
        }
        if exists j :: 0 <= j < |leaves| && leaves[j].0 == k {
          var j :| 0 <= j < |leaves| && leaves[j].0 == k;
          if j > 0 {
            assert leaves[1..][j - 1].0 == k;
          }
        }
      }
    }
  }

  /** `flattenRow(v, acc)` writes exactly the leaves of v, in order, into the accumulator. */
  lemma {:induction false} FlattenIsLeafFold(v: JsValue, acc: Dict<JsValue>)
    ensures Flatten(v, acc) == LeafFold(acc, Leaves(v))
    decreases v, 1, 0
  {
    FlattenFromIsLeafFold(v, 0, acc);
  }

  lemma {:induction false} FlattenFromIsLeafFold(v: JsValue, i: nat, acc: Dict<JsValue>)
    ensures FlattenFrom(v, i, acc) == LeafFold(acc, LeavesFrom(v, i))
    decreases v, 0, ChildCount(v) - i
  {
    if i < ChildCount(v) {
      var next := Visit(v, i, acc);
      VisitIsLeafFold(v, i, acc);
      FlattenFromIsLeafFold(v, i + 1, next);
      LeafFoldAppend(acc, EntryLeaves(v, i), LeavesFrom(v, i + 1));
    }
  }

  lemma {:induction false} VisitIsLeafFold(v: JsValue, i: nat, acc: Dict<JsValue>)
    requires i < ChildCount(v)
    ensures Visit(v, i, acc) == LeafFold(acc, EntryLeaves(v, i))
    decreases v, 0, 0
  {
    match v
    case Obj(fields) => StepIsLeafFold(fields[i].key, fields[i].value, acc);
    case Arr(items) => StepIsLeafFold(IntToString(i), items[i], acc);
    case Str(chars) =>
      var leaf := (IntToString(i), Str([chars[i]]));
      assert LeafFold(acc, [leaf]) == LeafFold(Leaf(acc, leaf.0, leaf.1), []);
  }

  lemma {:induction false} StepIsLeafFold(name: string, value: JsValue, acc: Dict<JsValue>)
    ensures Step(name, value, acc) == LeafFold(acc, StepLeaves(name, value))
    decreases value, 2, 0
  {
    if name != "__typename" {
      if value.Arr? || value.Obj? {
        FlattenIsLeafFold(value, acc);
      } else {
        assert LeafFold(acc, [(name, value)]) == LeafFold(Leaf(acc, name, value), []);
      }
    }
  }

  /**
   * The columns of a flattened row: those the accumulator had, and one for each leaf
   * name of the row, and no other.
   */
  lemma FlattenColumns(v: JsValue, acc: Dict<JsValue>)
    requires UniqueKeys(acc)
    ensures forall k :: k in Keys(Flatten(v, acc)) <==>
      (k in Keys(acc) || exists j :: 0 <= j < |Leaves(v)| && Leaves(v)[j].0 == k)
  {
    FlattenIsLeafFold(v, acc);
    LeafFoldKeys(acc, Leaves(v));
  }

  /** An empty array, object or string adds nothing, and neither does a number or a boolean. */
  lemma FlattenNothing(v: JsValue, acc: Dict<JsValue>)
    requires ChildCount(v) == 0
    ensures Flatten(v, acc) == acc
  {
  }

  /** An example: a null value is a leaf, not a nested object, so it is written under its own name. */
  lemma NullIsLeaf(acc: Dict<JsValue>)
    ensures Flatten(Obj([Entry("crash_id", Null)]), acc) == Leaf(acc, "crash_id", Null)
  {
    assert Visit(Obj([Entry("crash_id", Null)]), 0, acc) == Leaf(acc, "crash_id", Null);
  }

  /** An example: a string row has an entry per character, named by its index, and each becomes its own column. */
  lemma StringRowSplits()
    ensures Flatten(Str("ab"), []) == [Entry("0", Str("a")), Entry("1", Str("b"))]
  {
    var one := [Entry("0", Str("a"))];
    assert Visit(Str("ab"), 0, []) == one;
    assert Get(one, "1") == None;
    assert Visit(Str("ab"), 1, one) == one + [Entry("1", Str("b"))];
  }

  /** An example: a second value for a column is joined to the first with ", ". */
  lemma SecondLeafJoins()
    ensures Leaf([Entry("unit", Str("CAR"))], "unit", Str("BIKE")) == [Entry("unit", Str("CAR, BIKE"))]
  {
    assert Get([Entry("unit", Str("CAR"))], "unit") == Some(Str("CAR"));
    assert "CAR" + ", " + "BIKE" == "CAR, BIKE";
  }

  /** Repeated leaves in a nested array are joined with ", " in their array order. */
  lemma RepeatedLeavesJoin()
    ensures Flatten(Obj([Entry("__typename", Str("crashes")),
                         Entry("units", Arr([Obj([Entry("unit", Str("CAR"))]), Obj([Entry("unit", Str("BIKE"))])]))]), [])
      == [Entry("unit", Str("CAR, BIKE"))]
  {
    var inner := Arr([Obj([Entry("unit", Str("CAR"))]), Obj([Entry("unit", Str("BIKE"))])]);
    assert Flatten(Obj([Entry("unit", Str("CAR"))]), []) == [Entry("unit", Str("CAR"))];
    var car := [Entry("unit", Str("CAR"))];
    SecondLeafJoins();
    assert Flatten(Obj([Entry("unit", Str("BIKE"))]), car) == [Entry("unit", Str("CAR, BIKE"))];
    assert Flatten(inner, []) == [Entry("unit", Str("CAR, BIKE"))];
  }

  /** The accumulator that `flattenRow` writes into and returns. */
  class FlatRow {
    var fields: Dict<JsValue>

    constructor ()
      ensures fields == []
    {
      fields := [];
    }
  }

  /** `Object.entries(v)[i]`: the name and the value of the entry at index i. */
  function EntryAt(v: JsValue, i: nat): (string, JsValue)
    requires i < ChildCount(v)
  {
    match v
    case Obj(fields) => (fields[i].key, fields[i].value)
    case Arr(items) => (IntToString(i), items[i])
    case Str(chars) => (IntToString(i), Str([chars[i]]))
  }

  /** Visiting an entry is the loop body's step on its name and value. */
  lemma VisitIsStep(v: JsValue, i: nat, acc: Dict<JsValue>)
    requires i < ChildCount(v)
    ensures Visit(v, i, acc) == Step(EntryAt(v, i).0, EntryAt(v, i).1, acc)
  {
    if v.Str? {
      assert IsDigit(IntToString(i)[0]) && IntToString(i) != "__typename";
    }
  }

  /** `flattenRow(row, flattenedRow)`: merges every leaf of `row` into the shared accumulator. */
  method FlattenRow(row: JsValue, flattenedRow: FlatRow)
    modifies flattenedRow
    ensures flattenedRow.fields == Flatten(row, old(flattenedRow.fields))
    decreases row
  {
    var i := 0;
    while i < ChildCount(row)
      invariant 0 <= i <= ChildCount(row)
      invariant FlattenFrom(row, i, flattenedRow.fields) == Flatten(row, old(flattenedRow.fields))
    {
      var (columnName, columnValue) := EntryAt(row, i);
      VisitIsStep(row, i, flattenedRow.fields);
      if columnName == "__typename" {
      } else if columnValue.Arr? || columnValue.Obj? {
        FlattenRow(columnValue, flattenedRow);
      } else {
        var current := Get(flattenedRow.fields, columnName);
        if current.Some? && Truthy(current.value) {
          flattenedRow.fields := Set(flattenedRow.fields, columnName, Str(ToText(current.value) + ", " + ToText(columnValue)));
        } else {
          flattenedRow.fields := Set(flattenedRow.fields, columnName, columnValue);
        }
      }
      i := i + 1;
    }
  }

  /** `formatExportData`: one flat row per input row, in order, each built from an empty accumulator. */
  method FormatExportData(data: seq<JsValue>) returns (rows: seq<Dict<JsValue>>)
    ensures |rows| == |data|
    ensures forall i :: 0 <= i < |data| ==> rows[i] == Flatten(data[i], [])
  {
    rows := [];
    var i := 0;
    while i < |data|
      invariant 0 <= i <= |data|
      invariant |rows| == i
      invariant forall j :: 0 <= j < i ==> rows[j] == Flatten(data[j], [])
    {
      var flattenedRow := new FlatRow();
      FlattenRow(data[i], flattenedRow);
      rows := rows + [flattenedRow.fields];
      i := i + 1;
    }
  }

  /** The input that fired the change event: its id, its text value and its checked state. */
  datatype InputTarget = InputTarget(id: string, value: string, checked: bool)

  /**
   * The export limit `setExportLimit` stores, as written: the number input gives its text
   * (1 when empty); every other event is treated as the checkbox, because the second test
   * assigns the id instead of comparing it.
   */
  function ExportLimitAsWritten(target: InputTarget, totalRecords: int): JsValue {
    if target.id == "csv-number-input" then (if target.value != "" then Str(target.value) else Num(1))
    else if target.checked then Num(totalRecords) else Num(1)
  }

  /** The limit with the second test a comparison: an event from neither input leaves the limit alone (None). */
  function ExportLimit(target: InputTarget, totalRecords: int): (r: Option<JsValue>)
    ensures r.None? <==> target.id != "csv-number-input" && target.id != "csv-checkbox-input"
  {
    if target.id == "csv-number-input" then Some(if target.value != "" then Str(target.value) else Num(1))
    else if target.id == "csv-checkbox-input" then Some(if target.checked then Num(totalRecords) else Num(1))
    else None
  }

  /**
   * On the two inputs the handler is wired to, both readings agree: an empty number input
   * and an unchecked box give 1, a checked box gives the record count, and the limit is
   * never the empty text.
   */
  lemma ExportLimitOnItsInputs(target: InputTarget, totalRecords: int)
    requires target.id == "csv-number-input" || target.id == "csv-checkbox-input"
    ensures ExportLimit(target, totalRecords) == Some(ExportLimitAsWritten(target, totalRecords))
    ensures ExportLimitAsWritten(target, totalRecords) != Str("")
    ensures target.id == "csv-checkbox-input" ==>
      ExportLimitAsWritten(target, totalRecords) == (if target.checked then Num(totalRecords) else Num(1))
  {
  }

  /** Any other event still overwrites the limit as written, where a comparison would have left it. */
  lemma ExportLimitOtherEvent()
    ensures ExportLimitAsWritten(InputTarget("csv-modal", "", false), 4000) == Num(1)
    ensures ExportLimit(InputTarget("csv-modal", "", false), 4000) == None
  {
  }

  /**
   * `setExportLimit`: stores the limit in the query configuration. As written the second
   * test also renames the target of any event that is not the number input.
   */
  method SetExportLimit(query: Builder, target: InputTarget, totalRecords: int) returns (after: InputTarget)
    modifies query
    ensures query.config == old(query.config).(limit := ExportLimitAsWritten(target, totalRecords))
    ensures after == if target.id == "csv-number-input" then target else target.(id := "csv-checkbox-input")
  {
    after := target;
    if target.id == "csv-number-input" {
      query.SetLimit(if target.value != "" then Str(target.value) else Num(1));
    } else {
      after := target.(id := "csv-checkbox-input");
      query.SetLimit(if target.checked then Num(totalRecords) else Num(1));
    }
  }
}
