/**
 * The record reshaping of the Hasura-to-Socrata export
 * (atd-etl/app/process/helpers_socrata.py). A record is a Python dict, modelled as a
 * `Record` object whose `fields` the in-place helpers reassign; the helpers that
 * deep-copy first return fresh records and leave their input alone. Where the source
 * would raise (a `TypeError`, `AttributeError` or `KeyError`), the per-record
 * specification gives None.
 */
module SocrataHelpers {
  import opened Results
  import opened Strings
  import opened Dicts
  import opened PyValues

  // ---------------------------------------------------------------- replace_chars

  /** Each entry of the list replaced in turn, first to last. */
  function ReplacedChars(s: string, chars: seq<string>, rep: string): string
    decreases chars
  {
    if chars == [] then s else ReplacedChars(PyReplace(s, chars[0], rep), chars[1..], rep)
  }

  /** `replace_chars`: the string is reassigned once per list entry. */
  method ReplaceChars(target: string, chars: seq<string>, replacement: string) returns (r: string)
    ensures r == ReplacedChars(target, chars, replacement)
  {
    r := target;
    var i := 0;
    while i < |chars|
      invariant 0 <= i <= |chars|
      invariant ReplacedChars(r, chars[i..], replacement) == ReplacedChars(target, chars, replacement)
    {
      assert chars[i..][1..] == chars[i + 1..];
      r := PyReplace(r, chars[i], replacement);
      i := i + 1;
    }
  }

  lemma {:induction false} ReplacedCharsKeepAbsent(s: string, chars: seq<string>, rep: string, d: char)
    requires d !in s && d !in rep
    ensures d !in ReplacedChars(s, chars, rep)
    decreases chars
  {
    if chars != [] {
      PyReplaceKeepsAbsent(s, chars[0], rep, d);
      ReplacedCharsKeepAbsent(PyReplace(s, chars[0], rep), chars[1..], rep, d);
    }
  }

  /**
   * With one-character entries and a replacement that holds none of them, no listed
   * character survives; an empty list leaves the string as it was.
   */
  lemma {:induction false} ReplacedCharsRemoves(s: string, chars: seq<string>, rep: string)
    requires forall k :: 0 <= k < |chars| ==> |chars[k]| == 1 && chars[k][0] !in rep
    ensures forall k :: 0 <= k < |chars| ==> chars[k][0] !in ReplacedChars(s, chars, rep)
    ensures chars == [] ==> ReplacedChars(s, chars, rep) == s
    decreases chars
  {
    if chars != [] {
      var s1 := PyReplace(s, chars[0], rep);
      assert chars[0] == [chars[0][0]];
      PyReplaceCharRemoves(s, chars[0][0], rep);
      ReplacedCharsKeepAbsent(s1, chars[1..], rep, chars[0][0]);
      ReplacedCharsRemoves(s1, chars[1..], rep);
      forall k | 1 <= k < |chars| ensures chars[k][0] !in ReplacedChars(s, chars, rep) {
        assert chars[k] == chars[1..][k - 1];
      }
    }
  }

  // ------------------------------------------------------- flatten_hasura_response

  /**
   * A third-level field lifted to the top: appended as " & value" to an existing
   * column (which must hold text, or `+` raises), created otherwise.
   */
  function Lift(acc: Dict<PyValue>, key: string, value: PyValue): Option<Dict<PyValue>> {
    var current := Get(acc, key);
    if current.None? then Some(Set(acc, key, value))
    else if current.value.PStr? then Some(Set(acc, key, PStr(current.value.s + " & " + PyStr(value))))
    else None
  }

  /** The fields of one nested dict, lifted in order. */
  function LiftInner(acc: Dict<PyValue>, inner: Dict<PyValue>): Option<Dict<PyValue>>
    decreases inner
  {
    if inner == [] then Some(acc)
    else match Lift(acc, inner[0].key, inner[0].value)
      case None => None
      case Some(next) => LiftInner(next, inner[1..])
  }

  /** One field of a list item: a dict is lifted field by field, None is skipped, anything else overwrites. */
  function ItemField(acc: Dict<PyValue>, key: string, value: PyValue): Option<Dict<PyValue>> {
    if value.PDict? then LiftInner(acc, value.entries)
    else if value != PNone then Some(Set(acc, key, value))
    else Some(acc)
  }

  function ItemFields(acc: Dict<PyValue>, fields: Dict<PyValue>): Option<Dict<PyValue>>
    decreases fields
  {
    if fields == [] then Some(acc)
    else match ItemField(acc, fields[0].key, fields[0].value)
      case None => None
      case Some(next) => ItemFields(next, fields[1..])
  }

  /** The items of a list value; an item that is not a dict has no `.items()` and raises. */
  function ListItems(acc: Dict<PyValue>, items: seq<PyValue>): Option<Dict<PyValue>>
    decreases items
  {
    if items == [] then Some(acc)
    else if !items[0].PDict? then None
    else match ItemFields(acc, items[0].entries)
      case None => None
      case Some(next) => ListItems(next, items[1..])
  }

  /** The fields of a dict value, copied to the top level. */
  function CopyFields(acc: Dict<PyValue>, fields: Dict<PyValue>): Dict<PyValue>
    decreases fields
  {
    if fields == [] then acc else CopyFields(Set(acc, fields[0].key, fields[0].value), fields[1..])
  }

  /** One top-level entry of the original record: a list or dict value is lifted, then its key deleted. */
  function TopLevel(acc: Dict<PyValue>, key: string, value: PyValue): Option<Dict<PyValue>> {
    if value.PList? then
      match ListItems(acc, value.items)
      case None => None
      case Some(next) => Some(Remove(next, key))
    else if value.PDict? then Some(Remove(CopyFields(acc, value.entries), key))
    else Some(acc)
  }

  function TopLevels(acc: Dict<PyValue>, entries: Dict<PyValue>): Option<Dict<PyValue>>
    decreases entries
  {
    if entries == [] then Some(acc)
    else match TopLevel(acc, entries[0].key, entries[0].value)
      case None => None
      case Some(next) => TopLevels(next, entries[1..])
  }

  /** The flattened copy of one record: its own entries, visited in order, reshape a copy of it. */
  function FlattenRecord(record: Dict<PyValue>): Option<Dict<PyValue>> {
    TopLevels(record, record)
  }

  /** A Python dict that the helpers below share and update in place. */
  class Record {
    var fields: Dict<PyValue>

    constructor (fields: Dict<PyValue>)
      ensures this.fields == fields
    {
      this.fields := fields;
    }
  }

  /** The innermost loop: the fields of a nested dict, each lifted to the top level. */
  method LiftNested(start: Dict<PyValue>, inner: Dict<PyValue>) returns (r: Option<Dict<PyValue>>)
    ensures r == LiftInner(start, inner)
  {
    var formatted := start;
    var i := 0;
    while i < |inner|
      invariant 0 <= i <= |inner|
      invariant LiftInner(formatted, inner[i..]) == LiftInner(start, inner)
    {
      assert inner[i..][1..] == inner[i + 1..];
      var key, value := inner[i].key, inner[i].value;
      var current := Get(formatted, key);
      if current.Some? {
        if !current.value.PStr? {
          return None;
        }
        formatted := Set(formatted, key, PStr(current.value.s + " & " + PyStr(value)));
      } else {
        formatted := Set(formatted, key, value);
      }
      i := i + 1;
    }
    return Some(formatted);
  }

  /** The loop over one list item's fields. */
  method LiftItem(start: Dict<PyValue>, item: Dict<PyValue>) returns (r: Option<Dict<PyValue>>)
    ensures r == ItemFields(start, item)
  {
    var formatted := start;
    var i := 0;
    while i < |item|
      invariant 0 <= i <= |item|
      invariant ItemFields(formatted, item[i..]) == ItemFields(start, item)
    {
      assert item[i..][1..] == item[i + 1..];
      var key, value := item[i].key, item[i].value;
      if value.PDict? {
        var lifted := LiftNested(formatted, value.entries);
        if lifted.None? {
          return None;
        }
        formatted := lifted.value;
      } else if value != PNone {
        formatted := Set(formatted, key, value);
      }
      i := i + 1;
    }
    return Some(formatted);
  }

  /** The loop over the items of a list value. */
  method LiftList(start: Dict<PyValue>, items: seq<PyValue>) returns (r: Option<Dict<PyValue>>)
    ensures r == ListItems(start, items)
  {
    var formatted := start;
    var i := 0;
    while i < |items|
      invariant 0 <= i <= |items|
      invariant ListItems(formatted, items[i..]) == ListItems(start, items)
    {
      assert items[i..][1..] == items[i + 1..];
      if !items[i].PDict? {
        return None;
      }
      var lifted := LiftItem(formatted, items[i].entries);
      if lifted.None? {
        return None;
      }
      formatted := lifted.value;
      i := i + 1;
    }
    return Some(formatted);
  }

  /** The loop over the original record's entries, reshaping its copy. */
  method FlattenCopy(record: Dict<PyValue>) returns (r: Option<Dict<PyValue>>)
    ensures r == FlattenRecord(record)
  {
    var formatted := record;
    var i := 0;
    while i < |record|
      invariant 0 <= i <= |record|
      invariant TopLevels(formatted, record[i..]) == FlattenRecord(record)
    {
      assert record[i..][1..] == record[i + 1..];
      var key, value := record[i].key, record[i].value;
      if value.PList? {
        var lifted := LiftList(formatted, value.items);
        if lifted.None? {
          return None;
        }
        formatted := Remove(lifted.value, key);
      } else if value.PDict? {
        var fields := value.entries;
        ghost var before := formatted;
        var j := 0;
        while j < |fields|
          invariant 0 <= j <= |fields|
          invariant CopyFields(formatted, fields[j..]) == CopyFields(before, fields)
        {
          assert fields[j..][1..] == fields[j + 1..];
          formatted := Set(formatted, fields[j].key, fields[j].value);
          j := j + 1;
        }
        assert fields[j..] == [];
        formatted := Remove(formatted, key);
      }
      i := i + 1;
    }
    return Some(formatted);
  }

  /**
   * `flatten_hasura_response`: one flattened copy per record, in order; the input
   * records are only read. None when some record makes the source raise.
   */
  method FlattenHasuraResponse(records: seq<Record>) returns (r: Option<seq<Record>>)
    ensures r.Some? <==> forall i :: 0 <= i < |records| ==> FlattenRecord(records[i].fields).Some?
    ensures r.Some? ==> |r.value| == |records|
    ensures r.Some? ==> forall i :: 0 <= i < |records| ==> r.value[i].fields == FlattenRecord(records[i].fields).value
    ensures r.Some? ==> forall i :: 0 <= i < |records| ==> fresh(r.value[i])
    ensures r.Some? ==> Distinct(r.value)
  {
    var formattedRecords: seq<Record> := [];
    var i := 0;
    while i < |records|
      invariant 0 <= i <= |records|
      invariant |formattedRecords| == i
      invariant forall j :: 0 <= j < i ==> FlattenRecord(records[j].fields).Some?
      invariant forall j :: 0 <= j < i ==> formattedRecords[j].fields == FlattenRecord(records[j].fields).value
      invariant forall j :: 0 <= j < i ==> fresh(formattedRecords[j])
      invariant Distinct(formattedRecords)
    {
      var formatted := FlattenCopy(records[i].fields);
      if formatted.None? {
        return None;
      }
      var record := new Record(formatted.value);
      formattedRecords := formattedRecords + [record];
      i := i + 1;
    }
    return Some(formattedRecords);
  }

  /**
   * A lifted field: a new column takes the value, a text column gets " & value"
   * appended, any other existing value makes `+` raise; no other column changes.
   */
  lemma LiftSpec(acc: Dict<PyValue>, key: string, value: PyValue)
    ensures Get(acc, key).None? ==> Lift(acc, key, value).Some? && Get(Lift(acc, key, value).value, key) == Some(value)
    ensures Get(acc, key).Some? && Get(acc, key).value.PStr? ==>
      (Lift(acc, key, value).Some? &&
       Get(Lift(acc, key, value).value, key) == Some(PStr(Get(acc, key).value.s + " & " + PyStr(value))))
    ensures Get(acc, key).Some? && !Get(acc, key).value.PStr? ==> Lift(acc, key, value).None?
    ensures Lift(acc, key, value).Some? ==> forall j :: j != key ==> Get(Lift(acc, key, value).value, j) == Get(acc, j)
  {
    var current := Get(acc, key);
    var nv := if current.None? then value else if current.value.PStr? then PStr(current.value.s + " & " + PyStr(value)) else value;
    forall j ensures Get(Set(acc, key, nv), j) == if j == key then Some(nv) else Get(acc, j) {
      SetGet(acc, key, nv, j);
    }
  }

  /** A None field of a list item is skipped; a scalar field overwrites the top-level column. */
  lemma ItemFieldSpec(acc: Dict<PyValue>, key: string, value: PyValue)
    ensures value == PNone ==> ItemField(acc, key, value) == Some(acc)
    ensures !value.PDict? && value != PNone ==>
      (ItemField(acc, key, value).Some? &&
       Get(ItemField(acc, key, value).value, key) == Some(value) &&
       forall j :: j != key ==> Get(ItemField(acc, key, value).value, j) == Get(acc, j))
  {
    if !value.PDict? && value != PNone {
      forall j ensures Get(Set(acc, key, value), j) == if j == key then Some(value) else Get(acc, j) {
        SetGet(acc, key, value, j);
      }
    }
  }

  /** Right after its children are lifted, a list or dict entry's own key is gone; a scalar entry changes nothing. */
  lemma TopLevelSpec(acc: Dict<PyValue>, key: string, value: PyValue)
    ensures (value.PList? || value.PDict?) && TopLevel(acc, key, value).Some? ==> key !in Keys(TopLevel(acc, key, value).value)
    ensures !value.PList? && !value.PDict? ==> TopLevel(acc, key, value) == Some(acc)
    ensures value.PDict? ==> TopLevel(acc, key, value).Some?
  {
    if value.PList? {
      var lifted := ListItems(acc, value.items);
      if lifted.Some? {
        RemoveSpec(lifted.value, key);
      }
    } else if value.PDict? {
      RemoveSpec(CopyFields(acc, value.entries), key);
    }
  }

  function UnitItem(description: string): PyValue {
    PDict([Entry("unit_description", PDict([Entry("veh_unit_desc_desc", PStr(description))]))])
  }

  /** An example: a second unit's description is appended to the first with " & ". */
  lemma SecondUnitAppends(acc: Dict<PyValue>)
    requires acc == [Entry("crash_id", PInt(1)), Entry("units", PList([UnitItem("MOTOR VEHICLE"), UnitItem("PEDALCYCLIST")])),
                     Entry("veh_unit_desc_desc", PStr("MOTOR VEHICLE"))]
    ensures ItemFields(acc, UnitItem("PEDALCYCLIST").entries) ==
      Some(acc[..2] + [Entry("veh_unit_desc_desc", PStr("MOTOR VEHICLE & PEDALCYCLIST"))])
  {
    var rec := acc[..2];
    var joined := PStr("MOTOR VEHICLE & PEDALCYCLIST");
    assert Keys(rec) == ["crash_id", "units"];
    LastEntry(rec, "veh_unit_desc_desc", PStr("MOTOR VEHICLE"), joined);
    assert rec + [Entry("veh_unit_desc_desc", PStr("MOTOR VEHICLE"))] == acc;
    assert "MOTOR VEHICLE" + " & " + "PEDALCYCLIST" == "MOTOR VEHICLE & PEDALCYCLIST";
    assert Lift(acc, "veh_unit_desc_desc", PStr("PEDALCYCLIST")) == Some(rec + [Entry("veh_unit_desc_desc", joined)]);
  }

  /**
   * An example: a crash with two units. The list is lifted, the repeated description is
   * joined with " & " in list order, and the `units` column is gone.
   */
  lemma FlattenUnitsExample()
    ensures FlattenRecord([Entry("crash_id", PInt(1)), Entry("units", PList([UnitItem("MOTOR VEHICLE"), UnitItem("PEDALCYCLIST")]))])
      == Some([Entry("crash_id", PInt(1)), Entry("veh_unit_desc_desc", PStr("MOTOR VEHICLE & PEDALCYCLIST"))])
  {
    var rec := [Entry("crash_id", PInt(1)), Entry("units", PList([UnitItem("MOTOR VEHICLE"), UnitItem("PEDALCYCLIST")]))];
    var one := rec + [Entry("veh_unit_desc_desc", PStr("MOTOR VEHICLE"))];
    assert Keys(rec) == ["crash_id", "units"];
    SetNewKey(rec, "veh_unit_desc_desc", PStr("MOTOR VEHICLE"));
    assert Get(rec, "veh_unit_desc_desc") == None by {
      GetSpec(rec, "veh_unit_desc_desc");
    }
    assert ItemFields(rec, UnitItem("MOTOR VEHICLE").entries) == Some(one);
    SecondUnitAppends(one);
    var two := rec + [Entry("veh_unit_desc_desc", PStr("MOTOR VEHICLE & PEDALCYCLIST"))];
    assert one[..2] == rec;
    assert ListItems(one, [UnitItem("PEDALCYCLIST")]) == Some(two);
    assert ListItems(rec, [UnitItem("MOTOR VEHICLE"), UnitItem("PEDALCYCLIST")]) == Some(two);
    assert Remove(two[2..], "units") == two[2..];
    assert Remove(two[1..], "units") == two[2..];
    assert Remove(two, "units") == [Entry("crash_id", PInt(1)), Entry("veh_unit_desc_desc", PStr("MOTOR VEHICLE & PEDALCYCLIST"))];
    assert TopLevels(rec, rec[1..]) == Some(Remove(two, "units"));
  }

  // ------------------------------------------------------------- set_mode_columns

  const MetadataColumn := "atd_mode_category_metadata"

  /** `unit.get("mode_desc")` for every unit; a unit that is not a dict has no `.get` and raises. */
  function ModeDescs(units: seq<PyValue>): Option<seq<PyValue>>
    decreases units
  {
    if units == [] then Some([])
    else if !units[0].PDict? then None
    else match ModeDescs(units[1..])
      case None => None
      case Some(rest) => Some([GetOr(units[0].entries, "mode_desc", PNone)] + rest)
  }

  /** The texts `" & ".join` accepts; any item that is not a string makes it raise. */
  function AllText(values: seq<PyValue>): Option<seq<string>>
    decreases values
  {
    if values == [] then Some([])
    else if !values[0].PStr? then None
    else match AllText(values[1..])
      case None => None
      case Some(rest) => Some([values[0].s] + rest)
  }

  /** The copy `set_mode_columns` makes of one record. */
  function ModeColumns(record: Dict<PyValue>): Option<Dict<PyValue>> {
    var metadata := Get(record, MetadataColumn);
    if metadata.None? || metadata.value == PNone then Some(record)
    else match Iterate(metadata.value)
      case None => None
      case Some(units) =>
        match ModeDescs(units)
        case None => None
        case Some(descs) =>
          match AllText(descs)
          case None => None
          case Some(texts) =>
            Some(Set(Set(record, "units_involved", PStr(Join(texts, " & "))), MetadataColumn, PStr(JsonText(metadata.value))))
  }

  lemma {:induction false} ModeDescsSpec(units: seq<PyValue>)
    ensures ModeDescs(units).Some? <==> forall i :: 0 <= i < |units| ==> units[i].PDict?
    ensures ModeDescs(units).Some? ==>
      (|ModeDescs(units).value| == |units| &&
       forall i :: 0 <= i < |units| ==> ModeDescs(units).value[i] == GetOr(units[i].entries, "mode_desc", PNone))
    decreases units
  {
    if units != [] {
      ModeDescsSpec(units[1..]);
      assert forall i :: 1 <= i < |units| ==> units[i] == units[1..][i - 1];
    }
  }

  lemma {:induction false} AllTextSpec(values: seq<PyValue>)
    ensures AllText(values).Some? <==> forall i :: 0 <= i < |values| ==> values[i].PStr?
    ensures AllText(values).Some? ==>
      (|AllText(values).value| == |values| &&
       forall i :: 0 <= i < |values| ==> values[i] == PStr(AllText(values).value[i]))
    decreases values
  {
    if values != [] {
      AllTextSpec(values[1..]);
      assert forall i :: 1 <= i < |values| ==> values[i] == values[1..][i - 1];
    }
  }

  /** Without metadata, or with None, the record is copied unchanged. */
  lemma ModeColumnsWithoutMetadata(record: Dict<PyValue>)
    requires Get(record, MetadataColumn).None? || Get(record, MetadataColumn) == Some(PNone)
    ensures ModeColumns(record) == Some(record)
  {
  }

  /**
   * With a list of unit dicts whose `mode_desc` values are texts, `units_involved` is
   * those texts joined by " & " in unit order, the metadata becomes its JSON text, and
   * no other column changes; a unit without `mode_desc` makes the join raise.
   */
  lemma ModeColumnsWithMetadata(record: Dict<PyValue>, units: seq<PyValue>, texts: seq<string>)
    requires Get(record, MetadataColumn) == Some(PList(units))
    requires forall i :: 0 <= i < |units| ==> units[i].PDict?
    requires |texts| == |units|
    requires forall i :: 0 <= i < |units| ==> Get(units[i].entries, "mode_desc") == Some(PStr(texts[i]))
    ensures ModeColumns(record).Some?
    ensures Get(ModeColumns(record).value, "units_involved") == Some(PStr(Join(texts, " & ")))
    ensures Get(ModeColumns(record).value, MetadataColumn) == Some(PStr(JsonText(PList(units))))
    ensures forall j :: j != "units_involved" && j != MetadataColumn ==> Get(ModeColumns(record).value, j) == Get(record, j)
  {
    ModeDescsSpec(units);
    var descs := ModeDescs(units).value;
    AllTextSpec(descs);
    assert AllText(descs).Some?;
    var ts := AllText(descs).value;
    assert ts == texts by {
      forall i | 0 <= i < |texts| ensures ts[i] == texts[i] {
        assert descs[i] == PStr(ts[i]);
      }
    }
    var r1 := Set(record, "units_involved", PStr(Join(texts, " & ")));
    var json := PStr(JsonText(PList(units)));
    forall j ensures Get(Set(r1, MetadataColumn, json), j) ==
      (if j == MetadataColumn then Some(json) else if j == "units_involved" then Some(PStr(Join(texts, " & "))) else Get(record, j))
    {
      SetGet(r1, MetadataColumn, json, j);
      SetGet(record, "units_involved", PStr(Join(texts, " & ")), j);
    }
  }

  lemma ModeColumnsMissingDescription(record: Dict<PyValue>, units: seq<PyValue>, i: nat)
    requires Get(record, MetadataColumn) == Some(PList(units))
    requires forall k :: 0 <= k < |units| ==> units[k].PDict?
    requires i < |units| && Get(units[i].entries, "mode_desc").None?
    ensures ModeColumns(record).None?
  {
    ModeDescsSpec(units);
    var descs := ModeDescs(units).value;
    AllTextSpec(descs);
    assert descs[i] == PNone;
  }

  /** The loop gathering `unit.get("mode_desc")` for every unit. */
  method ModeDescriptions(units: seq<PyValue>) returns (r: Option<seq<PyValue>>)
    ensures r == ModeDescs(units)
  {
    ModeDescsSpec(units);
    var unitsInvolved: seq<PyValue> := [];
    var i := 0;
    while i < |units|
      invariant 0 <= i <= |units|
      invariant |unitsInvolved| == i
      invariant forall k :: 0 <= k < i ==> units[k].PDict? && unitsInvolved[k] == GetOr(units[k].entries, "mode_desc", PNone)
    {
      if !units[i].PDict? {
        return None;
      }
      unitsInvolved := unitsInvolved + [GetOr(units[i].entries, "mode_desc", PNone)];
      i := i + 1;
    }
    assert unitsInvolved == ModeDescs(units).value;
    return Some(unitsInvolved);
  }

  /** The copy of one record with its mode columns set. */
  method ModeColumnsCopy(record: Dict<PyValue>) returns (r: Option<Dict<PyValue>>)
    ensures r == ModeColumns(record)
  {
    var formatted := record;
    var metadata := Get(record, MetadataColumn);
    if metadata.Some? && metadata.value != PNone {
      var units := Iterate(metadata.value);
      if units.None? {
        return None;
      }
      var unitsInvolved := ModeDescriptions(units.value);
      if unitsInvolved.None? {
        return None;
      }
      var texts := AllText(unitsInvolved.value);
      if texts.None? {
        return None;
      }
      formatted := Set(formatted, "units_involved", PStr(Join(texts.value, " & ")));
      formatted := Set(formatted, MetadataColumn, PStr(JsonText(metadata.value)));
    }
    return Some(formatted);
  }

  /**
   * `set_mode_columns`: one copy per record, in order, with the mode columns set;
   * the input records are only read. None when some record makes the source raise.
   */
  method SetModeColumns(records: seq<Record>) returns (r: Option<seq<Record>>)
    ensures r.Some? <==> forall i :: 0 <= i < |records| ==> ModeColumns(records[i].fields).Some?
    ensures r.Some? ==> |r.value| == |records|
    ensures r.Some? ==> forall i :: 0 <= i < |records| ==> r.value[i].fields == ModeColumns(records[i].fields).value
    ensures r.Some? ==> forall i :: 0 <= i < |records| ==> fresh(r.value[i])
    ensures r.Some? ==> Distinct(r.value)
  {
    var formattedRecords: seq<Record> := [];
    var i := 0;
    while i < |records|
      invariant 0 <= i <= |records|
      invariant |formattedRecords| == i
      invariant forall j :: 0 <= j < i ==> ModeColumns(records[j].fields).Some?
      invariant forall j :: 0 <= j < i ==> formattedRecords[j].fields == ModeColumns(records[j].fields).value
      invariant forall j :: 0 <= j < i ==> fresh(formattedRecords[j])
      invariant Distinct(formattedRecords)
    {
      var formatted := ModeColumnsCopy(records[i].fields);
      if formatted.None? {
        return None;
      }
      var copy := new Record(formatted.value);
      formattedRecords := formattedRecords + [copy];
      i := i + 1;
    }
    return Some(formattedRecords);
  }

  // ------------------------------------------------------- the in-place helpers

  /** The helpers that mutate records assume each dict appears once in the list. */
  predicate Distinct(records: seq<Record>) {
    forall i, j :: 0 <= i < j < |records| ==> records[i] != records[j]
  }

  /** The Well-Known Text point (OGC 06-103r4, clause 7): longitude first, then latitude. */
  function PointText(longitude: PyValue, latitude: PyValue): string {
    "POINT (" + PyStr(longitude) + " " + PyStr(latitude) + ")"
  }

  /** `create_point_datatype` on one record; None when a coordinate column is missing (`KeyError`). */
  function WithPoint(record: Dict<PyValue>): Option<Dict<PyValue>> {
    var latitude := Get(record, "latitude");
    var longitude := Get(record, "longitude");
    if latitude.None? || longitude.None? then None
    else if latitude.value != PNone && longitude.value != PNone then
      Some(Set(record, "point", PStr(PointText(longitude.value, latitude.value))))
    else Some(record)
  }

  /**
   * A point column is written exactly when both coordinates are present and not None,
   * and nothing else changes.
   */
  lemma WithPointSpec(record: Dict<PyValue>)
    requires WithPoint(record).Some?
    ensures Get(record, "latitude").Some? && Get(record, "longitude").Some?
    ensures var lat, lon := Get(record, "latitude").value, Get(record, "longitude").value;
      Get(WithPoint(record).value, "point") ==
        if lat != PNone && lon != PNone then Some(PStr(PointText(lon, lat))) else Get(record, "point")
    ensures forall j :: j != "point" ==> Get(WithPoint(record).value, j) == Get(record, j)
  {
    var lat, lon := Get(record, "latitude").value, Get(record, "longitude").value;
    if lat != PNone && lon != PNone {
      forall j ensures Get(Set(record, "point", PStr(PointText(lon, lat))), j) ==
        (if j == "point" then Some(PStr(PointText(lon, lat))) else Get(record, j))
      {
        SetGet(record, "point", PStr(PointText(lon, lat)), j);
      }
    }
  }

  /** `create_point_datatype`: every record of the list gets its point column, in place. */
  method CreatePointDatatype(records: seq<Record>)
    requires Distinct(records)
    requires forall i :: 0 <= i < |records| ==> WithPoint(records[i].fields).Some?
    modifies set r | r in records
    ensures forall i :: 0 <= i < |records| ==> records[i].fields == WithPoint(old(records[i].fields)).value
  {
    var i := 0;
    while i < |records|
      invariant 0 <= i <= |records|
      invariant forall j :: 0 <= j < i ==> records[j].fields == WithPoint(old(records[j].fields)).value
      invariant forall j :: i <= j < |records| ==> records[j].fields == old(records[j].fields)
    {
      var record := records[i];
      var latitude := Get(record.fields, "latitude").value;
      var longitude := Get(record.fields, "longitude").value;
      if latitude != PNone && longitude != PNone {
        record.fields := Set(record.fields, "point", PStr(PointText(longitude, latitude)));
      }
      i := i + 1;
    }
  }

  /** `record[new] = record.pop(column)` when the column is present. */
  function RenameOne(record: Dict<PyValue>, column: string, newName: string): Dict<PyValue> {
    match Get(record, column)
    case None => record
    case Some(v) => Set(Remove(record, column), newName, v)
  }

  function Renamed(record: Dict<PyValue>, renames: Dict<string>): Dict<PyValue>
    decreases renames
  {
    if renames == [] then record else Renamed(RenameOne(record, renames[0].key, renames[0].value), renames[1..])
  }

  /**
   * Renaming a present column moves its value to the new name and drops the old name;
   * an absent column changes nothing; every other column keeps its value.
   */
  lemma RenameOneSpec(record: Dict<PyValue>, column: string, newName: string)
    requires UniqueKeys(record)
    ensures Get(record, column).None? ==> RenameOne(record, column, newName) == record
    ensures Get(record, column).Some? ==> Get(RenameOne(record, column, newName), newName) == Get(record, column)
    ensures Get(record, column).Some? && column != newName ==> column !in Keys(RenameOne(record, column, newName))
    ensures forall j :: j != column && j != newName ==> Get(RenameOne(record, column, newName), j) == Get(record, j)
    ensures UniqueKeys(RenameOne(record, column, newName))
  {
    var current := Get(record, column);
    if current.Some? {
      var removed := Remove(record, column);
      RemoveSpec(record, column);
      SetKeepsUnique(removed, newName, current.value);
      SetGet(removed, newName, current.value, newName);
      forall j | j != column && j != newName ensures Get(Set(removed, newName, current.value), j) == Get(record, j) {
        SetGet(removed, newName, current.value, j);
      }
      if column != newName {
        GetSpec(removed, column);
        GetSpec(Set(removed, newName, current.value), column);
        SetGet(removed, newName, current.value, column);
      }
    }
  }

  /** No old name is another entry's new name, and no two entries share an old or a new name. */
  predicate DistinctRenames(renames: Dict<string>) {
    forall i, j :: 0 <= i < |renames| && 0 <= j < |renames| ==>
      renames[i].key != renames[j].value
      && (i != j ==> renames[i].key != renames[j].key && renames[i].value != renames[j].value)
  }

  /** `column` is neither an old nor a new name in `renames`. */
  predicate NotRenamed(renames: Dict<string>, column: string) {
    forall i :: 0 <= i < |renames| ==> renames[i].key != column && renames[i].value != column
  }

  /**
   * The whole rename dict, when its names are distinct: every old name is gone, a present
   * old column's value is found under its new name, and every column the dict does not
   * name keeps its value.
   */
  lemma {:induction false} RenamedSpec(record: Dict<PyValue>, renames: Dict<string>)
    requires UniqueKeys(record) && DistinctRenames(renames)
    ensures UniqueKeys(Renamed(record, renames))
    ensures forall i :: 0 <= i < |renames| ==> Get(Renamed(record, renames), renames[i].key).None?
    ensures forall i :: 0 <= i < |renames| && Get(record, renames[i].key).Some? ==>
      Get(Renamed(record, renames), renames[i].value) == Get(record, renames[i].key)
    ensures forall c :: NotRenamed(renames, c) ==> Get(Renamed(record, renames), c) == Get(record, c)
    decreases |renames|
  {
    if renames != [] {
      var k, v := renames[0].key, renames[0].value;
      var renamed := RenameOne(record, k, v);
      var rest := renames[1..];
      RenameOneSpec(record, k, v);
      assert DistinctRenames(rest) by {
        forall i, j | 0 <= i < |rest| && 0 <= j < |rest|
          ensures rest[i].key != rest[j].value
          ensures i != j ==> rest[i].key != rest[j].key && rest[i].value != rest[j].value
        {
          assert rest[i] == renames[i + 1] && rest[j] == renames[j + 1];
        }
      }
      RenamedSpec(renamed, rest);
      var result := Renamed(record, renames);
      assert result == Renamed(renamed, rest);
      assert NotRenamed(rest, k) && NotRenamed(rest, v) by {
        forall i | 0 <= i < |rest| ensures rest[i].key != k && rest[i].value != k && rest[i].key != v && rest[i].value != v {
          assert rest[i] == renames[i + 1];
        }
      }
      assert Get(renamed, k).None? by {
        if Get(record, k).Some? {
          GetSpec(renamed, k);
        }
      }
      forall i | 0 <= i < |renames|
        ensures Get(result, renames[i].key).None?
        ensures Get(record, renames[i].key).Some? ==> Get(result, renames[i].value) == Get(record, renames[i].key)
      {
        if i > 0 {
          assert renames[i] == rest[i - 1];
        }
      }
      forall c | NotRenamed(renames, c) ensures Get(result, c) == Get(record, c) {
        assert c != renames[0].key && c != renames[0].value;
        forall i | 0 <= i < |rest| ensures rest[i].key != c && rest[i].value != c {
          assert rest[i] == renames[i + 1];
        }
      }
    }
  }

  /** The loop over the renames for one record. */
  method RenameColumns(record: Record, renames: Dict<string>)
    modifies record
    ensures record.fields == Renamed(old(record.fields), renames)
  {
    var i := 0;
    while i < |renames|
      invariant 0 <= i <= |renames|
      invariant Renamed(record.fields, renames[i..]) == Renamed(old(record.fields), renames)
    {
      assert renames[i..][1..] == renames[i + 1..];
      var column, renameValue := renames[i].key, renames[i].value;
      var current := Get(record.fields, column);
      if current.Some? {
        record.fields := Set(Remove(record.fields, column), renameValue, current.value);
      }
      i := i + 1;
    }
  }

  /** `rename_record_columns`: the renames applied to every record of the list, in place. */
  method RenameRecordColumns(records: seq<Record>, renames: Dict<string>)
    requires Distinct(records)
    modifies set r | r in records
    ensures forall i :: 0 <= i < |records| ==> records[i].fields == Renamed(old(records[i].fields), renames)
  {
    var i := 0;
    while i < |records|
      invariant 0 <= i <= |records|
      invariant forall j :: 0 <= j < i ==> records[j].fields == Renamed(old(records[j].fields), renames)
      invariant forall j :: i <= j < |records| ==> records[j].fields == old(records[j].fields)
    {
      RenameColumns(records[i], renames);
      i := i + 1;
    }
  }

  /** `record[key] = prefix + str(record[key])` when the key is present. */
  function PrefixOne(record: Dict<PyValue>, key: string, prefix: string): Dict<PyValue> {
    match Get(record, key)
    case None => record
    case Some(v) => Set(record, key, PStr(prefix + PyStr(v)))
  }

  function Prefixed(record: Dict<PyValue>, prefixes: Dict<string>): Dict<PyValue>
    decreases prefixes
  {
    if prefixes == [] then record else Prefixed(PrefixOne(record, prefixes[0].key, prefixes[0].value), prefixes[1..])
  }

  /**
   * After `add_value_prefix`, a present column named in the prefix dict holds the
   * prefix followed by the text of its old value; every other column is untouched.
   */
  lemma {:induction false} PrefixedSpec(record: Dict<PyValue>, prefixes: Dict<string>, j: string)
    requires UniqueKeys(prefixes)
    ensures Get(Prefixed(record, prefixes), j) ==
      if Get(record, j).Some? && Get(prefixes, j).Some?
      then Some(PStr(Get(prefixes, j).value + PyStr(Get(record, j).value))) else Get(record, j)
    decreases prefixes
  {
    if prefixes != [] {
      var key, prefix := prefixes[0].key, prefixes[0].value;
      var next := PrefixOne(record, key, prefix);
      assert UniqueKeys(prefixes[1..]);
      PrefixedSpec(next, prefixes[1..], j);
      if Get(record, key).Some? {
        SetGet(record, key, PStr(prefix + PyStr(Get(record, key).value)), j);
      }
      if j == key {
        GetSpec(prefixes[1..], j);
        forall k | 0 <= k < |prefixes[1..]| ensures prefixes[1..][k].key != j {
          assert prefixes[1..][k] == prefixes[k + 1];
        }
      }
    }
  }

  /** The loop over the prefixes for one record. */
  method PrefixColumns(record: Record, prefixes: Dict<string>)
    modifies record
    ensures record.fields == Prefixed(old(record.fields), prefixes)
  {
    var i := 0;
    while i < |prefixes|
      invariant 0 <= i <= |prefixes|
      invariant Prefixed(record.fields, prefixes[i..]) == Prefixed(old(record.fields), prefixes)
    {
      assert prefixes[i..][1..] == prefixes[i + 1..];
      var prefixKey, prefixValue := prefixes[i].key, prefixes[i].value;
      var current := Get(record.fields, prefixKey);
      if current.Some? {
        record.fields := Set(record.fields, prefixKey, PStr(prefixValue + PyStr(current.value)));
      }
      i := i + 1;
    }
  }

  /** `add_value_prefix`: the prefixes applied to every record of the list, in place. */
  method AddValuePrefix(records: seq<Record>, prefixes: Dict<string>)
    requires Distinct(records)
    modifies set r | r in records
    ensures forall i :: 0 <= i < |records| ==> records[i].fields == Prefixed(old(records[i].fields), prefixes)
  {
    var i := 0;
    while i < |records|
      invariant 0 <= i <= |records|
      invariant forall j :: 0 <= j < i ==> records[j].fields == Prefixed(old(records[j].fields), prefixes)
      invariant forall j :: i <= j < |records| ==> records[j].fields == old(records[j].fields)
    {
      PrefixColumns(records[i], prefixes);
      i := i + 1;
    }
  }

  /** The `unit_id` of the last unit whose `unit_nbr` equals the person's; `found` until then. */
  function LastUnitId(units: seq<PyValue>, unitNbr: PyValue, found: PyValue): Option<PyValue>
    decreases units
  {
    if units == [] then Some(found)
    else if !units[0].PDict? then None
    else
      var next := if GetOr(units[0].entries, "unit_nbr", PNone) == unitNbr then GetOr(units[0].entries, "unit_id", PNone) else found;
      LastUnitId(units[1..], unitNbr, next)
  }

  /** Every metadata entry with the unit's id overwrites `mode_desc` and `mode_id`, so the last one wins. */
  function ApplyMode(record: Dict<PyValue>, metadata: seq<PyValue>, unitId: PyValue): Option<Dict<PyValue>>
    decreases metadata
  {
    if metadata == [] then Some(record)
    else if !metadata[0].PDict? then None
    else
      var m := metadata[0].entries;
      var next := if GetOr(m, "unit_id", PNone) == unitId
        then Set(Set(record, "mode_desc", GetOr(m, "mode_desc", PNone)), "mode_id", GetOr(m, "mode_id", PNone))
        else record;
      ApplyMode(next, metadata[1..], unitId)
  }

  /** The crash dict without its `units` and metadata keys; None when either is missing (`KeyError`). */
  function CrashWithoutUnits(crash: Dict<PyValue>): Option<Dict<PyValue>> {
    if "units" !in Keys(crash) || MetadataColumn !in Keys(crash) then None
    else Some(Remove(Remove(crash, "units"), MetadataColumn))
  }

  /** `set_person_mode` on one person record; None where the source raises. */
  function PersonMode(record: Dict<PyValue>): Option<Dict<PyValue>> {
    var unitNbr := GetOr(record, "unit_nbr", PNone);
    var crash := GetOr(record, "crash", PNone);
    if !crash.PDict? then None
    else match Iterate(GetOr(crash.entries, "units", PList([])))
      case None => None
      case Some(units) =>
        match LastUnitId(units, unitNbr, PStr(""))
        case None => None
        case Some(unitId) =>
          var metadata := GetOr(crash.entries, MetadataColumn, PList([]));
          var withMode := if metadata == PNone then Some(record)
            else match Iterate(metadata)
              case None => None
              case Some(entries) => ApplyMode(record, entries, unitId);
          match withMode
          case None => None
          case Some(moded) => StripPerson(moded, crash.entries)
  }

  /** The three deletions that end `set_person_mode`; None when a deleted key is missing (`KeyError`). */
  function StripPerson(moded: Dict<PyValue>, crash: Dict<PyValue>): Option<Dict<PyValue>> {
    match CrashWithoutUnits(crash)
    case None => None
    case Some(stripped) =>
      var r := Set(moded, "crash", PDict(stripped));
      if "unit_nbr" !in Keys(r) then None else Some(Remove(r, "unit_nbr"))
  }

  predicate NumberIs(unit: PyValue, unitNbr: PyValue) {
    unit.PDict? && GetOr(unit.entries, "unit_nbr", PNone) == unitNbr
  }

  /** No unit after index i carries the person's unit number. */
  predicate LastMatch(units: seq<PyValue>, unitNbr: PyValue, i: nat) {
    forall k :: i < k < |units| ==> !NumberIs(units[k], unitNbr)
  }

  /**
   * The unit id is taken from the last unit whose number matches; with no match it
   * stays as it was ("" at the start).
   */
  lemma {:induction false} LastUnitIdSpec(units: seq<PyValue>, unitNbr: PyValue, found: PyValue)
    requires forall i :: 0 <= i < |units| ==> units[i].PDict?
    ensures LastUnitId(units, unitNbr, found).Some?
    ensures (forall i :: 0 <= i < |units| ==> !NumberIs(units[i], unitNbr)) ==>
      LastUnitId(units, unitNbr, found) == Some(found)
    ensures forall i :: 0 <= i < |units| && NumberIs(units[i], unitNbr) && LastMatch(units, unitNbr, i) ==>
      LastUnitId(units, unitNbr, found) == Some(GetOr(units[i].entries, "unit_id", PNone))
    decreases units
  {
    if units != [] {
      var next := if GetOr(units[0].entries, "unit_nbr", PNone) == unitNbr then GetOr(units[0].entries, "unit_id", PNone) else found;
      LastUnitIdSpec(units[1..], unitNbr, next);
      assert forall i :: 1 <= i < |units| ==> units[i] == units[1..][i - 1];
    }
  }

  /**
   * After the metadata loop, the mode columns hold the values of the last entry with the
   * unit's id, and no other column changes.
   */
  lemma {:induction false} ApplyModeSpec(record: Dict<PyValue>, metadata: seq<PyValue>, unitId: PyValue, i: nat)
    requires forall k :: 0 <= k < |metadata| ==> metadata[k].PDict?
    requires i < |metadata| && GetOr(metadata[i].entries, "unit_id", PNone) == unitId
    requires forall k :: i < k < |metadata| ==> GetOr(metadata[k].entries, "unit_id", PNone) != unitId
    ensures ApplyMode(record, metadata, unitId).Some?
    ensures Get(ApplyMode(record, metadata, unitId).value, "mode_desc") == Some(GetOr(metadata[i].entries, "mode_desc", PNone))
    ensures Get(ApplyMode(record, metadata, unitId).value, "mode_id") == Some(GetOr(metadata[i].entries, "mode_id", PNone))
    decreases metadata
  {
    var m := metadata[0].entries;
    var next := if GetOr(m, "unit_id", PNone) == unitId
      then Set(Set(record, "mode_desc", GetOr(m, "mode_desc", PNone)), "mode_id", GetOr(m, "mode_id", PNone))
      else record;
    if i > 0 {
      assert forall k :: 1 <= k < |metadata| ==> metadata[k] == metadata[1..][k - 1];
      ApplyModeSpec(next, metadata[1..], unitId, i - 1);
    } else {
      var rest := metadata[1..];
      assert forall k :: 0 <= k < |rest| ==> rest[k] == metadata[k + 1];
      ApplyModeUnmatched(next, rest, unitId);
      SetGet(Set(record, "mode_desc", GetOr(m, "mode_desc", PNone)), "mode_id", GetOr(m, "mode_id", PNone), "mode_desc");
      SetGet(record, "mode_desc", GetOr(m, "mode_desc", PNone), "mode_desc");
      SetGet(Set(record, "mode_desc", GetOr(m, "mode_desc", PNone)), "mode_id", GetOr(m, "mode_id", PNone), "mode_id");
    }
  }

  /** Entries for other units leave the record as it is. */
  lemma {:induction false} ApplyModeUnmatched(record: Dict<PyValue>, metadata: seq<PyValue>, unitId: PyValue)
    requires forall k :: 0 <= k < |metadata| ==> metadata[k].PDict? && GetOr(metadata[k].entries, "unit_id", PNone) != unitId
    ensures ApplyMode(record, metadata, unitId) == Some(record)
    decreases metadata
  {
    if metadata != [] {
      assert forall k :: 1 <= k < |metadata| ==> metadata[k] == metadata[1..][k - 1];
      ApplyModeUnmatched(record, metadata[1..], unitId);
    }
  }

  /**
   * When `set_person_mode` completes on a record, its `unit_nbr` is gone and its crash
   * keeps neither `units` nor the mode metadata.
   */
  lemma PersonModeCleansUp(record: Dict<PyValue>)
    requires PersonMode(record).Some?
    ensures "unit_nbr" !in Keys(PersonMode(record).value)
    ensures exists crash :: (Get(PersonMode(record).value, "crash") == Some(PDict(crash)) &&
      "units" !in Keys(crash) && MetadataColumn !in Keys(crash))
  {
    var crash := GetOr(record, "crash", PNone).entries;
    var units := Iterate(GetOr(crash, "units", PList([]))).value;
    var unitId := LastUnitId(units, GetOr(record, "unit_nbr", PNone), PStr("")).value;
    var metadata := GetOr(crash, MetadataColumn, PList([]));
    var moded := (if metadata == PNone then Some(record) else ApplyMode(record, Iterate(metadata).value, unitId)).value;
    StripPersonSpec(moded, crash);
  }

  lemma RemoveDrops(d: Dict<PyValue>, k: string, other: string)
    ensures k !in Keys(Remove(d, k))
    ensures other !in Keys(d) ==> other !in Keys(Remove(d, k))
    ensures other != k ==> Get(Remove(d, k), other) == Get(d, other)
  {
    RemoveSpec(d, k);
  }

  lemma StripPersonSpec(moded: Dict<PyValue>, crash: Dict<PyValue>)
    requires StripPerson(moded, crash).Some?
    ensures "unit_nbr" !in Keys(StripPerson(moded, crash).value)
    ensures exists stripped :: (Get(StripPerson(moded, crash).value, "crash") == Some(PDict(stripped)) &&
      "units" !in Keys(stripped) && MetadataColumn !in Keys(stripped))
  {
    var withoutUnits := Remove(crash, "units");
    var stripped := Remove(withoutUnits, MetadataColumn);
    RemoveDrops(crash, "units", MetadataColumn);
    RemoveDrops(withoutUnits, MetadataColumn, "units");
    var withCrash := Set(moded, "crash", PDict(stripped));
    RemoveDrops(withCrash, "unit_nbr", "crash");
    SetGet(moded, "crash", PDict(stripped), "crash");
  }

  /** `set_person_mode` on one record, in place: the two loops, then the three deletions. */
  method PersonModeOne(record: Record)
    requires PersonMode(record.fields).Some?
    modifies record
    ensures record.fields == PersonMode(old(record.fields)).value
  {
    var fields := record.fields;
    var personUnitNumber := GetOr(fields, "unit_nbr", PNone);
    var crash := GetOr(fields, "crash", PNone).entries;
    var units := Iterate(GetOr(crash, "units", PList([]))).value;
    var unitId := PStr("");
    var i := 0;
    while i < |units|
      invariant 0 <= i <= |units|
      invariant LastUnitId(units[i..], personUnitNumber, unitId) == LastUnitId(units, personUnitNumber, PStr(""))
    {
      assert units[i..][1..] == units[i + 1..];
      if GetOr(units[i].entries, "unit_nbr", PNone) == personUnitNumber {
        unitId := GetOr(units[i].entries, "unit_id", PNone);
      }
      i := i + 1;
    }
    assert units[i..] == [];
    var metadata := GetOr(crash, MetadataColumn, PList([]));
    if metadata != PNone {
      var entries := Iterate(metadata).value;
      var j := 0;
      while j < |entries|
        invariant 0 <= j <= |entries|
        invariant ApplyMode(record.fields, entries[j..], unitId) == ApplyMode(fields, entries, unitId)
      {
        assert entries[j..][1..] == entries[j + 1..];
        var unit := entries[j].entries;
        if GetOr(unit, "unit_id", PNone) == unitId {
          record.fields := Set(record.fields, "mode_desc", GetOr(unit, "mode_desc", PNone));
          record.fields := Set(record.fields, "mode_id", GetOr(unit, "mode_id", PNone));
        }
        j := j + 1;
      }
      assert entries[j..] == [];
    }
    var stripped := Remove(Remove(crash, "units"), MetadataColumn);
    record.fields := Set(record.fields, "crash", PDict(stripped));
    record.fields := Remove(record.fields, "unit_nbr");
  }

  /** `set_person_mode`: every person record gets its mode columns, in place. */
  method SetPersonMode(records: seq<Record>)
    requires Distinct(records)
    requires forall i :: 0 <= i < |records| ==> PersonMode(records[i].fields).Some?
    modifies set r | r in records
    ensures forall i :: 0 <= i < |records| ==> records[i].fields == PersonMode(old(records[i].fields)).value
  {
    var i := 0;
    while i < |records|
      invariant 0 <= i <= |records|
      invariant forall j :: 0 <= j < i ==> records[j].fields == PersonMode(old(records[j].fields)).value
      invariant forall j :: i <= j < |records| ==> records[j].fields == old(records[j].fields)
    {
      PersonModeOne(records[i]);
      i := i + 1;
    }
  }

  // ----------------------------------------------------------------- pipelines

  /** One crash record through `format_crash_data`: mode columns, flattening, renaming, point. */
  function CrashPipeline(record: Dict<PyValue>, renames: Dict<string>): Option<Dict<PyValue>> {
    match ModeColumns(record)
    case None => None
    case Some(moded) =>
      match FlattenRecord(moded)
      case None => None
      case Some(flat) => WithPoint(Renamed(flat, renames))
  }

  /** `format_crash_data` on the crash list it looks up: fresh records, one per crash, in order. */
  method FormatCrashData(records: seq<Record>, renames: Dict<string>) returns (r: Option<seq<Record>>)
    ensures r.Some? <==> forall i :: 0 <= i < |records| ==> CrashPipeline(records[i].fields, renames).Some?
    ensures r.Some? ==> |r.value| == |records|
    ensures r.Some? ==> forall i :: 0 <= i < |records| ==> r.value[i].fields == CrashPipeline(records[i].fields, renames).value
  {
    var moded := SetModeColumns(records);
    if moded.None? {
      return None;
    }
    var flat := FlattenHasuraResponse(moded.value);
    if flat.None? {
      return None;
    }
    var formatted := flat.value;
    RenameRecordColumns(formatted, renames);
    if exists i | 0 <= i < |formatted| :: WithPoint(formatted[i].fields).None? {
      return None;
    }
    CreatePointDatatype(formatted);
    return Some(formatted);
  }

  /** A person record after the in-place steps of `format_person_data`: prefixes, person mode, renaming. */
  function PersonRecord(record: Dict<PyValue>, prefixes: Dict<string>, renames: Dict<string>): Option<Dict<PyValue>> {
    match PersonMode(Prefixed(record, prefixes))
    case None => None
    case Some(moded) => Some(Renamed(moded, renames))
  }

  lemma DistinctParts(a: seq<Record>, b: seq<Record>)
    requires Distinct(a + b)
    ensures Distinct(a) && Distinct(b)
    ensures forall x :: x in a ==> x !in b
  {
    assert forall i :: 0 <= i < |b| ==> b[i] == (a + b)[|a| + i];
    assert forall i :: 0 <= i < |a| ==> a[i] == (a + b)[i];
  }

  /**
   * `format_person_data` on the person and primary-person lists it looks up: both lists
   * are prefixed, given their mode and renamed in place, then flattened into fresh
   * records, persons first.
   */
  method FormatPersonData(persons: seq<Record>, primaries: seq<Record>, prefixes: Dict<string>, renames: Dict<string>)
    returns (r: Option<seq<Record>>)
    requires Distinct(persons + primaries)
    requires forall i :: 0 <= i < |persons + primaries| ==> PersonRecord((persons + primaries)[i].fields, prefixes, renames).Some?
    modifies set x | x in persons + primaries
    ensures forall i :: 0 <= i < |persons + primaries| ==>
      (persons + primaries)[i].fields == PersonRecord(old((persons + primaries)[i].fields), prefixes, renames).value
    ensures r.Some? <==> forall i :: 0 <= i < |persons + primaries| ==> FlattenRecord((persons + primaries)[i].fields).Some?
    ensures r.Some? ==> |r.value| == |persons + primaries|
    ensures r.Some? ==> forall i :: 0 <= i < |persons + primaries| ==> r.value[i].fields == FlattenRecord((persons + primaries)[i].fields).value
  {
    var people := persons + primaries;
    PrefixAndModeBoth(persons, primaries, prefixes);
    RenameRecordColumns(people, renames);
    r := FlattenHasuraResponse(people);
  }

  /** The prefix and person-mode steps on the person list, then on the primary-person list. */
  method PrefixAndModeBoth(persons: seq<Record>, primaries: seq<Record>, prefixes: Dict<string>)
    requires Distinct(persons + primaries)
    requires forall i :: 0 <= i < |persons + primaries| ==> PersonMode(Prefixed((persons + primaries)[i].fields, prefixes)).Some?
    modifies set x | x in persons + primaries
    ensures forall i :: 0 <= i < |persons + primaries| ==>
      (persons + primaries)[i].fields == PersonMode(Prefixed(old((persons + primaries)[i].fields), prefixes)).value
  {
    var people := persons + primaries;
    DistinctParts(persons, primaries);
    assert forall i :: 0 <= i < |persons| ==> persons[i] == people[i];
    assert forall i :: 0 <= i < |primaries| ==> primaries[i] == people[|persons| + i];
    PrefixAndMode(persons, prefixes);
    PrefixAndMode(primaries, prefixes);
    forall i | 0 <= i < |people|
      ensures people[i].fields == PersonMode(Prefixed(old(people[i].fields), prefixes)).value
    {
      if i >= |persons| {
        assert people[i] == primaries[i - |persons|];
      }
    }
  }

  /** The prefix and person-mode steps on one list, one after the other. */
  method PrefixAndMode(records: seq<Record>, prefixes: Dict<string>)
    requires Distinct(records)
    requires forall i :: 0 <= i < |records| ==> PersonMode(Prefixed(records[i].fields, prefixes)).Some?
    modifies set r | r in records
    ensures forall i :: 0 <= i < |records| ==> records[i].fields == PersonMode(Prefixed(old(records[i].fields), prefixes)).value
  {
    AddValuePrefix(records, prefixes);
    SetPersonMode(records);
  }
}
