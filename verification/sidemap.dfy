/**
 * The map's filter buttons in the public viewer: a shared list of active filters,
 * toggled one filter at a time by name, and emptied by "All".
 */
module SideMap {
  import opened Results

  /** A map filter: the condition it adds, how it combines with the others, and the button name that set it. */
  datatype MapFilter = MapFilter(name: string, syntax: string, kind: string, operator: string)

  /**
   * `mapFilters[section][filterName]`, with the button name attached. The "All" button has
   * its own handler and never comes here; any other unknown name has no entry.
   */
  function CatalogFilter(section: string, filterName: string): Option<MapFilter> {
    if section == "mode" then
      if filterName == "pedestrian" then Some(MapFilter(filterName, "pedestrian_fl = \"Y\"", "where", "OR"))
      else if filterName == "pedalcyclist" then Some(MapFilter(filterName, "pedalcyclist_fl = \"Y\"", "where", "OR"))
      else if filterName == "motor" then Some(MapFilter(filterName, "motor_vehicle_fl = \"Y\"", "where", "OR"))
      else if filterName == "motorcycle" then Some(MapFilter(filterName, "motorcycle_fl = \"Y\"", "where", "OR"))
      else None
    else if section == "type" then
      if filterName == "fatal" then Some(MapFilter(filterName, "death_cnt > 0", "where", "AND"))
      else if filterName == "seriousInjury" then Some(MapFilter(filterName, "sus_serious_injry_cnt > 0", "where", "AND"))
      else None
    else None
  }

  /** Travel-mode filters widen the selection ("OR"), crash-type filters narrow it ("AND"); all are where-conditions tagged with their name. */
  lemma CatalogOperators(section: string, filterName: string)
    requires CatalogFilter(section, filterName).Some?
    ensures CatalogFilter(section, filterName).value.name == filterName
    ensures CatalogFilter(section, filterName).value.kind == "where"
    ensures section == "mode" ==> CatalogFilter(section, filterName).value.operator == "OR"
    ensures section == "type" ==> CatalogFilter(section, filterName).value.operator == "AND"
    ensures section == "mode" || section == "type"
  {
  }

  /** `isFilterSet`: some active filter carries the name. */
  predicate IsFilterSet(filters: seq<MapFilter>, filterName: string) {
    exists i :: 0 <= i < |filters| && filters[i].name == filterName
  }

  /** `filters.filter(f => f.name !== filterName)`. */
  function WithoutName(filters: seq<MapFilter>, filterName: string): seq<MapFilter>
    decreases filters
  {
    if filters == [] then []
    else (if filters[0].name == filterName then [] else [filters[0]]) + WithoutName(filters[1..], filterName)
  }

  /** Removing by name drops exactly the filters with that name and keeps the rest in their order. */
  lemma {:induction false} WithoutNameSpec(filters: seq<MapFilter>, filterName: string)
    ensures forall f :: f in WithoutName(filters, filterName) <==> f in filters && f.name != filterName
    ensures !IsFilterSet(WithoutName(filters, filterName), filterName)
    ensures !IsFilterSet(filters, filterName) ==> WithoutName(filters, filterName) == filters
    decreases filters
  {
    if filters != [] {
      WithoutNameSpec(filters[1..], filterName);
      assert filters == [filters[0]] + filters[1..];
      if !IsFilterSet(filters, filterName) {
        assert filters[0].name != filterName;
        assert forall i :: 0 <= i < |filters[1..]| ==> filters[1..][i] == filters[i + 1];
      }
    }
  }

  lemma {:induction false} WithoutNameAppend(a: seq<MapFilter>, b: seq<MapFilter>, filterName: string)
    ensures WithoutName(a + b, filterName) == WithoutName(a, filterName) + WithoutName(b, filterName)
    decreases a
  {
    if a == [] {
      assert a + b == b;
    } else {
      assert (a + b)[1..] == a[1..] + b;
      WithoutNameAppend(a[1..], b, filterName);
    }
  }

  /** The filters of the map, shared through the store. */
  class FilterStore {
    var filters: seq<MapFilter>

    constructor()
      ensures filters == []
    {
      filters := [];
    }

    /** The "All" button is shown active exactly when no filter is set. */
    predicate AllActive()
      reads this
    {
      |filters| == 0
    }

    /** `handleAllFiltersClick`. */
    method HandleAllFiltersClick()
      modifies this
      ensures filters == [] && AllActive()
    {
      filters := [];
    }

    /**
     * `handleFilterClick`: a set name is removed, an unset one appended from the catalog.
     * `raised` is the TypeError of an unset name with no catalog entry, which leaves the list as it was.
     */
    method HandleFilterClick(filterName: string, section: string) returns (raised: bool)
      modifies this
      ensures raised <==> Toggled(old(filters), section, filterName).None?
      ensures raised ==> filters == old(filters)
      ensures !raised ==> filters == Toggled(old(filters), section, filterName).value
    {
      if IsFilterSet(filters, filterName) {
        filters := WithoutName(filters, filterName);
        return false;
      }
      var filter := CatalogFilter(section, filterName);
      if filter.None? {
        return true;
      }
      filters := filters + [filter.value];
      return false;
    }
  }

  /** The list after a click on `filterName` in `section`; None when the click raises. */
  function Toggled(filters: seq<MapFilter>, section: string, filterName: string): Option<seq<MapFilter>> {
    if IsFilterSet(filters, filterName) then Some(WithoutName(filters, filterName))
    else match CatalogFilter(section, filterName)
      case None => None
      case Some(entry) => Some(filters + [entry])
  }

  /** Each click flips whether the clicked name is set and leaves every other name as it was. */
  lemma ToggledFlips(filters: seq<MapFilter>, section: string, filterName: string, other: string)
    requires CatalogFilter(section, filterName).Some?
    requires other != filterName
    ensures Toggled(filters, section, filterName).Some?
    ensures IsFilterSet(Toggled(filters, section, filterName).value, filterName) <==> !IsFilterSet(filters, filterName)
    ensures IsFilterSet(Toggled(filters, section, filterName).value, other) <==> IsFilterSet(filters, other)
  {
    var entry := CatalogFilter(section, filterName).value;
    var r := Toggled(filters, section, filterName).value;
    WithoutNameSpec(filters, filterName);
    if IsFilterSet(filters, filterName) {
      if IsFilterSet(filters, other) {
        var i :| 0 <= i < |filters| && filters[i].name == other;
        assert filters[i] in r;
        var j :| 0 <= j < |r| && r[j] == filters[i];
      }
      if IsFilterSet(r, other) {
        var j :| 0 <= j < |r| && r[j].name == other;
        assert r[j] in filters;
      }
    } else {
      assert r[|filters|] == entry;
      if IsFilterSet(r, other) {
        var j :| 0 <= j < |r| && r[j].name == other;
        assert j < |filters|;
        assert filters[j] == r[j];
      }
      if IsFilterSet(filters, other) {
        var i :| 0 <= i < |filters| && filters[i].name == other;
        assert r[i] == filters[i];
      }
    }
  }

  /** Clicking an unset filter twice gives back the list it started from. */
  lemma ClickTwiceRestores(filters: seq<MapFilter>, section: string, filterName: string)
    requires CatalogFilter(section, filterName).Some?
    requires !IsFilterSet(filters, filterName)
    ensures Toggled(filters, section, filterName).Some?
    ensures Toggled(Toggled(filters, section, filterName).value, section, filterName) == Some(filters)
  {
    var entry := CatalogFilter(section, filterName).value;
    var once := filters + [entry];
    CatalogOperators(section, filterName);
    assert once[|filters|] == entry;
    assert IsFilterSet(once, filterName);
    WithoutNameAppend(filters, [entry], filterName);
    WithoutNameSpec(filters, filterName);
    assert WithoutName([entry], filterName) == [] by {
      assert [entry][1..] == [];
    }
    assert Toggled(filters, section, filterName) == Some(once);
    assert Toggled(once, section, filterName) == Some(WithoutName(once, filterName));
    assert filters + [] == filters;
  }
}
