/**
 * The column schemas and the advanced-filter catalogue of the crash grid
 * (atd-vze/src/views/Crashes/crashGridTableParameters.js), as fixtures for the query builder.
 * The lemmas here are examples: each checks a fact about these fixed literals, beside the
 * general properties of the builder.
 */
module CrashGridParameters {
  import opened Results
  import opened Strings
  import opened Dicts
  import opened JsValues
  import opened GqlAbstract

  /** A column as written in the schema literal: every flag present, no default. */
  function Col(pk: Option<bool>, searchable: bool, sortable: bool, labelSearch: Option<string>, labelTable: string, valueType: string): Column {
    Column(pk, Some(searchable), Some(sortable), labelSearch, Some(labelTable), Some(valueType), None)
  }

  const CrashGridColumns: Dict<Column> := [
    Entry("crash_id", Col(Some(true), true, true, Some("Search by Crash ID"), "Crash ID", "Int")),
    Entry("case_id", Col(None, true, true, Some("Search by Case Number"), "Case Number", "String")),
    Entry("crash_date", Col(None, false, true, None, "Crash Date", "Date")),
    Entry("address_confirmed_primary", Col(None, true, true, Some("Search by Primary Address"), "Primary Address", "String")),
    Entry("address_confirmed_secondary", Col(None, true, true, Some("Search by Secondary Address"), "Secondary Address", "String")),
    Entry("sus_serious_injry_cnt", Col(None, false, true, None, "Serious Injury Count", "Int")),
    Entry("death_cnt", Col(None, false, true, None, "CRIS Death Count", "Date")),
    Entry("collision { collsn_desc } ", Col(None, false, false, None, "Collision Description", "String")),
    Entry("units { unit_description { veh_unit_desc_desc } }", Col(None, false, false, None, "Unit Description", "String")),
    Entry("geocode_method { name }", Col(None, false, true, None, "Geocode Provider", "String"))
  ]

  const NonCR3Columns: Dict<Column> := [
    Entry("form_id", Col(Some(false), true, true, Some("Search by Crash Form ID"), "Crash Form ID", "Int")),
    Entry("date", Col(Some(false), false, true, None, "Date", "Date")),
    Entry("hour", Col(Some(false), false, false, None, "Hour of Day", "Int")),
    Entry("address", Col(Some(false), false, true, Some("Search by Address"), "Address", "String")),
    Entry("speed_mgmt_points", Col(Some(false), false, true, None, "Speed Management Points", "Int")),
    Entry("est_comp_cost", Col(Some(false), false, true, None, "Est Comprehensive Cost", "Int")),
    Entry("est_econ_cost", Col(Some(false), false, true, None, "Est Economic Cost", "Int"))
  ]

  /** Column names are distinct and `crash_id` is the one primary key of the crash schema. */
  lemma CrashGridUniqueNames()
    ensures UniqueKeys(CrashGridColumns)
  {
  }

  lemma CrashGridPrimaryKey()
    ensures forall i :: 0 <= i < |CrashGridColumns| ==>
      (CrashGridColumns[i].value.IsPK() <==> CrashGridColumns[i].key == "crash_id")
  {
  }

  /** The searchable crash columns, in schema order. */
  lemma CrashGridSearchableFields()
    ensures SearchableKeys(CrashGridColumns) == ["crash_id", "case_id", "address_confirmed_primary", "address_confirmed_secondary"]
  {
  }

  const CrashGridColumnNames := [
    "crash_id", "case_id", "crash_date", "address_confirmed_primary", "address_confirmed_secondary",
    "sus_serious_injry_cnt", "death_cnt", "collision { collsn_desc } ",
    "units { unit_description { veh_unit_desc_desc } }", "geocode_method { name }"]

  /**
   * The relational columns keep their sub-selection text in the key, and the column list
   * is the keys, verbatim and in schema order, one per line.
   */
  lemma CrashGridColumnList(c: Config)
    requires c.columns == CrashGridColumns
    ensures Keys(CrashGridColumns) == CrashGridColumnNames
    ensures ColumnsText(c) == Join(CrashGridColumnNames, "\n")
  {
  }

  /** The collision and unit sub-selections cannot be sorted on, the geocode one can. */
  lemma CrashGridRelationalSorting()
    ensures CrashGridColumns[7].key == "collision { collsn_desc } " && !CrashGridColumns[7].value.IsSortable()
    ensures CrashGridColumns[8].key == "units { unit_description { veh_unit_desc_desc } }" && !CrashGridColumns[8].value.IsSortable()
    ensures CrashGridColumns[9].key == "geocode_method { name }" && CrashGridColumns[9].value.IsSortable()
  {
  }

  /** The non-CR3 schema has distinct names, no primary key, and only `form_id` is searchable. */
  lemma NonCR3Keys()
    ensures UniqueKeys(NonCR3Columns)
    ensures forall i :: 0 <= i < |NonCR3Columns| ==> !NonCR3Columns[i].value.IsPK()
  {
  }

  lemma NonCR3SearchableFields()
    ensures SearchableKeys(NonCR3Columns) == ["form_id"]
  {
  }

  /** `address` has a search label without being searchable; `hour` has no search label at all. */
  lemma NonCR3Labels()
    ensures NonCR3Columns[3].key == "address" && !NonCR3Columns[3].value.IsSearchable()
    ensures NonCR3Columns[3].value.Label("search") == Some("Search by Address")
    ensures NonCR3Columns[2].key == "hour" && NonCR3Columns[2].value.Label("search") == None
    ensures NonCR3Columns[2].value.Label() == Some("Hour of Day")
  {
  }

  /** One advanced filter: an id, a caption (the source's `label`) and a list of single-key where objects. */
  datatype AdvancedFilter = AdvancedFilter(id: string, caption: string, where: seq<Dict<JsValue>>)

  datatype FilterGroup = FilterGroup(icon: string, caption: string, filters: seq<AdvancedFilter>)

  function Single(key: string, value: JsValue): Dict<JsValue> {
    [Entry(key, value)]
  }

  function OrGreaterThanZero(column: string): seq<Dict<JsValue>> {
    [Single("or", Obj(Single(column, Str("_gt: 0"))))]
  }

  function UnitInvolved(description: string): seq<Dict<JsValue>> {
    [Single("units: { unit_description: { veh_unit_desc_desc: { _eq: \"" + description + "\" } } }", Null)]
  }

  const AdvancedFilters: Dict<FilterGroup> := [
    Entry("groupInjuries", FilterGroup("cab", "Deaths & Injuries", [
      AdvancedFilter("dni_cris_deaths", "CRIS Fatality Crashes", OrGreaterThanZero("death_cnt")),
      AdvancedFilter("dni_apd_deaths", "APD Confirmed Fatality Crashes", OrGreaterThanZero("apd_confirmed_death_count")),
      AdvancedFilter("dni_serious_injuries", "Serious Injury Crashes", OrGreaterThanZero("sus_serious_injry_cnt")),
      AdvancedFilter("dni_non_fatal", "Non-serious Injury Crashes", OrGreaterThanZero("nonincap_injry_cnt"))
    ])),
    Entry("groupGeography", FilterGroup("map-marker", "Geography", [
      AdvancedFilter("geo_no_coordinates", "No Primary Coordinates",
        [Single("latitude_primary", Str("_is_null: true")), Single("longitude_primary", Str("_is_null: true"))]),
      AdvancedFilter("geo_geocoded", "Has been Geocoded", [Single("geocoded", Str("_eq: \"Y\""))]),
      AdvancedFilter("geo_confirmed_coordinates", "No CRIS Coordinates",
        [Single("latitude", Str("_is_null: true")), Single("longitude", Str("_is_null: true"))])
    ])),
    Entry("groupUnitTypes", FilterGroup("bicycle", "Units Involved", [
      AdvancedFilter("pedestrian", "Pedestrian Involved", UnitInvolved("PEDESTRIAN")),
      AdvancedFilter("pedacyclist", "Cyclist Involved", UnitInvolved("PEDALCYCLIST")),
      AdvancedFilter("motorized_conveyance", "Motorized Conveyance Involved", UnitInvolved("MOTORIZED CONVEYANCE"))
    ])),
    Entry("groupCase", FilterGroup("vcard-o", "Internal", [
      AdvancedFilter("int_nocasenumber", "No Case Number", [Single("case_id", Str("_is_null: true"))]),
      AdvancedFilter("int_excludeprivdrive", "Exclude Private Driveway Crashes", [Single("private_dr_fl", Str("_neq: \"Y\""))])
    ]))
  ]

  /** Every filter of every group, in catalogue order. */
  function AllFilters(groups: Dict<FilterGroup>): seq<AdvancedFilter> {
    if groups == [] then [] else groups[0].value.filters + AllFilters(groups[1..])
  }

  function FilterIds(filters: seq<AdvancedFilter>): seq<string> {
    seq(|filters|, i requires 0 <= i < |filters| => filters[i].id)
  }

  /** A where list that the grid can merge: non-empty, and each object has exactly one key. */
  predicate SingleKeyWhere(f: AdvancedFilter) {
    f.where != [] && forall j :: 0 <= j < |f.where| ==> |f.where[j]| == 1
  }

  const AdvancedFilterIdList := [
    "dni_cris_deaths", "dni_apd_deaths", "dni_serious_injuries", "dni_non_fatal",
    "geo_no_coordinates", "geo_geocoded", "geo_confirmed_coordinates",
    "pedestrian", "pedacyclist", "motorized_conveyance",
    "int_nocasenumber", "int_excludeprivdrive"]

  /** The catalogue holds twelve filters, with these ids in this order. */
  lemma AdvancedFilterIds()
    ensures FilterIds(AllFilters(AdvancedFilters)) == AdvancedFilterIdList
  {
  }

  lemma AdvancedFilterIdListDistinct()
    ensures forall i, j :: 0 <= i < j < |AdvancedFilterIdList| ==> AdvancedFilterIdList[i] != AdvancedFilterIdList[j]
  {
  }

  /** The ids are distinct across all groups. */
  lemma AdvancedFilterIdsDistinct()
    ensures forall i, j :: 0 <= i < j < |AllFilters(AdvancedFilters)| ==>
      AllFilters(AdvancedFilters)[i].id != AllFilters(AdvancedFilters)[j].id
  {
    AdvancedFilterIds();
    AdvancedFilterIdListDistinct();
    var all := AllFilters(AdvancedFilters);
    forall i, j | 0 <= i < j < |all| ensures all[i].id != all[j].id {
      assert all[i].id == FilterIds(all)[i] && all[j].id == FilterIds(all)[j];
    }
  }

  lemma GroupSingleKey(g: FilterGroup)
    requires forall i :: 0 <= i < |g.filters| ==> SingleKeyWhere(g.filters[i])
    ensures forall f :: f in g.filters ==> SingleKeyWhere(f)
  {
  }

  /** Each filter carries a non-empty where list of single-key objects. */
  lemma AdvancedFiltersSingleKey()
    ensures forall f :: f in AllFilters(AdvancedFilters) ==> SingleKeyWhere(f)
  {
    var g := AdvancedFilters;
    assert AllFilters(g) == g[0].value.filters + (g[1].value.filters + (g[2].value.filters + (g[3].value.filters + [])));
    GroupSingleKey(g[0].value);
    GroupSingleKey(g[1].value);
    GroupSingleKey(g[2].value);
    GroupSingleKey(g[3].value);
  }
}
