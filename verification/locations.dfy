/**
 * The initial query configuration of the locations list
 * (atd-vze/src/views/Locations/Locations.js), as a fixture for the query builder.
 * The lemmas here are examples: each checks what the builder makes of this fixed
 * configuration, beside its general properties.
 */
module Locations {
  import opened Results
  import opened Strings
  import opened Dicts
  import opened JsValues
  import opened GqlAbstract

  /** A cost-summary column: not searchable, sortable, no search label, default 0. */
  function SummaryColumn(labelTable: string, valueType: string): Column {
    Column(None, Some(false), Some(true), None, Some(labelTable), Some(valueType), Some(0))
  }

  const LocationColumns: Dict<Column> := [
    Entry("location_id", Column(Some(true), Some(true), Some(true), Some("Search by location id"), Some("Location ID"), Some("Integer"), None)),
    Entry("description", Column(None, Some(true), Some(false), Some("Search by intersecting street name"), Some("Location"), Some("String"), None)),
    Entry("crashes_count_cost_summary { total_crashes }", SummaryColumn("Total Crashes", "Integer")),
    Entry("crashes_count_cost_summary { total_deaths }", SummaryColumn("Total Deaths (APD)", "Integer")),
    Entry("crashes_count_cost_summary { total_serious_injuries }", SummaryColumn("Total Serious Injry.", "Integer")),
    Entry("crashes_count_cost_summary { est_comp_cost }", SummaryColumn("Comp. Cost", "Currency"))
  ]

  /** `where` and `order_by` start as empty maps, not null; 25 rows from offset 0. */
  const LocationsConfig := Config(
    "atd_txdot_locations", Some("locations"), LocationColumns, Some([]), Some([]), Num(25), Num(0))

  /** The row block writes the four parts, empty maps included, in their fixed order. */
  lemma LocationsRowFilters()
    ensures FilterParts(LocationsConfig, false) == ["limit: 25", "offset: 0", "where: {}", "order_by: {}"]
  {
    RowFiltersPagination(LocationsConfig);
    EmptyMapsAreWritten(LocationsConfig);
  }

  /** The aggregate block writes only the two empty maps. */
  lemma LocationsAggregateFilters()
    ensures FiltersText(LocationsConfig, true) == "where: {},\norder_by: {}"
  {
    var parts := FilterParts(LocationsConfig, true);
    assert parts == ["where: {}"] + ["order_by: {}"] by {
      AggregateFiltersHaveNoPagination(LocationsConfig);
      EmptyMapsAreWritten(LocationsConfig);
    }
    JoinAppend(["where: {}"], "order_by: {}", ",\n");
  }

  lemma LocationsSearchableFields()
    ensures SearchableKeys(LocationColumns) == ["location_id", "description"]
  {
  }

  lemma LocationsNames(b: Builder)
    requires b.config == LocationsConfig
    ensures b.config.table == "atd_txdot_locations"
    ensures b.SingleItem() == Some("locations")
  {
  }

  /** `description` is the only column that cannot be sorted on. */
  lemma LocationsSortable()
    ensures UniqueKeys(LocationColumns)
    ensures forall i :: 0 <= i < |LocationColumns| ==>
      (!LocationColumns[i].value.IsSortable() <==> LocationColumns[i].key == "description")
  {
  }

  /** The four cost-summary columns have a table label and no search label. */
  lemma LocationsSummaryLabels()
    ensures forall i :: 2 <= i < |LocationColumns| ==>
      LocationColumns[i].value.Label("search") == None && LocationColumns[i].value.Label().Some?
  {
  }

  const LocationColumnNames := [
    "location_id", "description",
    "crashes_count_cost_summary { total_crashes }",
    "crashes_count_cost_summary { total_deaths }",
    "crashes_count_cost_summary { total_serious_injuries }",
    "crashes_count_cost_summary { est_comp_cost }"]

  /** The column list is the six keys, verbatim and in literal order, one per line. */
  lemma LocationsColumnList()
    ensures Keys(LocationColumns) == LocationColumnNames
    ensures ColumnsText(LocationsConfig) == Join(LocationColumnNames, "\n")
  {
  }
}
