# Vision Zero data tools, modelled in Dafny

This project models the computational core of the Vision Zero crash-data tools of the
City of Austin. That core is spread over four programs:

- **The editor (VZE).** A React app for editing crash records. The model covers its
  GraphQL query builder, the column schemas and filters the crash and location grids
  feed to that builder, the CSV export of grid rows, the paging control, the dashboard's
  thousands separator and the user add/edit form.
- **The public viewer (VZV).** A React app. The model covers the map's filter buttons
  (SideMapControl and the older sidebar), the crashes-by-time-of-day heat map and the
  serious-injury count.
- **The ETL job.** Python helpers that reshape Hasura query results into Socrata
  records, fill the import mutation template, decide what to do with failed inserts,
  and read the run configuration from the command line.
- **The CR3 download API.** A Flask service. The model covers its bearer-token,
  scope and key-selection checks, and the storage key it builds for a crash report.

Each source file has one module. Handlers that update component state or mutate a
record in place become classes whose methods say what the new state is:

- `GqlAbstract.Builder`
- `GridExport.FlatRow`
- `SocrataHelpers.Record`
- `TablePagination.Pager`
- `SideMap.FilterStore`
- `Sidebar.SideBar`
- `TimeOfDay.Heatmap` (the 24 by 7 grid is an `array2`)
- `UserForm.UserFormState`

Each of these methods is proved against a specification function. The
properties promised about that function are proved as lemmas.

Shared modules model the host languages' values:

| module | what it models |
|---|---|
| `Strings` | JavaScript's and Python's string operations: `replace` in both languages' senses, `split`, `strip`, `join`, `indexOf` and number-to-text conversion |
| `Dicts` | objects and dicts, as insertion-ordered lists of entries |
| `JsValues` | JavaScript values with their truthiness and `String()` |
| `PyValues` | Python values with their truthiness, `str`, `repr` and iteration |
| `Results` | `Option` and `Result` |

Where the source raises, the model returns an error value (a `Result` or `Option`)
rather than requiring the input away. The exceptions are listed under "Left out".

Two places where the model follows the code rather than the system's description:

- **Column accessors of the query builder.** `isSortable`, `getType`, `getLabel` and
  the others are described as falling back to a default. The code dereferences
  `this.config.columns[columnName]` first. So an unknown column raises a `TypeError`,
  and only a missing *attribute* of a known column gets the default. The model requires
  the column to exist and gives the defaults for missing attributes.
- **`setExportLimit`.** The code assigns with `=` where a comparison was meant, and the
  model keeps that. See "Findings".

## Model

| member | source | states |
|---|---|---|
| GqlAbstract.Column.TypeName | atd-vze/src/queries/gqlAbstract.js:154-156 | a missing or empty type reads as "String", a set non-empty one is returned as is; the result is never empty |
| GqlAbstract.Column.Label | atd-vze/src/queries/gqlAbstract.js:165-167 | a set non-empty table or search label is returned for its context; an empty or missing label and any other context give null |
| GqlAbstract.SearchableKeysAppend | atd-vze/src/queries/gqlAbstract.js:87-93 | adding a column extends the searchable list by its name exactly when it is searchable |
| GqlAbstract.SearchableKeysAreKeys | atd-vze/src/queries/gqlAbstract.js:87-93 | the searchable list holds only column names and is no longer than the column list |
| GqlAbstract.SearchableKeysExactly | atd-vze/src/queries/gqlAbstract.js:87-93 | with distinct column names, a column is listed if and only if its `searchable` flag is true |
| GqlAbstract.ColumnsTextLines | atd-vze/src/queries/gqlAbstract.js:240-246 | splitting the column text on line breaks gives back the column names, in schema order |
| GqlAbstract.AggregateFiltersHaveNoPagination | atd-vze/src/queries/gqlAbstract.js:203-234 | the aggregate filter block has no limit and no offset: each part is a where or order_by part |
| GqlAbstract.RowFiltersPagination | atd-vze/src/queries/gqlAbstract.js:206-215 | the row block is limit, offset, where, order_by in that order; a zero or null limit is dropped, offset 0 is kept |
| GqlAbstract.EmptyMapsAreWritten | atd-vze/src/queries/gqlAbstract.js:217-231 | an empty where or order_by map is still written as empty braces; a null one is left out |
| GqlAbstract.SetOrderRendering | atd-vze/src/queries/gqlAbstract.js:118-120 | after `setOrder`, a new key is rendered last and an existing key keeps its place with the new direction |
| GqlAbstract.SubstitutableWithoutCapitalA | atd-vze/src/queries/gqlAbstract.js:18-32 | a text with no 'A' and no '$' holds no placeholder and no replacement pattern |
| GqlAbstract.ReplaceTableSlot | atd-vze/src/queries/gqlAbstract.js:257 | replacing the table placeholder fills that one slot and leaves the rest of the document as it was |
| GqlAbstract.ReplaceAggregateNameSlot | atd-vze/src/queries/gqlAbstract.js:258-261 | replacing the aggregate-name placeholder fills only that slot, provided the earlier slots do not contain it |
| GqlAbstract.ReplaceFiltersSlot | atd-vze/src/queries/gqlAbstract.js:264 | replacing the row-filter placeholder fills only that slot, provided the table name does not contain it |
| GqlAbstract.ReplaceAggregateFiltersSlot | atd-vze/src/queries/gqlAbstract.js:265-268 | replacing the aggregate-filter placeholder fills only that slot, provided the earlier slots do not contain it |
| GqlAbstract.ReplaceColumnsSlot | atd-vze/src/queries/gqlAbstract.js:271 | replacing the columns placeholder fills only that slot, provided the earlier slots do not contain it |
| GqlAbstract.NamesFilledIsDoc | atd-vze/src/queries/gqlAbstract.js:254-261 | after the two name replacements, the template is the document with the table and `<table>_aggregate` in their slots |
| GqlAbstract.FillIsDoc | atd-vze/src/queries/gqlAbstract.js:252-276 | the five first-occurrence replacements, in the source's order, put each text in its own slot |
| GqlAbstract.QueryIsRendered | atd-vze/src/queries/gqlAbstract.js:252-276 | when the names and texts are substitutable, the query is the intended document: filters and columns under the table, aggregate filters under `<table>_aggregate` |
| GqlAbstract.Builder.constructor | atd-vze/src/queries/gqlAbstract.js:10-12 | the builder holds the configuration it was given |
| GqlAbstract.Builder.SetTable | atd-vze/src/queries/gqlAbstract.js:47-49 | only the table name changes |
| GqlAbstract.Builder.SetLimit | atd-vze/src/queries/gqlAbstract.js:55-57 | only the limit changes |
| GqlAbstract.Builder.SetOffset | atd-vze/src/queries/gqlAbstract.js:71-73 | only the offset changes |
| GqlAbstract.Builder.CleanWhere | atd-vze/src/queries/gqlAbstract.js:98-100 | the where condition becomes null and nothing else changes |
| GqlAbstract.Builder.SetWhere | atd-vze/src/queries/gqlAbstract.js:107-111 | the where condition becomes the single pair given, dropping earlier pairs |
| GqlAbstract.Builder.SetOrder | atd-vze/src/queries/gqlAbstract.js:118-120 | order_by gets the key set to the direction, in place, and nothing else changes |
| GqlAbstract.Builder.ColumnOf | atd-vze/src/queries/gqlAbstract.js:127-167 | the column attributes looked up belong to an entry of that name in the configuration |
| GqlAbstract.Builder.SingleItem | atd-vze/src/queries/gqlAbstract.js:194-196 | a missing or empty single-item path is null; a set one is returned |
| GqlAbstract.Builder.SearchableFields | atd-vze/src/queries/gqlAbstract.js:87-93 | the loop gathers exactly the searchable column names, in schema order |
| GqlAbstract.Builder.Columns | atd-vze/src/queries/gqlAbstract.js:182-188 | the loop gathers every column name, in schema order |
| GqlAbstract.Builder.GenerateFilters | atd-vze/src/queries/gqlAbstract.js:203-234 | the loops build the filter block the filter-part functions describe |
| GqlAbstract.Builder.GenerateColumns | atd-vze/src/queries/gqlAbstract.js:240-246 | the loop builds the column text, one name per line |
| GqlAbstract.Builder.Query | atd-vze/src/queries/gqlAbstract.js:252-276 | the query is the template filled by the five replacements, and it does not change the configuration |
| CrashGridParameters.CrashGridUniqueNames | atd-vze/src/views/Crashes/crashGridTableParameters.js:1-67 | the crash grid's column names are distinct |
| CrashGridParameters.CrashGridPrimaryKey | atd-vze/src/views/Crashes/crashGridTableParameters.js:2-9 | `crash_id` is the one primary-key column of the crash grid |
| CrashGridParameters.CrashGridSearchableFields | atd-vze/src/views/Crashes/crashGridTableParameters.js:1-67 | the searchable crash columns are crash id, case id and the two confirmed addresses, in that order |
| CrashGridParameters.CrashGridColumnList | atd-vze/src/views/Crashes/crashGridTableParameters.js:1-67 | the crash grid's column text is its ten keys, written as they are, one per line |
| CrashGridParameters.CrashGridRelationalSorting | atd-vze/src/views/Crashes/crashGridTableParameters.js:49-66 | the collision and unit sub-selections cannot be sorted on; the geocode sub-selection can |
| CrashGridParameters.NonCR3Keys | atd-vze/src/views/Crashes/crashGridTableParameters.js:69-121 | the non-CR3 schema has distinct names and no primary key |
| CrashGridParameters.NonCR3SearchableFields | atd-vze/src/views/Crashes/crashGridTableParameters.js:69-121 | only `form_id` is searchable in the non-CR3 schema |
| CrashGridParameters.NonCR3Labels | atd-vze/src/views/Crashes/crashGridTableParameters.js:85-98 | `address` has a search label without being searchable; `hour` has only a table label |
| CrashGridParameters.AdvancedFilterIds | atd-vze/src/views/Crashes/crashGridTableParameters.js:123-251 | the advanced-filter catalogue holds twelve filters, with these ids in this order |
| CrashGridParameters.AdvancedFilterIdsDistinct | atd-vze/src/views/Crashes/crashGridTableParameters.js:123-251 | no two advanced filters share an id, across all groups |
| CrashGridParameters.AdvancedFiltersSingleKey | atd-vze/src/views/Crashes/crashGridTableParameters.js:123-251 | every advanced filter has a non-empty where list, and each object in it has exactly one key |
| Locations.LocationsRowFilters | atd-vze/src/views/Locations/Locations.js:62-65 | the locations row block is `limit: 25`, `offset: 0` and the two empty maps, in that order |
| Locations.LocationsAggregateFilters | atd-vze/src/views/Locations/Locations.js:62-65 | the locations aggregate block is only the two empty maps |
| Locations.LocationsSearchableFields | atd-vze/src/views/Locations/Locations.js:13-61 | location id and description are the searchable columns |
| Locations.LocationsNames | atd-vze/src/views/Locations/Locations.js:9-11 | the builder queries `atd_txdot_locations` and links single items under `locations` |
| Locations.LocationsSortable | atd-vze/src/views/Locations/Locations.js:13-61 | the column names are distinct, and `description` is the only column that cannot be sorted on |
| Locations.LocationsSummaryLabels | atd-vze/src/views/Locations/Locations.js:29-60 | the four cost-summary columns have a table label and a null search label |
| Locations.LocationsColumnList | atd-vze/src/views/Locations/Locations.js:13-61 | the column text is the six keys, written as they are and in literal order, one per line |
| GridExport.LeafSpec | atd-vze/src/Components/GridExportData.js:80-89 | a scalar joins onto a truthy earlier value with ", ", or replaces an absent or falsy one; no other column changes, and a new column goes at the end |
| GridExport.FlattenExtends | atd-vze/src/Components/GridExportData.js:69-92 | flattening at any depth keeps column names distinct, keeps the earlier columns in front and in order, and never adds `__typename` |
| GridExport.Leaves | atd-vze/src/Components/GridExportData.js:69-92 | the scalar leaves of a row in visit order, named by key or index; none is `__typename`, an array or an object |
| GridExport.LeafFoldKeys | atd-vze/src/Components/GridExportData.js:82-88 | writing leaves keeps column names distinct and adds exactly one column per new leaf name |
| GridExport.FlattenIsLeafFold | atd-vze/src/Components/GridExportData.js:69-92 | flattening a row at any depth writes exactly its leaves, in visit order, into the accumulator |
| GridExport.FlattenColumns | atd-vze/src/Components/GridExportData.js:69-92 | the flattened row's columns are the accumulator's and the row's leaf names, and no other |
| GridExport.FlattenNothing | atd-vze/src/Components/GridExportData.js:69-92 | an empty array, object or string adds nothing, and neither does a number or a boolean |
| GridExport.StringRowSplits | atd-vze/src/Components/GridExportData.js:70 | a string row has one entry per character, so each character becomes a column named by its index |
| GridExport.NullIsLeaf | atd-vze/src/Components/GridExportData.js:77-88 | a null value is written under its own name, not descended into |
| GridExport.SecondLeafJoins | atd-vze/src/Components/GridExportData.js:82-85 | a second value for a column is joined to the first with ", " |
| GridExport.RepeatedLeavesJoin | atd-vze/src/Components/GridExportData.js:70-90 | `__typename` is dropped, and a nested array's repeated column is joined in array order |
| GridExport.FlatRow.constructor | atd-vze/src/Components/GridExportData.js:96 | the accumulator starts empty |
| GridExport.FlattenRow | atd-vze/src/Components/GridExportData.js:69-92 | the recursive walk over the entries leaves the accumulator equal to the flattening function of the row |
| GridExport.FormatExportData | atd-vze/src/Components/GridExportData.js:94-101 | one flat row per input row, in order, each built from an empty accumulator |
| GridExport.ExportLimitAsWritten | atd-vze/src/Components/GridExportData.js:52-58 | (as written) every event that is not the number input is handled as the checkbox |
| GridExport.ExportLimitOtherEvent | atd-vze/src/Components/GridExportData.js:56 | an event from another element still sets the limit to 1, where a comparison would leave it alone |
| GridExport.ExportLimit | atd-vze/src/Components/GridExportData.js:52-58 | with a comparison in the second test, only the two inputs change the limit |
| GridExport.ExportLimitOnItsInputs | atd-vze/src/Components/GridExportData.js:52-58 | on the two inputs both readings agree: an empty number input or an unchecked box gives 1, a checked box gives the record count, and the limit is never empty text |
| GridExport.SetExportLimit | atd-vze/src/Components/GridExportData.js:52-60 | only the query's limit changes, to the value as written, and the event target is renamed to the checkbox unless it is the number input |
| SocrataHelpers.ReplaceChars | atd-etl/app/process/helpers_socrata.py:19-28 | the loop replaces every occurrence of each list entry in turn, first entry first |
| SocrataHelpers.ReplacedCharsKeepAbsent | atd-etl/app/process/helpers_socrata.py:19-28 | a character in neither the string nor the replacement never appears in the result |
| SocrataHelpers.ReplacedCharsRemoves | atd-etl/app/process/helpers_socrata.py:19-28 | with one-character entries that the replacement does not hold, no listed character survives; an empty list changes nothing |
| SocrataHelpers.Record.constructor | atd-etl/app/process/helpers_socrata.py:60 | a record holds the dict it was made from |
| SocrataHelpers.LiftNested | atd-etl/app/process/helpers_socrata.py:70-77 | the innermost loop lifts each third-level field, as the lifting function does |
| SocrataHelpers.LiftItem | atd-etl/app/process/helpers_socrata.py:66-81 | the loop over one list item's fields matches the item function |
| SocrataHelpers.LiftList | atd-etl/app/process/helpers_socrata.py:65-81 | the loop over a list's items matches the list function, failing where a non-dict item has no `.items()` |
| SocrataHelpers.FlattenCopy | atd-etl/app/process/helpers_socrata.py:58-89 | the loop over a record's own entries reshapes its copy into the flattened record |
| SocrataHelpers.FlattenHasuraResponse | atd-etl/app/process/helpers_socrata.py:52-90 | one fresh flattened copy per record, in order, with the inputs only read; no result exactly when some record makes the source raise |
| SocrataHelpers.LiftSpec | atd-etl/app/process/helpers_socrata.py:71-77 | a third-level field creates a missing column or appends " & value" to a text column; any other existing value raises; no other column changes |
| SocrataHelpers.ItemFieldSpec | atd-etl/app/process/helpers_socrata.py:78-81 | a None field of a list item is skipped; a scalar field overwrites the top-level column |
| SocrataHelpers.TopLevelSpec | atd-etl/app/process/helpers_socrata.py:62-88 | a list or dict entry's own key is deleted after its children are lifted; a scalar entry changes nothing |
| SocrataHelpers.SecondUnitAppends | atd-etl/app/process/helpers_socrata.py:71-74 | a second unit's description is appended to the first with " & " |
| SocrataHelpers.FlattenUnitsExample | atd-etl/app/process/helpers_socrata.py:52-90 | a crash with two units gets their descriptions joined in list order, and the `units` column is gone |
| SocrataHelpers.ModeDescsSpec | atd-etl/app/process/helpers_socrata.py:105-107 | the descriptions are gathered exactly when every unit is a dict, one `get("mode_desc")` per unit, in order |
| SocrataHelpers.AllTextSpec | atd-etl/app/process/helpers_socrata.py:108 | the join accepts the list exactly when every item is text |
| SocrataHelpers.ModeColumnsWithoutMetadata | atd-etl/app/process/helpers_socrata.py:101-103 | without metadata, or with None, the record is copied unchanged |
| SocrataHelpers.ModeColumnsWithMetadata | atd-etl/app/process/helpers_socrata.py:102-112 | `units_involved` is the descriptions joined by " & " in unit order, the metadata becomes its JSON text, and no other column changes |
| SocrataHelpers.ModeColumnsMissingDescription | atd-etl/app/process/helpers_socrata.py:107-108 | a unit without `mode_desc` makes the join raise |
| SocrataHelpers.ModeDescriptions | atd-etl/app/process/helpers_socrata.py:105-107 | the loop gathers the descriptions the specification function describes |
| SocrataHelpers.ModeColumnsCopy | atd-etl/app/process/helpers_socrata.py:99-112 | the copy of one record gets its mode columns as specified |
| SocrataHelpers.SetModeColumns | atd-etl/app/process/helpers_socrata.py:93-114 | one fresh copy per record, in order, with the mode columns set and the inputs only read; no result exactly when some record makes the source raise |
| SocrataHelpers.WithPointSpec | atd-etl/app/process/helpers_socrata.py:122-127 | the `point` column is written as `POINT (lon lat)` exactly when both coordinates are present and not None, and nothing else changes |
| SocrataHelpers.CreatePointDatatype | atd-etl/app/process/helpers_socrata.py:117-128 | every record of the list gets its point column, in place |
| SocrataHelpers.RenameOneSpec | atd-etl/app/process/helpers_socrata.py:139-140 | renaming a present column moves its value to the new name and drops the old name; an absent column changes nothing; other columns keep their values |
| SocrataHelpers.RenamedSpec | atd-etl/app/process/helpers_socrata.py:137-140 | with distinct old and new names, the whole rename dict leaves no old name behind, moves every present old column's value to its new name, and leaves every column it does not name unchanged |
| SocrataHelpers.RenameColumns | atd-etl/app/process/helpers_socrata.py:138-140 | the loop over the renames leaves one record renamed as specified |
| SocrataHelpers.RenameRecordColumns | atd-etl/app/process/helpers_socrata.py:131-141 | every record of the list is renamed in place |
| SocrataHelpers.PrefixedSpec | atd-etl/app/process/helpers_socrata.py:151-153 | a present column named in the prefix dict holds the prefix followed by the text of its old value; other columns are untouched |
| SocrataHelpers.PrefixColumns | atd-etl/app/process/helpers_socrata.py:151-153 | the loop over the prefixes leaves one record prefixed as specified |
| SocrataHelpers.AddValuePrefix | atd-etl/app/process/helpers_socrata.py:144-154 | every record of the list is prefixed in place |
| SocrataHelpers.LastUnitIdSpec | atd-etl/app/process/helpers_socrata.py:169-173 | the unit id is taken from the last unit whose number matches the person's; with no match it stays "" |
| SocrataHelpers.ApplyModeSpec | atd-etl/app/process/helpers_socrata.py:175-181 | the mode columns hold the values of the last metadata entry with the unit's id |
| SocrataHelpers.ApplyModeUnmatched | atd-etl/app/process/helpers_socrata.py:175-181 | metadata entries for other units leave the record as it is |
| SocrataHelpers.PersonModeCleansUp | atd-etl/app/process/helpers_socrata.py:182-184 | when the person's mode is set, `unit_nbr` is gone and the crash keeps neither `units` nor the mode metadata |
| SocrataHelpers.PersonModeOne | atd-etl/app/process/helpers_socrata.py:163-184 | the two loops and three deletions leave one person record as the person-mode function describes |
| SocrataHelpers.SetPersonMode | atd-etl/app/process/helpers_socrata.py:157-185 | every person record gets its mode columns, in place |
| SocrataHelpers.FormatCrashData | atd-etl/app/process/helpers_socrata.py:188-204 | fresh records, one per crash and in order, each the crash put through mode columns, flattening, renaming and the point |
| SocrataHelpers.FormatPersonData | atd-etl/app/process/helpers_socrata.py:207-234 | both lists are prefixed, given their mode and renamed in place; the result is their flattened copies, persons first |
| ImportHelpers.PiecesLackPercent | atd-etl/app/process/helpers_import.py:31-40 | no constant piece of the mutation text holds a '%' |
| ImportHelpers.TailUnchanged | atd-etl/app/process/helpers_import.py:36-40 | replacing a '%'-led placeholder leaves the closing text, with `affected_rows`, unchanged |
| ImportHelpers.SkipToken | atd-etl/app/process/helpers_import.py:41-43 | replacing every occurrence of one placeholder passes over a different placeholder untouched |
| ImportHelpers.FillName | atd-etl/app/process/helpers_import.py:41 | replacing `%NAME%` puts the name in its one slot |
| ImportHelpers.FillFunction | atd-etl/app/process/helpers_import.py:42 | replacing `%FUNCTION%` puts the function in its one slot, when the name holds no '%' |
| ImportHelpers.FillFields | atd-etl/app/process/helpers_import.py:43 | replacing `%FIELDS%` puts the fields in their one slot, when the name and function hold no '%' |
| ImportHelpers.GenerateTemplateFills | atd-etl/app/process/helpers_import.py:23-43 | the three replacements give the mutation with name, function and fields each in its own slot |
| ImportHelpers.LowercaseGroupMatch | atd-etl/app/process/helpers_import.py:46-52 | the group with each character lower-cased (every upper-case letter becomes its own lower-case letter, no other character changes), then ":" |
| ImportHelpers.LowercaseGroupMatchFolds | atd-etl/app/process/helpers_import.py:46-52 | lowering the group first changes nothing: keys that differ only in case give the same text |
| ImportHelpers.GetCrashIdSpec | atd-etl/app/process/helpers_import.py:115-125 | the id is the stripped line up to its first comma, the whole stripped line when it has none, and never holds a comma |
| ImportHelpers.GetCrashIdOfRecord | atd-etl/app/process/helpers_import.py:115-125 | a record line `id,rest` gives back `id` |
| ImportHelpers.NonCrashRecords | atd-etl/app/process/helpers_import.py:184-187 | a record that is not a crash is never taken as existing; its error stops the run exactly when the response text has no "constraint-violation" |
| ImportHelpers.CrashRecords | atd-etl/app/process/helpers_import.py:162-182 | a crash counts as absent only when the search found none (a failed search counts as present), and a crash error always stops the run |
| ImportHelpers.ParseIntRoundTrip | atd-etl/app/process/helpers_import.py:307 | `int` reads back every integer written in decimal |
| ImportHelpers.ParseIntNeedsDigits | atd-etl/app/process/helpers_import.py:307 | a text without a digit does not parse |
| ImportHelpers.SkipLinesSpec | atd-etl/app/process/helpers_import.py:297-310 | "*" gives -1, an integer's text gives that integer, and a missing entry or empty text gives 0 |
| ImportHelpers.GenerateRunConfig | atd-etl/app/process/helpers_import.py:245-322 | no configuration without a file type; otherwise the lowered type, dry-run exactly when "--dryrun" is given, the lowered second argument split on ",", and one `{file, skip}` entry per file, in order |
| PyValues.StrShows | atd-etl/app/process/helpers_import.py:211 | text held anywhere inside a response (a string value, a key, or deeper) is found in `str(response)` |
| Cr3Api.TokenAuthHeaderSpec | atd-cr3-api/server.py:61-87 | a token comes out exactly when the header is two whitespace-separated words, the first "bearer" in any case, and it is the second word; every refusal is a 401; a header of whitespace only fails on indexing |
| Cr3Api.BearerHeaderRoundTrip | atd-cr3-api/server.py:61-87 | a header written "Bearer <token>" gives the token back |
| Cr3Api.OtherSchemeRefused | atd-cr3-api/server.py:70-76 | any other scheme is refused as "must start with Bearer" before the parts are counted |
| Cr3Api.RequiresScope | atd-cr3-api/server.py:90-102 | a header error comes first; then true exactly when the required scope is one of the claim's whitespace-separated words, false when the claim is absent or empty, and a non-text claim raises |
| Cr3Api.GrantedScopes | atd-cr3-api/server.py:97-101 | a claim of space-separated scopes grants exactly those scopes; an empty scope or one holding whitespace is never granted |
| Cr3Api.CopyKey | atd-cr3-api/server.py:128-134 | the copied key exists exactly when the entry has all five members, and each copied member is the entry's own |
| Cr3Api.ScanKeysSpec | atd-cr3-api/server.py:125-134 | the loop raises `KeyError` exactly when some entry lacks its `kid`, the header lacks one, or a matching entry lacks a member; otherwise it chooses nothing exactly when no entry matches, and else the last match |
| Cr3Api.SelectKey | atd-cr3-api/server.py:125-134 | the loop's outcome is the scan's: a `KeyError` when an entry cannot be read, no key when none matches, otherwise the last entry with the wanted `kid` |
| Cr3Api.Authorize | atd-cr3-api/server.py:105-174 | a header error comes first; then an unparsable or HS256 token is refused, and a header without `alg` raises `KeyError`; then a key set entry that cannot be read raises `KeyError`, no matching entry gives "Unable to find appropriate key", and otherwise the last matching key is chosen; every `AuthError` is a 401 |
| Cr3Api.SafeCrashId | atd-cr3-api/server.py:197 | the cleaned id holds only digits and is no longer than the request |
| Cr3Api.SafeCrashIdAppend | atd-cr3-api/server.py:197 | cleaning distributes over concatenation, so the digits keep their order and nothing else survives |
| Cr3Api.SafeCrashIdKeepsDigits | atd-cr3-api/server.py:197 | a text of digits only is left as it is |
| Cr3Api.SafeCrashIdIdempotent | atd-cr3-api/server.py:197 | cleaning twice is cleaning once |
| Cr3Api.CrashPdfKeyStaysInLocation | atd-cr3-api/server.py:206 | the object key is the location, "/", then a name with no "/", so it names a file directly inside the report location |
| TablePagination.Pager.constructor | atd-vze/src/Components/TablePaginationControl.js:14-15 | the control starts at offset 0 with a page size of 100 |
| TablePagination.Pager.UpdatePage | atd-vze/src/Components/TablePaginationControl.js:33-46 | "Prev" on the first page does nothing, "Prev" elsewhere steps back one page, "Next" steps forward one page; the page size never changes and the offset stays a whole, non-negative number of pages |
| TablePagination.Pager.PageQuery | atd-vze/src/Components/TablePaginationControl.js:17-19 | the query with its first "LIMIT" and then its first "OFFSET" replaced |
| TablePagination.PrevUndoesNext | atd-vze/src/Components/TablePaginationControl.js:35-45 | "Prev" right after "Next" comes back to the offset the clicks started from |
| TablePagination.ClicksStayOnPages | atd-vze/src/Components/TablePaginationControl.js:14-46 | after any run of clicks the offset is a non-negative multiple of the page size |
| TablePagination.PagedFillsPlaceholders | atd-vze/src/Components/TablePaginationControl.js:17-19 | when LIMIT comes before OFFSET and nothing earlier could start either, each placeholder is replaced in place by `limit: n` and `offset: m` |
| SideMap.CatalogOperators | atd-vzv/src/views/nav/SideMapControl.js:43-90 | every catalogue filter is a where-condition tagged with its name; travel-mode filters combine with "OR", crash-type filters with "AND" |
| SideMap.WithoutNameSpec | atd-vzv/src/views/nav/SideMapControl.js:97-99 | removing by name drops exactly the filters with that name, keeps the others, and changes nothing when the name is not set |
| SideMap.WithoutNameAppend | atd-vzv/src/views/nav/SideMapControl.js:97-99 | removing by name distributes over concatenation, so the kept filters stay in order |
| SideMap.FilterStore.constructor | atd-vzv/src/views/nav/SideMapControl.js:35-37 | the shared list, read from the store, is taken to start empty (the store is not part of this model) |
| SideMap.FilterStore.HandleAllFiltersClick | atd-vzv/src/views/nav/SideMapControl.js:39-41 | "All" empties the list, and "All" is then shown active |
| SideMap.FilterStore.HandleFilterClick | atd-vzv/src/views/nav/SideMapControl.js:92-108 | a set name is removed, an unset one is appended from the catalogue; a name without an entry raises and leaves the list as it was |
| SideMap.ToggledFlips | atd-vzv/src/views/nav/SideMapControl.js:92-112 | each click flips whether the clicked name is set and leaves every other name as it was |
| SideMap.ClickTwiceRestores | atd-vzv/src/views/nav/SideMapControl.js:96-106 | clicking an unset filter twice gives back the list it started from |
| TimeOfDay.Reversed | atd-vzv/src/views/summary/CrashesByTimeOfDay.js:73 | the reversed list has the same length, with position i holding the element at the mirrored position |
| TimeOfDay.Heatmap.constructor | atd-vzv/src/views/summary/CrashesByTimeOfDay.js:29-76 | mount followed by the first `buildDataArray`: the 24 hour-block keys, the reversed day keys and 24 by 7 cells, all 0 |
| TimeOfDay.Heatmap.BuildDataArray | atd-vzv/src/views/summary/CrashesByTimeOfDay.js:59-76 | a fresh 24 by 7 grid with the hour keys "12AM" to "11PM" in order, the reversed day keys, and every cell 0 |
| TimeOfDay.Heatmap.CalculateHourBlockTotals | atd-vzv/src/views/summary/CrashesByTimeOfDay.js:78-103 | (as written) the grid is rebuilt from zero, then each cell at hour h and position d holds the summed amounts of the records at hour h whose weekday index is d |
| TimeOfDay.DayKeysReversed | atd-vzv/src/views/summary/CrashesByTimeOfDay.js:66-73 | the day key at position c is the weekday 6 - c, and only Wednesday sits at its own weekday index |
| TimeOfDay.SundayShownAsSaturday | atd-vzv/src/views/summary/CrashesByTimeOfDay.js:66-98 | one fatal crash on a Sunday at midnight is counted in the cell keyed "Saturday"; the cell keyed "Sunday" stays 0 |
| TimeOfDay.Heatmap.CalculateHourBlockTotalsByLabel | atd-vzv/src/views/summary/CrashesByTimeOfDay.js:78-103 | (corrected) each record is added at the position whose day key names its weekday |
| TimeOfDay.CellTotalIsLabelTotal | atd-vzv/src/views/summary/CrashesByTimeOfDay.js:80-100 | the total for a weekday index is the total for that weekday's name, since the seven names differ |
| TimeOfDay.ByLabelCellsMatchKeys | atd-vzv/src/views/summary/CrashesByTimeOfDay.js:66-100 | in the corrected grid every cell counts exactly the crashes on the day its key names |
| TimeOfDay.CellTotalAppend | atd-vzv/src/views/summary/CrashesByTimeOfDay.js:80-100 | a record adds its amount to its own cell and to no other |
| TimeOfDay.GridAddsUp | atd-vzv/src/views/summary/CrashesByTimeOfDay.js:86-100 | the 24 by 7 cells add up to the sum of every record's amount (deaths, serious injuries, or both) |
| TimeOfDay.WindowOfPastYear | atd-vzv/src/views/summary/CrashesByTimeOfDay.js:105-114 | tab N (N > 0) asks for January 1 to December 31 of the year N years back, written in at least four digits |
| TimeOfDay.YearsAgoUrlCarriesWindow | atd-vzv/src/views/summary/CrashesByTimeOfDay.js:105-114 | the URL is the endpoint and the crash condition, then the tab's window unchanged and quoted; tab 0 asks for the summary dates |
| Dashboard.RemoveCommas | atd-vze/src/views/VZDashboard/VZDashboard.js:38-40 | not in the source: the inverse of `commaSeparator`'s comma insertion, used to state its round trip; the result holds no comma |
| Dashboard.CommaSeparatorRemoveCommas | atd-vze/src/views/VZDashboard/VZDashboard.js:38-40 | the replace only inserts commas: removing them gives back any comma-free text |
| Dashboard.ShortUnchanged | atd-vze/src/views/VZDashboard/VZDashboard.js:38-40 | a text of at most three characters comes back unchanged |
| Dashboard.DigitBreaks | atd-vze/src/views/VZDashboard/VZDashboard.js:39 | in a digit string the pattern matches at position p exactly when p is inside the text and a multiple of three digits follow |
| Dashboard.SeparatedDigits | atd-vze/src/views/VZDashboard/VZDashboard.js:39 | on a digit string the global replace puts a comma before every complete group of three counted from the right |
| Dashboard.ThreesDropGroup | atd-vze/src/views/VZDashboard/VZDashboard.js:39 | separating a digit string of more than three digits is separating all but its last three, then a comma, then those three |
| Dashboard.GroupsSpec | atd-vze/src/views/VZDashboard/VZDashboard.js:39 | the thousands groups of a digit string: a first group of one to three digits, then groups of three, none empty |
| Dashboard.CommaSeparatorGroups | atd-vze/src/views/VZDashboard/VZDashboard.js:38-40 | the separated digit string is its thousands groups joined by "," |
| Dashboard.CommaSeparatorShape | atd-vze/src/views/VZDashboard/VZDashboard.js:38-40 | split on ",", the output is the thousands groups; removing the commas gives the digits back; no comma leads or trails |
| Dashboard.YearsOfLifeLostShown | atd-vze/src/views/VZDashboard/VZDashboard.js:20-40 | the widget shows the sum of the primary-person and person years of life lost, grouped by thousands; a missing sum counts as 0 |
| SeriousInjuries.DigitPrefixOf | atd-vzv/src/views/dashboard/seriousInjuries.js:22 | parseInt's digit run stops at the first non-digit |
| SeriousInjuries.ParseUnsignedDecimal | atd-vzv/src/views/dashboard/seriousInjuries.js:22 | a decimal numeral followed by a non-digit is read back as its value |
| SeriousInjuries.ParseIntJsReadsNat | atd-vzv/src/views/dashboard/seriousInjuries.js:22 | parseInt reads a written non-negative count, ignoring whatever non-digit text follows |
| SeriousInjuries.ParseIntJsReadsNegative | atd-vzv/src/views/dashboard/seriousInjuries.js:22 | parseInt reads a written negative number |
| SeriousInjuries.ParseIntJsMinus | atd-vzv/src/views/dashboard/seriousInjuries.js:22 | a leading "-" negates what the rest parses to |
| SeriousInjuries.ParseIntJsNaN | atd-vzv/src/views/dashboard/seriousInjuries.js:22 | text that starts, after white space, with neither a digit nor a sign gives NaN |
| SeriousInjuries.InjuryCountReads | atd-vzv/src/views/dashboard/seriousInjuries.js:22 | a record's serious-injury count, given as a number or as its decimal text, is read as that number |
| SeriousInjuries.CalculateTotalInjuries | atd-vzv/src/views/dashboard/seriousInjuries.js:19-25 | the loop's total is the sum of the parsed counts, and it is a number exactly when every record's count parses (otherwise NaN) |
| SeriousInjuries.SumDefined | atd-vzv/src/views/dashboard/seriousInjuries.js:19-25 | the sum is a number exactly when every term is |
| SeriousInjuries.SumAppend | atd-vzv/src/views/dashboard/seriousInjuries.js:19-25 | the total of two batches of records is the sum of their totals |
| SeriousInjuries.SumPermutation | atd-vzv/src/views/dashboard/seriousInjuries.js:19-25 | the total does not depend on the order the records arrive in |
| SeriousInjuries.SumSplice | atd-vzv/src/views/dashboard/seriousInjuries.js:19-25 | a record anywhere in the list adds its count to the total of the others |
| Strings.PadDigits | atd-vzv/src/views/dashboard/seriousInjuries.js:6-11 | moment's "YYYY", "MM" and "DD": the decimal digits of the value, zero-padded to the width |
| Strings.ZeroPad | atd-vzv/src/views/dashboard/seriousInjuries.js:6-11 | leading zeros add length but keep the value |
| SeriousInjuries.InjuryUriCarriesWindow | atd-vzv/src/views/dashboard/seriousInjuries.js:13-14 | both portal queries ask for the rows with a serious injury and end with their window, unchanged and quoted |
| SeriousInjuries.WindowYear | atd-vzv/src/views/dashboard/seriousInjuries.js:6-13 | both ends of the year-to-date window carry the current year; it opens at the first second of January 1 |
| SeriousInjuries.PreviousYearWindowIsYearBack | atd-vzv/src/views/dashboard/seriousInjuries.js:9-14 | the previous-year window is the year-to-date window of the same day one year back |
| Sidebar.QueryParameter.constructor | atd-vzv/src/views/nav/sidebar.js:87-91 | an entry holds its where-clause |
| Sidebar.SideBar.constructor | atd-vzv/src/views/nav/sidebar.js:87-94 | the table holds the pedestrian where-clause and the filter list starts empty |
| Sidebar.SideBar.QueryParameters | atd-vzv/src/views/nav/sidebar.js:87-91 | an id finds an object exactly when it is "pedestrian" |
| Sidebar.SideBar.HandleFilterClick | atd-vzv/src/views/nav/sidebar.js:98-104 | the clicked id's object (or undefined) is appended; every filter set before stays set, and a click on "pedestrian" sets it |
| Sidebar.SideBar.IsFilterSet | atd-vzv/src/views/nav/sidebar.js:106-109 | true exactly when the table has an object for the name and that very object is in the list |
| Sidebar.Occurrences | atd-vzv/src/views/nav/sidebar.js:98-109 | not in the source: how often an object appears in the filter list, used to state `ClicksAccumulate`; the count is its multiplicity |
| Sidebar.ClicksAccumulate | atd-vzv/src/views/nav/sidebar.js:98-104 | clicks only add: occurrences add up over appended clicks and the old list stays a prefix, so a second click duplicates a set filter |
| UserForm.PickSpec | atd-vze/src/views/Users/UserForm.js:92-94 | reducing over distinct fields gives an object with exactly those keys, in that order, each holding the form's value (undefined when absent) |
| UserForm.CleanFormDataForEditSpec | atd-vze/src/views/Users/UserForm.js:84-97 | the edit payload holds name, email and app_metadata, and password and connection exactly when the password is not "" |
| UserForm.MissingPasswordIsSent | atd-vze/src/views/Users/UserForm.js:88-90 | a loaded user without a password field still gets a `password` key holding undefined, and the connection, in the cleaned object |
| UserForm.DefaultEditPayload | atd-vze/src/views/Users/UserForm.js:84-97 | the default form sends only name "", email "" and the read-only role |
| UserForm.TextChangeSetsOneField | atd-vze/src/views/Users/UserForm.js:65-71 | a text change sets the field named by the input's id and leaves every other field and the key order as they were |
| UserForm.RoleChangeSingleRole | atd-vze/src/views/Users/UserForm.js:73-81 | after a role change app_metadata holds exactly the chosen role, which is the one shown checked, and no other field changes |
| UserForm.UserFormState.constructor | atd-vze/src/views/Users/UserForm.js:21-37 | the form starts from the default data, not loaded |
| UserForm.UserFormState.LoadUser | atd-vze/src/views/Users/UserForm.js:49-63 | on edit the fetched user becomes the form and it is marked loaded; otherwise nothing changes |
| UserForm.UserFormState.HandleTextInputChange | atd-vze/src/views/Users/UserForm.js:65-71 | the form with the one field set to the typed text |
| UserForm.UserFormState.HandleRoleRadioInputChange | atd-vze/src/views/Users/UserForm.js:73-81 | the form with app_metadata replaced by a one-role list |
| UserForm.UserFormState.ResetForm | atd-vze/src/views/Users/UserForm.js:128-130 | the form is the default data again |
| UserForm.UserFormState.HandleFormSubmit | atd-vze/src/views/Users/UserForm.js:99-126 | an edit PUTs the cleaned fields to update_user/<id>, an add POSTs the whole form to create_user, any other form type sends nothing |

## Left out

- Lookups keyed by a DOM id (`queryParameters[event.target.id]` in sidebar.js and the
  catalogue lookup in SideMapControl.js) treat every name missing from the literal as
  absent. In JavaScript, names inherited from `Object.prototype`, such as `"constructor"`
  or `"toString"`, would be found. The ids are fixed in the markup, so none of them occurs.
- Network and cloud I/O become parameters or are not modelled:
  - axios, `requests`, `urlopen`;
  - the Hasura calls;
  - boto3 presigning;
  - Apollo's `useQuery`;
  - the `gql` tag that parses the query text.

  The model produces the text or data handed to those calls (the query text, the request
  body and URL, the storage key).
- The crash branch of `record_exists_hook` asks Hasura whether the crash exists. The
  answer is a parameter (`crashesFound`, None when the request failed).
- JWT decoding and verification done by `jose` are not modelled:
  - the signature, `exp`, `aud` and `iss` checks;
  - `get_unverified_header` and `get_unverified_claims`.

  The token's decoded header is a given JSON object of string members (None when it
  cannot be parsed), the claims a given dict, and the key set a given list of JSON
  objects. The token itself is never inspected.
- Cr3Api.Authorize: the fetch of the key set and its `jwks["keys"]` lookup are not
  modelled; the entries arrive as a list. Header and key members that are not strings
  are not modelled.
- `generate_fields` and `generate_fields_with_filters` in atd-etl/app/process/helpers_import.py
  are not modelled. They depend on `csv.DictReader`, on `json.dumps` and on filter
  functions in files that are not part of this model.
- `glob` and `sys.argv` become parameters. `generate_run_config` is a function of the
  argument list and the file list.
- Printing and logging are not modelled.
- GridExport.LeafSpec: "a new column goes last" holds of the model's entry list. A JavaScript
  object lists integer-named keys ("0", "1", ...) first, in ascending order. An array of
  scalars or a string row produces such columns, and for them the object's key order
  (and so the CSV header order) differs from the model's.
- GridExport.FlattenIsLeafFold: the leaves are written in visit order, which is the order of the
  model's columns; JavaScript's key order differs for integer-named columns, as above.
- GridExport.FlattenExtends: "the earlier columns stay in front and in order" has the same
  gap for integer-named columns.
- GridExport.FlattenRow: the accumulator equals `Flatten`, whose entry order is
  insertion order; for integer-named columns JavaScript's key order differs, as above.
- GridExport.FormatExportData: each row is `Flatten` of the input row,
  with the same key-order gap. A `null` or `undefined` row, on which `Object.entries` throws,
  is modelled as adding nothing.
- GridExport.FlattenNothing: a string row is not covered by it; its
  characters become columns, as `GridExport.StringRowSplits` shows.
- All JavaScript and Python numbers are integers in the model (`JsValue.Num`,
  `PyValue.PInt`). Floats are not modelled: for example, `0.0` being falsy, or the text
  of `1.5` in the export's joined values, in `String()` and in `str()`.
- Python's `==` between a bool and an int (`True == 1`) is not modelled. `PBool` and
  `PInt` values never compare equal. This matters for the `unit_nbr` and `unit_id`
  comparisons in `set_person_mode`.
- SideMap.FilterStore.constructor: the store that holds the shared filter list is not part of
  this model; the list is taken to start empty.
- TimeOfDay.Heatmap.constructor: the component's state starts as `[]` and is built by
  the first fetch. The constructor stands for mount followed by `buildDataArray`.
- Clocks are parameters:
  - moment's "today" is a `Date` or a year;
  - `Date.getDay()` and the hour parsed from the crash time are given integers.
- Python's `int()` is modelled for ASCII decimal text with an optional sign and
  surrounding whitespace. Underscores between digits and non-ASCII digits, which Python
  also accepts, are read as not a number.
- JavaScript's `parseInt` is modelled on integers:
  - no floating point;
  - no loss of precision past 2^53;
  - no `Infinity`.

  In the heat map, the crash counts are already-parsed integers.
- `str.lower()` is modelled for ASCII letters only. Unicode case mapping is left out.
- `repr` and `json.dumps` do not escape quotes or control characters in strings.
- Latitude and longitude are kept as the text of their `str()`; float formatting is
  left out.
- `TimeOfDay.Heatmap.CalculateHourBlockTotals` and `TimeOfDay.Heatmap.CalculateHourBlockTotalsByLabel`
  require every record's hour to be within 0..23 and its weekday within 0..6. The
  source would throw a `TypeError` on `dataArray[hour]` for any other hour.
- `TimeOfDay.Window` requires the tab to be no more years back than the current year
  (no year before 0).
- `SeriousInjuries.PreviousYearWindow` requires a year of at least 1. Years are written
  with at least four digits, as moment's "YYYY" writes the years this code sees.
- React rendering, JSX, effects, timers and state batching are not modelled. Each
  handler is one synchronous state transition.
- `getExport` and the CSV download in GridExportData.js are not modelled. The export
  query's result is the input to `GridExport.FormatExportData`.
- The shared catalogue objects of SideMapControl.js are values:
  - `handleFilterClick` writes the button name onto the catalogue object it appends;
  - the model appends a copy that carries the name;
  - since the name written is always the same, nothing observable differs.

  The "All" button is a separate method, not a catalogue entry.
- `GqlAbstract.Builder.SetOrder` requires a non-null `order_by`. The source would throw
  on `null[key]`.
- `GqlAbstract.Builder` column accessors (`IsSortable`, `IsSearchable`, `IsPK`,
  `GetType`, `GetLabel`, `ColumnOf`) require the column to exist. The source throws a
  `TypeError` for an unknown column.
- `SocrataHelpers.CreatePointDatatype`, `SocrataHelpers.SetPersonMode` and
  `SocrataHelpers.FormatPersonData` require that no record raises part-way. The
  per-record functions (`WithPoint`, `PersonMode`, `PersonRecord`) model the raising
  case as None. The list-level effect of a raise after some records were already
  updated is not modelled.
- The in-place Socrata helpers require the records to be distinct objects. A list
  holding the same dict twice is not modelled.
- `format_crash_data` and `format_person_data` receive the record lists directly. The
  `data['data'][...]` lookups before them are not modelled.
- The query text that pagination fills is the caller's; its contents are a parameter.

## Findings

| source | as written | input that shows it | evidently intended | confidence | as-written member | corrected member |
|---|---|---|---|---|---|---|
| atd-vze/src/Components/GridExportData.js:56 | `e.target.id = "csv-checkbox-input"` assigns, so the test is always true | an event from any element other than the two inputs, with `checked` unset: the limit becomes 1 | only the checkbox's own event sets the limit to `totalRecords` or 1; other events leave it alone | not executed; high that `===` was meant, though the two inputs wired to the handler never show the difference | GridExport.ExportLimitOtherEvent | GridExport.ExportLimit |
| atd-vzv/src/views/summary/CrashesByTimeOfDay.js:66-98 | the day cells of each hour row are reversed (position d is keyed `weekdays[6 - d]`), but a crash is added at position `getDay()` | one fatal crash on a Sunday at midnight: it is counted under "Saturday", and "Sunday" shows 0 | each crash counted in the cell keyed by its own weekday | not executed; medium | TimeOfDay.SundayShownAsSaturday | TimeOfDay.ByLabelCellsMatchKeys |
