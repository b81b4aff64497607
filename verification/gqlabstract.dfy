/**
 * The GraphQL query builder of the editor (atd-vze/src/queries/gqlAbstract.js): a
 * mutable configuration (table, column schema, where, order_by, limit, offset) and
 * the text it renders into a fixed two-block template, a row block and an
 * `_aggregate { count }` block.
 */
module GqlAbstract {
  import opened Results
  import opened Strings
  import opened Dicts
  import opened JsValues

  /**
   * One entry of a column schema. An attribute that the schema literal leaves out,
   * or sets to null, is None.
   */
  datatype Column = Column(
    primaryKey: Option<bool>,
    searchable: Option<bool>,
    sortable: Option<bool>,
    labelSearch: Option<string>,
    labelTable: Option<string>,
    valueType: Option<string>,
    default: Option<int>)
  {
    /** `attribute || false`: a missing or false flag reads as false. */
    predicate IsSortable() { sortable == Some(true) }
    predicate IsSearchable() { searchable == Some(true) }
    predicate IsPK() { primaryKey == Some(true) }

    /** `type || "String"`: a missing or empty type reads as "String". */
    function TypeName(): (t: string)
      ensures t != ""
      ensures valueType.Some? && valueType.value != "" ==> t == valueType.value
      ensures valueType.None? || valueType.value == "" ==> t == "String"
    {
      if valueType.Some? && valueType.value != "" then valueType.value else "String"
    }

    /** `this["label_" + context] || null`: only "table" and "search" labels exist; an empty label reads as null. */
    function Label(context: string := "table"): (l: Option<string>)
      ensures l.Some? ==> l.value != ""
      ensures l.Some? ==> (context == "table" && labelTable == l) || (context == "search" && labelSearch == l)
      ensures context != "table" && context != "search" ==> l.None?
      ensures context == "table" && labelTable.Some? && labelTable.value != "" ==> l == labelTable
      ensures context == "search" && labelSearch.Some? && labelSearch.value != "" ==> l == labelSearch
    {
      var attribute := if context == "table" then labelTable else if context == "search" then labelSearch else None;
      if attribute.Some? && attribute.value != "" then attribute else None
    }
  }

  /** The configuration object handed to the builder. `where` and `order_by` may be null (None). */
  datatype Config = Config(
    table: string,
    singleItem: Option<string>,
    columns: Dict<Column>,
    where: Option<Dict<string>>,
    orderBy: Option<Dict<string>>,
    limit: JsValue,
    offset: JsValue)

  /** The column names whose `searchable` attribute is true, in schema order. */
  function SearchableKeys(columns: Dict<Column>): seq<string> {
    if columns == [] then []
    else (if columns[0].value.IsSearchable() then [columns[0].key] else []) + SearchableKeys(columns[1..])
  }

  /** Appending a column extends the searchable list by that column when it is searchable. */
  lemma {:induction false} SearchableKeysAppend(columns: Dict<Column>, e: Entry<Column>)
    ensures SearchableKeys(columns + [e]) == SearchableKeys(columns) + (if e.value.IsSearchable() then [e.key] else [])
  {
    if columns != [] {
      assert (columns + [e])[1..] == columns[1..] + [e];
      SearchableKeysAppend(columns[1..], e);
    }
  }

  /** Only column names are listed, and no more of them than there are columns. */
  lemma {:induction false} SearchableKeysAreKeys(columns: Dict<Column>)
    ensures forall k :: k in SearchableKeys(columns) ==> k in Keys(columns)
    ensures |SearchableKeys(columns)| <= |columns|
  {
    if columns != [] {
      SearchableKeysAreKeys(columns[1..]);
      assert Keys(columns) == [columns[0].key] + Keys(columns[1..]);
    }
  }

  /** With distinct column names, a name is listed exactly when its column is searchable. */
  lemma {:induction false} SearchableKeysExactly(columns: Dict<Column>, i: nat)
    requires UniqueKeys(columns) && i < |columns|
    ensures columns[i].key in SearchableKeys(columns) <==> columns[i].value.IsSearchable()
  {
    var rest := columns[1..];
    if i > 0 {
      assert rest[i - 1] == columns[i];
      assert UniqueKeys(rest);
      SearchableKeysExactly(rest, i - 1);
      assert columns[0].key != columns[i].key;
    } else {
      SearchableKeysAreKeys(rest);
      forall j | 0 <= j < |rest| ensures Keys(rest)[j] != columns[0].key {
        assert rest[j] == columns[j + 1];
      }
    }
  }

  function WhereItems(w: Dict<string>): seq<string> {
    seq(|w|, i requires 0 <= i < |w| => w[i].key + ": {" + w[i].value + "}")
  }

  function OrderItems(o: Dict<string>): seq<string> {
    seq(|o|, i requires 0 <= i < |o| => o[i].key + ": " + o[i].value)
  }

  function LimitPart(c: Config): seq<string> {
    if Truthy(c.limit) then ["limit: " + ToText(c.limit)] else []
  }

  function OffsetPart(c: Config): seq<string> {
    if c.offset != Null then ["offset: " + ToText(c.offset)] else []
  }

  function WherePart(c: Config): seq<string> {
    match c.where
    case None => []
    case Some(w) => ["where: {" + Join(WhereItems(w), ", ") + "}"]
  }

  function OrderPart(c: Config): seq<string> {
    match c.orderBy
    case None => []
    case Some(o) => ["order_by: {" + Join(OrderItems(o), ", ") + "}"]
  }

  /** The parts of a filter block: pagination only for the row block, then where, then order_by. */
  function FilterParts(c: Config, aggregate: bool): seq<string> {
    (if aggregate then [] else LimitPart(c) + OffsetPart(c)) + WherePart(c) + OrderPart(c)
  }

  function FiltersText(c: Config, aggregate: bool): string {
    Join(FilterParts(c, aggregate), ",\n")
  }

  function ColumnsText(c: Config): string {
    Join(Keys(c.columns), "\n")
  }

  /** The column list has one line per column, in schema order, when no column name holds a line break. */
  lemma ColumnsTextLines(c: Config)
    requires c.columns != []
    requires forall i :: 0 <= i < |c.columns| ==> '\n' !in c.columns[i].key
    ensures Split(ColumnsText(c), '\n') == Keys(c.columns)
  {
    SplitJoin(Keys(c.columns), '\n');
  }

  /** The aggregate block never carries pagination: it holds only the where and order_by parts. */
  lemma AggregateFiltersHaveNoPagination(c: Config)
    ensures FilterParts(c, true) == WherePart(c) + OrderPart(c)
    ensures forall p :: p in FilterParts(c, true) ==> OccursAt(p, "where: {", 0) || OccursAt(p, "order_by: {", 0)
  {
    var parts := FilterParts(c, true);
    assert parts == WherePart(c) + OrderPart(c);
    forall p | p in parts ensures OccursAt(p, "where: {", 0) || OccursAt(p, "order_by: {", 0) {
      if p in WherePart(c) {
        assert p[..8] == "where: {";
      } else {
        assert p[..11] == "order_by: {";
      }
    }
  }

  /**
   * In the row block a limit is written only when truthy (0 and null are left out) while
   * an offset is written whenever it is not null (0 is written); the four parts keep the
   * order limit, offset, where, order_by.
   */
  lemma RowFiltersPagination(c: Config)
    ensures FilterParts(c, false) == LimitPart(c) + OffsetPart(c) + WherePart(c) + OrderPart(c)
    ensures c.limit == Num(0) || c.limit == Null ==> LimitPart(c) == []
    ensures c.offset == Num(0) ==> OffsetPart(c) == ["offset: 0"]
    ensures c.limit == Num(25) ==> LimitPart(c) == ["limit: 25"]
  {
    if c.offset == Num(0) {
      assert ToText(c.offset) == "0";
      assert "offset: " + "0" == "offset: 0";
    }
    if c.limit == Num(25) {
      assert NatToString(2) == "2";
      assert ToText(c.limit) == NatToString(2) + [DigitChar(5)] == "25";
      assert "limit: " + "25" == "limit: 25";
    }
  }

  /** An empty (not null) where or order_by map is still written, as an empty pair of braces. */
  lemma EmptyMapsAreWritten(c: Config)
    ensures c.where == Some([]) ==> WherePart(c) == ["where: {}"]
    ensures c.orderBy == Some([]) ==> OrderPart(c) == ["order_by: {}"]
    ensures c.where.None? ==> WherePart(c) == []
    ensures c.orderBy.None? ==> OrderPart(c) == []
  {
    if c.where == Some([]) {
      assert WhereItems(c.where.value) == [];
      assert "where: {" + "" + "}" == "where: {}";
    }
    if c.orderBy == Some([]) {
      assert OrderItems(c.orderBy.value) == [];
      assert "order_by: {" + "" + "}" == "order_by: {}";
    }
  }

  /** The order_by block after `setOrder(k, d)`: an existing key keeps its place, a new key is written last. */
  lemma SetOrderRendering(o: Dict<string>, k: string, d: string)
    requires UniqueKeys(o)
    ensures k !in Keys(o) ==> OrderItems(Set(o, k, d)) == OrderItems(o) + [k + ": " + d]
    ensures k in Keys(o) ==> |OrderItems(Set(o, k, d))| == |o|
    ensures k in Keys(o) ==> forall i :: 0 <= i < |o| ==>
      OrderItems(Set(o, k, d))[i] == (if o[i].key == k then k + ": " + d else OrderItems(o)[i])
  {
    if k in Keys(o) {
      SetExistingKey(o, k, d);
    } else {
      SetNewKey(o, k, d);
      assert OrderItems(o + [Entry(k, d)]) == OrderItems(o) + [k + ": " + d];
    }
  }

  // The five placeholders of the template, spelled as in the source (including "Abastract").
  const TableToken := "gqlAbstractTableName"
  const FiltersToken := "gqlAbstractFilters"
  const ColumnsToken := "gqlAbastractColumns"
  const AggregateNameToken := "gqlAbstractTableAggregateName"
  const AggregateFiltersToken := "gqlAbstractAggregateFilters"

  // The constant text between the slots of the template.
  const Open := "{\n"
  const Paren := " (\n    "
  const Body := "\n) {\n    "
  const Close := "\n},\n"
  const AggregateTail := "\n) {\n    aggregate {\n      count\n    }\n  }\n}"

  /**
   * The shape of the document: a row block `table (filters) { columns }` and an aggregate
   * block `aggregateTable (filters) { aggregate { count } }`, with five slots.
   */
  function Doc(table: string, filters: string, columns: string, aggregateTable: string, aggregateFilters: string): string {
    Open + (table + (Paren + (filters + (Body + (columns + (Close + (aggregateTable + (Paren + (aggregateFilters + AggregateTail)))))))))
  }

  /** The fixed query template: the document shape with a placeholder in every slot. */
  const Template := Doc(TableToken, FiltersToken, ColumnsToken, AggregateNameToken, AggregateFiltersToken)

  /** The first two replacements of the source: the table name and the aggregate table name. */
  function NamesFilled(table: string): string {
    JsReplace(JsReplace(Template, TableToken, table), AggregateNameToken, table + "_aggregate")
  }

  /** The template with its placeholders replaced as the source does it: one first-occurrence replacement each, in this order. */
  function Fill(table: string, rowFilters: string, aggregateFilters: string, columns: string): string {
    var q3 := JsReplace(NamesFilled(table), FiltersToken, rowFilters);
    var q4 := JsReplace(q3, AggregateFiltersToken, aggregateFilters);
    JsReplace(q4, ColumnsToken, columns)
  }

  /** The query text of a configuration. */
  function QueryOf(c: Config): string {
    Fill(c.table, FiltersText(c, false), FiltersText(c, true), ColumnsText(c))
  }

  /** The intended document: row filters and columns for the table, aggregate filters for `<table>_aggregate`. */
  function Rendered(c: Config): string {
    Doc(c.table, FiltersText(c, false), ColumnsText(c), c.table + "_aggregate", FiltersText(c, true))
  }

  /** A text that can be spliced in by `replace`: no replacement pattern and no placeholder. */
  predicate Substitutable(t: string) {
    && '$' !in t
    && !Contains(t, TableToken) && !Contains(t, FiltersToken) && !Contains(t, ColumnsToken)
    && !Contains(t, AggregateNameToken) && !Contains(t, AggregateFiltersToken)
  }

  predicate Substitutable4(c: Config) {
    Substitutable(c.table) && Substitutable(FiltersText(c, false))
    && Substitutable(FiltersText(c, true)) && Substitutable(ColumnsText(c))
  }

  /** Every placeholder holds the letter 'A', so a text without an 'A' and a '$' is substitutable. */
  lemma SubstitutableWithoutCapitalA(t: string)
    requires 'A' !in t && '$' !in t
    ensures Substitutable(t)
  {
    forall tok | tok in [TableToken, FiltersToken, ColumnsToken, AggregateNameToken, AggregateFiltersToken]
      ensures !Contains(t, tok)
    {
      assert tok[3] == 'A';
      forall i: nat | i <= |t| ensures !OccursAt(t, tok, i) {
        if i + |tok| <= |t| {
          assert t[i..i + |tok|][3] == t[i + 3];
        }
      }
    }
  }

  lemma NoStraddle(u: string, v: string, tok: string)
    requires !Contains(u, tok) && !Contains(v, tok)
    requires (u != [] && u[|u| - 1] !in tok) || (v != [] && v[0] !in tok)
    ensures !Contains(u + v, tok)
  {
    var s := u + v;
    forall i: nat | i <= |s| ensures !OccursAt(s, tok, i) {
      if i + |tok| > |s| {
      } else if i + |tok| <= |u| {
        assert !OccursAt(u, tok, i);
        assert s[i..i + |tok|] == u[i..i + |tok|];
      } else if i >= |u| {
        assert !OccursAt(v, tok, i - |u|);
        assert s[i..i + |tok|] == v[i - |u|..i - |u| + |tok|];
      } else if u != [] && u[|u| - 1] !in tok {
        assert s[i..i + |tok|][|u| - 1 - i] == u[|u| - 1];
        assert tok[|u| - 1 - i] in tok;
      } else {
        assert s[i..i + |tok|][|u| - i] == v[0];
        assert tok[|u| - i] in tok;
      }
    }
  }

  /** Replacing the first occurrence when everything before `tok` is free of it and cannot start it. */
  lemma ReplaceFirst(a: string, tok: string, b: string, rep: string)
    requires !Contains(a, tok)
    requires a == [] || a[|a| - 1] !in tok
    requires '$' !in rep
    ensures JsReplace(a + tok + b, tok, rep) == a + rep + b
  {
    var s := a + tok + b;
    forall j: nat | j < |a| ensures !OccursAt(s, tok, j) {
      if j + |tok| <= |a| {
        assert !OccursAt(a, tok, j);
        assert s[j..j + |tok|] == a[j..j + |tok|];
      } else {
        assert s[j..j + |tok|][|a| - 1 - j] == a[|a| - 1];
        assert tok[|a| - 1 - j] in tok;
      }
    }
    JsReplaceAt(a, tok, b, rep);
  }

  /** A word that none of the constant pieces of the template can contain or start. */
  predicate Placeholder(tok: string) {
    |tok| > 10 && ' ' !in tok && '\n' !in tok && '_' !in tok
  }

  /** The text before each slot is free of a placeholder when the slots before it are. */
  lemma PrefixesFree(p1: string, p2: string, p3: string, p4: string, tok: string)
    requires Placeholder(tok)
    ensures !Contains(Open, tok)
    ensures !Contains(p1, tok) ==> !Contains(Open + p1 + Paren, tok)
    ensures !Contains(p1, tok) && !Contains(p2, tok) ==> !Contains(Open + p1 + Paren + p2 + Body, tok)
    ensures !Contains(p1, tok) && !Contains(p2, tok) && !Contains(p3, tok)
      ==> !Contains(Open + p1 + Paren + p2 + Body + p3 + Close, tok)
    ensures !Contains(p1, tok) && !Contains(p2, tok) && !Contains(p3, tok) && !Contains(p4, tok)
      ==> !Contains(Open + p1 + Paren + p2 + Body + p3 + Close + p4 + Paren, tok)
  {
    assert Open[1] == '\n' && Paren[0] == ' ' && Paren[5] == ' ' && Body[0] == '\n' && Body[8] == ' ';
    assert Close[0] == '\n' && Close[3] == '\n';
    if !Contains(p1, tok) {
      NoStraddle(Open, p1, tok);
      NoStraddle(Open + p1, Paren, tok);
      if !Contains(p2, tok) {
        NoStraddle(Open + p1 + Paren, p2, tok);
        NoStraddle(Open + p1 + Paren + p2, Body, tok);
        if !Contains(p3, tok) {
          NoStraddle(Open + p1 + Paren + p2 + Body, p3, tok);
          NoStraddle(Open + p1 + Paren + p2 + Body + p3, Close, tok);
          if !Contains(p4, tok) {
            NoStraddle(Open + p1 + Paren + p2 + Body + p3 + Close, p4, tok);
            NoStraddle(Open + p1 + Paren + p2 + Body + p3 + Close + p4, Paren, tok);
          }
        }
      }
    }
  }

  // The document regrouped around each of its slots.

  lemma DocAtTableSlot(x: string, p2: string, p3: string, p4: string, p5: string)
    ensures Doc(x, p2, p3, p4, p5) == Open + x + (Paren + (p2 + (Body + (p3 + (Close + (p4 + (Paren + (p5 + AggregateTail))))))))
  {
  }

  lemma DocAtFiltersSlot(p1: string, x: string, p3: string, p4: string, p5: string)
    ensures Doc(p1, x, p3, p4, p5) == (Open + p1 + Paren) + x + (Body + (p3 + (Close + (p4 + (Paren + (p5 + AggregateTail))))))
  {
  }

  lemma DocAtColumnsSlot(p1: string, p2: string, x: string, p4: string, p5: string)
    ensures Doc(p1, p2, x, p4, p5) == (Open + p1 + Paren + p2 + Body) + x + (Close + (p4 + (Paren + (p5 + AggregateTail))))
  {
  }

  lemma DocAtAggregateNameSlot(p1: string, p2: string, p3: string, x: string, p5: string)
    ensures Doc(p1, p2, p3, x, p5) == (Open + p1 + Paren + p2 + Body + p3 + Close) + x + (Paren + (p5 + AggregateTail))
  {
    var r7 := x + (Paren + (p5 + AggregateTail));
    var r6 := Close + r7;
    var r5 := p3 + r6;
    var r4 := Body + r5;
    var r3 := p2 + r4;
    var r2 := Paren + r3;
    var r1 := p1 + r2;
    var l1 := Open + p1;
    Regroup(Open, p1, r2);
    var l2 := l1 + Paren;
    Regroup(l1, Paren, r3);
    var l3 := l2 + p2;
    Regroup(l2, p2, r4);
    var l4 := l3 + Body;
    Regroup(l3, Body, r5);
    var l5 := l4 + p3;
    Regroup(l4, p3, r6);
    var l6 := l5 + Close;
    Regroup(l5, Close, r7);
    Regroup(l6, x, Paren + (p5 + AggregateTail));
  }

  lemma DocAtAggregateFiltersSlot(p1: string, p2: string, p3: string, p4: string, x: string)
    ensures Doc(p1, p2, p3, p4, x) == (Open + p1 + Paren + p2 + Body + p3 + Close + p4 + Paren) + x + AggregateTail
  {
    var r8 := Paren + (x + AggregateTail);
    var r7 := p4 + r8;
    var r6 := Close + r7;
    var r5 := p3 + r6;
    var r4 := Body + r5;
    var r3 := p2 + r4;
    var r2 := Paren + r3;
    var l1 := Open + p1;
    Regroup(Open, p1, r2);
    var l2 := l1 + Paren;
    Regroup(l1, Paren, r3);
    var l3 := l2 + p2;
    Regroup(l2, p2, r4);
    var l4 := l3 + Body;
    Regroup(l3, Body, r5);
    var l5 := l4 + p3;
    Regroup(l4, p3, r6);
    var l6 := l5 + Close;
    Regroup(l5, Close, r7);
    var l7 := l6 + p4;
    Regroup(l6, p4, r8);
    var l8 := l7 + Paren;
    Regroup(l7, Paren, x + AggregateTail);
    Regroup(l8, x, AggregateTail);
  }

  /** Concatenation regrouped one step to the left. */
  lemma Regroup(a: string, b: string, c: string)
    ensures a + (b + c) == (a + b) + c
  {
  }

  lemma ReplaceTableSlot(p2: string, p3: string, p4: string, p5: string, rep: string)
    requires '$' !in rep
    ensures JsReplace(Doc(TableToken, p2, p3, p4, p5), TableToken, rep) == Doc(rep, p2, p3, p4, p5)
  {
    DocAtTableSlot(TableToken, p2, p3, p4, p5);
    DocAtTableSlot(rep, p2, p3, p4, p5);
    PrefixesFree("", "", "", "", TableToken);
    ReplaceFirst(Open, TableToken, Paren + (p2 + (Body + (p3 + (Close + (p4 + (Paren + (p5 + AggregateTail))))))), rep);
  }

  lemma ReplaceFiltersSlot(p1: string, p3: string, p4: string, p5: string, rep: string)
    requires !Contains(p1, FiltersToken) && '$' !in rep
    ensures JsReplace(Doc(p1, FiltersToken, p3, p4, p5), FiltersToken, rep) == Doc(p1, rep, p3, p4, p5)
  {
    DocAtFiltersSlot(p1, FiltersToken, p3, p4, p5);
    DocAtFiltersSlot(p1, rep, p3, p4, p5);
    PrefixesFree(p1, "", "", "", FiltersToken);
    ReplaceFirst(Open + p1 + Paren, FiltersToken, Body + (p3 + (Close + (p4 + (Paren + (p5 + AggregateTail))))), rep);
  }

  lemma ReplaceColumnsSlot(p1: string, p2: string, p4: string, p5: string, rep: string)
    requires !Contains(p1, ColumnsToken) && !Contains(p2, ColumnsToken) && '$' !in rep
    ensures JsReplace(Doc(p1, p2, ColumnsToken, p4, p5), ColumnsToken, rep) == Doc(p1, p2, rep, p4, p5)
  {
    DocAtColumnsSlot(p1, p2, ColumnsToken, p4, p5);
    DocAtColumnsSlot(p1, p2, rep, p4, p5);
    PrefixesFree(p1, p2, "", "", ColumnsToken);
    ReplaceFirst(Open + p1 + Paren + p2 + Body, ColumnsToken, Close + (p4 + (Paren + (p5 + AggregateTail))), rep);
  }

  lemma ReplaceAggregateNameSlot(p1: string, p2: string, p3: string, p5: string, rep: string)
    requires !Contains(p1, AggregateNameToken) && !Contains(p2, AggregateNameToken)
    requires !Contains(p3, AggregateNameToken) && '$' !in rep
    ensures JsReplace(Doc(p1, p2, p3, AggregateNameToken, p5), AggregateNameToken, rep) == Doc(p1, p2, p3, rep, p5)
  {
    DocAtAggregateNameSlot(p1, p2, p3, AggregateNameToken, p5);
    DocAtAggregateNameSlot(p1, p2, p3, rep, p5);
    PrefixesFree(p1, p2, p3, "", AggregateNameToken);
    ReplaceFirst(Open + p1 + Paren + p2 + Body + p3 + Close, AggregateNameToken, Paren + (p5 + AggregateTail), rep);
  }

  lemma ReplaceAggregateFiltersSlot(p1: string, p2: string, p3: string, p4: string, rep: string)
    requires !Contains(p1, AggregateFiltersToken) && !Contains(p2, AggregateFiltersToken)
    requires !Contains(p3, AggregateFiltersToken) && !Contains(p4, AggregateFiltersToken) && '$' !in rep
    ensures JsReplace(Doc(p1, p2, p3, p4, AggregateFiltersToken), AggregateFiltersToken, rep) == Doc(p1, p2, p3, p4, rep)
  {
    DocAtAggregateFiltersSlot(p1, p2, p3, p4, AggregateFiltersToken);
    DocAtAggregateFiltersSlot(p1, p2, p3, p4, rep);
    PrefixesFree(p1, p2, p3, p4, AggregateFiltersToken);
    ReplaceFirst(Open + p1 + Paren + p2 + Body + p3 + Close + p4 + Paren, AggregateFiltersToken, AggregateTail, rep);
  }

  lemma NamesFilledIsDoc(t: string)
    requires Substitutable(t)
    ensures NamesFilled(t) == Doc(t, FiltersToken, ColumnsToken, t + "_aggregate", AggregateFiltersToken)
  {
    ReplaceTableSlot(FiltersToken, ColumnsToken, AggregateNameToken, AggregateFiltersToken, t);
    TooShort(FiltersToken, AggregateNameToken);
    TooShort(ColumnsToken, AggregateNameToken);
    ReplaceAggregateNameSlot(t, FiltersToken, ColumnsToken, AggregateFiltersToken, t + "_aggregate");
  }

  /**
   * When none of the substituted texts holds a placeholder or a '$', the five replacements
   * fill exactly the five slots of the document.
   */
  lemma FillIsDoc(t: string, rf: string, af: string, ct: string)
    requires Substitutable(t) && Substitutable(rf) && Substitutable(af) && Substitutable(ct)
    ensures Fill(t, rf, af, ct) == Doc(t, rf, ct, t + "_aggregate", af)
  {
    var agg := t + "_aggregate";
    NamesFilledIsDoc(t);
    ReplaceFiltersSlot(t, ColumnsToken, agg, AggregateFiltersToken, rf);
    var q3 := JsReplace(NamesFilled(t), FiltersToken, rf);
    assert JsReplace(q3, AggregateFiltersToken, af) == Doc(t, rf, ColumnsToken, agg, af) by {
      TooShort(ColumnsToken, AggregateFiltersToken);
      TooShort("_aggregate", AggregateFiltersToken);
      NoStraddle(t, "_aggregate", AggregateFiltersToken);
      ReplaceAggregateFiltersSlot(t, rf, ColumnsToken, agg, af);
    }
    ReplaceColumnsSlot(t, rf, agg, af, ct);
  }

  /**
   * When the table name, both filter blocks and the column list are substitutable, the query
   * is the intended document: the row filters and the column list under the table name, the
   * aggregate filters under `<table>_aggregate`.
   */
  lemma QueryIsRendered(c: Config)
    requires Substitutable4(c)
    ensures QueryOf(c) == Rendered(c)
  {
    FillIsDoc(c.table, FiltersText(c, false), FiltersText(c, true), ColumnsText(c));
  }

  lemma TooShort(s: string, tok: string)
    requires |s| < |tok|
    ensures !Contains(s, tok)
  {
  }

  /** The builder: a configuration object that the view's event handlers change in place. */
  class Builder {
    var config: Config

    constructor (initConfig: Config)
      ensures config == initConfig
    {
      config := initConfig;
    }

    method SetTable(val: string)
      modifies this
      ensures config == old(config).(table := val)
    {
      config := config.(table := val);
    }

    method SetLimit(limit: JsValue)
      modifies this
      ensures config == old(config).(limit := limit)
    {
      config := config.(limit := limit);
    }

    method SetOffset(offset: JsValue)
      modifies this
      ensures config == old(config).(offset := offset)
    {
      config := config.(offset := offset);
    }

    /** Resets the where condition to null. */
    method CleanWhere()
      modifies this
      ensures config == old(config).(where := None)
    {
      config := config.(where := None);
    }

    /** Replaces any earlier where condition by the single pair `{key: syntax}`. */
    method SetWhere(key: string, syntax: string)
      modifies this
      ensures config == old(config).(where := Some([Entry(key, syntax)]))
    {
      config := config.(where := Some([Entry(key, syntax)]));
    }

    /** `order_by[key] = syntax`; order_by must not be null (the source dereferences it). */
    method SetOrder(key: string, syntax: string)
      requires config.orderBy.Some?
      modifies this
      ensures config == old(config).(orderBy := Some(Set(old(config).orderBy.value, key, syntax)))
    {
      config := config.(orderBy := Some(Set(config.orderBy.value, key, syntax)));
    }

    predicate HasColumn(columnName: string)
      reads this
    {
      columnName in Keys(config.columns)
    }

    function ColumnOf(columnName: string): (col: Column)
      reads this
      requires HasColumn(columnName)
      ensures Entry(columnName, col) in config.columns
    {
      GetSpec(config.columns, columnName);
      var r := Get(config.columns, columnName);
      var i :| 0 <= i < |config.columns| && config.columns[i] == Entry(columnName, r.value);
      r.value
    }

    function IsSortable(columnName: string): bool
      reads this
      requires HasColumn(columnName)
    {
      ColumnOf(columnName).IsSortable()
    }

    function IsSearchable(columnName: string): bool
      reads this
      requires HasColumn(columnName)
    {
      ColumnOf(columnName).IsSearchable()
    }

    function IsPK(columnName: string): bool
      reads this
      requires HasColumn(columnName)
    {
      ColumnOf(columnName).IsPK()
    }

    function GetType(columnName: string): string
      reads this
      requires HasColumn(columnName)
    {
      ColumnOf(columnName).TypeName()
    }

    function GetLabel(columnName: string, context: string := "table"): Option<string>
      reads this
      requires HasColumn(columnName)
    {
      ColumnOf(columnName).Label(context)
    }

    /** `single_item || null`. */
    function SingleItem(): (s: Option<string>)
      reads this
      ensures s.Some? ==> s.value != "" && config.singleItem == s
      ensures config.singleItem.Some? && config.singleItem.value != "" ==> s.Some?
    {
      if config.singleItem.Some? && config.singleItem.value != "" then config.singleItem else None
    }

    /** The searchable column names, gathered in schema order. */
    method SearchableFields() returns (fields: seq<string>)
      ensures fields == SearchableKeys(config.columns)
    {
      var columns := config.columns;
      fields := [];
      var i := 0;
      while i < |columns|
        invariant 0 <= i <= |columns|
        invariant fields == SearchableKeys(columns[..i])
      {
        assert columns[..i + 1] == columns[..i] + [columns[i]];
        SearchableKeysAppend(columns[..i], columns[i]);
        if columns[i].value.IsSearchable() {
          fields := fields + [columns[i].key];
        }
        i := i + 1;
      }
      assert columns[..i] == columns;
    }

    /** Every column name, in schema order. */
    method Columns() returns (names: seq<string>)
      ensures names == Keys(config.columns)
    {
      var columns := config.columns;
      names := [];
      var i := 0;
      while i < |columns|
        invariant 0 <= i <= |columns|
        invariant names == Keys(columns[..i])
      {
        names := names + [columns[i].key];
        i := i + 1;
      }
      assert columns[..i] == columns;
    }

    /** The filter block: `limit`/`offset` only when `aggregate` is false, then where, then order_by. */
    method GenerateFilters(aggregate: bool := false) returns (text: string)
      ensures text == FiltersText(config, aggregate)
    {
      var output: seq<string> := [];
      if !aggregate {
        if Truthy(config.limit) {
          output := output + ["limit: " + ToText(config.limit)];
        }
        if config.offset != Null {
          output := output + ["offset: " + ToText(config.offset)];
        }
      }
      assert output == (if aggregate then [] else LimitPart(config) + OffsetPart(config));
      if config.where.Some? {
        var entries := config.where.value;
        var where: seq<string> := [];
        var i := 0;
        while i < |entries|
          invariant 0 <= i <= |entries|
          invariant where == WhereItems(entries[..i])
        {
          where := where + [entries[i].key + ": {" + entries[i].value + "}"];
          i := i + 1;
        }
        assert entries[..i] == entries;
        output := output + ["where: {" + Join(where, ", ") + "}"];
      }
      assert output == (if aggregate then [] else LimitPart(config) + OffsetPart(config)) + WherePart(config);
      if config.orderBy.Some? {
        var entries := config.orderBy.value;
        var orderBy: seq<string> := [];
        var i := 0;
        while i < |entries|
          invariant 0 <= i <= |entries|
          invariant orderBy == OrderItems(entries[..i])
        {
          orderBy := orderBy + [entries[i].key + ": " + entries[i].value];
          i := i + 1;
        }
        assert entries[..i] == entries;
        output := output + ["order_by: {" + Join(orderBy, ", ") + "}"];
      }
      assert output == FilterParts(config, aggregate);
      text := Join(output, ",\n");
    }

    /** The column names, one per line, each written verbatim (relational sub-selections included). */
    method GenerateColumns() returns (text: string)
      ensures text == ColumnsText(config)
    {
      var output := Columns();
      text := Join(output, "\n");
    }

    /** The query document; it only reads the configuration. */
    method Query() returns (q: string)
      ensures q == QueryOf(config)
    {
      q := Template;
      q := JsReplace(q, TableToken, config.table);
      q := JsReplace(q, AggregateNameToken, config.table + "_aggregate");
      var rowFilters := GenerateFilters();
      q := JsReplace(q, FiltersToken, rowFilters);
      var aggregateFilters := GenerateFilters(true);
      q := JsReplace(q, AggregateFiltersToken, aggregateFilters);
      var columns := GenerateColumns();
      q := JsReplace(q, ColumnsToken, columns);
    }
  }
}
